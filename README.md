# BaseStrategy: a verified model of a trading strategy's state

`BaseStrategy` (in `Stock.Common/Strategy/BaseStrategy.cs`) is the base class that
every trading strategy of the Stock Trader system extends. It keeps three pieces of
state, and this project models each one and proves its properties in Dafny:

- **The stock pool**: the list of instrument codes the strategy watches, used as a set.
  `AddStock` appends a code only when it is absent. `RemoveStock` drops the first
  occurrence of a code. Both raise an observer notification (`OnStockAdd`,
  `OnStockRemove`) before the pool changes, whether or not the code was a member.
- **The bids view**: the `Bids` getter. On first access it builds a map from the
  global market-data registry (`StockMarketManager.bidCache`), restricted to the
  codes in the pool. After that it returns the same map and never rebuilds it.
- **The entrustment table**: the orders placed and not yet cancelled, keyed by the
  entrust number that the trading backend assigns, each stamped with the time it was
  recorded. `BuyStock` and `SellStock` add to it. `CancelStock` removes from it, but
  only after the backend's cancel call returns. `Run` is the periodic reconciliation
  pass. It asks the backend to cancel every tracked order, with no age check (see
  "## Findings" for why the loop as written stops after the first removal).

Layout, one module per component:

| file | module | contents |
|---|---|---|
| `strategy_types.dfy` | `StrategyTypes` | codes, entrust numbers, the `EntrustInfo` record, the exceptions as a `Failure` datatype |
| `pool.dfy` | `Pool` | the pool updates as functions on `seq<Code>`, with their lemmas |
| `market_view.dfy` | `MarketView` | the view as a function, the loop that builds it, and lemmas |
| `entrust_table.dfy` | `EntrustTable` | tracking and untracking as functions on the table, with their lemmas |
| `trader.dfy` | `Trader` | the trading backend as an oracle object that logs its requests |
| `base_strategy.dfy` | `Strategy` | class `BaseStrategy` with the fields the source mutates, its methods, the reconciliation pass and its specification |

The class keeps the source's form. It has `stockPool: seq<Code>`, the lazily filled
`bids: Option<map<…>>`, `entrustNos: map<EntrustNo, EntrustInfo>`, and an event trace
`events`. Each method names in `modifies` exactly the fields it changes. Its
`ensures` give the new state as a function of the old one, and those functions carry
the proved properties. `Valid()` is the object invariant, and every method keeps it:
the pool has no duplicates, and every record is filed under its own entrust number.

The trading backend (`StockTraderManager.Instance.GetStockTrader()`) is not part of
this model. It is the object `Trader.StockTrader`. Its constant `answer(n, request)`
gives the reply to the n-th request it receives: an entrust number, or an exception.
It also keeps a log of every request. The clock (`DateTime.Now`) becomes a `now`
parameter. The configured cancel span becomes a `span: Option<int>` parameter, where
`None` stands for a value that `int.Parse` rejects. The market-data registry becomes
a map parameter, and its `BidCacheQueue` stays an opaque type. Observer delivery
becomes the `events` trace. Each event records the pool as an observer would see it,
which is the pool before the change.

Three facts about the code shape the model:

- The comment at `Stock.Common/Strategy/BaseStrategy.cs:81` says that `Run` cancels
  the orders not filled within the configured time, but the code at lines 83-88 parses
  the configured span into `span` and never reads it, and never reads `now` either.
  Every tracked order is cancelled, whatever its age; the model follows the code.
- The `Bids` view is never invalidated. Codes added to or removed from the pool after
  the first access are not reflected.
- A cancel that the backend refuses throws out of `CancelStock` before the entry is
  removed, so the order stays tracked. A refused cancel inside `Run` also ends the
  pass: nothing catches one order's failure.

## Model

| member | source | states |
|---|---|---|
| `Pool.Added` | Stock.Common/Strategy/BaseStrategy.cs:99-106 | after `AddStock(c)` the members are the old members plus `c`; a pool that already has `c` is unchanged; otherwise `c` is appended after the old pool |
| `Pool.RemoveFirst` | Stock.Common/Strategy/BaseStrategy.cs:108-114 | `RemoveStock(c)` shortens the pool by one when `c` was present; an absent code leaves the pool unchanged |
| `Pool.RemoveFirstCount` | Stock.Common/Strategy/BaseStrategy.cs:113 | removing a present `c` takes away exactly one occurrence of it: the result plus one `c` has the same multiset of codes as the pool |
| `Pool.RemoveFirstAt` | Stock.Common/Strategy/BaseStrategy.cs:113 | the occurrence removed is the first one: the codes before it and after it keep their order |
| `Pool.RemoveFirstMembers` | Stock.Common/Strategy/BaseStrategy.cs:113 | removing `c` does not change whether any other code is a member |
| `Pool.AddedKeepsDistinct` | Stock.Common/Strategy/BaseStrategy.cs:104-105 | adding keeps a duplicate-free pool duplicate-free, and adding `c` twice gives the same pool as adding it once |
| `Pool.RemoveFirstKeepsDistinct` | Stock.Common/Strategy/BaseStrategy.cs:113 | removing keeps a duplicate-free pool duplicate-free, and afterwards `c` is not in it |
| `Pool.RemoveAfterAdd` | Stock.Common/Strategy/BaseStrategy.cs:99-114 | adding an absent code and then removing it gives back the original pool |
| `MarketView.View` | Stock.Common/Strategy/BaseStrategy.cs:173-178 | the view holds a code exactly when it is both a registry key and a pool member, and maps it to the registry's queue; pool codes the registry lacks are left out without an error |
| `MarketView.BuildView` | Stock.Common/Strategy/BaseStrategy.cs:171-178 | the `foreach` over the registry keys builds exactly `View(registry, pool)`, and its `Dictionary.Add` never meets a key twice |
| `MarketView.ViewAfterAdd` | Stock.Common/Strategy/BaseStrategy.cs:169-180 | a view rebuilt after `AddStock(c)` would also hold `c`'s queue; the cached one does not (see `Strategy.StaleBidsExample`) |
| `MarketView.ViewAfterRemove` | Stock.Common/Strategy/BaseStrategy.cs:169-180 | a view rebuilt after `RemoveStock(c)` would be the old view without `c` |
| `EntrustTable.Tracked` | Stock.Common/Strategy/BaseStrategy.cs:56-60 | `AddEntrustNo(no)` adds the record `{no, now}` and keeps every other entry; if `no` is already tracked, `Dictionary.Add` throws and the table is unchanged |
| `EntrustTable.Untracked` | Stock.Common/Strategy/BaseStrategy.cs:62-65 | `RemoveEntrustNo(no)` removes that key and keeps every other entry; an untracked number is a no-op |
| `EntrustTable.TrackedKeepsWellKeyed` | Stock.Common/Strategy/BaseStrategy.cs:56-60 | tracking keeps every record filed under its own entrust number |
| `EntrustTable.UntrackedKeepsWellKeyed` | Stock.Common/Strategy/BaseStrategy.cs:62-65 | untracking keeps every record filed under its own entrust number |
| `EntrustTable.UntrackAfterTrack` | Stock.Common/Strategy/BaseStrategy.cs:56-65 | tracking a new number and then untracking it gives back the original table |
| `EntrustTable.UntrackIdempotent` | Stock.Common/Strategy/BaseStrategy.cs:62-65 | untracking twice is the same as untracking once |
| `Trader.StockTrader.Submit` | Stock.Common/Strategy/BaseStrategy.cs:186 | every backend call is logged in order, and its reply is the oracle's answer to that request at that position |
| `Strategy.OrderOutcome` | Stock.Common/Strategy/BaseStrategy.cs:193-207 | a buy or sell returns the backend's entrust number exactly when the backend accepts and that number is not yet tracked, and then only that key is added, stamped `now`; a backend exception or a duplicate number returns the error and leaves the table unchanged |
| `Strategy.CancelEachStep` | Stock.Common/Strategy/BaseStrategy.cs:85-87 | while every cancel so far was accepted, one more visited number is untracked when the backend accepts its cancel; when the backend refuses, the pass fails with that exception and the table is unchanged |
| `Strategy.CancelEachShrinks` | Stock.Common/Strategy/BaseStrategy.cs:85-87 | a reconciliation pass only removes entries: every entry left is an original entry with the same record, so the table never grows |
| `Strategy.CancelEachPasses` | Stock.Common/Strategy/BaseStrategy.cs:85-87 | a pass ends normally exactly when the backend accepts every cancel, in both directions |
| `Strategy.CancelEachAccepted` | Stock.Common/Strategy/BaseStrategy.cs:85-87 | a pass that ends normally has untracked exactly the visited numbers, and every other entry is kept |
| `Strategy.RunAllAccepted` | Stock.Common/Strategy/BaseStrategy.cs:79-89 | a pass that visits every tracked number, with every cancel accepted, ends normally with an empty table |
| `Strategy.BaseStrategy.constructor` | Stock.Common/Strategy/BaseStrategy.cs:151-155 | a new strategy has an empty pool, no view, no tracked orders and no notifications, and it keeps the invariant |
| `Strategy.BaseStrategy.AddStock` | Stock.Common/Strategy/BaseStrategy.cs:99-106 | records exactly one `OnStockAdd` notification, which sees the pool before the change, whatever the code's membership; the pool becomes `Added(old pool, c)`; the cached view is untouched |
| `Strategy.BaseStrategy.RemoveStock` | Stock.Common/Strategy/BaseStrategy.cs:108-114 | records exactly one `OnStockRemove` notification, which sees the pool before the change, even for an absent code; the pool becomes `RemoveFirst(old pool, c)` and no longer holds `c`; the cached view is untouched |
| `Strategy.BaseStrategy.StockPool` | Stock.Common/Strategy/BaseStrategy.cs:140-146 | returns a new array holding the pool's codes in order |
| `Strategy.BaseStrategy.Bids` | Stock.Common/Strategy/BaseStrategy.cs:165-182 | the first access returns and caches `View(registry, pool)`; every later access returns the cached map unchanged, whatever the pool or registry now hold |
| `Strategy.BaseStrategy.AddEntrustNo` | Stock.Common/Strategy/BaseStrategy.cs:56-60 | the table becomes `Tracked(old table, no, now)`, or the call fails with `DuplicateEntrust` and the table is unchanged |
| `Strategy.BaseStrategy.RemoveEntrustNo` | Stock.Common/Strategy/BaseStrategy.cs:62-65 | the table becomes `Untracked(old table, no)` |
| `Strategy.BaseStrategy.BuyStock` | Stock.Common/Strategy/BaseStrategy.cs:201-207 | sends exactly one `Buy` request; the result and the new table are `OrderOutcome` of the backend's reply |
| `Strategy.BaseStrategy.SellStock` | Stock.Common/Strategy/BaseStrategy.cs:193-199 | sends exactly one `Sell` request; the result and the new table are `OrderOutcome` of the backend's reply |
| `Strategy.BaseStrategy.CancelStock` | Stock.Common/Strategy/BaseStrategy.cs:209-215 | sends exactly one `Cancel` request; when the backend returns, its result is returned and `no` is untracked (no-op if absent, other entries unchanged); when it throws, the exception is returned and the table is unchanged |
| `Strategy.BaseStrategy.Keep` | Stock.Common/Strategy/BaseStrategy.cs:222-226 | sends exactly one keep-session request and touches no strategy state |
| `Strategy.BaseStrategy.Run` | Stock.Common/Strategy/BaseStrategy.cs:79-89 | an unparsable span throws before anything is cancelled; otherwise the pass sends only `Cancel` requests, one per visited number, each number visited at most once and tracked at the start; the result and table are `CancelEach` of the replies; `now` and the span's value play no part; a pass that ends normally has visited every tracked order; a failed pass stopped at the first refused cancel |
| `Strategy.BaseStrategy.RunAsWritten` | Stock.Common/Strategy/BaseStrategy.cs:85-88 | the source's enumeration of the live table: it visits at most one order; an empty table gives a normal end; an accepted cancel is followed by `CollectionModified` |
| `Strategy.StaleBidsExample` | Stock.Common/Strategy/BaseStrategy.cs:169-180 | a view read, then `AddStock(c)` for a code the registry has, then another read: the second read gives the same map as the first, without `c` |
| `Strategy.RunAsWrittenOverTwoOrders` | Stock.Common/Strategy/BaseStrategy.cs:85-88 | with two tracked orders and a backend that accepts every cancel, the as-written pass throws `CollectionModified` and leaves one order tracked |
| `Strategy.RunOverTwoOrders` | Stock.Common/Strategy/BaseStrategy.cs:85-88 | with the same two orders, the snapshot pass ends normally and leaves no order tracked |

## Findings

| source | as written | input that shows it | evidently intended | confidence | as-written member | corrected member |
|---|---|---|---|---|---|---|
| Stock.Common/Strategy/BaseStrategy.cs:85-88 | `Run` enumerates `entrustNos.Values` while `CancelStock` removes from `entrustNos`. A .NET Framework `Dictionary` enumerator throws `InvalidOperationException` on the next `MoveNext` after any removal, so a pass cancels at most one order and then throws | two tracked orders, and a backend that accepts every cancel: one is cancelled, `Run` throws, and the other stays tracked | cancel every tracked order, by iterating over a snapshot of the keys | not executed; depends on the runtime (.NET Core 3.0 and later allow `Remove` during enumeration) | `Strategy.RunAsWrittenOverTwoOrders` | `Strategy.RunOverTwoOrders` |

`Strategy.BaseStrategy.RunAsWritten` models the enumeration as written, with the
enumerator's modification check. `Strategy.BaseStrategy.Run` is the corrected pass
over a key snapshot, and it is the one that the specification function `CancelEach`
and its lemmas describe. Both keep the source's other behaviour: no age check, and a
refused cancel ends the pass.

## Left out

- `StrategyControl`, `CreateControl`, the `Control` property, and the hooks `Init`, `Setup`, `ShowData`, `ImportPool` and `LoadData`: user-interface plumbing and empty overrides.
- `Name`, `Description`, `OnTicket` and `OnStockDataChanged`: abstract members or empty handlers with no state.
- `IsValid`: a plain flag getter and setter that no modelled operation reads.
- `LogHelper.WriteLog` calls: logging side effects only.
- `GetTransactionInfo` only logs, and `GetTradingAccountInfo` returns null. Neither touches the modelled state.
- The eight fund operations (`PurchaseFundSZ` to `PartFundSH`): each only throws `NotImplementedException`.
- The real trading backend and the `StockTraderManager` singleton: a foreign component, modelled by the `StockTrader` oracle.
- `Configure.GetStockTraderItem` and `DateTime.Now`: configuration and clock I/O, passed in as `span` and `now`. A missing configuration key is folded into the unparsable case.
- The market-data registry's own behaviour: it is a parameter, and its queues are opaque.
- Observer registration and multicast delegates. The trace records each notification raised. The model does not distinguish "no subscriber" (the source's `null` check) or an observer that throws and so stops the pool update.
- The `float` price and the `int` quantity: passed through to the backend unchanged and never interpreted.
- A `null` entrust number from the backend, which would make `Dictionary.Add` throw `ArgumentNullException`: strings in the model are never null.
- Subclasses writing to the protected `stockPool` directly: the no-duplicates invariant holds for pools changed only through `AddStock` and `RemoveStock`.
- `Strategy.BaseStrategy.Bids`: the getter returns the cached `IDictionary` by reference, so a caller that changes it changes what every later access sees; the model returns the map as a value, and such caller-side mutation and aliasing are not captured.
- Concurrent access to the pool, the table or the lazily built view: the model is sequential.
- `Strategy.BaseStrategy.Run`: the order in which a `Dictionary` enumerates its values is not modelled; the pass visits the snapshot in an arbitrary order.
- An age function for tracked orders: the source records each order's time but never reads it.
