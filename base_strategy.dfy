/** The state a trading strategy keeps (class `BaseStrategy`): the stock pool
    it watches, a lazily built view of the market quotes for that pool, and
    the table of orders it placed and has not seen cancelled; together with
    the operations that forward orders to the trading backend and the
    periodic pass (`Run`) that cancels outstanding orders. */
module Strategy {
  import opened StrategyTypes
  import opened Pool
  import opened MarketView
  import opened EntrustTable
  import opened Trader

  /** A notification raised to the pool's observers, with the pool as an
      observer reading it at that moment sees it. */
  datatype PoolEvent =
    | StockAdd(code: Code, poolSeen: seq<Code>)
    | StockRemove(code: Code, poolSeen: seq<Code>)

  /** The cancel requests for the given entrust numbers, in order. */
  function CancelRequests(nos: seq<EntrustNo>): seq<Request> {
    seq(|nos|, k requires 0 <= k < |nos| => Cancel(nos[k]))
  }

  /** How a buy or sell order ends, given the backend's reply to it: what the
      strategy returns and what its table of outstanding orders becomes. */
  function OrderOutcome(t: Table, reply: Reply, now: Time): (o: (Result<EntrustNo>, Table))
    ensures o.0.Ok? <==> reply.Accepted? && reply.no !in t
    ensures o.0.Ok? ==> o.0.value == reply.no && o.1 == t[reply.no := EntrustInfo(reply.no, now)]
    ensures o.0.Err? ==> o.1 == t
    ensures reply.Rejected? ==> o.0 == Err(BackendError(reply.reason))
    ensures reply.Accepted? && reply.no in t ==> o.0 == Err(DuplicateEntrust(reply.no))
  {
    match reply
    case Rejected(why) => (Err(BackendError(why)), t)
    case Accepted(no) =>
      match Tracked(t, no, now)
      case Ok(t') => (Ok(no), t')
      case Err(e) => (Err(e), t)
  }

  /** The outcome of a reconciliation pass that visits `nos` in turn, and the
      table after it: the k-th cancel is the backend's request number
      `base + k` and gets `answer`'s reply; an accepted cancel untracks its
      number, and the first refused one ends the pass with its exception. */
  function CancelEach(t: Table, nos: seq<EntrustNo>, answer: (nat, Request) -> Reply, base: nat): (Outcome, Table)
  {
    if nos == [] then (Pass, t)
    else
      var (r, rest) := CancelEach(t, nos[..|nos| - 1], answer, base);
      var last := nos[|nos| - 1];
      if r.Fail? then (r, rest)
      else
        match answer(base + |nos| - 1, Cancel(last))
        case Accepted(_) => (Pass, Untracked(rest, last))
        case Rejected(why) => (Fail(BackendError(why)), rest)
  }

  /** One more cancel, after a pass whose cancels were all accepted so far. */
  lemma CancelEachStep(t: Table, nos: seq<EntrustNo>, no: EntrustNo, answer: (nat, Request) -> Reply, base: nat)
    requires CancelEach(t, nos, answer, base).0.Pass?
    ensures answer(base + |nos|, Cancel(no)).Accepted? ==>
      CancelEach(t, nos + [no], answer, base) == (Pass, Untracked(CancelEach(t, nos, answer, base).1, no))
    ensures answer(base + |nos|, Cancel(no)).Rejected? ==>
      CancelEach(t, nos + [no], answer, base) ==
        (Fail(BackendError(answer(base + |nos|, Cancel(no)).reason)), CancelEach(t, nos, answer, base).1)
  {
  }

  /** A pass only ever removes entries: what is left is part of the table it
      started from, with the same records. */
  lemma {:induction false} CancelEachShrinks(t: Table, nos: seq<EntrustNo>, answer: (nat, Request) -> Reply, base: nat)
    ensures CancelEach(t, nos, answer, base).1.Keys <= t.Keys
    ensures forall no :: no in CancelEach(t, nos, answer, base).1 ==> CancelEach(t, nos, answer, base).1[no] == t[no]
  {
    if nos != [] {
      CancelEachShrinks(t, nos[..|nos| - 1], answer, base);
    }
  }

  /** A pass ends normally exactly when the backend accepts every cancel. */
  lemma {:induction false} CancelEachPasses(t: Table, nos: seq<EntrustNo>, answer: (nat, Request) -> Reply, base: nat)
    ensures CancelEach(t, nos, answer, base).0.Pass? <==>
      forall k :: 0 <= k < |nos| ==> answer(base + k, Cancel(nos[k])).Accepted?
  {
    if nos != [] {
      var front := nos[..|nos| - 1];
      CancelEachPasses(t, front, answer, base);
      assert forall k :: 0 <= k < |front| ==> front[k] == nos[k];
    }
  }

  /** A pass that ends normally has untracked every number it visited, and
      nothing else. */
  lemma {:induction false} CancelEachAccepted(t: Table, nos: seq<EntrustNo>, answer: (nat, Request) -> Reply, base: nat)
    ensures CancelEach(t, nos, answer, base).0.Pass? ==>
      CancelEach(t, nos, answer, base).1 == t - (set no | no in nos)
  {
    if nos != [] {
      var front, last := nos[..|nos| - 1], nos[|nos| - 1];
      CancelEachAccepted(t, front, answer, base);
      if CancelEach(t, nos, answer, base).0.Pass? {
        assert (set no | no in nos) == (set no | no in front) + {last} by {
          assert nos == front + [last];
        }
      }
    }
  }

  /** A pass over all the tracked numbers in which the backend accepts every
      cancel leaves no order tracked. */
  lemma RunAllAccepted(t: Table, nos: seq<EntrustNo>, answer: (nat, Request) -> Reply, base: nat)
    requires forall no :: no in t ==> no in nos
    requires forall k :: 0 <= k < |nos| ==> answer(base + k, Cancel(nos[k])).Accepted?
    ensures CancelEach(t, nos, answer, base) == (Pass, map[])
  {
    CancelEachPasses(t, nos, answer, base);
    CancelEachAccepted(t, nos, answer, base);
  }

  /** The request log of a pass grows by one cancel per visited number. */
  lemma CancelRequestsStep(nos: seq<EntrustNo>, no: EntrustNo)
    ensures CancelRequests(nos + [no]) == CancelRequests(nos) + [Cancel(no)]
  {
  }

  class BaseStrategy {
    /** The codes watched, in insertion order. */
    var stockPool: seq<Code>
    /** The market view, once the `Bids` getter has built it. */
    var bids: Option<map<Code, BidCacheQueue>>
    /** The outstanding orders, by entrust number. */
    var entrustNos: Table
    /** Every `OnStockAdd`/`OnStockRemove` notification raised so far, oldest first. */
    var events: seq<PoolEvent>
    /** The trading backend, looked up once when the strategy is created. */
    const trader: StockTrader

    ghost predicate Valid()
      reads this
    {
      NoDuplicates(stockPool) && WellKeyed(entrustNos)
    }

    /** A new strategy: empty pool, no view yet, no outstanding orders. */
    constructor (trader: StockTrader)
      ensures Valid()
      ensures this.trader == trader
      ensures stockPool == [] && bids == None && entrustNos == map[] && events == []
    {
      this.trader := trader;
      stockPool := [];
      bids := None;
      entrustNos := map[];
      events := [];
    }

    /** Notify the observers, then add `code` unless the pool already has it.
        The notification is raised whether or not `code` was a member, and the
        observers see the pool as it was before the call. The view is not
        rebuilt. */
    method AddStock(code: Code)
      requires Valid()
      modifies this`stockPool, this`events
      ensures Valid()
      ensures events == old(events) + [StockAdd(code, old(stockPool))]
      ensures stockPool == Added(old(stockPool), code)
      ensures bids == old(bids)
    {
      events := events + [StockAdd(code, stockPool)];
      if code !in stockPool {
        stockPool := stockPool + [code];
      }
      AddedKeepsDistinct(old(stockPool), code);
    }

    /** Notify the observers, then remove `code` from the pool if it is there.
        The notification does not prove that `code` was a member. The view is
        not rebuilt. */
    method RemoveStock(code: Code)
      requires Valid()
      modifies this`stockPool, this`events
      ensures Valid()
      ensures events == old(events) + [StockRemove(code, old(stockPool))]
      ensures stockPool == RemoveFirst(old(stockPool), code)
      ensures code !in stockPool
      ensures bids == old(bids)
    {
      var pool := stockPool;
      RemoveFirstKeepsDistinct(pool, code);
      stockPool := RemoveFirst(pool, code);
      events := events + [StockRemove(code, pool)];
    }

    /** A copy of the pool, as a new array the caller owns. */
    method StockPool() returns (codes: array<Code>)
      ensures fresh(codes) && codes[..] == stockPool
    {
      var pool := stockPool;
      codes := new Code[|pool|](k requires 0 <= k < |pool| => pool[k]);
    }

    /** The quote queues of the pool's codes. The first access builds the view
        from the registry and the pool as they are then; every later access
        returns that same view, whatever has happened to the pool since. */
    method Bids(registry: map<Code, BidCacheQueue>) returns (v: map<Code, BidCacheQueue>)
      modifies this`bids
      ensures bids == Some(v)
      ensures old(bids).None? ==> v == View(registry, stockPool)
      ensures old(bids).Some? ==> v == old(bids).value
    {
      if bids.None? {
        var built := BuildView(registry, stockPool);
        bids := Some(built);
      }
      v := bids.value;
    }

    /** Track `no`, stamped `now`; `Dictionary.Add` throws on a tracked number. */
    method AddEntrustNo(no: EntrustNo, now: Time) returns (r: Outcome)
      requires Valid()
      modifies this`entrustNos
      ensures Valid()
      ensures match Tracked(old(entrustNos), no, now)
        case Ok(t) => r == Pass && entrustNos == t
        case Err(e) => r == Fail(e) && entrustNos == old(entrustNos)
    {
      TrackedKeepsWellKeyed(entrustNos, no, now);
      match Tracked(entrustNos, no, now)
      case Ok(t) =>
        entrustNos := t;
        r := Pass;
      case Err(e) =>
        r := Fail(e);
    }

    /** Stop tracking `no`; an untracked number is a no-op. */
    method RemoveEntrustNo(no: EntrustNo)
      requires Valid()
      modifies this`entrustNos
      ensures Valid()
      ensures entrustNos == Untracked(old(entrustNos), no)
    {
      UntrackedKeepsWellKeyed(entrustNos, no);
      entrustNos := Untracked(entrustNos, no);
    }

    /** Ask the backend to buy; track and return the entrust number it gives.
        A backend exception propagates and nothing is tracked. */
    method BuyStock(code: Code, price: Price, num: int, now: Time) returns (r: Result<EntrustNo>)
      requires Valid()
      modifies this`entrustNos, trader
      ensures Valid()
      ensures trader.requests == old(trader.requests) + [Buy(code, price, num)]
      ensures (r, entrustNos) == OrderOutcome(old(entrustNos), trader.answer(|old(trader.requests)|, Buy(code, price, num)), now)
    {
      var reply := trader.Submit(Buy(code, price, num));
      match reply
      case Rejected(why) =>
        r := Err(BackendError(why));
      case Accepted(no) =>
        var added := AddEntrustNo(no, now);
        r := if added.Pass? then Ok(no) else Err(added.error);
    }

    /** Ask the backend to sell; track and return the entrust number it gives.
        A backend exception propagates and nothing is tracked. */
    method SellStock(code: Code, price: Price, num: int, now: Time) returns (r: Result<EntrustNo>)
      requires Valid()
      modifies this`entrustNos, trader
      ensures Valid()
      ensures trader.requests == old(trader.requests) + [Sell(code, price, num)]
      ensures (r, entrustNos) == OrderOutcome(old(entrustNos), trader.answer(|old(trader.requests)|, Sell(code, price, num)), now)
    {
      var reply := trader.Submit(Sell(code, price, num));
      match reply
      case Rejected(why) =>
        r := Err(BackendError(why));
      case Accepted(no) =>
        var added := AddEntrustNo(no, now);
        r := if added.Pass? then Ok(no) else Err(added.error);
    }

    /** Ask the backend to cancel `no` and return its answer. Only when the
        backend call returns is `no` untracked; when it throws, the table is
        left as it was. */
    method CancelStock(no: EntrustNo) returns (r: Result<EntrustNo>)
      requires Valid()
      modifies this`entrustNos, trader
      ensures Valid()
      ensures trader.requests == old(trader.requests) + [Cancel(no)]
      ensures match trader.answer(|old(trader.requests)|, Cancel(no))
        case Accepted(e) => r == Ok(e) && entrustNos == Untracked(old(entrustNos), no)
        case Rejected(why) => r == Err(BackendError(why)) && entrustNos == old(entrustNos)
    {
      var reply := trader.Submit(Cancel(no));
      match reply
      case Rejected(why) =>
        r := Err(BackendError(why));
      case Accepted(e) =>
        RemoveEntrustNo(no);
        r := Ok(e);
    }

    /** Keep the backend session alive; no tracking. */
    method Keep() returns (r: Outcome)
      modifies trader
      ensures trader.requests == old(trader.requests) + [KeepSession]
      ensures match trader.answer(|old(trader.requests)|, KeepSession)
        case Accepted(_) => r == Pass
        case Rejected(why) => r == Fail(BackendError(why))
    {
      var reply := trader.Submit(KeepSession);
      r := if reply.Accepted? then Pass else Fail(BackendError(reply.reason));
    }

    /** The reconciliation pass, over a snapshot of the tracked numbers taken
        when it starts, visited in no particular order (`order`). The cancel
        span is parsed (an unparsable span throws before anything is
        cancelled) and then never read: every tracked order is cancelled,
        whatever its age. The first cancel the backend refuses ends the pass
        with that exception. */
    method Run(now: Time, span: Option<int>) returns (r: Outcome, ghost order: seq<EntrustNo>)
      requires Valid()
      modifies this`entrustNos, trader
      ensures Valid()
      ensures span.None? ==> r == Fail(BadCancelSpan) && order == [] && entrustNos == old(entrustNos)
      ensures span.Some? ==> (r, entrustNos) == CancelEach(old(entrustNos), order, trader.answer, |old(trader.requests)|)
      ensures trader.requests == old(trader.requests) + CancelRequests(order)
      ensures NoDuplicates(order) && forall no :: no in order ==> no in old(entrustNos)
      ensures r.Pass? ==> forall no :: no in old(entrustNos) ==> no in order
      ensures r.Fail? && span.Some? ==>
        order != [] && CancelEach(old(entrustNos), order[..|order| - 1], trader.answer, |old(trader.requests)|).0.Pass?
    {
      order := [];
      if span.None? {
        r := Fail(BadCancelSpan);
        return;
      }
      var snapshot := entrustNos;
      var pending := snapshot.Keys;
      while pending != {}
        invariant Valid() && WellKeyed(snapshot)
        invariant snapshot == old(entrustNos)
        invariant forall no :: no in order ==> no !in pending && no in snapshot
        invariant forall no :: no in snapshot ==> no in pending || no in order
        invariant NoDuplicates(order)
        invariant CancelEach(snapshot, order, trader.answer, |old(trader.requests)|).0 == Pass
        invariant entrustNos == CancelEach(snapshot, order, trader.answer, |old(trader.requests)|).1
        invariant trader.requests == old(trader.requests) + CancelRequests(order)
        decreases pending
      {
        var no :| no in pending;
        assert snapshot[no].no == no;
        var cancelled := CancelStock(snapshot[no].no);
        CancelEachStep(snapshot, order, no, trader.answer, |old(trader.requests)|);
        CancelRequestsStep(order, no);
        DistinctStep(order, no);
        ghost var visited := order;
        order := order + [no];
        pending := pending - {no};
        if cancelled.Err? {
          assert order[..|order| - 1] == visited;
          r := Fail(cancelled.error);
          return;
        }
      }
      r := Pass;
    }

    /** `Run` as the source writes it: a `foreach` over the live table's values
        that untracks each cancelled order while the enumeration is still
        going. A `Dictionary` enumerator throws once the dictionary has changed
        since it began, so the pass visits at most one order (`visited`) and,
        when that cancel is accepted, ends in that exception. */
    method RunAsWritten(now: Time, span: Option<int>) returns (r: Outcome, ghost visited: seq<EntrustNo>)
      requires Valid()
      modifies this`entrustNos, trader
      ensures Valid()
      ensures span.None? ==> r == Fail(BadCancelSpan) && visited == [] && entrustNos == old(entrustNos)
      ensures trader.requests == old(trader.requests) + CancelRequests(visited)
      ensures forall no :: no in visited ==> no in old(entrustNos)
      ensures span.Some? ==> |visited| == (if old(entrustNos) == map[] then 0 else 1)
      ensures span.Some? ==> entrustNos == CancelEach(old(entrustNos), visited, trader.answer, |old(trader.requests)|).1
      ensures span.Some? && visited == [] ==> r == Pass
      ensures span.Some? && visited != [] && CancelEach(old(entrustNos), visited, trader.answer, |old(trader.requests)|).0.Pass? ==>
        r == Fail(CollectionModified)
      ensures span.Some? && visited != [] && CancelEach(old(entrustNos), visited, trader.answer, |old(trader.requests)|).0.Fail? ==>
        r == CancelEach(old(entrustNos), visited, trader.answer, |old(trader.requests)|).0
    {
      visited := [];
      if span.None? {
        return Fail(BadCancelSpan), visited;
      }
      var enumerated := entrustNos;
      var pending := enumerated.Keys;
      while true
        invariant Valid() && WellKeyed(enumerated)
        invariant enumerated == old(entrustNos)
        invariant |visited| <= 1
        invariant forall no :: no in visited ==> no in enumerated && no !in entrustNos
        invariant visited == [] ==> pending == enumerated.Keys
        invariant (Pass, entrustNos) == CancelEach(enumerated, visited, trader.answer, |old(trader.requests)|)
        invariant trader.requests == old(trader.requests) + CancelRequests(visited)
        decreases pending
      {
        // MoveNext: the dictionary changes only when CancelStock removes an
        // entry, and then the enumerator throws.
        if entrustNos != enumerated {
          return Fail(CollectionModified), visited;
        }
        assert visited == [];
        if pending == {} {
          return Pass, visited;
        }
        var no :| no in pending;
        pending := pending - {no};
        var cancelled := CancelStock(enumerated[no].no);
        CancelEachStep(enumerated, visited, no, trader.answer, |old(trader.requests)|);
        CancelRequestsStep(visited, no);
        visited := visited + [no];
        if cancelled.Err? {
          return Fail(cancelled.error), visited;
        }
      }
    }
  }

  /** The view is built on first access and never rebuilt: a code added to
      the pool afterwards stays out of it, though the registry has its queue. */
  method StaleBidsExample(registry: map<Code, BidCacheQueue>, code: Code)
    returns (first: map<Code, BidCacheQueue>, later: map<Code, BidCacheQueue>)
    requires code in registry
    ensures first == map[] && later == first
    ensures code !in later && code in View(registry, [code])
  {
    var trader := new StockTrader((n: nat, q: Request) => Rejected("offline"));
    var strategy := new BaseStrategy(trader);
    first := strategy.Bids(registry);
    strategy.AddStock(code);
    later := strategy.Bids(registry);
  }

  /** Two orders are outstanding and the backend accepts every cancel. As
      written, the pass cancels one order and then throws, leaving the other
      tracked; over a snapshot of the numbers, it cancels both. */
  method RunAsWrittenOverTwoOrders(price: Price) returns (r: Outcome, left: set<EntrustNo>)
    ensures r == Fail(CollectionModified)
    ensures left == {"E1"} || left == {"E2"}
  {
    var strategy := TwoOrders(price);
    ghost var visited;
    ghost var t := strategy.entrustNos;
    r, visited := strategy.RunAsWritten(2, Some(60));
    assert CancelEach(t, visited, strategy.trader.answer, 2) == (Pass, t - {visited[0]}) by {
      CancelEachStep(t, [], visited[0], strategy.trader.answer, 2);
      assert [] + [visited[0]] == visited;
    }
    left := strategy.entrustNos.Keys;
  }

  /** The same two orders, reconciled over a snapshot: both are cancelled and
      the pass ends normally. */
  method RunOverTwoOrders(price: Price) returns (r: Outcome, left: set<EntrustNo>)
    ensures r == Pass && left == {}
  {
    var strategy := TwoOrders(price);
    ghost var order;
    ghost var t := strategy.entrustNos;
    r, order := strategy.Run(2, Some(60));
    RunAllAccepted(t, order, strategy.trader.answer, 2);
    left := strategy.entrustNos.Keys;
  }

  /** A strategy whose backend numbers its first two orders "E1" and "E2" and
      accepts every cancel, after a buy and a sell. */
  method TwoOrders(price: Price) returns (strategy: BaseStrategy)
    ensures fresh(strategy) && fresh(strategy.trader) && strategy.Valid()
    ensures strategy.entrustNos.Keys == {"E1", "E2"}
    ensures |strategy.trader.requests| == 2
    ensures forall n: nat, no :: strategy.trader.answer(n, Cancel(no)) == Accepted(no)
  {
    var trader := new StockTrader((n: nat, q: Request) =>
      if q.Cancel? then Accepted(q.no) else if n == 0 then Accepted("E1") else Accepted("E2"));
    strategy := new BaseStrategy(trader);
    var bought := strategy.BuyStock("600000", price, 100, 0);
    var sold := strategy.SellStock("600036", price, 200, 1);
  }
}
