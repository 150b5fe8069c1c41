/** The strategy's view of the market: from the global registry of quote
    queues (one per code), the queues of the codes in the stock pool. */
module MarketView {
  import opened StrategyTypes
  import Pool

  /** The registry filtered to the pool: a code is in the view exactly when it
      is a registry key and a pool member, and it maps to the registry's queue.
      Pool codes the registry does not know are left out without an error. */
  function View(registry: map<Code, BidCacheQueue>, pool: seq<Code>): (v: map<Code, BidCacheQueue>)
    ensures forall c :: c in v <==> c in registry && c in pool
    ensures forall c :: c in v ==> v[c] == registry[c]
  {
    map c | c in registry && c in pool :: registry[c]
  }

  /** The loop that fills a fresh view: over the registry's keys, in whatever
      order, add each one that the pool contains. */
  method BuildView(registry: map<Code, BidCacheQueue>, pool: seq<Code>) returns (v: map<Code, BidCacheQueue>)
    ensures v == View(registry, pool)
  {
    v := map[];
    var todo := registry.Keys;
    while todo != {}
      invariant todo <= registry.Keys
      invariant forall c :: c in v <==> c in registry && c !in todo && c in pool
      invariant forall c :: c in v ==> v[c] == registry[c]
      decreases todo
    {
      var code :| code in todo;
      if code in pool {
        // Dictionary.Add cannot collide here: each registry key comes once.
        assert code !in v;
        v := v[code := registry[code]];
      }
      todo := todo - {code};
    }
  }

  /** What a view rebuilt after `AddStock(code)` would hold: the old view plus
      `code`, when the registry knows it. */
  lemma ViewAfterAdd(registry: map<Code, BidCacheQueue>, pool: seq<Code>, code: Code)
    requires code in registry
    ensures View(registry, Pool.Added(pool, code)) == View(registry, pool)[code := registry[code]]
  {
  }

  /** What a view rebuilt after `RemoveStock(code)` would hold, for a pool
      without duplicates: the old view without `code`. */
  lemma ViewAfterRemove(registry: map<Code, BidCacheQueue>, pool: seq<Code>, code: Code)
    requires Pool.NoDuplicates(pool)
    ensures View(registry, Pool.RemoveFirst(pool, code)) == View(registry, pool) - {code}
  {
    Pool.RemoveFirstKeepsDistinct(pool, code);
    forall c | c != code ensures c in Pool.RemoveFirst(pool, code) <==> c in pool {
      Pool.RemoveFirstMembers(pool, code, c);
    }
  }
}
