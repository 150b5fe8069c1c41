/** The stock pool: the list of codes a strategy watches, used as a set.
    `AddStock` appends a code only when `Contains` says it is absent;
    `RemoveStock` calls `List.Remove`, which drops the first occurrence. */
module Pool {
  import opened StrategyTypes

  /** No code occurs twice. */
  predicate NoDuplicates(pool: seq<Code>) {
    forall i, j :: 0 <= i < j < |pool| ==> pool[i] != pool[j]
  }

  /** The pool after adding `code`: unchanged when it is already a member,
      otherwise `code` appended at the end. */
  function Added(pool: seq<Code>, code: Code): (r: seq<Code>)
    ensures forall c :: c in r <==> c in pool || c == code
    ensures code in pool ==> r == pool
    ensures code !in pool ==> |r| == |pool| + 1 && r[..|pool|] == pool && r[|pool|] == code
  {
    if code in pool then pool else pool + [code]
  }

  /** The pool after removing `code`: its first occurrence is dropped, every
      other code keeps its place, and an absent code changes nothing. */
  function RemoveFirst(pool: seq<Code>, code: Code): (r: seq<Code>)
    ensures code !in pool ==> r == pool
    ensures code in pool ==> |r| == |pool| - 1
  {
    if pool == [] then []
    else
      assert pool == [pool[0]] + pool[1..];
      if pool[0] == code then pool[1..]
      else [pool[0]] + RemoveFirst(pool[1..], code)
  }

  /** Removing takes away exactly one occurrence of a code that is present:
      adding that one occurrence back gives the pool's multiset of codes. */
  lemma {:induction false} RemoveFirstCount(pool: seq<Code>, code: Code)
    requires code in pool
    ensures multiset(RemoveFirst(pool, code)) + multiset{code} == multiset(pool)
  {
    var tail := pool[1..];
    assert pool == [pool[0]] + tail;
    if pool[0] != code {
      RemoveFirstCount(tail, code);
      assert RemoveFirst(pool, code) == [pool[0]] + RemoveFirst(tail, code);
    }
  }

  /** Removing cuts out exactly the first occurrence: what comes before it and
      what comes after it are kept, in order. */
  lemma {:induction false} RemoveFirstAt(pool: seq<Code>, code: Code, i: nat)
    requires i < |pool| && pool[i] == code && code !in pool[..i]
    ensures RemoveFirst(pool, code) == pool[..i] + pool[i + 1..]
  {
    if i > 0 {
      assert pool[1..][..i - 1] == pool[1..i];
      assert code !in pool[1..][..i - 1];
      RemoveFirstAt(pool[1..], code, i - 1);
      assert pool[..i] == [pool[0]] + pool[1..i];
      assert pool[1..][i..] == pool[i + 1..];
    }
  }

  /** Adding keeps a pool free of duplicates, and adding twice is adding once. */
  lemma AddedKeepsDistinct(pool: seq<Code>, code: Code)
    requires NoDuplicates(pool)
    ensures NoDuplicates(Added(pool, code))
    ensures Added(Added(pool, code), code) == Added(pool, code)
  {
  }

  /** Removing keeps a pool free of duplicates, and then the code is gone. */
  lemma {:induction false} RemoveFirstKeepsDistinct(pool: seq<Code>, code: Code)
    requires NoDuplicates(pool)
    ensures NoDuplicates(RemoveFirst(pool, code))
    ensures code !in RemoveFirst(pool, code)
  {
    if code in pool {
      var i :| 0 <= i < |pool| && pool[i] == code;
      RemoveFirstAt(pool, code, i);
      Splice(pool, i);
    }
  }

  /** Cutting one place out of a pool without duplicates leaves one without
      duplicates that no longer holds the code from that place. */
  lemma Splice(pool: seq<Code>, i: nat)
    requires NoDuplicates(pool) && i < |pool|
    ensures NoDuplicates(pool[..i] + pool[i + 1..])
    ensures pool[i] !in pool[..i] + pool[i + 1..]
  {
  }

  /** Removing `code` leaves every other code's membership as it was. */
  lemma RemoveFirstMembers(pool: seq<Code>, code: Code, c: Code)
    requires c != code
    ensures c in RemoveFirst(pool, code) <==> c in pool
  {
  }

  /** Appending a code not yet present keeps a sequence free of duplicates. */
  lemma DistinctStep(s: seq<Code>, x: Code)
    requires NoDuplicates(s) && x !in s
    ensures NoDuplicates(s + [x])
  {
  }

  /** Adding an absent code and then removing it gives back the pool. */
  lemma {:induction false} RemoveAfterAdd(pool: seq<Code>, code: Code)
    requires code !in pool
    ensures RemoveFirst(Added(pool, code), code) == pool
  {
    if pool != [] {
      var tail := pool[1..];
      assert pool + [code] == [pool[0]] + (tail + [code]);
      RemoveAfterAdd(tail, code);
      assert RemoveFirst(pool + [code], code) == [pool[0]] + RemoveFirst(tail + [code], code);
    }
  }
}
