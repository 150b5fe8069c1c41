/** The table of outstanding orders, from entrust number to the order's
    record, as `AddEntrustNo` (a `Dictionary.Add`) and `RemoveEntrustNo`
    (a `Dictionary.Remove`) change it. */
module EntrustTable {
  import opened StrategyTypes

  type Table = map<EntrustNo, EntrustInfo>

  /** Every record is filed under its own entrust number. */
  predicate WellKeyed(t: Table) {
    forall no :: no in t ==> t[no].no == no
  }

  /** The table after tracking `no` at time `now`: the record `{no, now}` is
      added and every other entry is kept; a number already tracked makes
      `Dictionary.Add` throw and the table is left as it was. */
  function Tracked(t: Table, no: EntrustNo, now: Time): (r: Result<Table>)
    ensures r.Err? <==> no in t
    ensures r.Err? ==> r.error == DuplicateEntrust(no)
    ensures r.Ok? ==> r.value.Keys == t.Keys + {no} && r.value[no] == EntrustInfo(no, now)
    ensures r.Ok? ==> forall k :: k in t ==> r.value[k] == t[k]
  {
    if no in t then Err(DuplicateEntrust(no)) else Ok(t[no := EntrustInfo(no, now)])
  }

  /** The table after untracking `no`: that entry is gone, every other entry
      is kept, and an untracked number changes nothing. */
  function Untracked(t: Table, no: EntrustNo): (r: Table)
    ensures r.Keys == t.Keys - {no}
    ensures forall k :: k in r ==> r[k] == t[k]
    ensures no !in t ==> r == t
  {
    t - {no}
  }

  /** Tracking keeps every record under its own number. */
  lemma TrackedKeepsWellKeyed(t: Table, no: EntrustNo, now: Time)
    requires WellKeyed(t)
    ensures Tracked(t, no, now).Ok? ==> WellKeyed(Tracked(t, no, now).value)
  {
  }

  /** Untracking keeps every record under its own number. */
  lemma UntrackedKeepsWellKeyed(t: Table, no: EntrustNo)
    requires WellKeyed(t)
    ensures WellKeyed(Untracked(t, no))
  {
  }

  /** Tracking a new number and then untracking it gives back the table. */
  lemma UntrackAfterTrack(t: Table, no: EntrustNo, now: Time)
    requires no !in t
    ensures Tracked(t, no, now).Ok?
    ensures Untracked(Tracked(t, no, now).value, no) == t
  {
  }

  /** Untracking twice is untracking once. */
  lemma UntrackIdempotent(t: Table, no: EntrustNo)
    ensures Untracked(Untracked(t, no), no) == Untracked(t, no)
  {
  }
}
