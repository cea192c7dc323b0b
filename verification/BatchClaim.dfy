/** What the batch claim loop leases, said without running it. */
module BatchClaim {
  import opened Basics
  import opened Delegation
  import opened TaskBus

  predicate CanLease(s: BusState, id: Name, now: int) {
    id in s.records && Eligible(s.records[id], now)
  }

  /** The tasks that may be leased at time `now`, in the order of `ids`. */
  function EligibleIds(s: BusState, ids: seq<Name>, now: int): seq<Name> {
    if ids == [] then []
    else (if CanLease(s, ids[0], now) then [ids[0]] else []) + EligibleIds(s, ids[1..], now)
  }

  /** The first `n` elements, or all of them when there are fewer. */
  function Take<T>(xs: seq<T>, n: nat): seq<T> {
    if |xs| <= n then xs else xs[..n]
  }

  /** The record of task `id` after it was leased from state `s`. */
  function LeaseOf(s: BusState, id: Name, worker: Name, until: int): Option<Record> {
    if id in s.records then Some(Lease(s.records[id], worker, until)) else None
  }

  function LeasesOf(s: BusState, ids: seq<Name>, worker: Name, until: int): seq<Option<Record>> {
    if ids == [] then [] else [LeaseOf(s, ids[0], worker, until)] + LeasesOf(s, ids[1..], worker, until)
  }

  function Somes(rs: seq<Record>): seq<Option<Record>> {
    if rs == [] then [] else [Some(rs[0])] + Somes(rs[1..])
  }

  /** The record of a task the scan reaches. */
  function Scanned(r: Record, worker: Name, until: int, now: int): Record {
    if IsDue(r, now) then Expire(r) else if Eligible(r, now) then Lease(r, worker, until) else r
  }

  lemma {:induction false} EligibleFrame(s: BusState, t: BusState, id: Name, r: Record, ids: seq<Name>, now: int)
    requires t.records == s.records[id := r] && id !in ids
    ensures EligibleIds(s, ids, now) == EligibleIds(t, ids, now)
  {
    if ids != [] {
      EligibleFrame(s, t, id, r, ids[1..], now);
    }
  }

  lemma {:induction false} LeasesFrame(
      s: BusState, t: BusState, id: Name, r: Record, ids: seq<Name>, worker: Name, until: int)
    requires t.records == s.records[id := r] && id !in ids
    ensures LeasesOf(s, ids, worker, until) == LeasesOf(t, ids, worker, until)
  {
    if ids != [] {
      LeasesFrame(s, t, id, r, ids[1..], worker, until);
    }
  }

  lemma {:induction false} EligibleWithin(s: BusState, ids: seq<Name>, now: int, id: Name)
    ensures id in EligibleIds(s, ids, now) <==> id in ids && CanLease(s, id, now)
  {
    if ids != [] {
      EligibleWithin(s, ids[1..], now, id);
    }
  }

  lemma {:induction false} EligibleDistinct(s: BusState, ids: seq<Name>, now: int)
    requires Distinct(ids)
    ensures Distinct(EligibleIds(s, ids, now))
  {
    if ids != [] {
      EligibleDistinct(s, ids[1..], now);
      EligibleWithin(s, ids[1..], now, ids[0]);
    }
  }

  /** One task handled by the scan. */
  lemma StepShape(s: BusState, id: Name, worker: Name, leaseSeconds: int, now: int)
    requires WellFormed(s) && id in s.records
    ensures
      var (s1, got) := ClaimTaskStep(s, id, worker, leaseSeconds, now);
      && s1.records == s.records[id := Scanned(s.records[id], worker, LeaseEnd(now, leaseSeconds), now)]
      && (if CanLease(s, id, now) then got == LeaseOf(s, id, worker, LeaseEnd(now, leaseSeconds)) else got == None)
  {
  }

  /** The list of leases returned by the scan. */
  lemma {:induction false} ScanReturns(
      s: BusState, ids: seq<Name>, worker: Name, limit: nat, leaseSeconds: int, now: int)
    requires WellFormed(s) && Distinct(ids) && forall id :: id in ids ==> id in s.records
    ensures Somes(ClaimScan(s, ids, worker, limit, leaseSeconds, now).1)
         == LeasesOf(s, Take(EligibleIds(s, ids, now), limit), worker, LeaseEnd(now, leaseSeconds))
    decreases |ids|
  {
    hide WellFormed, Lease, Scanned, Eligible, ClaimTaskStep;
    if ids != [] && limit > 0 {
      var id, later, until := ids[0], ids[1..], LeaseEnd(now, leaseSeconds);
      StepShape(s, id, worker, leaseSeconds, now);
      var (s1, got) := ClaimTaskStep(s, id, worker, leaseSeconds, now);
      var limit1 := if got.None? then limit else limit - 1;
      ScanReturns(s1, later, worker, limit1, leaseSeconds, now);
      assert id !in later;
      var r := Scanned(s.records[id], worker, until, now);
      EligibleFrame(s, s1, id, r, later, now);
      var chosen := Take(EligibleIds(s, later, now), limit1);
      TakeWithin(s, later, now, limit1, id);
      LeasesFrame(s, s1, id, r, chosen, worker, until);
      if got.Some? {
        var rest := ClaimScan(s1, later, worker, limit1, leaseSeconds, now).1;
        assert ([got.value] + rest)[1..] == rest && ([id] + chosen)[1..] == chosen;
        assert Somes([got.value] + rest) == [got] + Somes(rest);
        assert LeasesOf(s, [id] + chosen, worker, until)
            == [LeaseOf(s, id, worker, until)] + LeasesOf(s, chosen, worker, until);
        assert Take([id] + EligibleIds(s, later, now), limit) == [id] + chosen;
      } else {
        assert EligibleIds(s, ids, now) == EligibleIds(s, later, now);
      }
    }
  }

  lemma TakeWithin(s: BusState, ids: seq<Name>, now: int, limit: nat, id: Name)
    requires id !in ids
    ensures id !in Take(EligibleIds(s, ids, now), limit)
  {
    EligibleWithin(s, ids, now, id);
  }

  /** The record of every listed task after the scan: reached while fewer than `limit` before it were leased. */
  lemma {:induction false} ScanLeaves(
      s: BusState, ids: seq<Name>, worker: Name, limit: nat, leaseSeconds: int, now: int, j: nat)
    requires WellFormed(s) && Distinct(ids) && (forall id :: id in ids ==> id in s.records) && j < |ids|
    ensures ClaimScan(s, ids, worker, limit, leaseSeconds, now).0.records[ids[j]] ==
            if |EligibleIds(s, ids[..j], now)| < limit
            then Scanned(s.records[ids[j]], worker, LeaseEnd(now, leaseSeconds), now)
            else s.records[ids[j]]
    decreases |ids|
  {
    hide WellFormed, Lease, Scanned, Eligible, ClaimTaskStep;
    if limit > 0 {
      var id, later := ids[0], ids[1..];
      StepShape(s, id, worker, leaseSeconds, now);
      var (s1, got) := ClaimTaskStep(s, id, worker, leaseSeconds, now);
      var limit1 := if got.None? then limit else limit - 1;
      assert id !in later;
      if j == 0 {
        ScanSkips(s1, later, worker, limit1, leaseSeconds, now, id);
        assert ids[..0] == [];
      } else {
        ScanLeaves(s1, later, worker, limit1, leaseSeconds, now, j - 1);
        assert ids[..j][1..] == later[..j - 1];
        EligibleFrame(s, s1, id, Scanned(s.records[id], worker, LeaseEnd(now, leaseSeconds), now), later[..j - 1], now);
      }
    }
  }

  /** A task that is not listed is not touched. */
  lemma {:induction false} ScanSkips(
      s: BusState, ids: seq<Name>, worker: Name, limit: nat, leaseSeconds: int, now: int, id: Name)
    requires WellFormed(s) && id in s.records && id !in ids
    ensures ClaimScan(s, ids, worker, limit, leaseSeconds, now).0.records[id] == s.records[id]
    decreases |ids|
  {
    if ids != [] && limit > 0 {
      var (s1, got) := ClaimTaskStep(s, ids[0], worker, leaseSeconds, now);
      ScanSkips(s1, ids[1..], worker, if got.None? then limit else limit - 1, leaseSeconds, now, id);
    }
  }

  /**
   * A batch claim leases exactly the first max(limit, 1) eligible tasks in submission order, each
   * once, expires the due tasks it walks past, and leaves every other record alone.
   */
  lemma ClaimLeasesEarliest(s: BusState, worker: Name, limit: int, leaseSeconds: int, now: int)
    requires WellFormed(s) && Ordered(s)
    ensures
      var (t, got) := ClaimStep(s, worker, limit, leaseSeconds, now);
      var chosen := EligibleIds(s, s.order, now);
      var until := LeaseEnd(now, leaseSeconds);
      && Distinct(chosen)
      && Somes(got) == LeasesOf(s, Take(chosen, Max(limit, 1)), worker, until)
      && t.order == s.order && t.index == s.index && t.records.Keys == s.records.Keys
      && (forall j {:trigger s.order[j]} :: 0 <= j < |s.order| ==>
            t.records[s.order[j]] ==
            if |EligibleIds(s, s.order[..j], now)| < Max(limit, 1)
            then Scanned(s.records[s.order[j]], worker, until, now)
            else s.records[s.order[j]])
  {
    EligibleDistinct(s, s.order, now);
    ScanReturns(s, s.order, worker, Max(limit, 1), leaseSeconds, now);
    var t, until := ClaimStep(s, worker, limit, leaseSeconds, now).0, LeaseEnd(now, leaseSeconds);
    forall j {:trigger s.order[j]} | 0 <= j < |s.order|
      ensures
        t.records[s.order[j]] ==
        if |EligibleIds(s, s.order[..j], now)| < Max(limit, 1) then Scanned(s.records[s.order[j]], worker, until, now)
        else s.records[s.order[j]]
    {
      ScanLeaves(s, s.order, worker, Max(limit, 1), leaseSeconds, now, j);
    }
  }
}
