/**
 * The durable bus, undisturbed, against the in-memory bus. They agree call by call on status, attempt
 * counter, owner, lease and result, except in the cases pinned down here: the durable bus ignores
 * expiry times, lets a worker claim again what it already holds, and accepts a completion of a task
 * that already has the status asked for. Failure codes are left out of the comparison, since only the
 * in-memory claim clears them.
 */
module UcSimulation {
  import opened Basics
  import opened Delegation
  import opened TaskBus
  import opened TaskBusRuns
  import opened RetryBudget
  import opened LeaseSafety
  import opened BatchClaim
  import opened UcTable
  import opened UcBus
  import U = UcInterleaving

  predicate Alike(r: Record, u: Record) {
    r.(failureCode := None) == u.(failureCode := None)
  }

  ghost predicate SameRows(s: BusState, t: Table) {
    && s.records.Keys == t.Keys
    && forall id :: id in t ==> Alike(s.records[id], RecordOf(t[id])) && U.RowConsistent(t[id])
  }

  predicate SameLease(got: Option<Record>, u: Option<Record>) {
    (got.None? && u.None?) || (got.Some? && u.Some? && Alike(got.value, u.value))
  }

  predicate SameReply(got: Reply, u: UcReply) {
    (!got.Accepted? && u.Raised?) || (got.Accepted? && u.Returned? && Alike(got.record, u.record))
  }

  lemma SameRowsPut(s: BusState, t: Table, id: Name, r: Record, row: Row)
    requires SameRows(s, t) && id in t
    ensures SameRows(Put(s, id, r), t[id := row]) <==> Alike(r, RecordOf(row)) && U.RowConsistent(row)
  {
    var t1 := t[id := row];
    if SameRows(Put(s, id, r), t1) {
      assert id in t1;
    }
  }

  // ----- claiming one task -----

  /** Only the in-memory bus acts on a task whose time is up. */
  predicate DueNow(r: Record, now: int) {
    IsDue(r, now) && !r.status.Expired?
  }

  /** The two buses claim task `id` differently: it is due, or the worker itself holds it in `claimed`. */
  predicate ClaimDiverges(s: BusState, id: Name, w: Name, now: int) {
    && id in s.records
    && var r := s.records[id];
       DueNow(r, now) || (!IsDue(r, now) && r.status.Claimed? && r.leaseOwner == Some(w) && !LeaseLapsed(r, now))
  }

  /** A named claim leaves the same rows and returns the same lease exactly when it does not diverge. */
  lemma ClaimTaskAgreesExactly(s: BusState, t: Table, id: Name, w: Name, leaseSeconds: int, now: int)
    requires WellFormed(s) && SameRows(s, t)
    ensures
      var (s1, got) := ClaimTaskStep(s, id, w, leaseSeconds, now);
      var (t1, u) := UcClaimOne(t, id, w, leaseSeconds, now);
      SameRows(s1, t1) && SameLease(got, u) <==> !ClaimDiverges(s, id, w, now)
  {
    hide WellFormed, SameRows;
    ClaimOneShape(t, id, w, leaseSeconds, now);
    var (s1, got) := ClaimTaskStep(s, id, w, leaseSeconds, now);
    var (t1, u) := UcClaimOne(t, id, w, leaseSeconds, now);
    SameKeys(s, t, id);
    if id in t {
      SameRowsPut(s, t, id, s1.records[id], t1[id]);
      assert s1 == Put(s, id, s1.records[id]);
    }
  }

  lemma SameKeys(s: BusState, t: Table, id: Name)
    requires SameRows(s, t)
    ensures id in s.records <==> id in t
    ensures id in t ==> Alike(s.records[id], RecordOf(t[id])) && U.RowConsistent(t[id])
  {
    assert id in s.records <==> id in s.records.Keys;
  }

  lemma ClaimOneShape(t: Table, id: Name, w: Name, leaseSeconds: int, now: int)
    ensures
      var (t1, u) := UcClaimOne(t, id, w, leaseSeconds, now);
      if id !in t then t1 == t && u.None?
      else if Leasable(t[id], now) || (t[id].leaseOwner == Some(w) && t[id].status.Claimed?) then
        && u.Some?
        && t1 == t[id := t1[id]]
        && t1[id] == t[id].(
             task := t[id].task.(attempt := t[id].task.attempt + 1), status := Claimed, leaseOwner := Some(w),
             leaseExpiresAt := if Leasable(t[id], now) then Some(LeaseEnd(now, leaseSeconds)) else t[id].leaseExpiresAt)
        && u.value == RecordOf(t1[id]).(leaseExpiresAt := Some(LeaseEnd(now, leaseSeconds)))
      else t1 == t && u.None?
  {
  }

  // ----- settling -----

  lemma MarkRunningAgrees(s: BusState, t: Table, id: Name, w: Name)
    requires SameRows(s, t)
    ensures
      var (s1, got) := OwnedStep(s, id, w, Begin);
      var (t1, u) := UcBegin(t, id, w);
      SameRows(s1, t1) && SameReply(got, u)
  {
    SameKeys(s, t, id);
    if id in t && OwnedBy(s.records[id], w) {
      var row := t[id].(status := Running);
      assert UcBegin(t, id, w).0 == t[id := row];
      SameRowsPut(s, t, id, Act(s.records[id], Begin), row);
    }
  }

  lemma FailAgrees(s: BusState, t: Table, id: Name, w: Name, code: Name)
    requires SameRows(s, t)
    ensures
      var (s1, got) := OwnedStep(s, id, w, GiveUp(code));
      var (t1, u) := UcGiveUp(t, id, w, code);
      SameRows(s1, t1) && SameReply(got, u)
  {
    SameKeys(s, t, id);
    if id in t && OwnedBy(s.records[id], w) {
      SameRowsPut(s, t, id, Act(s.records[id], GiveUp(code)), UcGiveUp(t, id, w, code).0[id]);
    }
  }

  /**
   * A completion always leaves the same rows; the replies agree exactly unless a worker that does not
   * own the task asks for the status it already has, which the durable bus accepts.
   */
  lemma CompleteAgreesExactly(s: BusState, t: Table, result: Result, w: Name)
    requires SameRows(s, t)
    ensures
      var id := result.taskId;
      var (s1, got) := OwnedStep(s, id, w, Finish(result));
      var (t1, u) := UcFinish(t, result, w);
      && SameRows(s1, t1)
      && (SameReply(got, u) <==>
          !(id in s.records && !OwnedBy(s.records[id], w) && s.records[id].status == result.status))
  {
    var id := result.taskId;
    SameKeys(s, t, id);
    if id in t && OwnedBy(s.records[id], w) {
      SameRowsPut(s, t, id, Act(s.records[id], Finish(result)), UcFinish(t, result, w).0[id]);
    }
  }

  // ----- claiming a batch -----

  /** Rows were created strictly one after the other, in submission order. */
  ghost predicate InCreationOrder(t: Table, ids: seq<Name>) {
    && (forall id :: id in ids ==> id in t)
    && forall i, j :: 0 <= i < j < |ids| ==> t[ids[i]].createdAt < t[ids[j]].createdAt
  }

  /** The rows the candidate query may return, in the order of `ids`. */
  function LeasableIds(t: Table, ids: seq<Name>, now: int): seq<Name> {
    if ids == [] then []
    else (if ids[0] in t && Leasable(t[ids[0]], now) then [ids[0]] else []) + LeasableIds(t, ids[1..], now)
  }

  lemma {:induction false} LeasableWithin(t: Table, ids: seq<Name>, now: int, id: Name)
    ensures id in LeasableIds(t, ids, now) <==> id in ids && id in t && Leasable(t[id], now)
  {
    if ids != [] {
      LeasableWithin(t, ids[1..], now, id);
    }
  }

  lemma {:induction false} LeasableInOrder(t: Table, ids: seq<Name>, now: int)
    requires InCreationOrder(t, ids)
    ensures InCreationOrder(t, LeasableIds(t, ids, now))
  {
    if ids != [] {
      var later := LeasableIds(t, ids[1..], now);
      LeasableInOrder(t, ids[1..], now);
      forall id | id in later ensures id in ids[1..] && id in t {
        LeasableWithin(t, ids[1..], now, id);
      }
      forall j | 0 <= j < |later| ensures t[ids[0]].createdAt < t[later[j]].createdAt {
        assert later[j] in later;
        var k :| 0 <= k < |ids[1..]| && ids[1..][k] == later[j];
        assert ids[k + 1] == later[j];
      }
    }
  }

  lemma NotBefore(t: Table, all: seq<Name>, n: nat)
    requires InCreationOrder(t, all) && n < |all|
    ensures all[n] !in all[..n]
  {
    forall q | 0 <= q < n ensures all[q] != all[n] {
      assert t[all[q]].createdAt < t[all[n]].createdAt;
    }
  }

  /** Two lists of the leasable rows, both by creation time: the query's answer is a prefix of the other. */
  lemma SelectionAgreesUpTo(t: Table, limit: nat, now: int, ids: seq<Name>, all: seq<Name>, k: nat)
    requires IsSelection(t, limit, now, ids) && InCreationOrder(t, all)
    requires forall id :: id in all <==> id in t && Leasable(t[id], now)
    requires k <= |ids|
    ensures k <= |all| && ids[..k] == all[..k]
    decreases k
  {
    if k > 0 {
      var p := k - 1;
      SelectionAgreesUpTo(t, limit, now, ids, all, p);
      assert ids[p] in all && ids[p] !in ids[..p];
      var m :| 0 <= m < |all| && all[m] == ids[p];
      assert forall k :: 0 <= k < p ==> all[k] in all[..p];
      assert m >= p;
      NotBefore(t, all, p);
      assert all[p] in all;
      assert m == p;
      assert ids[..k] == ids[..p] + [ids[p]] && all[..k] == all[..p] + [all[p]];
    }
  }

  /** There is only one answer: the first `limit` of the leasable rows. */
  lemma SelectionIsPrefix(t: Table, limit: nat, now: int, ids: seq<Name>, all: seq<Name>)
    requires IsSelection(t, limit, now, ids) && InCreationOrder(t, all)
    requires forall id :: id in all <==> id in t && Leasable(t[id], now)
    ensures ids == Take(all, limit)
  {
    SelectionAgreesUpTo(t, limit, now, ids, all, |ids|);
    var n := |ids|;
    assert ids == ids[..n];
    if n < |all| && n < limit {
      assert all[n] in all;
      NotBefore(t, all, n);
    }
  }

  ghost predicate SameLeases(got: seq<Record>, u: seq<Record>) {
    |got| == |u| && forall k :: 0 <= k < |got| ==> Alike(got[k], u[k])
  }

  /** A scan for `limit` leases meets a task whose time is up. */
  predicate DueInReach(s: BusState, ids: seq<Name>, limit: nat, now: int)
    decreases |ids|
  {
    && ids != [] && limit > 0
    && ((ids[0] in s.records && DueNow(s.records[ids[0]], now))
        || DueInReach(s, ids[1..], if CanLease(s, ids[0], now) then limit - 1 else limit, now))
  }

  lemma {:induction false} ReachFrame(
      s: BusState, s1: BusState, id: Name, r: Record, ids: seq<Name>, limit: nat, now: int)
    requires s1.records == s.records[id := r] && id !in ids
    ensures DueInReach(s1, ids, limit, now) == DueInReach(s, ids, limit, now)
    decreases |ids|
  {
    if ids != [] && limit > 0 {
      ReachFrame(s, s1, id, r, ids[1..], if CanLease(s, ids[0], now) then limit - 1 else limit, now);
    }
  }

  /** Within reach of the scan, eligible tasks and leasable rows are the same. */
  lemma {:induction false} TakesAgree(s: BusState, t: Table, ids: seq<Name>, limit: nat, now: int)
    requires SameRows(s, t) && !DueInReach(s, ids, limit, now) && forall id :: id in ids ==> id in s.records
    ensures Take(LeasableIds(t, ids, now), limit) == Take(EligibleIds(s, ids, now), limit)
    decreases |ids|
  {
    hide SameRows, CanLease, Leasable, DueNow, Take;
    if ids == [] {
      assert LeasableIds(t, ids, now) == EligibleIds(s, ids, now);
    } else if limit == 0 {
      TakeNone(LeasableIds(t, ids, now));
      TakeNone(EligibleIds(s, ids, now));
    } else {
      var id, later := ids[0], ids[1..];
      SameEligibility(s, t, id, now);
      TakesAgree(s, t, later, if CanLease(s, id, now) then limit - 1 else limit, now);
      var a, b := LeasableIds(t, later, now), EligibleIds(s, later, now);
      if CanLease(s, id, now) {
        TakeCons(id, a, limit);
        TakeCons(id, b, limit);
      } else {
        assert [] + a == a && [] + b == b;
      }
    }
  }

  lemma SameEligibility(s: BusState, t: Table, id: Name, now: int)
    requires SameRows(s, t) && id in s.records && !DueNow(s.records[id], now)
    ensures id in t && (CanLease(s, id, now) <==> Leasable(t[id], now))
  {
    SameKeys(s, t, id);
  }

  lemma TakeNone(ids: seq<Name>)
    ensures Take(ids, 0) == []
  {
  }

  /** The scan of the in-memory bus and the statements of the durable one, task by task. */
  lemma {:induction false} ScanAgrees(
      s: BusState, t: Table, ids: seq<Name>, w: Name, limit: nat, leaseSeconds: int, now: int)
    requires WellFormed(s) && SameRows(s, t) && Distinct(ids) && !DueInReach(s, ids, limit, now)
    requires forall id :: id in ids ==> id in s.records
    ensures
      var (s1, got) := ClaimScan(s, ids, w, limit, leaseSeconds, now);
      var (t1, u) := UcClaimAll(t, Take(EligibleIds(s, ids, now), limit), w, leaseSeconds, now);
      SameRows(s1, t1) && SameLeases(got, u)
    decreases |ids|
  {
    hide WellFormed, SameRows, Scanned, CanLease, DueNow, ClaimTaskStep, UcClaimOne, Alike;
    if ids != [] && limit > 0 {
      var id, later := ids[0], ids[1..];
      StepShape(s, id, w, leaseSeconds, now);
      var s1 := ClaimTaskStep(s, id, w, leaseSeconds, now).0;
      var limit1 := if CanLease(s, id, now) then limit - 1 else limit;
      assert id !in later;
      var r := Scanned(s.records[id], w, LeaseEnd(now, leaseSeconds), now);
      EligibleFrame(s, s1, id, r, later, now);
      ReachFrame(s, s1, id, r, later, limit1, now);
      var chosen := EligibleIds(s, later, now);
      if CanLease(s, id, now) {
        EligibleDoesNotDiverge(s, id, w, now);
        ClaimTaskAgreesExactly(s, t, id, w, leaseSeconds, now);
        var t1 := UcClaimOne(t, id, w, leaseSeconds, now).0;
        ScanAgrees(s1, t1, later, w, limit - 1, leaseSeconds, now);
        TakeCons(id, chosen, limit);
        ClaimAllCons(t, id, Take(chosen, limit - 1), w, leaseSeconds, now);
      } else {
        assert [] + chosen == chosen;
        SkippedStays(s, t, id, w, leaseSeconds, now);
        ScanAgrees(s1, t, later, w, limit, leaseSeconds, now);
      }
    }
  }

  lemma TakeCons(id: Name, ids: seq<Name>, n: nat)
    requires n > 0
    ensures Take([id] + ids, n) == [id] + Take(ids, n - 1)
  {
  }

  lemma ClaimAllCons(t: Table, id: Name, ids: seq<Name>, w: Name, leaseSeconds: int, now: int)
    ensures
      var (t1, got) := UcClaimOne(t, id, w, leaseSeconds, now);
      var (t2, rest) := UcClaimAll(t1, ids, w, leaseSeconds, now);
      UcClaimAll(t, [id] + ids, w, leaseSeconds, now) == (t2, (if got.Some? then [got.value] else []) + rest)
  {
    assert ([id] + ids)[1..] == ids;
  }

  lemma EligibleDoesNotDiverge(s: BusState, id: Name, w: Name, now: int)
    requires CanLease(s, id, now)
    ensures !ClaimDiverges(s, id, w, now)
  {
  }

  lemma SkippedStays(s: BusState, t: Table, id: Name, w: Name, leaseSeconds: int, now: int)
    requires WellFormed(s) && SameRows(s, t) && id in s.records
    requires !DueNow(s.records[id], now) && !CanLease(s, id, now)
    ensures
      var (s1, got) := ClaimTaskStep(s, id, w, leaseSeconds, now);
      got.None? && SameRows(s1, t)
  {
    SameKeys(s, t, id);
    SameRowsPut(s, t, id, Expire(s.records[id]), t[id]);
    assert t[id := t[id]] == t;
  }

  /** A task the scan finds due turns into expired. */
  lemma {:induction false} DueShows(
      s: BusState, ids: seq<Name>, w: Name, limit: nat, leaseSeconds: int, now: int) returns (id: Name)
    requires WellFormed(s) && Distinct(ids) && DueInReach(s, ids, limit, now)
    requires forall id :: id in ids ==> id in s.records
    ensures id in ids && !s.records[id].status.Expired?
    ensures ClaimScan(s, ids, w, limit, leaseSeconds, now).0.records[id].status.Expired?
    decreases |ids|
  {
    hide WellFormed, CanLease, ClaimTaskStep;
    id := ids[0];
    var later := ids[1..];
    StepShape(s, id, w, leaseSeconds, now);
    var s1 := ClaimTaskStep(s, id, w, leaseSeconds, now).0;
    var limit1 := if CanLease(s, id, now) then limit - 1 else limit;
    assert id !in later;
    if DueNow(s.records[id], now) {
      ScanSkips(s1, later, w, limit1, leaseSeconds, now, id);
    } else {
      ReachFrame(s, s1, id, Scanned(s.records[id], w, LeaseEnd(now, leaseSeconds), now), later, limit1, now);
      id := DueShows(s1, later, w, limit1, leaseSeconds, now);
    }
  }

  lemma {:induction false} NeverExpires(t: Table, ids: seq<Name>, w: Name, leaseSeconds: int, now: int, id: Name)
    requires id in t && !t[id].status.Expired?
    ensures
      var t1 := UcClaimAll(t, ids, w, leaseSeconds, now).0;
      id in t1 && !t1[id].status.Expired?
    decreases |ids|
  {
    if ids != [] {
      ClaimOneShape(t, ids[0], w, leaseSeconds, now);
      hide UcClaimOne;
      NeverExpires(UcClaimOne(t, ids[0], w, leaseSeconds, now).0, ids[1..], w, leaseSeconds, now, id);
    }
  }

  /**
   * A batch claim leaves the same rows and returns the same leases, whatever the worker already holds,
   * exactly when the in-memory scan meets no task whose time is up.
   */
  lemma ClaimAgreesExactly(
      s: BusState, t: Table, w: Name, limit: int, leaseSeconds: int, now: int, candidates: seq<Name>)
    requires WellFormed(s) && Ordered(s) && SameRows(s, t) && InCreationOrder(t, s.order)
    requires IsSelection(t, Max(limit, 1), now, candidates)
    ensures
      var (s1, got) := ClaimStep(s, w, limit, leaseSeconds, now);
      var (t1, u) := UcClaimAll(t, candidates, w, leaseSeconds, now);
      SameRows(s1, t1) && SameLeases(got, u) <==> !DueInReach(s, s.order, Max(limit, 1), now)
  {
    hide IsSelection, SameRows, InCreationOrder, UcClaimAll, ClaimScan, DueInReach, SameLeases;
    var n := Max(limit, 1);
    ListedKeys(s, t);
    if DueInReach(s, s.order, n, now) {
      var id := DueShows(s, s.order, w, n, leaseSeconds, now);
      SameKeys(s, t, id);
      NeverExpires(t, candidates, w, leaseSeconds, now, id);
      var s1, t1 := ClaimStep(s, w, limit, leaseSeconds, now).0, UcClaimAll(t, candidates, w, leaseSeconds, now).0;
      if SameRows(s1, t1) {
        SameKeys(s1, t1, id);
      }
    } else {
      LeasableInOrder(t, s.order, now);
      forall id ensures id in LeasableIds(t, s.order, now) <==> id in t && Leasable(t[id], now) {
        LeasableWithin(t, s.order, now, id);
      }
      SelectionIsPrefix(t, n, now, candidates, LeasableIds(t, s.order, now));
      TakesAgree(s, t, s.order, n, now);
      ScanAgrees(s, t, s.order, w, n, leaseSeconds, now);
    }
  }

  lemma ListedKeys(s: BusState, t: Table)
    requires WellFormed(s) && Ordered(s) && SameRows(s, t)
    ensures forall id :: id in s.order <==> id in s.records
    ensures forall id :: id in s.records <==> id in t
  {
    assert forall id :: id in s.records <==> id in s.records.Keys;
  }

  // ----- whole runs, one call after the other -----

  /** What SQL leaves open in one call: the time of an insert and the answer of a query. */
  datatype Query = Query(clock: int, answer: seq<Name>)

  function Found(q: Query): Option<Name> {
    if q.answer == [] then None else Some(q.answer[0])
  }

  ghost predicate Simulates(s: BusState, t: Table) {
    && WellFormed(s) && Ordered(s) && Indexed(s)
    && SameRows(s, t)
    && InCreationOrder(t, s.order)
    && Filed(t)
  }

  ghost predicate Filed(t: Table) {
    forall id :: id in t ==> t[id].key == t[id].task.idempotencyKey
  }

  function UcApply(t: Table, op: Op, q: Query): Table {
    match op
    case Submit(task) => UcSubmit(t, task, q.clock, Found(q)).0
    case Claim(w, _, leaseSeconds, now) => UcClaimAll(t, q.answer, w, leaseSeconds, now).0
    case ClaimTask(id, w, leaseSeconds, now) => UcClaimOne(t, id, w, leaseSeconds, now).0
    case Own(id, w, Begin) => UcBegin(t, id, w).0
    case Own(_, w, Finish(result)) => UcFinish(t, result, w).0
    case Own(id, w, GiveUp(code)) => UcGiveUp(t, id, w, code).0
  }

  /** The calls of a run on which the two buses are comparable. */
  ghost predicate Comparable(s: BusState, t: Table, op: Op, q: Query) {
    match op
    case Submit(task) =>
      && Fresh(s, op)
      && IsLookup(t, task.idempotencyKey, Found(q))
      && forall id :: id in t ==> t[id].createdAt < q.clock
    case Claim(_, limit, _, now) =>
      IsSelection(t, Max(limit, 1), now, q.answer) && !DueInReach(s, s.order, Max(limit, 1), now)
    case ClaimTask(id, w, _, now) => !ClaimDiverges(s, id, w, now)
    case Own(id, _, Finish(result)) => id == result.taskId
    case Own(_, _, _) => true
  }

  lemma SubmitAgrees(s: BusState, t: Table, task: Task, q: Query)
    requires Simulates(s, t) && Comparable(s, t, Submit(task), q)
    ensures Simulates(SubmitStep(s, task).0, UcSubmit(t, task, q.clock, Found(q)).0)
    ensures Alike(SubmitStep(s, task).1, UcSubmit(t, task, q.clock, Found(q)).1)
  {
    hide WellFormed, Ordered, Indexed, SameRows, InCreationOrder, Filed, IsLookup;
    LookupAgrees(s, t, task.idempotencyKey, Found(q));
    if KnownKey(s, task.idempotencyKey) {
      SameKeys(s, t, Found(q).value);
    } else {
      hide SubmitStep, KnownKey;
      AppendAgrees(s, t, task, q.clock);
      IndexedAfter(s, task);
      SubmittedRecord(s, task);
      InsertFiled(t, task, q.clock);
    }
  }

  lemma InsertFiled(t: Table, task: Task, clock: int)
    requires Filed(t)
    ensures Filed(InsertRow(t, task, clock))
  {
  }

  lemma SubmittedRecord(s: BusState, task: Task)
    requires WellFormed(s) && !KnownKey(s, task.idempotencyKey)
    ensures SubmitStep(s, task).1 == NewRecord(task)
  {
  }

  lemma IndexedAfter(s: BusState, task: Task)
    requires WellFormed(s) && Indexed(s) && Fresh(s, Submit(task))
    ensures Indexed(SubmitStep(s, task).0)
  {
    hide WellFormed, Indexed, SubmitStep;
    StepIndexed(History(s, []), Submit(task));
  }

  /** A new task goes to the end of the order with the latest creation time. */
  lemma AppendAgrees(s: BusState, t: Table, task: Task, clock: int)
    requires WellFormed(s) && Ordered(s) && SameRows(s, t) && InCreationOrder(t, s.order)
    requires !KnownKey(s, task.idempotencyKey) && task.taskId !in s.records
    requires forall id :: id in t ==> t[id].createdAt < clock
    ensures
      var s1, t1 := SubmitStep(s, task).0, InsertRow(t, task, clock);
      task.taskId !in t && WellFormed(s1) && Ordered(s1) && SameRows(s1, t1) && InCreationOrder(t1, s1.order)
  {
    SameKeys(s, t, task.taskId);
    AppendRows(s, t, task, clock);
    AppendOrder(s, t, task, clock);
  }

  lemma AppendRows(s: BusState, t: Table, task: Task, clock: int)
    requires WellFormed(s) && SameRows(s, t) && !KnownKey(s, task.idempotencyKey)
    requires task.taskId !in s.records && task.taskId !in t
    ensures
      var s1 := SubmitStep(s, task).0;
      WellFormed(s1) && SameRows(s1, InsertRow(t, task, clock))
  {
  }

  lemma AppendOrder(s: BusState, t: Table, task: Task, clock: int)
    requires WellFormed(s) && Ordered(s) && InCreationOrder(t, s.order) && !KnownKey(s, task.idempotencyKey)
    requires task.taskId !in s.records && task.taskId !in t && forall id :: id in t ==> t[id].createdAt < clock
    ensures
      var s1 := SubmitStep(s, task).0;
      Ordered(s1) && InCreationOrder(InsertRow(t, task, clock), s1.order)
  {
    assert task.taskId !in s.order;
  }

  lemma LookupAgrees(s: BusState, t: Table, key: Name, found: Option<Name>)
    requires Simulates(s, t) && IsLookup(t, key, found)
    ensures found.Some? <==> KnownKey(s, key)
    ensures found.Some? ==> found.value in t && s.index[key] == found.value
  {
    if found.Some? {
      SameKeys(s, t, found.value);
    }
    if KnownKey(s, key) {
      SameKeys(s, t, s.index[key]);
    }
  }

  /** Everything but a submission keeps the rows, their keys and their creation times. */
  ghost predicate SameFiling(t: Table, t1: Table) {
    && t1.Keys == t.Keys
    && forall id :: id in t ==>
         && t1[id].createdAt == t[id].createdAt && t1[id].key == t[id].key
         && t1[id].task.idempotencyKey == t[id].task.idempotencyKey
  }

  lemma ClaimOneFiling(t: Table, id: Name, w: Name, leaseSeconds: int, now: int)
    ensures SameFiling(t, UcClaimOne(t, id, w, leaseSeconds, now).0)
  {
    ClaimOneShape(t, id, w, leaseSeconds, now);
  }

  lemma {:induction false} ClaimAllFiling(t: Table, ids: seq<Name>, w: Name, leaseSeconds: int, now: int)
    ensures SameFiling(t, UcClaimAll(t, ids, w, leaseSeconds, now).0)
    decreases |ids|
  {
    hide UcClaimOne;
    if ids != [] {
      ClaimOneFiling(t, ids[0], w, leaseSeconds, now);
      ClaimAllFiling(UcClaimOne(t, ids[0], w, leaseSeconds, now).0, ids[1..], w, leaseSeconds, now);
    }
  }

  lemma FilingKeepsSimulation(s: BusState, t: Table, s1: BusState, t1: Table)
    requires Simulates(s, t) && SameRows(s1, t1) && SameFiling(t, t1)
    requires WellFormed(s1) && s1.order == s.order && s1.index == s.index
    ensures Simulates(s1, t1)
  {
    hide WellFormed, Ordered, Indexed, SameRows, InCreationOrder, U.RowConsistent;
    KeysFromRows(s, t);
    KeysFromRows(s1, t1);
    forall id | id in s.records ensures s1.records[id].task.idempotencyKey == s.records[id].task.idempotencyKey {
      SameKeys(s, t, id);
      SameKeys(s1, t1, id);
    }
    OrderedFrame(s, s1);
    IndexedFrame(s, s1);
    CreationOrderFrame(t, t1, s.order);
  }

  lemma KeysFromRows(s: BusState, t: Table)
    requires SameRows(s, t)
    ensures s.records.Keys == t.Keys
  {
  }

  lemma CreationOrderFrame(t: Table, t1: Table, ids: seq<Name>)
    requires InCreationOrder(t, ids) && SameFiling(t, t1)
    ensures InCreationOrder(t1, ids)
  {
  }

  lemma StepSimulates(s: BusState, t: Table, op: Op, q: Query)
    requires Simulates(s, t) && Comparable(s, t, op, q)
    ensures Simulates(Apply(s, op), UcApply(t, op, q))
  {
    var s1, t1 := Apply(s, op), UcApply(t, op, q);
    match op
    case Submit(task) =>
      SubmitAgrees(s, t, task, q);
    case Claim(w, limit, leaseSeconds, now) =>
      ClaimAgreesExactly(s, t, w, limit, leaseSeconds, now, q.answer);
      ClaimAllFiling(t, q.answer, w, leaseSeconds, now);
      FilingKeepsSimulation(s, t, s1, t1);
    case ClaimTask(id, w, leaseSeconds, now) =>
      ClaimTaskAgreesExactly(s, t, id, w, leaseSeconds, now);
      ClaimOneFiling(t, id, w, leaseSeconds, now);
      FilingKeepsSimulation(s, t, s1, t1);
    case Own(id, w, action) =>
      OwnSimulates(s, t, id, w, action, q);
  }

  lemma OwnFiling(t: Table, id: Name, w: Name, action: Action, q: Query)
    ensures SameFiling(t, UcApply(t, Own(id, w, action), q))
  {
  }

  lemma OwnFrame(s: BusState, id: Name, w: Name, action: Action)
    requires WellFormed(s)
    ensures
      var s1 := OwnedStep(s, id, w, action).0;
      WellFormed(s1) && s1.order == s.order && s1.index == s.index
  {
  }

  lemma OwnSimulates(s: BusState, t: Table, id: Name, w: Name, action: Action, q: Query)
    requires Simulates(s, t) && Comparable(s, t, Own(id, w, action), q)
    ensures Simulates(OwnedStep(s, id, w, action).0, UcApply(t, Own(id, w, action), q))
  {
    hide WellFormed, Ordered, Indexed, SameRows, InCreationOrder, OwnedStep, UcBegin, UcFinish, UcGiveUp, SameFiling;
    OwnFiling(t, id, w, action, q);
    OwnFrame(s, id, w, action);
    match action {
      case Begin => MarkRunningAgrees(s, t, id, w);
      case Finish(result) => CompleteAgreesExactly(s, t, result, w);
      case GiveUp(code) => FailAgrees(s, t, id, w, code);
    }
    FilingKeepsSimulation(s, t, OwnedStep(s, id, w, action).0, UcApply(t, Own(id, w, action), q));
  }

  ghost predicate AllComparable(s: BusState, t: Table, ops: seq<Op>, qs: seq<Query>)
    requires WellFormed(s) && |qs| == |ops|
    decreases |ops|
  {
    ops == [] ||
    (Comparable(s, t, ops[0], qs[0]) && AllComparable(Apply(s, ops[0]), UcApply(t, ops[0], qs[0]), ops[1..], qs[1..]))
  }

  function UcApplyAll(t: Table, ops: seq<Op>, qs: seq<Query>): Table
    requires |qs| == |ops|
    decreases |ops|
  {
    if ops == [] then t else UcApplyAll(UcApply(t, ops[0], qs[0]), ops[1..], qs[1..])
  }

  /**
   * Along every run of calls made one after the other, with rows created at strictly increasing times and
   * no claim on which the buses are known to diverge, the durable bus keeps the same tasks as the
   * in-memory one, with equal status, counter, owner, lease and result.
   */
  lemma {:induction false} DurableBusSimulates(s: BusState, t: Table, ops: seq<Op>, qs: seq<Query>)
    requires Simulates(s, t) && |qs| == |ops| && AllComparable(s, t, ops, qs)
    ensures Simulates(ApplyAll(s, ops), UcApplyAll(t, ops, qs))
    decreases |ops|
  {
    hide Comparable, WellFormed, Ordered, Indexed, SameRows, InCreationOrder;
    if ops != [] {
      StepSimulates(s, t, ops[0], qs[0]);
      DurableBusSimulates(Apply(s, ops[0]), UcApply(t, ops[0], qs[0]), ops[1..], qs[1..]);
    }
  }

  lemma EmptySimulates()
    ensures Simulates(EMPTY_BUS, map[])
  {
  }

  /** In particular from two empty buses, every task keeps the same record on both. */
  lemma SameFromEmpty(ops: seq<Op>, qs: seq<Query>, id: Name)
    requires |qs| == |ops| && WellFormed(EMPTY_BUS) && AllComparable(EMPTY_BUS, map[], ops, qs)
    ensures
      var s, t := ApplyAll(EMPTY_BUS, ops), UcApplyAll(map[], ops, qs);
      && (id in s.records <==> id in t)
      && (id in t ==> Alike(s.records[id], RecordOf(t[id])))
  {
    EmptySimulates();
    DurableBusSimulates(EMPTY_BUS, map[], ops, qs);
    SameKeys(ApplyAll(EMPTY_BUS, ops), UcApplyAll(map[], ops, qs), id);
  }
}
