/** Lease exclusion on the durable table, for any workers and any interleaving of their statements. */
module UcLeases {
  import opened Basics
  import opened Delegation
  import opened UcTable
  import opened UcInterleaving

  /** Move `m` is a lease statement that takes effect on task `id`. */
  predicate LeaseWrite(w: World, m: Move, id: Name) {
    && m.Exec? && m.p in w.procs && m.outcome.effective
    && w.procs[m.p].pc.AtLease? && w.procs[m.p].pc.id == id
    && id in w.table && Leasable(w.table[id], w.procs[m.p].pc.now)
  }

  /** Move `m` gives task `id` up, back to pending or to the dead letters. */
  predicate GiveUpWrite(w: World, m: Move, id: Name) {
    && m.Exec? && m.p in w.procs && m.outcome.effective
    && w.procs[m.p].pc.AtGiveUp? && w.procs[m.p].pc.id == id
    && HeldBy(w.table, id, w.procs[m.p].worker)
  }

  ghost predicate NoGiveUps(w: World, moves: seq<Move>, id: Name)
    requires AllEnabled(w, moves)
    decreases |moves|
  {
    moves == [] || (!GiveUpWrite(w, moves[0], id) && NoGiveUps(Next(w, moves[0]), moves[1..], id))
  }

  /** Task `id` is settled, or leased at least until `end`. */
  predicate KeptUntil(t: Table, id: Name, end: int) {
    && id in t
    && (IsTerminal(t[id].status)
        || (IsLeased(t[id].status) && t[id].leaseExpiresAt.Some? && t[id].leaseExpiresAt.value >= end))
  }

  lemma NextKept(w: World, m: Move, id: Name, end: int)
    requires Consistent(w) && Enabled(w, m) && KeptUntil(w.table, id, end) && !GiveUpWrite(w, m, id)
    ensures KeptUntil(Next(w, m).table, id, end)
    ensures LeaseWrite(w, m, id) ==> w.procs[m.p].pc.now >= end
  {
  }

  lemma {:induction false} RunKept(w: World, moves: seq<Move>, id: Name, end: int)
    requires Consistent(w) && AllEnabled(w, moves) && NoGiveUps(w, moves, id) && KeptUntil(w.table, id, end)
    ensures KeptUntil(Run(w, moves).table, id, end)
    decreases |moves|
  {
    hide Consistent, KeptUntil, GiveUpWrite;
    if moves != [] {
      NextConsistent(w, moves[0]);
      NextKept(w, moves[0], id, end);
      RunKept(Next(w, moves[0]), moves[1..], id, end);
    }
  }

  lemma LeaseWriteKeeps(w: World, m: Move, id: Name)
    requires Enabled(w, m) && LeaseWrite(w, m, id)
    ensures KeptUntil(Next(w, m).table, id, w.procs[m.p].pc.now + Max(w.procs[m.p].pc.leaseSeconds, 1))
  {
  }

  /**
   * For any number of workers with any names, any interleaving, any stops and any silently lost
   * statements: two effective leases of one task with no effective give-up in between lie at least
   * max(lease_seconds, 1) apart on the clocks of their calls.
   */
  lemma RowLeasesDoNotOverlap(w: World, first: Move, between: seq<Move>, second: Move, id: Name)
    requires Consistent(w) && Enabled(w, first) && LeaseWrite(w, first, id)
    requires AllEnabled(Next(w, first), between) && NoGiveUps(Next(w, first), between, id)
    requires Enabled(Run(Next(w, first), between), second)
    requires LeaseWrite(Run(Next(w, first), between), second, id)
    ensures
      var call, later := w.procs[first.p].pc, Run(Next(w, first), between).procs[second.p].pc;
      later.now >= call.now + Max(call.leaseSeconds, 1)
  {
    hide Consistent, KeptUntil;
    var end := w.procs[first.p].pc.now + Max(w.procs[first.p].pc.leaseSeconds, 1);
    var v := Run(Next(w, first), between);
    NextConsistent(w, first);
    LeaseWriteKeeps(w, first, id);
    RunKept(Next(w, first), between, id, end);
    RunConsistent(Next(w, first), between);
    NextKept(v, second, id, end);
  }
}
