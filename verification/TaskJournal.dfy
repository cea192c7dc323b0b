/**
 * What the log of a run says about a task, entry by entry, and that the stored record says the same: its
 * status, owner, lease time, result and failure code are those of the last entry that concerns them.
 */
module TaskJournal {
  import opened Basics
  import opened Delegation
  import opened TaskBus
  import opened TaskBusRuns
  import opened RetryBudget

  /** The entries of one task, in order. */
  function EntriesOf(log: seq<Event>, id: Name): seq<Event> {
    if log == [] then []
    else
      var n := |log| - 1;
      EntriesOf(log[..n], id) + if log[n].id == id then [log[n]] else []
  }

  /** The last lease among some entries, if the task was not settled or given up since. */
  function OpenLease(entries: seq<Event>): Option<Event> {
    if entries == [] then None
    else match entries[|entries| - 1]
      case Leased(_, _, _, _, _) => Some(entries[|entries| - 1])
      case Settled(_, _) => None
      case GivenUp(_, _) => None
      case _ => OpenLease(entries[..|entries| - 1])
  }

  /** The last result among some entries. */
  function LastResult(entries: seq<Event>): Option<Result> {
    if entries == [] then None
    else match entries[|entries| - 1]
      case Settled(_, result) => Some(result)
      case _ => LastResult(entries[..|entries| - 1])
  }

  /** The code of the last give-up or expiry, if the task was not leased since. */
  function LastCode(entries: seq<Event>): Option<Name> {
    if entries == [] then None
    else match entries[|entries| - 1]
      case GivenUp(_, code) => Some(code)
      case Lapsed(_) => Some(Name("task_expired"))
      case Leased(_, _, _, _, _) => None
      case _ => LastCode(entries[..|entries| - 1])
  }

  /** The status that goes with the last entry; a task that was given up is pending while it has attempts left. */
  predicate StatusFits(status: Status, entries: seq<Event>, task: Task) {
    if entries == [] then status.Pending?
    else match entries[|entries| - 1]
      case Leased(_, _, _, _, _) => status.Claimed?
      case Began(_) => status.Running?
      case Settled(_, result) => status == result.status
      case GivenUp(_, _) => if task.attempt < task.maxAttempts then status.Pending? else status.DeadLetter?
      case Lapsed(_) => status.Expired?
  }

  predicate Matches(r: Record, entries: seq<Event>) {
    && StatusFits(r.status, entries, r.task)
    && r.result == LastResult(entries)
    && r.failureCode == LastCode(entries)
    && match OpenLease(entries)
       case None => r.leaseOwner.None? && r.leaseExpiresAt.None?
       case Some(lease) =>
         lease.Leased? && r.leaseOwner == Some(lease.worker)
         && r.leaseExpiresAt == Some(lease.at + Max(lease.leaseSeconds, 1))
  }

  ghost predicate Journaled(h: History, id: Name) {
    if id in h.bus.records then Matches(h.bus.records[id], EntriesOf(h.log, id)) else EntriesOf(h.log, id) == []
  }

  lemma EntriesAppend(log: seq<Event>, e: Event, id: Name)
    ensures EntriesOf(log + [e], id) == EntriesOf(log, id) + if e.id == id then [e] else []
  {
    assert (log + [e])[..|log|] == log;
  }

  /** One more entry of the task. */
  lemma OneMore(entries: seq<Event>, e: Event)
    ensures
      var more := entries + [e];
      && OpenLease(more) == (match e
           case Leased(_, _, _, _, _) => Some(e)
           case Settled(_, _) => None
           case GivenUp(_, _) => None
           case _ => OpenLease(entries))
      && LastResult(more) == (if e.Settled? then Some(e.result) else LastResult(entries))
      && LastCode(more) == (match e
           case GivenUp(_, code) => Some(code)
           case Lapsed(_) => Some(Name("task_expired"))
           case Leased(_, _, _, _, _) => None
           case _ => LastCode(entries))
      && more[|more| - 1] == e
  {
    assert (entries + [e])[..|entries|] == entries;
  }

  /** A leased record never carries an earlier result, so taking a task clears nothing the log remembers. */
  ghost predicate Clean(h: History, id: Name) {
    id in h.bus.records ==>
      (h.bus.records[id].result.Some? ==> IsTerminal(h.bus.records[id].status))
  }

  lemma StepJournaled(h: History, op: Op, id: Name)
    requires WellFormed(h.bus) && !op.Claim? && Fresh(h.bus, op) && Journaled(h, id) && Clean(h, id)
    ensures Journaled(Step(h, op), id) && Clean(Step(h, op), id)
  {
    hide WellFormed, EntriesOf, OpenLease, LastResult, LastCode;
    var more, entries := Emit(h.bus, op), EntriesOf(h.log, id);
    if more == [] {
      assert h.log + more == h.log;
      NoEntries();
    } else {
      assert more == [more[0]];
      EntriesAppend(h.log, more[0], id);
      assert entries + [] == entries;
      OneMore(entries, more[0]);
    }
  }

  lemma NoEntries()
    ensures OpenLease([]) == None && LastResult([]) == None && LastCode([]) == None
  {
  }

  lemma {:induction false} RunJournaled(h: History, ops: seq<Op>, id: Name)
    requires WellFormed(h.bus) && SingleSteps(ops) && AllFresh(h.bus, ops) && Journaled(h, id) && Clean(h, id)
    ensures Journaled(Run(h, ops), id) && Clean(Run(h, ops), id)
    decreases |ops|
  {
    hide WellFormed, Journaled, Clean;
    if ops != [] {
      StepJournaled(h, ops[0], id);
      RunJournaled(Step(h, ops[0]), ops[1..], id);
    }
  }

  /**
   * For every run from the empty bus, a record is what its log says: the status of the last entry, the
   * owner and end of a lease not settled or given up since, the last result, and the code of the last
   * give-up or expiry unless the task was leased since.
   */
  lemma RecordTellsLog(ops: seq<Op>, id: Name)
    requires AllFresh(EMPTY_BUS, ops) && id in ApplyAll(EMPTY_BUS, ops).records
    ensures Matches(ApplyAll(EMPTY_BUS, ops).records[id], EntriesOf(Trace(EMPTY_BUS, ops).log, id))
  {
    FlattenRun(History(EMPTY_BUS, []), ops);
    FlattenFresh(EMPTY_BUS, ops);
    RunJournaled(History(EMPTY_BUS, []), Flatten(EMPTY_BUS, ops), id);
  }
}
