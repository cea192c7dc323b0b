/**
 * The durable bus as it runs: any number of workers, each sending one SQL statement at a time,
 * interleaved in any order. A write may silently do nothing and a read may come back empty, because
 * the outcome of a statement is never inspected; a worker may stop between any two statements.
 */
module UcInterleaving {
  import opened Basics
  import opened Delegation
  import opened UcTable

  datatype Call =
    | Submit(task: Task)
    | Claim(limit: int, leaseSeconds: int, now: int)
    | ClaimTask(id: Name, leaseSeconds: int, now: int)
    | MarkRunning(id: Name)
    | Complete(result: Result)
    | Fail(id: Name, code: Name)

  /** The statement a worker sends next; `rest` are the candidates still to lease. */
  datatype Pc =
    | Idle
    | AtLookup(task: Task)
    | AtInsert(task: Task)
    | AtSelect(limit: nat, leaseSeconds: int, now: int)
    | AtLease(id: Name, rest: seq<Name>, leaseSeconds: int, now: int)
    | AtReadBack(id: Name, rest: seq<Name>, leaseSeconds: int, now: int)
    | AtPayload(id: Name, task: Task, rest: seq<Name>, leaseSeconds: int, now: int)
    | AtBegin(id: Name)
    | AtReadBegun(id: Name)
    | AtFinish(result: Result)
    | AtReadFinished(result: Result)
    | AtReadOwned(id: Name, code: Name)
    | AtGiveUp(id: Name, code: Name, status: Status)
    | AtReadGivenUp(id: Name)

  function LeaseNext(todo: seq<Name>, leaseSeconds: int, now: int): Pc {
    if todo == [] then Idle else AtLease(todo[0], todo[1..], leaseSeconds, now)
  }

  function Entry(c: Call): Pc {
    match c
    case Submit(task) => AtLookup(task)
    case Claim(limit, leaseSeconds, now) => AtSelect(Max(limit, 1), leaseSeconds, now)
    case ClaimTask(id, leaseSeconds, now) => AtLease(id, [], leaseSeconds, now)
    case MarkRunning(id) => AtBegin(id)
    case Complete(result) => AtFinish(result)
    case Fail(id, code) => AtReadOwned(id, code)
  }

  function Verdict(task: Task): Status {
    if task.attempt >= task.maxAttempts then DeadLetter else Pending
  }

  /** What one statement sees: whether it took effect, the rows a query returned, and the clock. */
  datatype Outcome = Outcome(effective: bool, rows: seq<Name>, clock: int)

  /** One statement of worker `me`: the new table and the next statement. */
  function Perform(t: Table, me: Name, pc: Pc, o: Outcome): (Table, Pc) {
    match pc
    case Idle => (t, Idle)
    case AtLookup(task) => (t, if o.effective && o.rows != [] then Idle else AtInsert(task))
    case AtInsert(task) => (if o.effective then InsertRow(t, task, o.clock) else t, Idle)
    case AtSelect(_, leaseSeconds, now) => (t, LeaseNext(if o.effective then o.rows else [], leaseSeconds, now))
    case AtLease(id, rest, leaseSeconds, now) =>
      (if o.effective then LeaseRow(t, id, me, now + Max(leaseSeconds, 1), now) else t,
       AtReadBack(id, rest, leaseSeconds, now))
    case AtReadBack(id, rest, leaseSeconds, now) =>
      if o.effective && HeldBy(t, id, me) && t[id].status.Claimed?
      then (t, AtPayload(id, t[id].task.(attempt := t[id].task.attempt + 1), rest, leaseSeconds, now))
      else (t, LeaseNext(rest, leaseSeconds, now))
    case AtPayload(id, task, rest, leaseSeconds, now) =>
      (if o.effective then WritePayload(t, id, me, task) else t, LeaseNext(rest, leaseSeconds, now))
    case AtBegin(id) => (if o.effective then BeginRow(t, id, me) else t, AtReadBegun(id))
    case AtReadBegun(_) => (t, Idle)
    case AtFinish(result) => (if o.effective then FinishRow(t, result, me) else t, AtReadFinished(result))
    case AtReadFinished(_) => (t, Idle)
    case AtReadOwned(id, code) =>
      if o.effective && HeldBy(t, id, me) && IsLeased(t[id].status)
      then (t, AtGiveUp(id, code, Verdict(t[id].task)))
      else (t, Idle)
    case AtGiveUp(id, code, status) =>
      (if o.effective then GiveUpRow(t, id, me, status, code) else t, AtReadGivenUp(id))
    case AtReadGivenUp(_) => (t, Idle)
  }

  // ----- workers and moves -----

  datatype Proc = Proc(worker: Name, pc: Pc)

  datatype World = World(table: Table, procs: map<int, Proc>)

  datatype Move =
    | Invoke(p: int, call: Call)
    | Exec(p: int, outcome: Outcome)
    | Stop(p: int)

  ghost predicate Enabled(w: World, m: Move) {
    && m.p in w.procs
    && (m.Invoke? ==> w.procs[m.p].pc.Idle?
                      && (m.call.Submit? ==> m.call.task.attempt == 0 && Constructible(m.call.task)))
    && (m.Exec? && m.outcome.effective ==>
          match w.procs[m.p].pc
          case AtLookup(task) =>
            IsLookup(w.table, task.idempotencyKey, if m.outcome.rows == [] then None else Some(m.outcome.rows[0]))
          case AtInsert(task) => task.taskId !in w.table
          case AtSelect(limit, _, now) => IsSelection(w.table, limit, now, m.outcome.rows)
          case _ => true)
  }

  function Next(w: World, m: Move): World
    requires m.p in w.procs
  {
    var me := w.procs[m.p];
    match m
    case Invoke(p, call) => w.(procs := w.procs[p := me.(pc := Entry(call))])
    case Exec(p, o) =>
      var (t, pc) := Perform(w.table, me.worker, me.pc, o);
      World(t, w.procs[p := me.(pc := pc)])
    case Stop(p) => w.(procs := w.procs[p := me.(pc := Idle)])
  }

  ghost predicate AllEnabled(w: World, moves: seq<Move>)
    decreases |moves|
  {
    moves == [] || (Enabled(w, moves[0]) && AllEnabled(Next(w, moves[0]), moves[1..]))
  }

  ghost function Run(w: World, moves: seq<Move>): World
    requires AllEnabled(w, moves)
    decreases |moves|
  {
    if moves == [] then w else Run(Next(w, moves[0]), moves[1..])
  }

  // ----- leases and results, for any worker ids -----

  predicate RowConsistent(row: Row) {
    && (row.leaseOwner.Some? <==> IsLeased(row.status))
    && (row.leaseExpiresAt.Some? <==> IsLeased(row.status))
    && (row.result.Some? ==> IsTerminal(row.status))
  }

  ghost predicate Consistent(w: World) {
    && (forall id :: id in w.table ==> RowConsistent(w.table[id]))
    && (forall p :: p in w.procs && w.procs[p].pc.AtGiveUp? ==>
          w.procs[p].pc.status.Pending? || w.procs[p].pc.status.DeadLetter?)
  }

  /** An empty table and workers that have not sent anything yet. */
  ghost predicate Initial(w: World) {
    w.table == map[] && forall p :: p in w.procs ==> w.procs[p].pc.Idle?
  }

  lemma NextConsistent(w: World, m: Move)
    requires Consistent(w) && Enabled(w, m)
    ensures Consistent(Next(w, m))
  {
  }

  lemma NextKeepsTerminal(w: World, m: Move, id: Name)
    requires Consistent(w) && Enabled(w, m) && id in w.table && IsTerminal(w.table[id].status)
    ensures id in Next(w, m).table && Next(w, m).table[id] == w.table[id]
  {
  }

  /**
   * For any number of workers with any names, any interleaving, any stops and any silently lost
   * statements: a row has a lease owner and a lease time exactly while it is claimed or running.
   */
  lemma {:induction false} RunConsistent(w: World, moves: seq<Move>)
    requires Consistent(w) && AllEnabled(w, moves)
    ensures Consistent(Run(w, moves))
    decreases |moves|
  {
    if moves != [] {
      NextConsistent(w, moves[0]);
      RunConsistent(Next(w, moves[0]), moves[1..]);
    }
  }

  /** A row in a terminal status is frozen: status, payload, result and lease never change again. */
  lemma {:induction false} TerminalRowsFrozen(w: World, moves: seq<Move>, id: Name)
    requires Consistent(w) && AllEnabled(w, moves)
    requires id in w.table && IsTerminal(w.table[id].status)
    ensures id in Run(w, moves).table && Run(w, moves).table[id] == w.table[id]
    decreases |moves|
  {
    if moves != [] {
      NextConsistent(w, moves[0]);
      NextKeepsTerminal(w, moves[0], id);
      TerminalRowsFrozen(Next(w, moves[0]), moves[1..], id);
    }
  }

  /** Hence a result, once stored, is never replaced or removed: it is written at most once. */
  lemma ResultWrittenOnce(w: World, before: seq<Move>, after: seq<Move>, id: Name)
    requires Consistent(w) && AllEnabled(w, before) && AllEnabled(Run(w, before), after)
    requires id in Run(w, before).table && Run(w, before).table[id].result.Some?
    ensures
      var t := Run(Run(w, before), after).table;
      && id in t && t[id] == Run(w, before).table[id]
      && IsTerminal(t[id].status) && t[id].leaseOwner.None?
  {
    RunConsistent(w, before);
    TerminalRowsFrozen(Run(w, before), after, id);
  }
}
