/**
 * The attempt counter of the durable bus. It is read, incremented and written back by separate
 * statements that other workers interleave with; the owner guard on the write is what keeps it right
 * as long as no two workers share a name.
 */
module UcAttempts {
  import opened Basics
  import opened Delegation
  import opened UcTable
  import opened UcInterleaving

  ghost predicate DistinctWorkers(w: World) {
    forall p, q :: p in w.procs && q in w.procs && p != q ==> w.procs[p].worker != w.procs[q].worker
  }

  predicate Budgeted(row: Row) {
    && (row.status.Pending? ==> row.task.attempt < row.task.maxAttempts)
    && (row.status.DeadLetter? ==> row.task.attempt >= row.task.maxAttempts)
  }

  /** What a worker remembers of a row is still true as long as it owns the row. */
  predicate Current(t: Table, me: Proc) {
    match me.pc
    case AtLookup(task) => task.attempt == 0 && task.maxAttempts >= 1
    case AtInsert(task) => task.attempt == 0 && task.maxAttempts >= 1
    case AtPayload(id, task, _, _, _) =>
      HeldBy(t, id, me.worker) ==> task == t[id].task.(attempt := t[id].task.attempt + 1)
    case AtGiveUp(id, _, status) =>
      (status.Pending? || status.DeadLetter?) && (HeldBy(t, id, me.worker) ==> status == Verdict(t[id].task))
    case _ => true
  }

  ghost predicate Sound(w: World) {
    && DistinctWorkers(w)
    && (forall id :: id in w.table ==> RowConsistent(w.table[id]) && Budgeted(w.table[id]))
    && (forall p :: p in w.procs ==> Current(w.table, w.procs[p]))
  }

  /** Move `m` is a payload write that takes effect on task `id`. */
  predicate PayloadWrite(w: World, m: Move, id: Name) {
    && m.Exec? && m.p in w.procs && m.outcome.effective
    && w.procs[m.p].pc.AtPayload? && w.procs[m.p].pc.id == id
    && HeldBy(w.table, id, w.procs[m.p].worker)
  }

  lemma NextRows(w: World, m: Move, id: Name)
    requires Sound(w) && Enabled(w, m) && id in Next(w, m).table
    ensures RowConsistent(Next(w, m).table[id]) && Budgeted(Next(w, m).table[id])
  {
    var me := w.procs[m.p];
    assert Current(w.table, me);
  }

  lemma NextCurrent(w: World, m: Move, p: int)
    requires Sound(w) && Enabled(w, m) && p in w.procs
    ensures Current(Next(w, m).table, Next(w, m).procs[p])
  {
    hide RowConsistent, Budgeted;
    assert Current(w.table, w.procs[p]) && Current(w.table, w.procs[m.p]);
    if p != m.p {
      assert w.procs[p].worker != w.procs[m.p].worker;
    }
  }

  lemma NextSound(w: World, m: Move)
    requires Sound(w) && Enabled(w, m)
    ensures Sound(Next(w, m))
  {
    hide RowConsistent, Budgeted, Current, Next;
    var v := Next(w, m);
    NextNames(w, m);
    forall id | id in v.table ensures RowConsistent(v.table[id]) && Budgeted(v.table[id]) {
      NextRows(w, m, id);
    }
    forall p | p in v.procs ensures Current(v.table, v.procs[p]) {
      NextCurrent(w, m, p);
    }
  }

  lemma NextNames(w: World, m: Move)
    requires m.p in w.procs
    ensures Next(w, m).procs.Keys == w.procs.Keys
    ensures forall p :: p in w.procs ==> Next(w, m).procs[p].worker == w.procs[p].worker
  {
  }

  /**
   * One statement never overwrites an increment: the stored payload either stays as it is or, on an
   * effective payload write, is the same payload with the counter raised by exactly one.
   */
  lemma NextPayload(w: World, m: Move, id: Name)
    requires Sound(w) && Enabled(w, m) && id in w.table
    ensures id in Next(w, m).table
    ensures Next(w, m).table[id].task ==
            if PayloadWrite(w, m, id) then w.table[id].task.(attempt := w.table[id].task.attempt + 1)
            else w.table[id].task
  {
    assert Current(w.table, w.procs[m.p]);
  }

  /** How many payload writes of a run take effect on task `id`. */
  ghost function PayloadWrites(w: World, moves: seq<Move>, id: Name): nat
    requires AllEnabled(w, moves)
    decreases |moves|
  {
    if moves == [] then 0
    else (if PayloadWrite(w, moves[0], id) then 1 else 0) + PayloadWrites(Next(w, moves[0]), moves[1..], id)
  }

  lemma {:induction false} RunSound(w: World, moves: seq<Move>)
    requires Sound(w) && AllEnabled(w, moves)
    ensures Sound(Run(w, moves))
    decreases |moves|
  {
    hide Sound;
    if moves != [] {
      NextSound(w, moves[0]);
      RunSound(Next(w, moves[0]), moves[1..]);
    }
  }

  function Attempts(t: Table, id: Name): int {
    if id in t then t[id].task.attempt else 0
  }

  /**
   * Along every run of distinctly named workers, with any interleaving, stops and lost statements, no
   * increment is lost to a stale write: the counter grows by the number of effective payload writes.
   */
  lemma {:induction false} AttemptsAddUp(w: World, moves: seq<Move>, id: Name)
    requires Sound(w) && AllEnabled(w, moves)
    ensures Attempts(Run(w, moves).table, id) == Attempts(w.table, id) + PayloadWrites(w, moves, id)
    decreases |moves|
  {
    hide Sound;
    if moves != [] {
      NextAttempts(w, moves[0], id);
      NextSound(w, moves[0]);
      AttemptsAddUp(Next(w, moves[0]), moves[1..], id);
    }
  }

  lemma NextAttempts(w: World, m: Move, id: Name)
    requires Sound(w) && Enabled(w, m)
    ensures Attempts(Next(w, m).table, id) == Attempts(w.table, id) + if PayloadWrite(w, m, id) then 1 else 0
  {
    if id in w.table {
      NextPayload(w, m, id);
    } else {
      assert Current(w.table, w.procs[m.p]);
    }
  }

  /** The rest of the stored payload never changes. */
  lemma {:induction false} PayloadKept(w: World, moves: seq<Move>, id: Name)
    requires Sound(w) && AllEnabled(w, moves) && id in w.table
    ensures
      var t := Run(w, moves).table;
      id in t && t[id].task == w.table[id].task.(attempt := t[id].task.attempt)
    decreases |moves|
  {
    hide Sound;
    if moves != [] {
      NextPayload(w, moves[0], id);
      NextSound(w, moves[0]);
      PayloadKept(Next(w, moves[0]), moves[1..], id);
    }
  }

  /** Every pending row a run reaches has budget left, and every dead-lettered row has used it up. */
  lemma BudgetDecidesRetry(w: World, moves: seq<Move>, id: Name)
    requires Initial(w) && DistinctWorkers(w) && AllEnabled(w, moves) && id in Run(w, moves).table
    ensures
      var row := Run(w, moves).table[id];
      && (row.status.Pending? ==> row.task.attempt < row.task.maxAttempts)
      && (row.status.DeadLetter? ==> row.task.attempt >= row.task.maxAttempts)
  {
    RunSound(w, moves);
  }

  // ----- the names have to differ -----

  const OK := Outcome(true, [], 0)

  /** The moves `moves` lead from `w` to `v` and write the payload of `id` effectively `n` times. */
  ghost predicate Leads(w: World, moves: seq<Move>, v: World, id: Name, n: nat) {
    AllEnabled(w, moves) && Run(w, moves) == v && PayloadWrites(w, moves, id) == n
  }

  lemma LeadsBy(w: World, m: Move, moves: seq<Move>, v: World, id: Name, n: nat)
    requires Enabled(w, m) && Leads(Next(w, m), moves, v, id, n)
    ensures Leads(w, [m] + moves, v, id, n + if PayloadWrite(w, m, id) then 1 else 0)
  {
    assert ([m] + moves)[1..] == moves;
  }

  /** Worker `p` after sending the first two statements of a named claim. */
  function AfterReading(w: World, p: int, id: Name): World
    requires p in w.procs
  {
    Next(Next(Next(w, Invoke(p, ClaimTask(id, 60, 0))), Exec(p, OK)), Exec(p, OK))
  }

  lemma ReadingLeads(w: World, p: int, id: Name, rest: seq<Move>, v: World, n: nat) returns (moves: seq<Move>)
    requires p in w.procs && w.procs[p].pc.Idle? && Leads(AfterReading(w, p, id), rest, v, id, n)
    ensures Leads(w, moves, v, id, n)
  {
    var w1 := Next(w, Invoke(p, ClaimTask(id, 60, 0)));
    var w2 := Next(w1, Exec(p, OK));
    LeadsBy(w2, Exec(p, OK), rest, v, id, n);
    LeadsBy(w1, Exec(p, OK), [Exec(p, OK)] + rest, v, id, n);
    LeadsBy(w, Invoke(p, ClaimTask(id, 60, 0)), [Exec(p, OK)] + ([Exec(p, OK)] + rest), v, id, n);
    moves := [Invoke(p, ClaimTask(id, 60, 0))] + ([Exec(p, OK)] + ([Exec(p, OK)] + rest));
  }

  /** Both workers read the row before either writes the counter back. */
  lemma StaleWrites(w: World, p: int, q: int, id: Name) returns (moves: seq<Move>, v: World)
    requires p != q && p in w.procs && q in w.procs && w.procs[p].worker == w.procs[q].worker
    requires w.procs[p].pc.Idle? && w.procs[q].pc.Idle?
    requires id in w.table && w.table[id].status.Pending? && w.table[id].task.attempt == 0
    ensures Leads(w, moves, v, id, 2) && id in v.table && v.table[id].task.attempt == 1
  {
    var w1 := AfterReading(w, p, id);
    var w2 := AfterReading(w1, q, id);
    var w3 := Next(w2, Exec(p, OK));
    v := Next(w3, Exec(q, OK));
    assert w2.procs[p].pc == w2.procs[q].pc == AtPayload(id, w.table[id].task.(attempt := 1), [], 60, 0);
    LeadsBy(w3, Exec(q, OK), [], v, id, 0);
    LeadsBy(w2, Exec(p, OK), [Exec(q, OK)] + [], v, id, 1);
    moves := ReadingLeads(w1, q, id, [Exec(p, OK)] + ([Exec(q, OK)] + []), v, 2);
    moves := ReadingLeads(w, p, id, moves, v, 2);
  }

  /** Two workers of one name can lose an increment on any freshly submitted task. */
  lemma SharedNameLosesIncrement(w: World, p: int, q: int, task: Task) returns (moves: seq<Move>)
    requires Initial(w) && p != q && p in w.procs && q in w.procs && w.procs[p].worker == w.procs[q].worker
    requires task.attempt == 0 && Constructible(task)
    ensures AllEnabled(w, moves)
    ensures PayloadWrites(w, moves, task.taskId) == 2 && Attempts(Run(w, moves).table, task.taskId) == 1
  {
    var id := task.taskId;
    var w1 := Next(w, Invoke(p, Submit(task)));
    var w2 := Next(w1, Exec(p, OK));
    var w3 := Next(w2, Exec(p, OK));
    assert w2.procs[p].pc == AtInsert(task) && w3.table == InsertRow(map[], task, 0);
    var v;
    moves, v := StaleWrites(w3, p, q, id);
    LeadsBy(w2, Exec(p, OK), moves, v, id, 2);
    moves := [Exec(p, OK)] + moves;
    LeadsBy(w1, Exec(p, OK), moves, v, id, 2);
    moves := [Exec(p, OK)] + moves;
    LeadsBy(w, Invoke(p, Submit(task)), moves, v, id, 2);
    moves := [Invoke(p, Submit(task))] + moves;
  }

  /** Every run from `w` counts exactly its effective payload writes. */
  ghost predicate CountsWrites(w: World) {
    forall moves, id :: AllEnabled(w, moves) ==> Attempts(Run(w, moves).table, id) == PayloadWrites(w, moves, id)
  }

  /** The counter is right on every run exactly when no two workers share a name. */
  lemma CountsExactlyWhenNamesDiffer(w: World, sample: Task)
    requires Initial(w) && sample.attempt == 0 && Constructible(sample)
    ensures CountsWrites(w) <==> DistinctWorkers(w)
  {
    if DistinctWorkers(w) {
      forall moves, id | AllEnabled(w, moves)
        ensures Attempts(Run(w, moves).table, id) == PayloadWrites(w, moves, id)
      {
        AttemptsAddUp(w, moves, id);
      }
    } else {
      var p, q :| p in w.procs && q in w.procs && p != q && w.procs[p].worker == w.procs[q].worker;
      var moves := SharedNameLosesIncrement(w, p, q, sample);
    }
  }
}
