/**
 * Idempotency keys on the durable table. A submission looks its key up and inserts in two statements, so
 * two rows of one key can arise; this module says exactly when.
 */
module UcKeys {
  import opened Basics
  import opened Delegation
  import opened UcTable
  import opened UcInterleaving

  predicate KeyTaken(t: Table, key: Name) {
    exists id :: id in t && t[id].key == key
  }

  ghost predicate KeysDiffer(t: Table) {
    forall a, b :: a in t && b in t && a != b ==> t[a].key != t[b].key
  }

  /** The worker is past its look-up and about to insert a row with this key. */
  predicate Inserts(me: Proc, key: Name) {
    me.pc.AtInsert? && me.pc.task.idempotencyKey == key
  }

  /** No two rows share a key, and no insert that is on its way will make them. */
  ghost predicate KeysSafe(w: World) {
    && KeysDiffer(w.table)
    && (forall p :: p in w.procs && w.procs[p].pc.AtInsert? ==> !KeyTaken(w.table, w.procs[p].pc.task.idempotencyKey))
    && (forall p, q :: p in w.procs && q in w.procs && p != q && w.procs[p].pc.AtInsert? ==>
          !Inserts(w.procs[q], w.procs[p].pc.task.idempotencyKey))
  }

  ghost predicate SomeoneElseInserts(w: World, p: int, key: Name) {
    exists q :: q in w.procs && q != p && Inserts(w.procs[q], key)
  }

  /**
   * A look-up that lets its worker go on to the insert although another worker is already past the look-up
   * of the same key, or, when the look-up was lost, although the key is there.
   */
  ghost predicate RiskyLookup(w: World, m: Move) {
    && m.Exec? && m.p in w.procs && w.procs[m.p].pc.AtLookup?
    && !(m.outcome.effective && m.outcome.rows != [])
    && var key := w.procs[m.p].pc.task.idempotencyKey;
       KeyTaken(w.table, key) || SomeoneElseInserts(w, m.p, key)
  }

  lemma InsertKeepsKeys(t: Table, task: Task, now: int)
    requires KeysDiffer(t) && task.taskId !in t
    ensures KeysDiffer(InsertRow(t, task, now)) <==> !KeyTaken(t, task.idempotencyKey)
    ensures forall key ::
              KeyTaken(InsertRow(t, task, now), key) <==> KeyTaken(t, key) || key == task.idempotencyKey
  {
    var u := InsertRow(t, task, now);
    assert u[task.taskId].key == task.idempotencyKey;
    forall id | id in t ensures id in u && u[id] == t[id] && id != task.taskId {
    }
    if KeyTaken(t, task.idempotencyKey) {
      var id :| id in t && t[id].key == task.idempotencyKey;
      assert u[id].key == u[task.taskId].key;
    }
    forall key ensures KeyTaken(u, key) <==> KeyTaken(t, key) || key == task.idempotencyKey {
      if KeyTaken(t, key) {
        var id :| id in t && t[id].key == key;
        assert u[id].key == key;
      }
    }
  }

  /** Apart from an insert, no statement changes which keys there are. */
  lemma SameKeys(t: Table, u: Table)
    requires t.Keys == u.Keys && forall id :: id in t ==> u[id].key == t[id].key
    ensures KeysDiffer(t) <==> KeysDiffer(u)
    ensures forall key :: KeyTaken(t, key) <==> KeyTaken(u, key)
  {
    assert forall id :: id in t <==> id in u.Keys;
    forall key ensures KeyTaken(t, key) <==> KeyTaken(u, key) {
      if KeyTaken(t, key) {
        var id :| id in t && t[id].key == key;
        assert u[id].key == key;
      }
      if KeyTaken(u, key) {
        var id :| id in u && u[id].key == key;
        assert t[id].key == key;
      }
    }
  }

  /** An effective insert of worker `p`. */
  predicate InsertMove(w: World, m: Move) {
    m.Exec? && m.p in w.procs && w.procs[m.p].pc.AtInsert? && m.outcome.effective
  }

  lemma OtherMovesKeepKeys(w: World, m: Move)
    requires m.p in w.procs && !InsertMove(w, m)
    ensures KeysDiffer(w.table) <==> KeysDiffer(Next(w, m).table)
    ensures forall key :: KeyTaken(w.table, key) <==> KeyTaken(Next(w, m).table, key)
  {
    SameKeys(w.table, Next(w, m).table);
  }

  /** Who is about to insert after a move. */
  lemma NextInserts(w: World, m: Move)
    requires m.p in w.procs
    ensures Next(w, m).procs.Keys == w.procs.Keys
    ensures forall p :: p in w.procs && p != m.p ==> Next(w, m).procs[p] == w.procs[p]
    ensures
      var before, after := w.procs[m.p].pc, Next(w, m).procs[m.p].pc;
      after.AtInsert? ==> m.Exec? && before.AtLookup? && before.task == after.task
                          && !(m.outcome.effective && m.outcome.rows != [])
    ensures
      m.Exec? && w.procs[m.p].pc.AtLookup? && !(m.outcome.effective && m.outcome.rows != []) ==>
        Next(w, m).procs[m.p].pc == AtInsert(w.procs[m.p].pc.task) && Next(w, m).table == w.table
  {
  }

  /** From a safe state, a statement leads to an unsafe one exactly when it is a risky look-up. */
  lemma NextSafeExactly(w: World, m: Move)
    requires KeysSafe(w) && Enabled(w, m)
    ensures KeysSafe(Next(w, m)) <==> !RiskyLookup(w, m)
  {
    hide Next, KeysDiffer, KeyTaken;
    var v := Next(w, m);
    NextInserts(w, m);
    assert forall p :: p in v.procs <==> p in w.procs.Keys;
    if InsertMove(w, m) {
      InsertIsSafe(w, m);
    } else {
      OtherMovesKeepKeys(w, m);
      if RiskyLookup(w, m) {
        if SomeoneElseInserts(w, m.p, w.procs[m.p].pc.task.idempotencyKey) {
          var q :| q in w.procs && q != m.p && Inserts(w.procs[q], w.procs[m.p].pc.task.idempotencyKey);
          assert Inserts(v.procs[q], v.procs[m.p].pc.task.idempotencyKey);
        }
      } else {
        forall p, q | p in v.procs && q in v.procs && p != q && v.procs[p].pc.AtInsert?
          ensures !Inserts(v.procs[q], v.procs[p].pc.task.idempotencyKey)
        {
          if p == m.p {
            assert !SomeoneElseInserts(w, p, w.procs[p].pc.task.idempotencyKey);
          } else if q == m.p && v.procs[q].pc.AtInsert? {
            assert !SomeoneElseInserts(w, q, w.procs[q].pc.task.idempotencyKey);
          }
        }
      }
    }
  }

  lemma InsertIsSafe(w: World, m: Move)
    requires KeysSafe(w) && Enabled(w, m) && InsertMove(w, m)
    ensures KeysSafe(Next(w, m))
  {
    hide KeysDiffer, KeyTaken;
    var v, task := Next(w, m), w.procs[m.p].pc.task;
    assert v.table == InsertRow(w.table, task, m.outcome.clock) && v.procs[m.p].pc.Idle?;
    InsertKeepsKeys(w.table, task, m.outcome.clock);
    forall p | p in v.procs && v.procs[p].pc.AtInsert?
      ensures !KeyTaken(v.table, v.procs[p].pc.task.idempotencyKey)
    {
      assert v.procs[p] == w.procs[p] && p != m.p;
      assert !Inserts(w.procs[m.p], w.procs[p].pc.task.idempotencyKey);
    }
  }

  ghost predicate NoRiskyLookups(w: World, moves: seq<Move>)
    requires AllEnabled(w, moves)
    decreases |moves|
  {
    moves == [] || (!RiskyLookup(w, moves[0]) && NoRiskyLookups(Next(w, moves[0]), moves[1..]))
  }

  /** Without a risky look-up, no run ever stores two rows of one key. */
  lemma {:induction false} OneRowPerKey(w: World, moves: seq<Move>)
    requires KeysSafe(w) && AllEnabled(w, moves) && NoRiskyLookups(w, moves)
    ensures KeysSafe(Run(w, moves)) && KeysDiffer(Run(w, moves).table)
    decreases |moves|
  {
    hide RiskyLookup;
    if moves != [] {
      NextSafeExactly(w, moves[0]);
      OneRowPerKey(Next(w, moves[0]), moves[1..]);
    }
  }

  lemma RunCons(w: World, m: Move, moves: seq<Move>)
    requires Enabled(w, m) && AllEnabled(Next(w, m), moves)
    ensures AllEnabled(w, [m] + moves) && Run(w, [m] + moves) == Run(Next(w, m), moves)
  {
    assert ([m] + moves)[1..] == moves;
  }

  const OK := Outcome(true, [], 0)

  /** The tasks about to be inserted with this key have ids of their own. */
  ghost predicate FreshInserts(w: World, p: int, task: Task) {
    && task.taskId !in w.table
    && forall q :: q in w.procs && q != p && Inserts(w.procs[q], task.idempotencyKey) ==>
         w.procs[q].pc.task.taskId !in w.table && w.procs[q].pc.task.taskId != task.taskId
  }

  /** After every risky look-up, some continuation stores two rows of one key. */
  lemma RiskyLookupDuplicates(w: World, m: Move) returns (moves: seq<Move>)
    requires KeysSafe(w) && Enabled(w, m) && RiskyLookup(w, m) && FreshInserts(w, m.p, w.procs[m.p].pc.task)
    ensures AllEnabled(w, moves) && !KeysDiffer(Run(w, moves).table)
  {
    var p, task := m.p, w.procs[m.p].pc.task;
    var w1 := Next(w, m);
    assert w1.table == w.table && w1.procs[p].pc == AtInsert(task);
    if KeyTaken(w.table, task.idempotencyKey) {
      InsertKeepsKeys(w.table, task, 0);
      RunCons(w1, Exec(p, OK), []);
      moves := [Exec(p, OK)] + [];
    } else {
      var q :| q in w.procs && q != p && Inserts(w.procs[q], task.idempotencyKey);
      var other := w.procs[q].pc.task;
      var w2 := Next(w1, Exec(p, OK));
      assert w2.table == InsertRow(w.table, task, 0) && w2.procs[q].pc == AtInsert(other);
      InsertKeepsKeys(w.table, task, 0);
      InsertKeepsKeys(w2.table, other, 0);
      RunCons(w2, Exec(q, OK), []);
      RunCons(w1, Exec(p, OK), [Exec(q, OK)] + []);
      moves := [Exec(p, OK)] + ([Exec(q, OK)] + []);
    }
    RunCons(w, m, moves);
    moves := [m] + moves;
  }

  /** Two workers that submit one key at the same time store it twice. */
  lemma DuplicateSubmission(w: World, p: int, q: int, a: Task, b: Task) returns (moves: seq<Move>)
    requires Initial(w) && p != q && p in w.procs && q in w.procs
    requires a.attempt == 0 && Constructible(a) && b.attempt == 0 && Constructible(b)
    requires a.idempotencyKey == b.idempotencyKey && a.taskId != b.taskId
    ensures AllEnabled(w, moves) && !KeysDiffer(Run(w, moves).table)
  {
    var w1 := Next(w, Invoke(p, Submit(a)));
    var w2 := Next(w1, Exec(p, OK));
    var w3 := Next(w2, Invoke(q, Submit(b)));
    assert w3.table == map[] && w3.procs[p].pc == AtInsert(a) && w3.procs[q].pc == AtLookup(b);
    assert Inserts(w3.procs[p], b.idempotencyKey);
    moves := RiskyLookupDuplicates(w3, Exec(q, OK));
    RunCons(w2, Invoke(q, Submit(b)), moves);
    moves := [Invoke(q, Submit(b))] + moves;
    RunCons(w1, Exec(p, OK), moves);
    moves := [Exec(p, OK)] + moves;
    RunCons(w, Invoke(p, Submit(a)), moves);
    moves := [Invoke(p, Submit(a))] + moves;
  }
}
