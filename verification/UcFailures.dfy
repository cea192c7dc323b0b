/** The failure codes of the durable table, for any workers and any interleaving of their statements. */
module UcFailures {
  import opened Basics
  import opened Delegation
  import opened UcTable
  import opened UcInterleaving
  import opened UcLeases

  function CodeAt(t: Table, id: Name): Option<Name> {
    if id in t then t[id].failureCode else None
  }

  /** The codes of the effective give-ups of task `id` along a run, in order. */
  ghost function GiveUpCodes(w: World, moves: seq<Move>, id: Name): seq<Name>
    requires AllEnabled(w, moves)
    decreases |moves|
  {
    if moves == [] then []
    else
      (if GiveUpWrite(w, moves[0], id) then [w.procs[moves[0].p].pc.code] else [])
      + GiveUpCodes(Next(w, moves[0]), moves[1..], id)
  }

  lemma NextCode(w: World, m: Move, id: Name)
    requires Enabled(w, m)
    ensures CodeAt(Next(w, m).table, id) ==
            if GiveUpWrite(w, m, id) then Some(w.procs[m.p].pc.code) else CodeAt(w.table, id)
  {
  }

  lemma {:induction false} RunCode(w: World, moves: seq<Move>, id: Name)
    requires AllEnabled(w, moves)
    ensures
      var codes := GiveUpCodes(w, moves, id);
      CodeAt(Run(w, moves).table, id) == if codes == [] then CodeAt(w.table, id) else Some(codes[|codes| - 1])
    decreases |moves|
  {
    hide GiveUpWrite, CodeAt;
    if moves != [] {
      NextCode(w, moves[0], id);
      RunCode(Next(w, moves[0]), moves[1..], id);
    }
  }

  /**
   * From the empty table, on every interleaving: a row's failure code is the code of its last effective
   * give-up, and it has none if there was none.
   */
  lemma FailureCodeIsLast(w: World, moves: seq<Move>, id: Name)
    requires Initial(w) && AllEnabled(w, moves) && id in Run(w, moves).table
    ensures
      var codes := GiveUpCodes(w, moves, id);
      Run(w, moves).table[id].failureCode == if codes == [] then None else Some(codes[|codes| - 1])
  {
    RunCode(w, moves, id);
  }

  /** Where the code comes from: a worker about to give a task up uses the code its call was made with. */
  predicate UsesCode(pc: Pc, call: Option<Call>) {
    match pc
    case AtReadOwned(id, code) => call == Some(Fail(id, code))
    case AtGiveUp(id, code, _) => call == Some(Fail(id, code))
    case _ => true
  }

  /** The last call each worker made. */
  ghost function Called(calls: map<int, Call>, m: Move): map<int, Call> {
    if m.Invoke? then calls[m.p := m.call] else calls
  }

  ghost function CallsAfter(calls: map<int, Call>, moves: seq<Move>): map<int, Call>
    decreases |moves|
  {
    if moves == [] then calls else CallsAfter(Called(calls, moves[0]), moves[1..])
  }

  ghost predicate CodesAsCalled(w: World, calls: map<int, Call>) {
    forall p :: p in w.procs ==> UsesCode(w.procs[p].pc, if p in calls then Some(calls[p]) else None)
  }

  /** On every run, an effective give-up stores the code that its worker's current `fail` was called with. */
  lemma {:induction false} GiveUpUsesCallCode(w: World, moves: seq<Move>, calls: map<int, Call>, m: Move, id: Name)
    requires AllEnabled(w, moves) && CodesAsCalled(w, calls)
    requires Enabled(Run(w, moves), m) && GiveUpWrite(Run(w, moves), m, id)
    ensures
      var made := CallsAfter(calls, moves);
      && m.p in made && made[m.p] == Fail(id, Run(w, moves).procs[m.p].pc.code)
      && CodeAt(Next(Run(w, moves), m).table, id) == Some(made[m.p].code)
    decreases |moves|
  {
    if moves == [] {
      NextCode(w, m, id);
      assert UsesCode(w.procs[m.p].pc, if m.p in calls then Some(calls[m.p]) else None);
    } else {
      GiveUpUsesCallCode(Next(w, moves[0]), moves[1..], Called(calls, moves[0]), m, id);
    }
  }
}
