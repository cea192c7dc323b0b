/**
 * The approval service: a store where the first decision on a request wins, followed by an idempotent
 * follow-up task. A request may be abandoned between the two, and repeated later.
 */
module Approvals {
  import opened Basics
  import opened Delegation
  import opened Subagents
  import opened Policy
  import opened TaskBus
  import opened TaskBusRuns
  import opened RetryBudget
  import opened LeaseSafety
  import opened KeyParts

  datatype Verdict = Approved | Declined | MoreInfoRequested

  datatype Request = Request(
    requestId: Name,
    agentName: Name,
    storeId: Option<string>,
    approver: Option<string>,
    verdict: Verdict,
    reason: Option<string>,
    notes: Option<string>)

  /** A stored decision carries the decision again as its status. */
  datatype Decided = Decided(request: Request, status: Verdict)

  function DecidedOf(r: Request): Decided {
    Decided(r, r.verdict)
  }

  /** `lower` is the lower-casing of the language library. */
  datatype Settings = Settings(enabled: bool, source: Name, target: Name, intent: Name, lower: string -> string)

  // ----- alias names -----

  function Dashes(s: string): string {
    if s == "" then "" else [if s[0] == '_' then '-' else s[0]] + Dashes(s[1..])
  }

  lemma {:induction false} DashesExactly(s: string)
    ensures |Dashes(s)| == |s|
    ensures forall i :: 0 <= i < |s| ==> Dashes(s)[i] == if s[i] == '_' then '-' else s[i]
  {
    if s != "" {
      DashesExactly(s[1..]);
    }
  }

  function DropPrefix(s: string, p: string): string {
    if p <= s then s[|p|..] else s
  }

  function DropSuffix(s: string, p: string): string {
    if |p| <= |s| && s[|s| - |p|..] == p then s[..|s| - |p|] else s
  }

  function LogicalName(lower: string -> string, n: Name): string {
    DropSuffix(DropPrefix(DropPrefix(Dashes(lower(n.text)), APP_PREFIX), AGENT_PREFIX), ROLE)
  }

  const APP_PREFIX := "gmai-app-agent-"
  const AGENT_PREFIX := "gmai-agent-"
  const ROLE := "-agent"

  /** A name that carries neither a catalog prefix nor a role suffix. */
  predicate Bare(x: string) {
    !(APP_PREFIX <= x + ROLE) && !(AGENT_PREFIX <= x + ROLE) && DropSuffix(x, ROLE) == x
  }

  /** A bare name is the logical name of itself with either prefix or none, and with the suffix or without. */
  lemma DressedNames(lower: string -> string, n: Name, x: string, prefix: string, suffix: string)
    requires Bare(x) && (prefix == "" || prefix == APP_PREFIX || prefix == AGENT_PREFIX)
    requires suffix == "" || suffix == ROLE
    requires Dashes(lower(n.text)) == prefix + (x + suffix)
    ensures LogicalName(lower, n) == x
  {
    var rest := x + suffix;
    assert x + "" == x && "" + rest == rest;
    assert suffix == ROLE || (x + ROLE)[..|x|] == x;
    assert !(APP_PREFIX <= rest) && !(AGENT_PREFIX <= rest);
    assert !(APP_PREFIX <= AGENT_PREFIX + rest) by {
      assert (AGENT_PREFIX + rest)[6] != APP_PREFIX[6];
    }
    assert suffix == ROLE ==> rest[|rest| - |ROLE|..] == ROLE && rest[..|rest| - |ROLE|] == x;
    assert (APP_PREFIX + rest)[|APP_PREFIX|..] == rest && (AGENT_PREFIX + rest)[|AGENT_PREFIX|..] == rest;
  }

  predicate IsAlias(lower: string -> string, a: SubagentConfig, name: Name) {
    LogicalName(lower, a.name) == LogicalName(lower, name)
  }

  /** The positions of the agents with the same logical name. */
  function Matches(lower: string -> string, subagents: seq<SubagentConfig>, name: Name): seq<nat> {
    if subagents == [] then []
    else
      var n := |subagents| - 1;
      Matches(lower, subagents[..n], name) + if IsAlias(lower, subagents[n], name) then [n] else []
  }

  /** A target known only by one alias is evaluated under the requested name. */
  function PolicySubagents(lower: string -> string, subagents: seq<SubagentConfig>, target: Name)
    : seq<SubagentConfig>
  {
    var matches := Matches(lower, subagents, target);
    if ByName(subagents, target).Some? || |matches| != 1 || matches[0] >= |subagents| then subagents
    else
      var k := matches[0];
      [subagents[k].(name := target)] + subagents[..k] + subagents[k + 1..]
  }

  lemma {:induction false} MatchesExactly(
      lower: string -> string, subagents: seq<SubagentConfig>, name: Name, k: nat)
    ensures k in Matches(lower, subagents, name) <==> k < |subagents| && IsAlias(lower, subagents[k], name)
  {
    hide IsAlias;
    if subagents != [] {
      MatchesExactly(lower, subagents[..|subagents| - 1], name, k);
    }
  }

  lemma {:induction false} ByNameFirst(a: SubagentConfig, rest: seq<SubagentConfig>, name: Name)
    requires a.name == name && forall i :: 0 <= i < |rest| ==> rest[i].name != name
    ensures ByName([a] + rest, name) == Some(a)
  {
    var all := [a] + rest;
    if rest == [] {
      assert all == [a];
    } else {
      assert all[..|all| - 1] == [a] + rest[..|rest| - 1];
      ByNameFirst(a, rest[..|rest| - 1], name);
    }
  }

  /**
   * The evaluated target is the exact one if there is one, else the agent with the same logical name if
   * it is the only one, else none.
   */
  lemma TargetResolution(lower: string -> string, subagents: seq<SubagentConfig>, target: Name)
    ensures
      var found := ByName(PolicySubagents(lower, subagents, target), target);
      if ByName(subagents, target).Some? then found == ByName(subagents, target)
      else if |Matches(lower, subagents, target)| == 1 then
        var k := Matches(lower, subagents, target)[0];
        && k < |subagents| && found == Some(subagents[k].(name := target))
        && forall j :: 0 <= j < |subagents| && IsAlias(lower, subagents[j], target) ==> j == k
      else found == None
  {
    hide IsAlias, Matches, ByName;
    var matches := Matches(lower, subagents, target);
    ByNameIsLast(subagents, target);
    if ByName(subagents, target).None? && |matches| == 1 {
      var k := matches[0];
      MatchesExactly(lower, subagents, target, k);
      forall j | 0 <= j < |subagents| && IsAlias(lower, subagents[j], target) ensures j == k {
        MatchesExactly(lower, subagents, target, j);
      }
      var rest := subagents[..k] + subagents[k + 1..];
      ByNameFirst(subagents[k].(name := target), rest, target);
      assert PolicySubagents(lower, subagents, target) == [subagents[k].(name := target)] + rest;
    }
  }

  // ----- the follow-up task -----

  function KeyText(settings: Settings, requestId: Name): string {
    "approval:" + (requestId.text + (":" + settings.target.text + ":" + settings.intent.text))
  }

  function FollowUpKey(settings: Settings, requestId: Name): Name {
    Name(KeyText(settings, requestId))
  }

  /** Under fixed settings the key determines the request. */
  lemma FollowUpKeyInjective(settings: Settings, a: Name, b: Name)
    requires FollowUpKey(settings, a) == FollowUpKey(settings, b)
    ensures a == b
  {
    var tail := ":" + settings.target.text + ":" + settings.intent.text;
    var x, y := KeyText(settings, a), KeyText(settings, b);
    assert x[|"approval:"|..] == a.text + tail && y[|"approval:"|..] == b.text + tail;
    assert |a.text| == |b.text|;
    assert a.text == (a.text + tail)[..|a.text|] && b.text == (b.text + tail)[..|b.text|];
  }

  /** Between settings, the key determines request, target and intent as long as the latter two have equal colons. */
  lemma FollowUpKeyTells(s: Settings, t: Settings, a: Name, b: Name)
    requires FollowUpKey(s, a) == FollowUpKey(t, b)
    requires Colons(s.target.text) == Colons(t.target.text) && Colons(s.intent.text) == Colons(t.intent.text)
    ensures a == b && s.target == t.target && s.intent == t.intent
  {
    hide Colons;
    var x, y := s.target.text + ":" + s.intent.text, t.target.text + ":" + t.intent.text;
    var p, q := a.text + ":" + x, b.text + ":" + y;
    assert KeyText(s, a) == "approval:" + p && KeyText(t, b) == "approval:" + q;
    assert p == KeyText(s, a)[|"approval:"|..] && q == KeyText(t, b)[|"approval:"|..];
    ColonsOfPair(s.target.text, s.intent.text);
    ColonsOfPair(t.target.text, t.intent.text);
    ColonsOfPair(a.text, x);
    ColonsOfPair(b.text, y);
    CutIsUnique(a.text, x, b.text, y);
    CutIsUnique(s.target.text, s.intent.text, t.target.text, t.intent.text);
  }

  function OptionalText(t: Option<string>): Value {
    if t.Some? then Text(t.value) else Null
  }

  function FollowUpTask(d: Decided, settings: Settings, freshId: Name, now: int): Task {
    var r := d.request;
    Task(
      settings.source, settings.target, settings.intent,
      map[Name("approval_request_id") := Text(r.requestId.text),
          Name("agent_name") := Text(r.agentName.text),
          Name("store_id") := OptionalText(r.storeId),
          Name("approver") := OptionalText(r.approver),
          Name("approval_reason") := OptionalText(r.reason),
          Name("approval_notes") := OptionalText(r.notes),
          Name("planning_only") := Flag(true),
          Name("dispatch_authorized") := Flag(false)],
      r.requestId, FollowUpKey(settings, r.requestId), [], Name("confidential"), App, freshId, 0, DEFAULT_MAX_ATTEMPTS,
      None, now)
  }

  datatype FollowUp = NotNeeded | InvalidTask | Refused(reason: Reason) | Filed(record: Record)

  /** The part of a submission after the decision is stored. */
  function FollowUpStep(
      bus: BusState, d: Decided, settings: Settings, subagents: seq<SubagentConfig>, freshId: Name, now: int)
    : (BusState, FollowUp)
    requires WellFormed(bus)
  {
    if !d.request.verdict.Approved? || !settings.enabled then (bus, NotNeeded)
    else
      var task := FollowUpTask(d, settings, freshId, now);
      if !Constructible(task) then (bus, InvalidTask)
      else
        match Evaluate(task, PolicySubagents(settings.lower, subagents, task.targetAgent))
        case Deny(reason) => (bus, Refused(reason))
        case Allow =>
          var (next, record) := SubmitStep(bus, task);
          (next, Filed(record))
  }

  /**
   * What a follow-up asks for: to plan, and not to dispatch, what the decision is about, on behalf of the
   * configured source, for the configured target and intent.
   */
  predicate Describes(task: Task, d: Decided, settings: Settings) {
    var r := d.request;
    && task.sourceAgent == settings.source && task.targetAgent == settings.target && task.intent == settings.intent
    && task.correlationId == r.requestId && task.dataClassification == Name("confidential")
    && task.authMode.App? && task.ancestry == []
    && HasEntry(task.payload, "planning_only", Flag(true)) && HasEntry(task.payload, "dispatch_authorized", Flag(false))
    && HasEntry(task.payload, "approval_request_id", Text(r.requestId.text))
    && HasEntry(task.payload, "agent_name", Text(r.agentName.text))
    && HasEntry(task.payload, "store_id", OptionalText(r.storeId))
    && HasEntry(task.payload, "approver", OptionalText(r.approver))
    && HasEntry(task.payload, "approval_reason", OptionalText(r.reason))
    && HasEntry(task.payload, "approval_notes", OptionalText(r.notes))
  }

  predicate HasEntry(payload: Payload, key: string, value: Value) {
    Name(key) in payload && payload[Name(key)] == value
  }

  lemma FollowUpDescribes(d: Decided, settings: Settings, freshId: Name, now: int)
    ensures Describes(FollowUpTask(d, settings, freshId, now), d, settings)
  {
  }

  /** The configuration against which a follow-up is checked. */
  ghost predicate Cleared(task: Task, settings: Settings, subagents: seq<SubagentConfig>) {
    Permitted(task, PolicySubagents(settings.lower, subagents, task.targetAgent))
  }

  lemma ClearedUpToAttempt(a: Task, b: Task, settings: Settings, subagents: seq<SubagentConfig>)
    requires SameTask(a, b)
    ensures Cleared(a, settings, subagents) <==> Cleared(b, settings, subagents)
    ensures forall d :: Describes(a, d, settings) <==> Describes(b, d, settings)
  {
  }

  predicate ValidSettings(settings: Settings) {
    && settings.source.text != "" && settings.target.text != "" && settings.intent.text != ""
    && settings.source != settings.target
  }

  /** Exactly when a follow-up is not needed, invalid, refused for which reason, or filed. */
  lemma FollowUpTells(
      bus: BusState, d: Decided, settings: Settings, subagents: seq<SubagentConfig>, freshId: Name, now: int)
    requires WellFormed(bus)
    ensures
      var task := FollowUpTask(d, settings, freshId, now);
      var (t, followUp) := FollowUpStep(bus, d, settings, subagents, freshId, now);
      var needed := d.request.verdict.Approved? && settings.enabled;
      && (followUp.NotNeeded? <==> !needed)
      && (followUp.InvalidTask? <==> needed && !ValidSettings(settings))
      && (followUp.Filed? <==> needed && ValidSettings(settings) && Cleared(task, settings, subagents))
      && (!followUp.Filed? ==> t == bus)
    ensures
      var task := FollowUpTask(d, settings, freshId, now);
      var followUp := FollowUpStep(bus, d, settings, subagents, freshId, now).1;
      var checked := PolicySubagents(settings.lower, subagents, task.targetAgent);
      followUp.Refused? ==>
        && Fails(task, checked, followUp.reason)
        && forall earlier :: Rank(earlier) < Rank(followUp.reason) ==> !Fails(task, checked, earlier)
  {
    hide WellFormed, Evaluate, Permitted, Fails, PolicySubagents, SubmitStep, KeyText;
    var task := FollowUpTask(d, settings, freshId, now);
    PolicyDecides(task, PolicySubagents(settings.lower, subagents, task.targetAgent));
    assert Constructible(task) <==> ValidSettings(settings);
  }

  // ----- the store and the service -----

  type Store = map<Name, Decided>

  datatype Filing = Stored(d: Decided) | Repeated(d: Decided) | Conflict

  function DecideStep(store: Store, request: Request): (Store, Filing) {
    var d := DecidedOf(request);
    if request.requestId in store then
      (store, if store[request.requestId] == d then Repeated(store[request.requestId]) else Conflict)
    else (store[request.requestId := d], Stored(d))
  }

  class InMemoryApprovalRepository {
    var records: Store

    constructor ()
      ensures records == map[]
    {
      records := map[];
    }

    method Save(d: Decided)
      modifies this
      ensures records == old(records)[d.request.requestId := d]
    {
      records := records[d.request.requestId := d];
    }

    method Get(requestId: Name) returns (d: Option<Decided>)
      ensures d == if requestId in records then Some(records[requestId]) else None
    {
      if requestId in records {
        return Some(records[requestId]);
      }
      return None;
    }
  }

  datatype Notice = FollowUpRejected(requestId: Name, reason: Reason) | FollowUpCreated(taskId: Name)

  /** What a caller gets: an answer with its follow-up, or a refusal of a second, different decision. */
  datatype Response = Answered(d: Decided, followUp: FollowUp) | AlreadyDecided

  function NoticesOf(d: Decided, followUp: FollowUp): seq<Notice> {
    match followUp
    case Refused(reason) => [FollowUpRejected(d.request.requestId, reason)]
    case Filed(record) => [FollowUpCreated(record.task.taskId)]
    case _ => []
  }

  /** Published notices: none for a follow-up not needed or invalid, else one that tells its outcome. */
  lemma NoticesTell(
      bus: BusState, d: Decided, settings: Settings, subagents: seq<SubagentConfig>, freshId: Name, now: int)
    requires WellFormed(bus)
    ensures
      var task := FollowUpTask(d, settings, freshId, now);
      var followUp := FollowUpStep(bus, d, settings, subagents, freshId, now).1;
      var notices := NoticesOf(d, followUp);
      if !d.request.verdict.Approved? || !settings.enabled || !ValidSettings(settings) then notices == []
      else if Cleared(task, settings, subagents) then
        followUp.Filed? && notices == [FollowUpCreated(followUp.record.task.taskId)]
      else
        exists reason ::
          && notices == [FollowUpRejected(d.request.requestId, reason)]
          && var checked := PolicySubagents(settings.lower, subagents, task.targetAgent);
             && Fails(task, checked, reason)
             && forall earlier :: Rank(earlier) < Rank(reason) ==> !Fails(task, checked, earlier)
  {
    hide WellFormed, FollowUpStep, Cleared, Fails, PolicySubagents, KeyText, FollowUpTask;
    FollowUpTells(bus, d, settings, subagents, freshId, now);
  }

  class ApprovalService {
    const repository: InMemoryApprovalRepository
    const taskBus: InMemoryAgentTaskBus
    const settings: Settings
    const subagents: seq<SubagentConfig>
    var published: seq<Notice>

    constructor (
        repository: InMemoryApprovalRepository, taskBus: InMemoryAgentTaskBus, settings: Settings,
        subagents: seq<SubagentConfig>)
      ensures this.repository == repository && this.taskBus == taskBus
      ensures this.settings == settings && this.subagents == subagents && published == []
    {
      this.repository, this.taskBus, this.settings, this.subagents := repository, taskBus, settings, subagents;
      published := [];
    }

    method Submit(request: Request, freshId: Name, now: int) returns (response: Response)
      requires taskBus.Valid()
      modifies this, repository, taskBus
      ensures taskBus.Valid()
      ensures
        var (store, filing) := DecideStep(old(repository.records), request);
        && repository.records == store
        && if filing.Conflict? then
             && response == AlreadyDecided && taskBus.State() == old(taskBus.State()) && published == old(published)
           else
             var (bus, followUp) := FollowUpStep(old(taskBus.State()), filing.d, settings, subagents, freshId, now);
             && response == Answered(filing.d, followUp) && taskBus.State() == bus
             && published == old(published) + NoticesOf(filing.d, followUp)
             && (followUp.Filed? ==>
                   && filing.d.request.verdict.Approved?
                   && Cleared(FollowUpTask(filing.d, settings, freshId, now), settings, subagents))
    {
      hide WellFormed, Ordered, Cleared;
      var record := DecidedOf(request);
      FollowUpTells(taskBus.State(), record, settings, subagents, freshId, now);
      var existing := repository.Get(request.requestId);
      if existing.Some? {
        if existing.value == record {
          var again := SubmitPostApprovalTask(existing.value, freshId, now);
          return Answered(existing.value, again);
        }
        return AlreadyDecided;
      }
      repository.Save(record);
      var followUp := SubmitPostApprovalTask(record, freshId, now);
      response := Answered(record, followUp);
    }

    method SubmitPostApprovalTask(d: Decided, freshId: Name, now: int) returns (followUp: FollowUp)
      requires taskBus.Valid()
      modifies this, taskBus
      ensures taskBus.Valid()
      ensures (taskBus.State(), followUp) == FollowUpStep(old(taskBus.State()), d, settings, subagents, freshId, now)
      ensures published == old(published) + NoticesOf(d, followUp)
    {
      hide WellFormed, Ordered;
      if !d.request.verdict.Approved? || !settings.enabled {
        return NotNeeded;
      }
      var task := FollowUpTask(d, settings, freshId, now);
      if !Constructible(task) {
        return InvalidTask;
      }
      var decision := Evaluate(task, PolicySubagents(settings.lower, subagents, task.targetAgent));
      if decision.Deny? {
        published := published + [FollowUpRejected(d.request.requestId, decision.reason)];
        return Refused(decision.reason);
      }
      var record := taskBus.Submit(task);
      published := published + [FollowUpCreated(record.task.taskId)];
      followUp := Filed(record);
    }
  }

  // ----- runs with retries, abandoned requests and other users of the bus -----

  datatype Desk = Desk(store: Store, bus: BusState)

  /**
   * `Decide` is a request up to the stored decision; `Deliver` is the rest of one, which may come later,
   * interleaved with others, or never; `Other` is anything else that happens on the task bus.
   */
  datatype Move =
    | Decide(request: Request)
    | Deliver(requestId: Name, freshId: Name, now: int)
    | Other(op: Op)

  datatype Office = Office(settings: Settings, subagents: seq<SubagentConfig>)

  /** Only a decided request is delivered; ids are fresh; nobody else uses the service's keys. */
  ghost predicate Legal(o: Office, k: Desk, m: Move) {
    match m
    case Decide(_) => true
    case Deliver(requestId, freshId, now) =>
      && requestId in k.store
      && Fresh(k.bus, Submit(FollowUpTask(k.store[requestId], o.settings, freshId, now)))
    case Other(op) =>
      && Fresh(k.bus, op)
      && (op.Submit? ==> forall r :: op.task.idempotencyKey != FollowUpKey(o.settings, r))
  }

  ghost function Next(o: Office, k: Desk, m: Move): (t: Desk)
    requires WellFormed(k.bus)
    ensures WellFormed(t.bus)
  {
    match m
    case Decide(request) => k.(store := DecideStep(k.store, request).0)
    case Deliver(requestId, freshId, now) =>
      if requestId in k.store
      then k.(bus := FollowUpStep(k.bus, k.store[requestId], o.settings, o.subagents, freshId, now).0)
      else k
    case Other(op) => k.(bus := Apply(k.bus, op))
  }

  ghost predicate AllLegal(o: Office, k: Desk, moves: seq<Move>)
    requires WellFormed(k.bus)
    decreases |moves|
  {
    moves == [] || (Legal(o, k, moves[0]) && AllLegal(o, Next(o, k, moves[0]), moves[1..]))
  }

  ghost function Run(o: Office, k: Desk, moves: seq<Move>): (t: Desk)
    requires WellFormed(k.bus)
    ensures WellFormed(t.bus)
    decreases |moves|
  {
    if moves == [] then k else Run(o, Next(o, k, moves[0]), moves[1..])
  }

  /** The task carries out what is stored for the request: an approved decision, as policy allows. */
  ghost predicate Follows(o: Office, store: Store, r: Name, task: Task) {
    && r in store && store[r].request.verdict.Approved? && o.settings.enabled
    && Describes(task, store[r], o.settings) && Cleared(task, o.settings, o.subagents)
  }

  /** A task under a request's key exists only to carry out its stored, approved decision. */
  ghost predicate Warranted(o: Office, k: Desk) {
    && Indexed(k.bus)
    && forall r :: KnownKey(k.bus, FollowUpKey(o.settings, r)) ==>
         Follows(o, k.store, r, k.bus.records[k.bus.index[FollowUpKey(o.settings, r)]].task)
  }

  ghost predicate Consistent(k: Desk) {
    forall r :: r in k.store ==> k.store[r].request.requestId == r
  }

  lemma NextWarranted(o: Office, k: Desk, m: Move)
    requires WellFormed(k.bus) && Consistent(k) && Warranted(o, k) && Legal(o, k, m)
    ensures Consistent(Next(o, k, m)) && Warranted(o, Next(o, k, m))
    ensures forall r :: r in k.store ==> r in Next(o, k, m).store && Next(o, k, m).store[r] == k.store[r]
  {
    hide WellFormed, Warranted, FollowUpStep, Apply;
    match m
    case Decide(request) => DecideWarranted(o, k, request);
    case Other(op) => OtherWarranted(o, k, op);
    case Deliver(requestId, freshId, now) => DeliverWarranted(o, k, requestId, freshId, now);
  }

  lemma DecideWarranted(o: Office, k: Desk, request: Request)
    requires WellFormed(k.bus) && Warranted(o, k)
    ensures Warranted(o, Next(o, k, Decide(request)))
  {
    hide WellFormed, Indexed, Describes, Cleared, KeyText, FollowUpKey;
  }

  /** A step that files nothing new under the requests' keys keeps what is filed. */
  lemma KeepsWarranted(o: Office, k: Desk, t: BusState)
    requires Warranted(o, k) && Indexed(t) && TasksKept(k.bus, t)
    requires forall r :: KnownKey(t, FollowUpKey(o.settings, r)) ==>
               KnownKey(k.bus, FollowUpKey(o.settings, r))
               && t.index[FollowUpKey(o.settings, r)] == k.bus.index[FollowUpKey(o.settings, r)]
    ensures Warranted(o, k.(bus := t))
  {
    hide Describes, Cleared, SameTask, FollowUpKey;
    forall r | KnownKey(t, FollowUpKey(o.settings, r))
      ensures Follows(o, k.store, r, t.records[t.index[FollowUpKey(o.settings, r)]].task)
    {
      var id := t.index[FollowUpKey(o.settings, r)];
      ClearedUpToAttempt(k.bus.records[id].task, t.records[id].task, o.settings, o.subagents);
    }
  }

  lemma OtherWarranted(o: Office, k: Desk, op: Op)
    requires WellFormed(k.bus) && Warranted(o, k) && Legal(o, k, Other(op))
    ensures Warranted(o, Next(o, k, Other(op)))
  {
    hide WellFormed, Indexed, Follows, TasksKept, Apply, FollowUpKey;
    ApplyIndexed(k.bus, op);
    ApplyKeepsTasks(k.bus, op);
    KeepsWarranted(o, k, Apply(k.bus, op));
  }

  lemma DeliverWarranted(o: Office, k: Desk, requestId: Name, freshId: Name, now: int)
    requires WellFormed(k.bus) && Consistent(k) && Warranted(o, k) && Legal(o, k, Deliver(requestId, freshId, now))
    ensures Warranted(o, Next(o, k, Deliver(requestId, freshId, now)))
  {
    hide WellFormed, Indexed, Follows, Cleared, Describes, TasksKept, SubmitStep, FollowUpStep, KnownKey, KeyText;
    var d := k.store[requestId];
    var task := FollowUpTask(d, o.settings, freshId, now);
    FollowUpTells(k.bus, d, o.settings, o.subagents, freshId, now);
    var (t, followUp) := FollowUpStep(k.bus, d, o.settings, o.subagents, freshId, now);
    if followUp.Filed? {
      ApplyIndexed(k.bus, Submit(task));
      ApplyKeepsTasks(k.bus, Submit(task));
      FiledIsSubmitted(k.bus, d, o, freshId, now);
      FollowUpDescribes(d, o.settings, freshId, now);
      forall r | KnownKey(t, FollowUpKey(o.settings, r))
        ensures FollowUpKey(o.settings, r) in t.index && t.index[FollowUpKey(o.settings, r)] in t.records
        ensures Follows(o, k.store, r, t.records[t.index[FollowUpKey(o.settings, r)]].task)
      {
        IndexedKnown(t, FollowUpKey(o.settings, r));
        if KnownKey(k.bus, FollowUpKey(o.settings, r)) {
          IndexedKnown(k.bus, FollowUpKey(o.settings, r));
          StaysFollowed(o, k, t, r);
        } else {
          FollowUpKeyInjective(o.settings, r, requestId);
          NewFollows(o, k, requestId, freshId, now);
        }
      }
    }
  }

  lemma StaysFollowed(o: Office, k: Desk, t: BusState, r: Name)
    requires Warranted(o, k) && KnownKey(k.bus, FollowUpKey(o.settings, r)) && TasksKept(k.bus, t) && Indexed(t)
    requires KnownKey(t, FollowUpKey(o.settings, r))
    requires t.index[FollowUpKey(o.settings, r)] == k.bus.index[FollowUpKey(o.settings, r)]
    ensures Follows(o, k.store, r, t.records[t.index[FollowUpKey(o.settings, r)]].task)
  {
    hide Describes, Cleared, SameTask, FollowUpKey;
    var id := t.index[FollowUpKey(o.settings, r)];
    ClearedUpToAttempt(k.bus.records[id].task, t.records[id].task, o.settings, o.subagents);
  }

  lemma FiledIsSubmitted(bus: BusState, d: Decided, o: Office, freshId: Name, now: int)
    requires WellFormed(bus) && FollowUpStep(bus, d, o.settings, o.subagents, freshId, now).1.Filed?
    ensures
      var (t, followUp) := FollowUpStep(bus, d, o.settings, o.subagents, freshId, now);
      (t, followUp.record) == SubmitStep(bus, FollowUpTask(d, o.settings, freshId, now))
  {
    hide WellFormed, SubmitStep, FollowUpTask, Evaluate, PolicySubagents, Constructible;
  }

  /** A task that was just filed under a new key. */
  lemma NewFollows(o: Office, k: Desk, requestId: Name, freshId: Name, now: int)
    requires WellFormed(k.bus) && requestId in k.store && Consistent(k)
    requires !KnownKey(k.bus, FollowUpKey(o.settings, requestId))
    requires FollowUpStep(k.bus, k.store[requestId], o.settings, o.subagents, freshId, now).1.Filed?
    ensures
      var t := FollowUpStep(k.bus, k.store[requestId], o.settings, o.subagents, freshId, now).0;
      && FollowUpKey(o.settings, requestId) in t.index && t.index[FollowUpKey(o.settings, requestId)] in t.records
      && Follows(o, k.store, requestId, t.records[t.index[FollowUpKey(o.settings, requestId)]].task)
  {
    hide WellFormed, Cleared, Describes, KeyText, FollowUpStep;
    var d := k.store[requestId];
    FollowUpTells(k.bus, d, o.settings, o.subagents, freshId, now);
    FollowUpDescribes(d, o.settings, freshId, now);
    FiledIsSubmitted(k.bus, d, o, freshId, now);
    assert FollowUpTask(d, o.settings, freshId, now).idempotencyKey == FollowUpKey(o.settings, requestId);
  }

  lemma {:induction false} RunWarranted(o: Office, k: Desk, moves: seq<Move>)
    requires WellFormed(k.bus) && Consistent(k) && Warranted(o, k) && AllLegal(o, k, moves)
    ensures Consistent(Run(o, k, moves)) && Warranted(o, Run(o, k, moves))
    ensures forall r :: r in k.store ==> r in Run(o, k, moves).store && Run(o, k, moves).store[r] == k.store[r]
    decreases |moves|
  {
    hide WellFormed, Consistent, Warranted, Legal, Next;
    if moves != [] {
      NextWarranted(o, k, moves[0]);
      RunWarranted(o, Next(o, k, moves[0]), moves[1..]);
    }
  }

  const OPENING := Desk(map[], EMPTY_BUS)

  /**
   * Along every run with retries, abandoned requests and other bus traffic: a stored decision never
   * changes; a task under a request's key exists only if the decision is `approved`, was allowed by policy
   * and says just what the decision says; and there is never more than one per request.
   */
  lemma DecisionsGovernFollowUps(o: Office, before: seq<Move>, after: seq<Move>, r: Name, a: Name, b: Name)
    requires AllLegal(o, OPENING, before) && AllLegal(o, Run(o, OPENING, before), after)
    ensures
      var k, t := Run(o, OPENING, before), Run(o, Run(o, OPENING, before), after);
      && (r in k.store ==> r in t.store && t.store[r] == k.store[r])
      && (a in t.bus.records && t.bus.records[a].task.idempotencyKey == FollowUpKey(o.settings, r) ==>
            && Follows(o, t.store, r, t.bus.records[a].task)
            && (b in t.bus.records && t.bus.records[b].task.idempotencyKey == FollowUpKey(o.settings, r) ==> a == b))
  {
    RunWarranted(o, OPENING, before);
    RunWarranted(o, Run(o, OPENING, before), after);
  }

  /**
   * Recovery: submitting the identical decision again, after any run, is answered and, when follow-ups
   * are enabled, well formed and allowed by policy, leaves the one follow-up task in place.
   */
  lemma ResubmissionRecovers(o: Office, moves: seq<Move>, request: Request, freshId: Name, now: int)
    requires AllLegal(o, OPENING, moves)
    requires request.verdict.Approved? && o.settings.enabled
    requires
      var k := Run(o, OPENING, moves);
      && request.requestId in k.store && k.store[request.requestId] == DecidedOf(request)
      && Legal(o, k, Deliver(request.requestId, freshId, now))
    requires ValidSettings(o.settings)
    requires Cleared(FollowUpTask(DecidedOf(request), o.settings, freshId, now), o.settings, o.subagents)
    ensures
      var k := Run(o, OPENING, moves);
      var (store, filing) := DecideStep(k.store, request);
      var (bus, followUp) := FollowUpStep(k.bus, DecidedOf(request), o.settings, o.subagents, freshId, now);
      && store == k.store && filing == Repeated(DecidedOf(request))
      && followUp.Filed? && followUp.record.task.idempotencyKey == FollowUpKey(o.settings, request.requestId)
      && Follows(o, store, request.requestId, followUp.record.task)
      && followUp.record.task.taskId in bus.records
      && bus.records[followUp.record.task.taskId] == followUp.record
      && (KnownKey(k.bus, FollowUpKey(o.settings, request.requestId)) ==> bus == k.bus)
  {
    hide KeyText, FollowUpStep, Follows, FollowUpTask, Cleared, Warranted, Consistent, Legal, DecideStep;
    OpeningWarranted(o, moves);
    var k := Run(o, OPENING, moves);
    StoredAgain(k, request);
    RecoversAt(o, k, request, freshId, now);
  }

  lemma OpeningWarranted(o: Office, moves: seq<Move>)
    requires AllLegal(o, OPENING, moves)
    ensures Consistent(Run(o, OPENING, moves)) && Warranted(o, Run(o, OPENING, moves))
  {
    RunWarranted(o, OPENING, moves);
  }

  lemma StoredAgain(k: Desk, request: Request)
    requires request.requestId in k.store && k.store[request.requestId] == DecidedOf(request)
    ensures DecideStep(k.store, request) == (k.store, Repeated(DecidedOf(request)))
  {
  }

  /** Delivering a stored approval again. */
  lemma RecoversAt(o: Office, k: Desk, request: Request, freshId: Name, now: int)
    requires WellFormed(k.bus) && Consistent(k) && Warranted(o, k)
    requires request.verdict.Approved? && o.settings.enabled && ValidSettings(o.settings)
    requires request.requestId in k.store && k.store[request.requestId] == DecidedOf(request)
    requires Legal(o, k, Deliver(request.requestId, freshId, now))
    requires Cleared(FollowUpTask(DecidedOf(request), o.settings, freshId, now), o.settings, o.subagents)
    ensures
      var (bus, followUp) := FollowUpStep(k.bus, DecidedOf(request), o.settings, o.subagents, freshId, now);
      && followUp.Filed? && followUp.record.task.idempotencyKey == FollowUpKey(o.settings, request.requestId)
      && Follows(o, k.store, request.requestId, followUp.record.task)
      && followUp.record.task.taskId in bus.records
      && bus.records[followUp.record.task.taskId] == followUp.record
      && (KnownKey(k.bus, FollowUpKey(o.settings, request.requestId)) ==> bus == k.bus)
  {
    hide WellFormed, Indexed, KeyText, FollowUpStep, Follows, Cleared;
    var d, m := DecidedOf(request), Deliver(request.requestId, freshId, now);
    var task := FollowUpTask(d, o.settings, freshId, now);
    FollowUpTells(k.bus, d, o.settings, o.subagents, freshId, now);
    FiledIsSubmitted(k.bus, d, o, freshId, now);
    DeliverWarranted(o, k, request.requestId, freshId, now);
    var (bus, followUp) := FollowUpStep(k.bus, d, o.settings, o.subagents, freshId, now);
    assert Next(o, k, m) == k.(bus := bus);
    FiledUnderKey(k.bus, task);
    IndexedKnown(bus, FollowUpKey(o.settings, request.requestId));
  }

  lemma FiledUnderKey(s: BusState, task: Task)
    requires WellFormed(s) && Fresh(s, Submit(task))
    ensures
      var (t, record) := SubmitStep(s, task);
      && KnownKey(t, task.idempotencyKey) && t.index[task.idempotencyKey] == record.task.taskId
      && record.task.taskId in t.records && t.records[record.task.taskId] == record
      && (KnownKey(s, task.idempotencyKey) ==> t == s)
  {
  }
}
