/** Named work and arena requests: one closed shape per operation, one canonical form per request. */
module WorkRequest {
  import opened Bytes
  import opened Text
  import opened Wrappers
  import opened Limits
  import opened JsonValue
  import opened StrictJson
  import opened WorkValues
  import opened WorkProgress
  import opened WorkSessions

  const PAYLOAD := "payload"
  const ENVELOPE := {"schema", "operation", "kind", "id", "expected_version", PAYLOAD}
  const ARENA := "devgraph.arena-request.v1"
  const WORK_1 := "devgraph.work-request.v1"
  const WORK_2 := "devgraph.work-request.v2"
  const MAX_RAW := 131_072
  const MAX_CANONICAL := 65_536

  /** A request with its defaults filled in. */
  datatype Normalised = Normalised(value: Value, operation: string, resources: set<string>)

  datatype Request = Request(value: Value, canonical: bytes, operation: string, resources: seq<string>)

  predicate VersionOk(op: string, version: Value) {
    if op == "create" then version == Null else Positive(version)
  }

  // ------------------------------------------------------------------- arena

  predicate ArenaHeaderOk(op: string, kind: string, id: string) {
    && Identifier(id)
    && op in {"create", "patch", "archive", "member.set"}
    && if op == "member.set" then kind in {"Initiative", "Task"} else kind == "Arena"
  }

  predicate ArenaFieldOk(key: string, v: Value) {
    match key
    case "id" => v.Str? && Identifier(v.s)
    case "title" => v.Str? && 0 < |v.s| <= 4096
    case "description" => v.Str? && |v.s| <= 32768
    case _ => false
  }

  const IsArena: string -> bool := kind => kind == "Arena"

  /** The resource of an optional arena reference. */
  function ArenaAt(v: Value, key: string): Option<set<string>> {
    if At(v, key) == Null then Some({})
    else
      var r :- Reference(At(v, key), IsArena);
      Some({r})
  }

  function ArenaCreateDetail(id: string, v: Value): (r: Option<set<string>>)
  {
    if v.Obj? && At(v, "id") == Str(id) && forall k | k in v.fields :: ArenaFieldOk(k, v.fields[k]) then Some({}) else None
  }

  const ARENA_DEFAULTS := map["description" := EMPTY]

  function ArenaPatchDetail(v: Value): (r: Option<set<string>>)
  {
    if v.Obj? && v.fields != map[] && v.fields.Keys <= {"title", "description"}
       && forall k | k in v.fields :: ArenaFieldOk(k, v.fields[k]) then Some({}) else None
  }

  function MemberDetail(v: Value): (r: Option<set<string>>)
  {
    if !Exact(v, {"previous_arena", "arena"}) || (At(v, "previous_arena") == Null && At(v, "arena") == Null) then None
    else
      var before :- ArenaAt(v, "previous_arena");
      var after :- ArenaAt(v, "arena");
      Some(before + after)
  }

  function NoDetail(v: Value): (r: Option<set<string>>) { if Exact(v, {}) then Some({}) else None }

  function ArenaRule(op: string, id: string): Option<Rule>
  {
    match op
    case "create" => Some(Filling({"id", "title"}, ARENA_DEFAULTS, v => ArenaCreateDetail(id, v)))
    case "patch" => Some(Plain(v => ArenaPatchDetail(v)))
    case "archive" => Some(Plain(v => NoDetail(v)))
    case "member.set" => Some(Plain(v => MemberDetail(v)))
    case _ => None
  }

  // -------------------------------------------------------------------- work

  /** The identifier of a session reference is derived, so it has a fixed shape. */
  predicate SessionId(id: string) {
    |id| == 67 && id[..3] == "sr-" && forall i | 3 <= i < 67 :: IsDigit(id[i]) || 'a' <= id[i] <= 'f'
  }

  predicate WorkHeaderOk(v2: bool, op: string, kind: string, id: string) {
    && (Kind(kind) || (v2 && (kind == "Todo" || kind == "SessionRef")))
    && Identifier(id)
    && ((kind == "SessionRef") == (op == "session.state"))
    && (kind == "SessionRef" ==> SessionId(id))
    && !(v2 && op == "status")
    && !(!v2 && op in {"progress.set", "restore", "proposal.reject", "session.attach", "session.state"})
    && (kind == "Todo" ==> op in {"create", "patch", "archive", "restore", "progress.set"})
  }

  const WORK_DEFAULTS :=
    map["description" := EMPTY, "priority" := Num(0), "artifact_ids" := NOTHING, "external_link_ids" := NOTHING]

  predicate Identifiers(v: Value) {
    v.Arr? && forall i | 0 <= i < |v.items| :: v.items[i].Str? && Identifier(v.items[i].s)
  }

  predicate WorkFieldOk(key: string, v: Value) {
    match key
    case "id" => v.Str? && Identifier(v.s)
    case "title" => v.Str? && v.s != ""
    case "description" => v.Str?
    case "priority" => v.Num? && -MAX_SAFE <= v.n <= MAX_SAFE
    case "artifact_ids" => Identifiers(v)
    case "external_link_ids" => Identifiers(v)
    case _ => false
  }

  const AnyKind: string -> bool := kind => Kind(kind)

  function ParentKinds(kind: string): set<string> {
    match kind
    case "Project" => {"Initiative"}
    case "Issue" => {"Initiative", "Project"}
    case "Task" => {"Initiative", "Project", "Issue"}
    case _ => {}
  }

  /** The resource of an optional parent, whose kind must be allowed. */
  function ParentAt(v: Value, key: string, kinds: set<string>): Option<set<string>> {
    if At(v, key) == Null then Some({})
    else
      var r :- Reference(At(v, key), AnyKind);
      var kind :- TextAt(At(v, key), "kind");
      if kind in kinds then Some({r}) else None
  }

  function ParentDetail(kind: string, payload: Value): (r: Option<set<string>>)
  {
    var moved :-
      if payload.Obj? && "previous_arena" in payload.fields then
        if !Exact(payload, {"previous_parent", "parent", "previous_arena"}) then None
        else if At(payload, "previous_arena") != Null && (kind != "Task" || At(payload, "parent") == Null) then None
        else ArenaAt(payload, "previous_arena")
      else if Exact(payload, {"previous_parent", "parent"}) then Some({}) else None;
    if ParentKinds(kind) == {} || (At(payload, "previous_parent") == Null && At(payload, "parent") == Null) then None
    else
      var before :- ParentAt(payload, "previous_parent", ParentKinds(kind));
      var after :- ParentAt(payload, "parent", ParentKinds(kind));
      Some(moved + before + after)
  }

  function DependencyDetail(op: string, kind: string, id: string, payload: Value): (r: Option<set<string>>)
  {
    if !Exact(payload, {"target"}) then None
    else
      var target :- Reference(At(payload, "target"), AnyKind);
      var targetKind :- TextAt(At(payload, "target"), "kind");
      if target == Resource(kind, id) || ("blocker." <= op && (kind != "Task" || targetKind != "Task")) then None
      else Some({target})
  }

  /** Accepting, converting or rejecting a proposal. */
  function ProposalDetail(op: string, kind: string, payload: Value): (r: Option<set<string>>)
  {
    if kind != "Proposal" then None
    else if op == "proposal.reject" then
      if !Exact(payload, {"decision_id", "reason"}) then None
      else
        var reason :- TextAt(payload, "reason");
        var decision :- TextAt(payload, "decision_id");
        if !Identifier(decision) || Blank(reason) || |reason| > 8192 then None
        else Some({Resource("Decision", decision)})
    else if op == "accept" then
      if !Exact(payload, {"decision_id", "decision_title"}) then None
      else
        var title :- TextAt(payload, "decision_title");
        var decision :- TextAt(payload, "decision_id");
        if title == "" || !Identifier(decision) then None else Some({Resource("Decision", decision)})
    else
      if !Exact(payload, {"issue_id", "decision_id"}) then None
      else
        var decision :- TextAt(payload, "decision_id");
        var issue :- TextAt(payload, "issue_id");
        if !Identifier(decision) || !Identifier(issue) then None
        else Some({Resource("Decision", decision), Resource("Issue", issue)})
  }

  function CreateDetail(id: string, v: Value): (r: Option<set<string>>)
  {
    if v.Obj? && At(v, "id") == Str(id) && forall k | k in v.fields :: WorkFieldOk(k, v.fields[k]) then Some({}) else None
  }

  function PatchDetail(payload: Value): (r: Option<set<string>>)
  {
    if payload.Obj? && payload.fields != map[] && payload.fields.Keys <= {"title"} + WORK_DEFAULTS.Keys
       && forall k | k in payload.fields :: WorkFieldOk(k, payload.fields[k])
    then Some({}) else None
  }

  /** A payload that is one word under one key. */
  function WordDetail(key: string, words: set<string>, payload: Value): (r: Option<set<string>>)
  {
    if !Exact(payload, {key}) then None
    else
      var word :- TextAt(payload, key);
      if word in words then Some({}) else None
  }

  function Word(key: string, words: set<string>): Rule { Plain(v => WordDetail(key, words, v)) }

  function Proposal(op: string, kind: string): Rule { Plain(v => ProposalDetail(op, kind, v)) }

  function Dependency(op: string, kind: string, id: string): Rule { Plain(v => DependencyDetail(op, kind, id, v)) }

  /** Operations on the record itself. */
  function RecordRule(op: string, id: string): Option<Rule>
  {
    match op
    case "create" => Some(Filling({"id", "title"}, WORK_DEFAULTS, v => CreateDetail(id, v)))
    case "patch" => Some(Plain(v => PatchDetail(v)))
    case "status" => Some(Word("status", {"draft", "review", "accepted", "archived"}))
    case "session.state" => Some(Word("state", {"open", "done"}))
    case "archive" => Some(Plain(v => NoDetail(v)))
    case "restore" => Some(Plain(v => NoDetail(v)))
    case _ => None
  }

  /** Operations that record how work proceeds. */
  function FlowRule(naming: Naming, review: Checks, op: string): Option<Rule>
  {
    match op
    case "session.attach" => Some(Attach(naming))
    case "workflow.assign" => Some(Assign())
    case "workflow.transition" => Some(Transition())
    case "workflow.review" => Some(Review(review))
    case "progress.set" => Some(Progress(review))
    case _ => None
  }

  /** Operations that relate the record to others. */
  function LinkRule(op: string, kind: string, id: string): Option<Rule>
  {
    match op
    case "parent.set" => Some(Plain(v => ParentDetail(kind, v)))
    case "proposal.reject" => Some(Proposal(op, kind))
    case "accept" => Some(Proposal(op, kind))
    case "convert" => Some(Proposal(op, kind))
    case "dependency.add" => Some(Dependency(op, kind, id))
    case "dependency.remove" => Some(Dependency(op, kind, id))
    case "blocker.add" => Some(Dependency(op, kind, id))
    case "blocker.remove" => Some(Dependency(op, kind, id))
    case _ => None
  }

  function WorkRule(env: Outside, op: string, kind: string, id: string): Option<Rule> {
    if RecordRule(op, id).Some? then RecordRule(op, id)
    else if FlowRule(HashNaming(env), ReviewChecks(env), op).Some? then FlowRule(HashNaming(env), ReviewChecks(env), op)
    else LinkRule(op, kind, id)
  }

  // ----------------------------------------------------------------- request

  /** The header of a request. */
  datatype Header = Header(schema: string, op: string, kind: string, id: string)

  function HeaderOf(v: Value): (r: Option<Header>)
  {
    if !Exact(v, ENVELOPE) then None
    else
      var schema :- TextAt(v, "schema");
      var op :- TextAt(v, "operation");
      var kind :- TextAt(v, "kind");
      var id :- TextAt(v, "id");
      if !VersionOk(op, At(v, "expected_version")) then None else Some(Header(schema, op, kind, id))
  }

  function RuleOf(env: Outside, h: Header): (r: Option<Rule>)
  {
    if h.schema == ARENA then
      if ArenaHeaderOk(h.op, h.kind, h.id) then ArenaRule(h.op, h.id) else None
    else if h.schema == WORK_1 || h.schema == WORK_2 then
      if WorkHeaderOk(h.schema == WORK_2, h.op, h.kind, h.id) then WorkRule(env, h.op, h.kind, h.id) else None
    else None
  }

  function OperationName(h: Header): string {
    if h.schema == ARENA then "devgraph.arena." + h.op + ".v1"
    else "devgraph.work." + h.op + if h.schema == WORK_2 then ".v2" else ".v1"
  }

  type Rules = Header -> Option<Rule>

  function WorkRules(env: Outside): Rules { h => RuleOf(env, h) }

  function Normalise(rules: Rules, v: Value): (r: Option<Normalised>)
  {
    var h :- HeaderOf(v);
    var rule :- rules(h);
    var n :- rule(At(v, PAYLOAD));
    Some(Normalised(Obj(v.fields[PAYLOAD := n.payload]), OperationName(h), {Resource(h.kind, h.id)} + n.resources))
  }

  /** What parsing yields; the bytes and the order of the resources come from the normalised value alone. */
  ghost function Parsed(rules: Rules, raw: bytes): (r: Option<Request>)
  {
    var v :- Strict(raw, MAX_RAW);
    var n :- Normalise(rules, v);
    if !Printable(n.value) || |Canon(n.value)| > MAX_CANONICAL then None
    else Some(Request(n.value, Canon(n.value), n.operation, Names(n.resources)))
  }

  method Parse(env: Outside, raw: bytes) returns (r: Option<Request>)
    ensures r == Parsed(WorkRules(env), raw)
  {
    var v :- Strict(raw, MAX_RAW);
    var n :- Normalise(WorkRules(env), v);
    var canonical :- Canonical(n.value);
    if |canonical| > MAX_CANONICAL { return None; }
    var resources := SortNames(n.resources);
    return Some(Request(n.value, canonical, n.operation, resources));
  }
}
