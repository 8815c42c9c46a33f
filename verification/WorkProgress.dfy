/** Workflow, review and progress payloads: closed shapes with their defaults filled in. */
module WorkProgress {
  import opened Text
  import opened Wrappers
  import opened Seqs
  import opened JsonValue
  import opened WorkValues

  const EMPTY := Str("")
  const NOTHING := Arr([])

  predicate Verdict(v: Value) {
    v == Str("approved") || v == Str("changes_requested") || v == Str("not_applicable")
  }

  predicate Stage(workflow: string, stage: string) {
    || (stage in {"backlog", "done", "blocked_waiting_input"} && workflow in {"vibe-ceo.v1", "execution.v1"})
    || (workflow == "vibe-ceo.v1" && stage in
          {"planning", "developer_plan_approval", "ceo_plan_approval", "ready", "in_progress",
           "ceo_delivery_approval", "technical_review", "handoff_verification"})
    || (workflow == "execution.v1" && stage in
          {"intake", "requirements_normalized", "baseline_captured", "implementing_commit",
           "commit_ready_for_review", "layer_review", "reconciling_ledger", "delivery_packet_ready"})
  }

  // -------------------------------------------------------------------- URLs

  function Until(s: string, stop: char -> bool): (r: string)
    ensures r <= s
  {
    if s == "" || stop(s[0]) then "" else [s[0]] + Until(s[1..], stop)
  }

  predicate PortOk(port: string) {
    || port == ""
    || (port[0] == ':' && 2 <= |port| <= 6
        && (forall i | 1 <= i < |port| :: IsDigit(port[i])) && DecimalValue(port[1..]) < 0x1_0000)
  }

  predicate EvidenceUrl(env: Outside, url: string) {
    && (forall i | 0 <= i < |url| :: url[i] > ' ' && url[i] != '\\' && url[i] as int != 0x7F)
    && ("https://" <= url || "http://" <= url)
    && var rest := if "https://" <= url then url[8..] else url[7..];
    && var authority := Until(rest, c => c == '/' || c == '?' || c == '#');
    if authority != "" && authority[0] == '[' then
      var host := Until(authority, c => c == ']');
      |host| < |authority| && env.isIpv6(host[1..]) && PortOk(authority[|host| + 1..])
    else
      var host := Until(authority, c => c == ':');
      && host != ""
      && (forall i | 0 <= i < |host| :: IsAlphanumeric(host[i]) || host[i] == '.' || host[i] == '-')
      && PortOk(authority[|host|..])
  }

  // ------------------------------------------------------------------- lists

  /** One checked item: its filled form, the identifier it uses up, and the resource it adds. */
  datatype Entry = Entry(item: Value, id: string, link: Option<string>)

  /** What an item of a filled shape uses up and adds. */
  type Detail = Value -> Option<(string, Option<string>)>

  /** Fill the shape in, then look at the details. */
  function Checker(required: set<string>, optional: map<string, Value>, detail: Detail): Value -> Option<Entry> {
    raw => Checked(required, optional, detail, raw)
  }

  function Checked(required: set<string>, optional: map<string, Value>, detail: Detail, raw: Value): (r: Option<Entry>)
  {
    var e :- Fields(raw, required, optional);
    var d :- detail(e);
    Some(Entry(e, d.0, d.1))
  }

  /** The items of a list, the identifiers they use and the resources they add. */
  datatype Listed = Listed(items: seq<Value>, ids: set<string>, resources: set<string>)
  {
    function Add(e: Entry): Listed {
      Listed(items + [e.item], ids + {e.id}, resources + if e.link.Some? then {e.link.value} else {})
    }
  }

  /** Every item checked in turn; no two share an identifier. */
  function Collected(check: Value -> Option<Entry>, raw: seq<Value>): (r: Option<Listed>)
    ensures r.Some? ==> |r.value.items| == |raw|
  {
    if raw == [] then Some(Listed([], {}, {}))
    else
      var before :- Collected(check, raw[..|raw| - 1]);
      var e :- check(raw[|raw| - 1]);
      if e.id in before.ids then None else Some(before.Add(e))
  }

  method Collect(check: Value -> Option<Entry>, raw: seq<Value>) returns (r: Option<Listed>)
    ensures r == Collected(check, raw)
  {
    var done := Listed([], {}, {});
    for i := 0 to |raw|
      invariant Collected(check, raw[..i]) == Some(done)
    {
      PrefixStep(raw, i);
      var e := check(raw[i]);
      if e.None? || e.value.id in done.ids {
        CollectedStops(check, raw, i + 1);
        return None;
      }
      done := done.Add(e.value);
    }
    TakeAll(raw);
    return Some(done);
  }

  lemma PrefixStep<T>(s: seq<T>, i: nat)
    requires i < |s|
    ensures s[..i + 1][..i] == s[..i] && s[..i + 1][i] == s[i]
  {
  }

  lemma PrefixOfFront<T>(s: seq<T>, i: nat)
    requires i < |s|
    ensures s[..|s| - 1][..i] == s[..i]
  {
  }

  lemma {:induction false} CollectedStops(check: Value -> Option<Entry>, raw: seq<Value>, i: nat)
    requires i <= |raw| && Collected(check, raw[..i]).None?
    ensures Collected(check, raw).None?
    decreases |raw|
  {
    if i < |raw| {
      PrefixOfFront(raw, i);
      CollectedStops(check, raw[..|raw| - 1], i);
    } else {
      TakeAll(raw);
    }
  }

  // ---------------------------------------------------------------- evidence

  const EVIDENCE_DEFAULTS := map["title" := EMPTY, "url" := EMPTY]

  function EvidenceDetail(env: Outside, e: Value): (r: Option<(string, Option<string>)>)
  {
    var id :- IdAt(e, "id");
    var title :- Bounded(e, "title", 0, 4096);
    var url :- Bounded(e, "url", 0, 4096);
    if At(e, "kind") != Str("Artifact") && At(e, "kind") != Str("ExternalLink") then None
    else if url == "" then if title == "" then Some((id, None)) else None
    else if At(e, "kind") != Str("ExternalLink") || Blank(title) || !EvidenceUrl(env, url) then None
    else Some((id, Some(Resource("ExternalLink", id))))
  }

  function EvidenceCheck(env: Outside): Value -> Option<Entry> {
    Checker({"kind", "id"}, EVIDENCE_DEFAULTS, e => EvidenceDetail(env, e))
  }

  // ------------------------------------------------------------ requirements

  const REQUIREMENT_DEFAULTS := map["subject" := EMPTY, "evidence_ids" := NOTHING, "reason" := EMPTY]

  predicate Subject(s: string) {
    s == "" ||
    exists i | 0 <= i < |s| ::
      && s[i] == '/' && '/' !in s[..i]
      && (Kind(s[..i]) || s[..i] == "Requirement" || s[..i] == "AcceptanceCriterion")
      && Identifier(s[i + 1..])
  }

  predicate AttachedOk(attached: seq<Value>, ids: set<string>) {
    forall i | 0 <= i < |attached| :: attached[i].Str? && attached[i].s in ids
  }

  function RequirementDetail(ids: set<string>, e: Value): (r: Option<(string, Option<string>)>)
  {
    var id :- IdAt(e, "id");
    var title :- Bounded(e, "title", 1, 4096);
    var reason :- Bounded(e, "reason", 0, 4096);
    var subject :- TextAt(e, "subject");
    var attached :- ArrayAt(e, "evidence_ids", 50);
    var outcome := At(e, "outcome");
    if !Subject(subject) || !AttachedOk(attached, ids) then None
    else if || (outcome == Str("met") && attached != [])
            || (outcome == Str("excluded") && !Blank(reason))
            || outcome == Str("unmet") then Some((id, None))
    else None
  }

  function RequirementCheck(ids: set<string>): Value -> Option<Entry> {
    Checker({"id", "title", "outcome"}, REQUIREMENT_DEFAULTS, e => RequirementDetail(ids, e))
  }

  // ------------------------------------------------------------------ layers

  predicate Layer(s: string) {
    s in {"product", "architecture", "implementation", "e2e", "design", "ux"}
  }

  const LAYER_DEFAULTS := map["reason" := EMPTY]

  function LayerDetail(e: Value): (r: Option<(string, Option<string>)>)
  {
    var key :- TextAt(e, "layer");
    var reason :- Bounded(e, "reason", 0, 4096);
    if !Layer(key) || !Verdict(At(e, "verdict")) then None
    else if Blank(reason) && At(e, "verdict") == Str("not_applicable") then None
    else Some((key, None))
  }

  function LayerCheck(): Value -> Option<Entry> {
    Checker({"layer", "verdict"}, LAYER_DEFAULTS, e => LayerDetail(e))
  }

  // ---------------------------------------------------------------- payloads

  const EVIDENCE := "evidence"
  const REQUIREMENTS := "requirements"
  const LAYERS := "layers"
  const REVIEW_DEFAULTS := map[EVIDENCE := NOTHING, REQUIREMENTS := NOTHING, LAYERS := NOTHING]

  function RecordType(phase: Value): Option<string> {
    if !phase.Str? then None
    else if phase.s in {"developer_plan", "ceo_plan", "ceo_delivery", "resolution"} then Some("Decision")
    else if phase.s == "handoff" then Some("Handoff")
    else if phase.s in {"requirements", "baseline", "commit", "technical"} then Some("ReviewPacket")
    else None
  }

  /** Everything a review checks outside its three lists: the resource it records. */
  function ReviewRecord(v: Value): (r: Option<string>)
  {
    var record :- IdAt(v, "record_id");
    var kind :- RecordType(At(v, "phase"));
    var summary :- Bounded(v, "summary", 1, 8192);
    if Verdict(At(v, "verdict")) then Some(Resource(kind, record)) else None
  }

  /** The four checks a review is made of; a requirement may name any evidence identifier in use. */
  datatype Checks = Checks(
    record: Value -> Option<string>,
    evidence: Value -> Option<Entry>,
    requirement: set<string> -> (Value -> Option<Entry>),
    layer: Value -> Option<Entry>)

  function ReviewChecks(env: Outside): Checks {
    Checks(v => ReviewRecord(v), EvidenceCheck(env), ids => RequirementCheck(ids), LayerCheck())
  }

  const REVIEW_FIELDS := {"record_id", "phase", "verdict", "summary"}

  function ReviewWith(c: Checks, raw: Value): (r: Option<Normal>)
  {
    var v :- Fields(raw, REVIEW_FIELDS, REVIEW_DEFAULTS);
    var record :- c.record(v);
    var rawEvidence :- ArrayAt(v, EVIDENCE, 50);
    var rawRequirements :- ArrayAt(v, REQUIREMENTS, 100);
    var rawLayers :- ArrayAt(v, LAYERS, 6);
    var evidence :- Collected(c.evidence, rawEvidence);
    var requirements :- Collected(c.requirement(evidence.ids), rawRequirements);
    var layers :- Collected(c.layer, rawLayers);
    Some(Normal(WithLists(v, evidence.items, requirements.items, layers.items), {record} + evidence.resources))
  }

  function Review(c: Checks): Rule { raw => ReviewWith(c, raw) }

  function WithLists(v: Value, evidence: seq<Value>, requirements: seq<Value>, layers: seq<Value>): Value
    requires v.Obj?
  {
    Obj(v.fields[EVIDENCE := Arr(evidence)][REQUIREMENTS := Arr(requirements)][LAYERS := Arr(layers)])
  }

  method ReadReview(env: Outside, raw: Value) returns (r: Option<Normal>)
    ensures r == ReviewWith(ReviewChecks(env), raw)
  {
    var c := ReviewChecks(env);
    var v :- Fields(raw, REVIEW_FIELDS, REVIEW_DEFAULTS);
    var record :- c.record(v);
    var rawEvidence :- ArrayAt(v, EVIDENCE, 50);
    var rawRequirements :- ArrayAt(v, REQUIREMENTS, 100);
    var rawLayers :- ArrayAt(v, LAYERS, 6);
    var evidence :- Collect(c.evidence, rawEvidence);
    var requirements :- Collect(c.requirement(evidence.ids), rawRequirements);
    var layers :- Collect(c.layer, rawLayers);
    return Some(Normal(WithLists(v, evidence.items, requirements.items, layers.items), {record} + evidence.resources));
  }

  /** A progress update is checked as an approved requirements review with its reason as the summary. */
  function AsReview(v: Value): Value {
    RequirementsReview(At(v, "record_id"), At(v, "reason"), At(v, EVIDENCE), At(v, REQUIREMENTS))
  }

  function RequirementsReview(record: Value, summary: Value, evidence: Value, requirements: Value): Value {
    Obj(map["record_id" := record, "phase" := Str("requirements"), "verdict" := Str("approved"),
            "summary" := summary, EVIDENCE := evidence, REQUIREMENTS := requirements])
  }

  const PROGRESS_FIELDS := {"progress", "reason", "record_id"}
  const PROGRESS_DEFAULTS := map[EVIDENCE := NOTHING, REQUIREMENTS := NOTHING]

  function ProgressWith(c: Checks, raw: Value): (r: Option<Normal>)
  {
    var v :- Fields(raw, PROGRESS_FIELDS, PROGRESS_DEFAULTS);
    if !ProgressOk(v) then None
    else
      var review :- ReviewWith(c, AsReview(v));
      Some(Normal(FromReview(v, review.payload), review.resources))
  }

  function FromReview(v: Value, p: Value): Value {
    Update(At(v, "progress"), At(v, "reason"), At(p, "record_id"), At(p, EVIDENCE), At(p, REQUIREMENTS))
  }

  function Update(progress: Value, reason: Value, record: Value, evidence: Value, requirements: Value): Value {
    Obj(map["progress" := progress, "reason" := reason, "record_id" := record,
            EVIDENCE := evidence, REQUIREMENTS := requirements])
  }

  predicate ProgressOk(v: Value) {
    && At(v, "progress") in {Str("not_started"), Str("in_progress"), Str("done")}
    && Bounded(v, "reason", 1, 8192).Some?
    && !Blank(Bounded(v, "reason", 1, 8192).value)
  }

  function Progress(c: Checks): Rule { raw => ProgressWith(c, raw) }

  function AssignDetail(v: Value): (r: Option<set<string>>)
  {
    var workflow :- Bounded(v, "workflow_id", 1, 64);
    var stage :- Bounded(v, "stage", 1, 64);
    var reason :- Bounded(v, "reason", 1, 4096);
    if Stage(workflow, stage) then Some({}) else None
  }

  const ASSIGN_DEFAULTS := map["stage" := Str("backlog")]

  function Assign(): Rule { Filling({"workflow_id", "reason"}, ASSIGN_DEFAULTS, v => AssignDetail(v)) }

  function TransitionDetail(v: Value): (r: Option<set<string>>)
  {
    var stage :- Bounded(v, "stage", 1, 64);
    var reason :- Bounded(v, "reason", 0, 4096);
    Some({})
  }

  const TRANSITION_DEFAULTS := map["reason" := EMPTY]

  function Transition(): Rule { Filling({"stage"}, TRANSITION_DEFAULTS, v => TransitionDetail(v)) }
}
