/** Normalising a request adds defaults and nothing else, and a canonical request is its own normal form. */
module RequestFixedPoint {
  import opened Bytes
  import opened Wrappers
  import opened JsonValue
  import opened JsonText
  import opened StrictJson
  import opened CanonicalRoundTrip
  import opened WorkValues
  import opened WorkProgress
  import opened WorkSessions
  import opened WorkRequest
  import opened ProgressFixedPoint

  // ------------------------------------------------------------------- rules

  /** A rule whose result is its own result, extends the payload, and stays clean at the payload's depth. */
  ghost predicate Good(rule: Rule, n: nat) {
    forall raw :: rule(raw).Some? ==>
      && rule(rule(raw).value.payload) == rule(raw)
      && Extends(raw, rule(raw).value.payload)
      && (Clean(raw, n) ==> Clean(rule(raw).value.payload, n))
  }

  lemma PlainGood(detail: Value -> Option<set<string>>, n: nat)
    ensures Good(Plain(detail), n)
  {
    forall raw | PlainOf(detail, raw).Some? ensures Extends(raw, PlainOf(detail, raw).value.payload) {
      ExtendsSelf(raw);
    }
  }

  lemma FilledGood(required: set<string>, optional: map<string, Value>, detail: Value -> Option<set<string>>, raw: Value, n: nat)
    requires Clean(Obj(optional), n) && Filled(required, optional, detail, raw).Some?
    ensures Extends(raw, Filled(required, optional, detail, raw).value.payload)
    ensures Clean(raw, n) ==> Clean(Filled(required, optional, detail, raw).value.payload, n)
  {
    FieldsExtend(raw, required, optional);
    if Clean(raw, n) {
      FieldsClean(raw, required, optional, n);
    }
  }

  lemma FillingGood(required: set<string>, optional: map<string, Value>, detail: Value -> Option<set<string>>, n: nat)
    requires Clean(Obj(optional), n)
    ensures Good(Filling(required, optional, detail), n)
  {
    forall raw | Filled(required, optional, detail, raw).Some?
      ensures Extends(raw, Filled(required, optional, detail, raw).value.payload)
      ensures Clean(raw, n) ==> Clean(Filled(required, optional, detail, raw).value.payload, n)
    {
      FilledGood(required, optional, detail, raw, n);
    }
  }

  lemma ReviewGoodFor(c: Checks, n: nat)
    requires n + 3 <= MAX_DEPTH && Regular(c) && TidyChecks(c, n + 2)
    ensures Good(Review(c), n)
    ensures Good(Progress(c), n)
  {
    forall raw | Review(c)(raw).Some?
      ensures Review(c)(Review(c)(raw).value.payload) == Review(c)(raw)
      ensures Extends(raw, Review(c)(raw).value.payload)
      ensures Clean(raw, n) ==> Clean(Review(c)(raw).value.payload, n)
    {
      ReviewFixed(c, raw);
      ReviewExtends(c, raw);
      if Clean(raw, n) {
        ReviewClean(c, raw, n);
      }
    }
    forall raw | Progress(c)(raw).Some?
      ensures Progress(c)(Progress(c)(raw).value.payload) == Progress(c)(raw)
      ensures Extends(raw, Progress(c)(raw).value.payload)
      ensures Clean(raw, n) ==> Clean(Progress(c)(raw).value.payload, n)
    {
      ProgressFixed(c, raw);
      ProgressExtends(c, raw);
      if Clean(raw, n) {
        ProgressClean(c, raw, n);
      }
    }
  }

  lemma ArenaRuleGood(op: string, id: string, n: nat)
    requires n < MAX_DEPTH && ArenaRule(op, id).Some?
    ensures Good(ArenaRule(op, id).value, n)
  {
    match op
    case "create" => FillingGood({"id", "title"}, ARENA_DEFAULTS, v => ArenaCreateDetail(id, v), n);
    case "patch" => PlainGood(v => ArenaPatchDetail(v), n);
    case "archive" => PlainGood(v => NoDetail(v), n);
    case "member.set" => PlainGood(v => MemberDetail(v), n);
  }

  lemma RecordRuleGood(op: string, id: string, n: nat)
    requires n < MAX_DEPTH && RecordRule(op, id).Some?
    ensures Good(RecordRule(op, id).value, n)
  {
    match op
    case "create" => FillingGood({"id", "title"}, WORK_DEFAULTS, v => CreateDetail(id, v), n);
    case "patch" => PlainGood(v => PatchDetail(v), n);
    case "status" => PlainGood(v => WordDetail("status", {"draft", "review", "accepted", "archived"}, v), n);
    case "session.state" => PlainGood(v => WordDetail("state", {"open", "done"}, v), n);
    case _ => PlainGood(v => NoDetail(v), n);
  }

  lemma FlowRuleGood(x: Naming, c: Checks, op: string, n: nat)
    requires n + 3 <= MAX_DEPTH && FlowRule(x, c, op).Some? && Regular(c) && TidyChecks(c, n + 2)
    ensures Good(FlowRule(x, c, op).value, n)
  {
    match op
    case "session.attach" =>
      FillingGood({"session", "observed_at", "basis"}, ATTACH_DEFAULTS, v => AttachDetail(x, v), n);
    case "workflow.assign" => FillingGood({"workflow_id", "reason"}, ASSIGN_DEFAULTS, v => AssignDetail(v), n);
    case "workflow.transition" => FillingGood({"stage"}, TRANSITION_DEFAULTS, v => TransitionDetail(v), n);
    case _ => ReviewGoodFor(c, n);
  }

  lemma LinkRuleGood(op: string, kind: string, id: string, n: nat)
    requires LinkRule(op, kind, id).Some?
    ensures Good(LinkRule(op, kind, id).value, n)
  {
    PlainGood(v => ParentDetail(kind, v), n);
    PlainGood(v => ProposalDetail(op, kind, v), n);
    PlainGood(v => DependencyDetail(op, kind, id, v), n);
  }

  lemma RuleGood(env: Outside, h: Header, n: nat)
    requires n + 3 <= MAX_DEPTH && RuleOf(env, h).Some?
    ensures Good(RuleOf(env, h).value, n)
  {
    if h.schema == ARENA {
      ArenaRuleGood(h.op, h.id, n);
    } else if RecordRule(h.op, h.id).Some? {
      RecordRuleGood(h.op, h.id, n);
    } else if FlowRule(HashNaming(env), ReviewChecks(env), h.op).Some? {
      ReviewRegular(env);
      ReviewTidy(env, n + 2);
      FlowRuleGood(HashNaming(env), ReviewChecks(env), h.op, n);
    } else {
      LinkRuleGood(h.op, h.kind, h.id, n);
    }
  }

  // ---------------------------------------------------------------- requests

  /** Rules that are all good at the depth of a payload. */
  ghost predicate GoodRules(rules: Rules, n: nat) {
    forall h :: rules(h).Some? ==> Good(rules(h).value, n)
  }

  lemma WorkRulesGood(env: Outside, n: nat)
    requires n + 3 <= MAX_DEPTH
    ensures GoodRules(WorkRules(env), n)
  {
    forall h | RuleOf(env, h).Some? ensures Good(RuleOf(env, h).value, n) {
      RuleGood(env, h, n);
    }
  }

  /** Only the payload changes, and the header is read from the rest. */
  lemma HeaderKept(v: Value, payload: Value)
    requires HeaderOf(v).Some?
    ensures HeaderOf(Obj(v.fields[PAYLOAD := payload])) == HeaderOf(v)
  {
    var w := Obj(v.fields[PAYLOAD := payload]);
    assert w.fields.Keys == v.fields.Keys;
    assert At(w, "schema") == At(v, "schema") && At(w, "operation") == At(v, "operation");
    assert At(w, "kind") == At(v, "kind") && At(w, "id") == At(v, "id");
    assert At(w, "expected_version") == At(v, "expected_version");
  }

  lemma NormalParts(rules: Rules, v: Value) returns (h: Header, rule: Rule, n: Normal)
    requires Normalise(rules, v).Some?
    ensures HeaderOf(v) == Some(h) && rules(h) == Some(rule) && rule(At(v, PAYLOAD)) == Some(n)
    ensures Normalise(rules, v) == Some(Normalised(
      Obj(v.fields[PAYLOAD := n.payload]), OperationName(h), {Resource(h.kind, h.id)} + n.resources))
  {
    h := HeaderOf(v).value;
    rule := rules(h).value;
    n := rule(At(v, PAYLOAD)).value;
  }

  lemma NormaliseFixed(rules: Rules, v: Value, n: nat)
    requires GoodRules(rules, n) && Normalise(rules, v).Some?
    ensures Normalise(rules, Normalise(rules, v).value.value) == Normalise(rules, v)
  {
    var h, rule, normal := NormalParts(rules, v);
    var w := Obj(v.fields[PAYLOAD := normal.payload]);
    HeaderKept(v, normal.payload);
    assert At(w, PAYLOAD) == normal.payload;
    assert w.fields[PAYLOAD := normal.payload] == w.fields;
  }

  /** Normalising only adds members: everything the caller wrote is still there, in its place. */
  lemma NormaliseExtends(rules: Rules, v: Value, n: nat)
    requires GoodRules(rules, n) && Normalise(rules, v).Some?
    ensures Extends(v, Normalise(rules, v).value.value)
  {
    var h, rule, normal := NormalParts(rules, v);
    ExtendsPayload(v, normal.payload);
  }

  lemma ExtendsPayload(v: Value, payload: Value)
    requires v.Obj? && Extends(At(v, PAYLOAD), payload)
    ensures Extends(v, Obj(v.fields[PAYLOAD := payload]))
  {
    forall k | k in v.fields ensures Extends(v.fields[k], v.fields[PAYLOAD := payload][k]) {
      ExtendsSelf(v.fields[k]);
    }
  }

  lemma NormaliseClean(rules: Rules, v: Value, n: nat, next: nat)
    requires next == n + 1 <= MAX_DEPTH && GoodRules(rules, next) && Clean(v, n) && Normalise(rules, v).Some?
    ensures Clean(Normalise(rules, v).value.value, n)
  {
    var h, rule, normal := NormalParts(rules, v);
    AtClean(v, PAYLOAD, n);
  }

  // ------------------------------------------------------------ reading back

  /** Every member name, at every depth, is allowed. */
  ghost predicate Named(v: Value, allowed: string -> bool) {
    match v
    case Arr(items) => forall i | 0 <= i < |items| :: Named(items[i], allowed)
    case Obj(fields) => forall k | k in fields :: allowed(k) && Named(fields[k], allowed)
    case _ => true
  }

  lemma {:induction false} ReadValueNamed(text: bytes, allowed: string -> bool)
    requires ReadValue(text, allowed).Some?
    ensures Named(ReadValue(text, allowed).value.0, allowed)
    decreases |text|, 1
  {
    var s := SkipSpace(text);
    if s[0] == 0x5B {
      ReadArrayNamed(s, allowed);
    } else if s[0] == 0x7B {
      ReadObjectNamed(s, allowed);
    }
  }

  lemma {:induction false} ReadArrayNamed(s: bytes, allowed: string -> bool)
    requires s != [] && ReadArray(s, allowed).Some?
    ensures Named(ReadArray(s, allowed).value.0, allowed)
    decreases |s|, 0
  {
    var t := SkipSpace(s[1..]);
    if t == [] || t[0] != 0x5D {
      ReadElementsNamed(s[1..], allowed);
    }
  }

  lemma {:induction false} ReadObjectNamed(s: bytes, allowed: string -> bool)
    requires s != [] && ReadObject(s, allowed).Some?
    ensures Named(ReadObject(s, allowed).value.0, allowed)
    decreases |s|, 0
  {
    var t := SkipSpace(s[1..]);
    if t == [] || t[0] != 0x7D {
      ReadMembersNamed(s[1..], map[], allowed);
    }
  }

  lemma {:induction false} ReadElementsNamed(text: bytes, allowed: string -> bool)
    requires ReadElements(text, allowed).Some?
    ensures Named(Arr(ReadElements(text, allowed).value.0), allowed)
    decreases |text|, 2
  {
    ReadValueNamed(text, allowed);
    var s := SkipSpace(ReadValue(text, allowed).value.1);
    if s[0] != 0x5D {
      ReadElementsNamed(s[1..], allowed);
    }
  }

  lemma {:induction false} ReadMembersNamed(text: bytes, known: map<string, Value>, allowed: string -> bool)
    requires ReadMembers(text, known, allowed).Some? && Named(Obj(known), allowed)
    ensures Named(Obj(ReadMembers(text, known, allowed).value.0), allowed)
    decreases |text|, 2
  {
    var name := ReadName(text).value;
    ReadValueNamed(name.1, allowed);
    var value := ReadValue(name.1, allowed).value;
    var s := SkipSpace(value.1);
    assert Named(Obj(known[name.0 := value.0]), allowed);
    if s[0] != 0x7D {
      ReadMembersNamed(s[1..], known[name.0 := value.0], allowed);
    }
  }

  lemma {:induction false} NamedClean(v: Value, n: nat)
    requires Named(v, NotPrivate) && DepthOk(v, n)
    ensures Clean(v, n)
  {
    match v
    case Arr(items) => forall i | 0 <= i < |items| ensures Clean(items[i], n + 1) { NamedClean(items[i], n + 1); }
    case Obj(fields) => forall k | k in fields ensures Clean(fields[k], n + 1) { NamedClean(fields[k], n + 1); }
    case _ =>
  }

  lemma {:induction false} CleanReadable(v: Value, n: nat)
    requires Clean(v, n) && Printable(v)
    ensures Readable(v, NotPrivate) && DepthOk(v, n)
  {
    match v
    case Arr(items) =>
      forall i | 0 <= i < |items| ensures Readable(items[i], NotPrivate) && DepthOk(items[i], n + 1) {
        CleanReadable(items[i], n + 1);
      }
    case Obj(fields) =>
      forall k | k in fields ensures Readable(fields[k], NotPrivate) && DepthOk(fields[k], n + 1) {
        CleanReadable(fields[k], n + 1);
      }
    case _ =>
  }

  // ---------------------------------------------------------------- theorems

  lemma ParsedParts(rules: Rules, raw: bytes) returns (v: Value, n: Normalised)
    requires Parsed(rules, raw).Some?
    ensures Strict(raw, MAX_RAW) == Some(v) && Normalise(rules, v) == Some(n)
    ensures Printable(n.value) && |Canon(n.value)| <= MAX_CANONICAL
    ensures Parsed(rules, raw) == Some(Request(n.value, Canon(n.value), n.operation, Names(n.resources)))
  {
    v := Strict(raw, MAX_RAW).value;
    n := Normalise(rules, v).value;
  }

  lemma {:induction false} NormalValueReadsBack(rules: Rules, raw: bytes, v: Value, w: Value, n: nat, next: nat)
    requires n == 0 && next == n + 1 && GoodRules(rules, next)
    requires Strict(raw, MAX_RAW) == Some(v) && Normalise(rules, v).Some? && Normalise(rules, v).value.value == w
    requires Printable(w) && |Canon(w)| <= MAX_CANONICAL
    ensures Strict(Canon(w), MAX_RAW) == Some(w)
  {
    ReadValueNamed(raw, NotPrivate);
    NamedClean(v, n);
    NormaliseClean(rules, v, n, next);
    CleanReadable(w, n);
    StrictOfCanon(w, MAX_RAW);
  }

  /** The canonical bytes of a request parse to the very same request. */
  lemma CanonicalParsesToItself(env: Outside, raw: bytes)
    requires Parsed(WorkRules(env), raw).Some?
    ensures Parsed(WorkRules(env), Parsed(WorkRules(env), raw).value.canonical) == Parsed(WorkRules(env), raw)
  {
    WorkRulesGood(env, 1);
    ParsedAgain(WorkRules(env), raw, 0, 1);
  }

  lemma ParsedAgain(rules: Rules, raw: bytes, n: nat, next: nat)
    requires n == 0 && next == n + 1 && GoodRules(rules, next) && Parsed(rules, raw).Some?
    ensures Parsed(rules, Parsed(rules, raw).value.canonical) == Parsed(rules, raw)
  {
    var v, normal := ParsedParts(rules, raw);
    NormalValueReadsBack(rules, raw, v, normal.value, n, next);
    NormaliseFixed(rules, v, next);
  }

  /** Two spellings with the same canonical bytes are the same request: same value, operation and resources. */
  lemma CanonicalDecidesRequest(env: Outside, raw: bytes, other: bytes)
    requires Parsed(WorkRules(env), raw).Some? && Parsed(WorkRules(env), other).Some?
    requires Parsed(WorkRules(env), raw).value.canonical == Parsed(WorkRules(env), other).value.canonical
    ensures Parsed(WorkRules(env), raw) == Parsed(WorkRules(env), other)
  {
    CanonicalParsesToItself(env, raw);
    CanonicalParsesToItself(env, other);
  }

  lemma SameValueSameRequest(env: Outside, raw: bytes, other: bytes)
    requires Parsed(WorkRules(env), raw).Some? && Parsed(WorkRules(env), other).Some?
    requires Parsed(WorkRules(env), raw).value.value == Parsed(WorkRules(env), other).value.value
    ensures Parsed(WorkRules(env), raw) == Parsed(WorkRules(env), other)
  {
    CanonicalDecidesRequest(env, raw, other);
  }

  /** What was written is kept, and the resources are listed once each, in order, with the record itself among them. */
  lemma ParsedKeepsWhatWasWritten(env: Outside, raw: bytes)
    requires Parsed(WorkRules(env), raw).Some?
    ensures Strict(raw, MAX_RAW).Some? && Extends(Strict(raw, MAX_RAW).value, Parsed(WorkRules(env), raw).value.value)
    ensures var w := Parsed(WorkRules(env), raw).value;
      Sorted(w.resources) && HeaderOf(w.value).Some?
      && Resource(HeaderOf(w.value).value.kind, HeaderOf(w.value).value.id) in w.resources
      && w.operation == OperationName(HeaderOf(w.value).value)
  {
    WorkRulesGood(env, 1);
    ParsedKeeps(WorkRules(env), raw, 1);
  }

  lemma ParsedKeeps(rules: Rules, raw: bytes, n: nat)
    requires GoodRules(rules, n) && Parsed(rules, raw).Some?
    ensures Strict(raw, MAX_RAW).Some? && Extends(Strict(raw, MAX_RAW).value, Parsed(rules, raw).value.value)
    ensures var w := Parsed(rules, raw).value;
      Sorted(w.resources) && HeaderOf(w.value).Some?
      && Resource(HeaderOf(w.value).value.kind, HeaderOf(w.value).value.id) in w.resources
      && w.operation == OperationName(HeaderOf(w.value).value)
  {
    var v, normal := ParsedParts(rules, raw);
    NormaliseExtends(rules, v, n);
    var h, rule, x := NormalParts(rules, v);
    HeaderKept(v, x.payload);
    assert Resource(h.kind, h.id) in normal.resources;
  }
}
