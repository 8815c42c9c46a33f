/** Identifiers that a request only lists are not among its resources. */
module ListedIdentifiers {
  import opened Bytes
  import opened Wrappers
  import opened JsonValue
  import opened StrictJson
  import opened CanonicalRoundTrip
  import opened CanonicalSize
  import opened WorkValues
  import opened WorkRequest
  import opened RequestFixedPoint

  predicate Writes(op: string) { op == "create" || op == "patch" }

  /** A rule that names nothing beside the record. */
  ghost predicate Nameless(rule: Rule) {
    forall payload :: rule(payload).Some? ==> rule(payload).value.resources == {}
  }

  lemma RecordRuleNameless(op: string, id: string)
    requires Writes(op) && RecordRule(op, id).Some?
    ensures Nameless(RecordRule(op, id).value)
  {
  }

  lemma ArenaRuleNameless(op: string, id: string)
    requires Writes(op) && ArenaRule(op, id).Some?
    ensures Nameless(ArenaRule(op, id).value)
  {
  }

  lemma WritingRule(env: Outside, h: Header)
    requires Writes(h.op) && RuleOf(env, h).Some?
    ensures RuleOf(env, h) == if h.schema == ARENA then ArenaRule(h.op, h.id) else RecordRule(h.op, h.id)
  {
  }

  lemma WritingNameless(env: Outside, h: Header)
    requires Writes(h.op) && RuleOf(env, h).Some?
    ensures Nameless(RuleOf(env, h).value)
  {
    WritingRule(env, h);
    if h.schema == ARENA {
      ArenaRuleNameless(h.op, h.id);
    } else {
      RecordRuleNameless(h.op, h.id);
    }
  }

  lemma OneName(k: string)
    ensures Names({k}) == [k]
  {
    SortedUnique(Names({k}), [k]);
  }

  /** Creating or patching asks for the record alone: the artifacts and links it lists are not resources. */
  lemma ListedIdentifiersAreNotResources(env: Outside, raw: bytes)
    requires Parsed(WorkRules(env), raw).Some?
    ensures var w := Parsed(WorkRules(env), raw).value;
      HeaderOf(w.value).Some?
      && (Writes(HeaderOf(w.value).value.op) ==>
          w.resources == [Resource(HeaderOf(w.value).value.kind, HeaderOf(w.value).value.id)])
  {
    forall h: Header | Writes(h.op) && RuleOf(env, h).Some? ensures Nameless(RuleOf(env, h).value) {
      WritingNameless(env, h);
    }
    ParsedWriting(WorkRules(env), raw);
  }

  lemma ParsedWriting(rules: Rules, raw: bytes)
    requires Parsed(rules, raw).Some? && forall h: Header :: Writes(h.op) && rules(h).Some? ==> Nameless(rules(h).value)
    ensures var w := Parsed(rules, raw).value;
      HeaderOf(w.value).Some?
      && (Writes(HeaderOf(w.value).value.op) ==>
          w.resources == [Resource(HeaderOf(w.value).value.kind, HeaderOf(w.value).value.id)])
  {
    var v, normal := ParsedParts(rules, raw);
    NormalWriting(rules, v);
    var h := HeaderOf(normal.value).value;
    OneName(Resource(h.kind, h.id));
  }

  lemma NormalWriting(rules: Rules, v: Value)
    requires Normalise(rules, v).Some? && forall h: Header :: Writes(h.op) && rules(h).Some? ==> Nameless(rules(h).value)
    ensures var w := Normalise(rules, v).value;
      HeaderOf(w.value).Some?
      && (Writes(HeaderOf(w.value).value.op) ==>
          w.resources == {Resource(HeaderOf(w.value).value.kind, HeaderOf(w.value).value.id)})
  {
    var h, rule, n := NormalParts(rules, v);
    HeaderKept(v, n.payload);
    assert Writes(h.op) ==> n.resources == {};
  }

  // -------------------------------------------------------------- such requests

  predicate Named(k: string) { |k| <= 17 && Ascii(k) && NotPrivate(k) }

  /** A short text, nothing, zero, or a list of at most one short text. */
  predicate Tiny(v: Value, n: nat) {
    match v
    case Null => true
    case Num(x) => x == 0
    case Str(s) => |s| <= n
    case Arr(items) => |items| <= 1 && forall i | 0 <= i < |items| :: items[i].Str? && |items[i].s| <= n
    case _ => false
  }

  predicate Packed(v: Value, n: nat) {
    v.Obj? && |v.fields.Keys| == 6 && forall k | k in v.fields :: Named(k) && Tiny(v.fields[k], n)
  }

  predicate Wrapped(v: Value, n: nat) {
    v.Obj? && |v.fields.Keys| == 6 && forall k | k in v.fields :: Named(k) && (Tiny(v.fields[k], n) || Packed(v.fields[k], n))
  }

  lemma TinyLength(v: Value, n: nat)
    requires Tiny(v, n)
    ensures |Canon(v)| <= 6 * n + 10
  {
    if v.Str? {
      TextLength(v.s);
    } else if v.Arr? {
      forall i | 0 <= i < |v.items| ensures |Canon(v.items[i])| <= 6 * n + 2 {
        TextLength(v.items[i].s);
      }
      ListLength(v, |v.items|, 6 * n + 2);
    }
  }

  lemma PackedLength(v: Value, n: nat)
    requires Packed(v, n)
    ensures |Canon(v)| <= 36 * n + 698
  {
    forall k | k in v.fields ensures |Member(v, k)| <= 6 * n + 115 {
      TinyLength(v.fields[k], n);
      MemberLength(v, k, 6 * n + 10);
    }
    ObjectLength(v, 6, 6 * n + 115);
  }

  lemma WrappedLength(v: Value, n: nat)
    requires Wrapped(v, n)
    ensures |Canon(v)| <= 216 * n + 4826
  {
    forall k | k in v.fields ensures |Member(v, k)| <= 36 * n + 803 {
      if Tiny(v.fields[k], n) {
        TinyLength(v.fields[k], n);
      } else {
        PackedLength(v.fields[k], n);
      }
      MemberLength(v, k, 36 * n + 698);
    }
    ObjectLength(v, 6, 36 * n + 803);
  }

  lemma TinyReads(v: Value, n: nat, depth: nat)
    requires Tiny(v, n) && depth < MAX_DEPTH
    ensures Readable(v, NotPrivate) && Printable(v) && DepthOk(v, depth)
  {
  }

  lemma PackedReads(v: Value, n: nat, depth: nat, next: nat)
    requires Packed(v, n) && next == depth + 1 < MAX_DEPTH
    ensures Readable(v, NotPrivate) && Printable(v) && DepthOk(v, depth)
  {
    forall k | k in v.fields ensures Readable(v.fields[k], NotPrivate) && Printable(v.fields[k]) && DepthOk(v.fields[k], next) {
      TinyReads(v.fields[k], n, next);
    }
  }

  lemma WrappedReads(v: Value, n: nat, depth: nat, next: nat)
    requires Wrapped(v, n) && depth == 0 && next == depth + 1
    ensures Readable(v, NotPrivate) && Printable(v) && DepthOk(v, depth)
  {
    forall k | k in v.fields ensures Readable(v.fields[k], NotPrivate) && Printable(v.fields[k]) && DepthOk(v.fields[k], next) {
      if Tiny(v.fields[k], n) {
        TinyReads(v.fields[k], n, next);
      } else {
        PackedReads(v.fields[k], n, next, next + 1);
      }
    }
  }

  function Listing(id: string, title: string, link: string): Value {
    Obj(map["id" := Str(id), "title" := Str(title), "description" := Str(""), "priority" := Num(0),
            "artifact_ids" := Arr([]), "external_link_ids" := Arr([Str(link)])])
  }

  /** The request to create a task that lists one link. */
  function Creating(id: string, title: string, link: string): Value {
    Obj(map["schema" := Str(WORK_1), "operation" := Str("create"), "kind" := Str("Task"), "id" := Str(id),
            "expected_version" := Null, PAYLOAD := Listing(id, title, link)])
  }

  const LISTING_FIELDS := {"id", "title", "description", "priority", "artifact_ids", "external_link_ids"}

  lemma NamedByIndex(k: string)
    requires |k| <= 17 && forall i | 0 <= i < |k| :: k[i] as int < 0x80
    ensures Named(k)
  {
    assert |PRIVATE_NUMBER| > 17;
  }

  lemma FieldNamed(k: string)
    requires k in LISTING_FIELDS
    ensures Named(k)
  {
    NamedByIndex(k);
  }

  lemma HeaderNamed(k: string)
    requires k in ENVELOPE
    ensures Named(k)
  {
    NamedByIndex(k);
  }

  lemma SixEach()
    ensures |LISTING_FIELDS| == 6 && |ENVELOPE| == 6
  {
  }

  lemma ListingTiny(id: string, title: string, link: string, n: nat, k: string)
    requires |id| <= n && |title| <= n && |link| <= n && k in LISTING_FIELDS
    ensures k in Listing(id, title, link).fields && Tiny(Listing(id, title, link).fields[k], n)
  {
  }

  lemma ListingPacked(id: string, title: string, link: string, n: nat, v: Value)
    requires |id| <= n && |title| <= n && |link| <= n && v == Listing(id, title, link)
    ensures Packed(v, n)
  {
    assert v.fields.Keys == LISTING_FIELDS;
    SixEach();
    forall k | k in v.fields ensures Named(k) && Tiny(v.fields[k], n) {
      FieldNamed(k);
      ListingTiny(id, title, link, n, k);
    }
  }

  lemma CreatingTiny(id: string, title: string, link: string, n: nat, k: string)
    requires |id| <= n && 30 <= n && k in ENVELOPE
    ensures k in Creating(id, title, link).fields
    ensures if k == PAYLOAD then Creating(id, title, link).fields[k] == Listing(id, title, link)
            else Tiny(Creating(id, title, link).fields[k], n)
  {
  }

  lemma CreatingWrapped(id: string, title: string, link: string, n: nat, v: Value)
    requires |id| <= n && |title| <= n && |link| <= n && 30 <= n && v == Creating(id, title, link)
    ensures Wrapped(v, n)
  {
    assert v.fields.Keys == ENVELOPE;
    SixEach();
    ListingPacked(id, title, link, n, Listing(id, title, link));
    forall k | k in v.fields ensures Named(k) && (Tiny(v.fields[k], n) || Packed(v.fields[k], n)) {
      HeaderNamed(k);
      CreatingTiny(id, title, link, n, k);
    }
  }

  /** Its fields are all there, so its normal form is itself. */
  lemma ListingCreates(id: string, title: string, link: string, v: Value)
    requires Identifier(id) && title != "" && Identifier(link) && v == Listing(id, title, link)
    ensures Filled({"id", "title"}, WORK_DEFAULTS, w => CreateDetail(id, w), v) == Some(Normal(v, {}))
  {
    assert v.fields.Keys == {"id", "title"} + WORK_DEFAULTS.Keys;
    forall k | k in v.fields ensures WorkFieldOk(k, v.fields[k]) {
      assert k in {"id", "title", "description", "priority", "artifact_ids", "external_link_ids"};
    }
    assert CreateDetail(id, v) == Some({});
  }

  lemma CreatingHeader(id: string, title: string, link: string)
    ensures HeaderOf(Creating(id, title, link)) == Some(Header(WORK_1, "create", "Task", id))
    ensures At(Creating(id, title, link), PAYLOAD) == Listing(id, title, link)
  {
    assert Creating(id, title, link).fields.Keys == ENVELOPE;
  }

  lemma CreatingRule(env: Outside, h: Header)
    requires h == Header(WORK_1, "create", "Task", h.id) && Identifier(h.id)
    ensures RuleOf(env, h) == Some(Filling({"id", "title"}, WORK_DEFAULTS, v => CreateDetail(h.id, v)))
  {
    assert WorkHeaderOk(false, h.op, h.kind, h.id);
  }

  /** A value whose payload is its own normal form is its own normal form. */
  lemma NormalIsSelf(rules: Rules, v: Value, h: Header)
    requires HeaderOf(v) == Some(h) && rules(h).Some? && rules(h).value(At(v, PAYLOAD)) == Some(Normal(At(v, PAYLOAD), {}))
    ensures Normalise(rules, v) == Some(Normalised(v, OperationName(h), {Resource(h.kind, h.id)}))
  {
    assert PAYLOAD in ENVELOPE && v.fields.Keys == ENVELOPE;
    assert v.fields[PAYLOAD := At(v, PAYLOAD)] == v.fields;
    assert {Resource(h.kind, h.id)} + {} == {Resource(h.kind, h.id)};
  }

  lemma CreatingNormal(env: Outside, rules: Rules, id: string, title: string, link: string, v: Value, h: Header)
    requires rules == WorkRules(env) && Identifier(id) && title != "" && Identifier(link)
    requires v == Creating(id, title, link) && h == Header(WORK_1, "create", "Task", id)
    ensures Normalise(rules, v) == Some(Normalised(v, OperationName(h), {Resource("Task", id)}))
  {
    CreatingHeader(id, title, link);
    CreatingRule(env, h);
    ListingCreates(id, title, link, Listing(id, title, link));
    assert rules(h) == RuleOf(env, h);
    NormalIsSelf(rules, v, h);
  }

  lemma CreatingReads(id: string, title: string, link: string, n: nat, v: Value)
    requires |id| <= n && |title| <= n && |link| <= n && 30 <= n <= 256 && v == Creating(id, title, link)
    ensures Strict(Canon(v), MAX_RAW) == Some(v) && Printable(v) && |Canon(v)| <= MAX_CANONICAL
  {
    CreatingWrapped(id, title, link, n, v);
    WrappedLength(v, n);
    WrappedReads(v, n, 0, 1);
    StrictOfCanon(v, MAX_RAW);
  }

  /** Canonical bytes of a value that is its own normal form parse to it, with its one resource. */
  lemma ParsesToItself(rules: Rules, v: Value, op: string, r: string)
    requires Strict(Canon(v), MAX_RAW) == Some(v) && Printable(v) && |Canon(v)| <= MAX_CANONICAL
    requires Normalise(rules, v) == Some(Normalised(v, op, {r}))
    ensures Parsed(rules, Canon(v)) == Some(Request(v, Canon(v), op, [r]))
  {
    OneName(r);
  }

  lemma OtherResource(id: string, link: string)
    ensures Resource("Task", id) != Resource("ExternalLink", link)
  {
    assert Resource("Task", id)[0] != Resource("ExternalLink", link)[0];
  }

  /** The bytes of a task created with a listed link are accepted, and the link is not among what they ask for. */
  lemma ListedLinkIsNotAsked(env: Outside, rules: Rules, id: string, title: string, link: string, v: Value, h: Header)
    requires rules == WorkRules(env) && Identifier(id) && 0 < |title| <= 256 && Identifier(link)
    requires v == Creating(id, title, link) && h == Header(WORK_1, "create", "Task", id)
    ensures Parsed(rules, Canon(v)) == Some(Request(v, Canon(v), OperationName(h), [Resource("Task", id)]))
    ensures Resource("ExternalLink", link) !in [Resource("Task", id)]
  {
    CreatingReads(id, title, link, 256, v);
    CreatingNormal(env, rules, id, title, link, v, h);
    ParsesToItself(rules, v, OperationName(h), Resource("Task", id));
    OtherResource(id, link);
  }
}
