/** What the payload of a request mentions, and the rules whose resources are exactly that. */
module RequestMentions {
  import opened Wrappers
  import opened JsonValue
  import opened WorkValues
  import opened WorkProgress
  import opened WorkSessions
  import opened WorkRequest

  // ----------------------------------------------------------------- mentions

  const VERSION := "expected_version"
  const URL := "url"
  const RECORD := "record_id"
  const DECISION := "decision_id"
  const ISSUE := "issue_id"
  const EVENT := "event_id"
  const NATIVE := "external_session_id"

  /** A reference to a versioned record. */
  predicate Refers(v: Value, r: string) {
    Exact(v, {"kind", "id", VERSION}) && At(v, "kind").Str? && At(v, "id").Str? && r == Resource(At(v, "kind").s, At(v, "id").s)
  }

  /** Evidence that brings a link of its own. */
  predicate Links(v: Value, r: string) {
    At(v, URL).Str? && At(v, URL).s != "" && At(v, "id").Str? && r == Resource("ExternalLink", At(v, "id").s)
  }

  function RecordKind(phase: Value): string { if RecordType(phase).Some? then RecordType(phase).value else "ReviewPacket" }

  /** A review, or a progress update, which counts as one. */
  predicate Records(v: Value, r: string) {
    At(v, RECORD).Str? && r == Resource(RecordKind(At(v, "phase")), At(v, RECORD).s)
  }

  predicate Decides(v: Value, r: string) { At(v, DECISION).Str? && r == Resource("Decision", At(v, DECISION).s) }

  predicate Opens(v: Value, r: string) { At(v, ISSUE).Str? && r == Resource("Issue", At(v, ISSUE).s) }

  predicate Attends(x: Naming, v: Value, r: string) { x.session(v).Some? && r == Resource("SessionRef", x.session(v).value) }

  predicate Joins(x: Naming, v: Value, r: string) {
    At(v, EVENT).Str? && At(v, "source_instance_id").Str?
    && r == Resource("SessionLink", x.link(At(v, "source_instance_id").s, At(v, EVENT).s))
  }

  predicate Denotes(x: Naming, v: Value, r: string) {
    Refers(v, r) || Links(v, r) || Records(v, r) || Decides(v, r) || Opens(v, r) || Attends(x, v, r) || Joins(x, v, r)
  }

  /** Something in a value, at any depth, names the resource. */
  ghost predicate Mentioned(x: Naming, v: Value, r: string) {
    match v
    case Arr(items) => exists i | 0 <= i < |items| :: Mentioned(x, items[i], r)
    case Obj(fields) => Denotes(x, v, r) || exists k | k in fields :: Mentioned(x, fields[k], r)
    case _ => false
  }

  // ------------------------------------------------------------- quiet objects

  /** No member of this object names anything. */
  predicate Quiet(v: Value) {
    v.Obj? && VERSION !in v.fields && URL !in v.fields && RECORD !in v.fields && DECISION !in v.fields
    && ISSUE !in v.fields && EVENT !in v.fields && NATIVE !in v.fields
  }

  const SESSION_FIELDS := {"application", "source_instance_id", NATIVE}

  predicate AllText(v: Value) { v.Obj? && forall k | k in v.fields :: v.fields[k].Str? }

  /** Only objects of the session shape are sessions. */
  ghost predicate Shapely(x: Naming) {
    forall v :: x.session(v).Some? ==> Exact(v, SESSION_FIELDS) && AllText(v)
  }

  lemma HashNamingShapely(env: Outside)
    ensures Shapely(HashNaming(env))
  {
    forall v | Identity(env, v).Some? ensures Exact(v, SESSION_FIELDS) && AllText(v) {
      assert v.fields.Keys == SESSION_FIELDS;
    }
  }

  lemma QuietNamesNothing(x: Naming, v: Value, r: string)
    requires Shapely(x) && Quiet(v)
    ensures !Denotes(x, v, r)
  {
  }

  /** A text, number or nothing, or a list of texts. */
  predicate Leaf(v: Value) {
    if v.Arr? then forall i | 0 <= i < |v.items| :: v.items[i].Str? else !v.Obj?
  }

  predicate Leaves(v: Value) { v.Obj? && forall k | k in v.fields :: Leaf(v.fields[k]) }

  lemma LeafMention(x: Naming, v: Value, r: string)
    requires Leaf(v)
    ensures !Mentioned(x, v, r)
  {
    if v.Arr? {
      forall i | 0 <= i < |v.items| ensures !Mentioned(x, v.items[i], r) {
        assert v.items[i].Str?;
      }
    }
  }

  lemma LeavesMention(x: Naming, v: Value, r: string)
    requires Leaves(v)
    ensures Mentioned(x, v, r) <==> Denotes(x, v, r)
  {
    forall k | k in v.fields ensures !Mentioned(x, v.fields[k], r) {
      LeafMention(x, v.fields[k], r);
    }
  }

  lemma QuietLeaves(x: Naming, v: Value, r: string)
    requires Shapely(x) && Quiet(v) && Leaves(v)
    ensures !Mentioned(x, v, r)
  {
    LeavesMention(x, v, r);
    QuietNamesNothing(x, v, r);
  }

  lemma SessionMention(x: Naming, v: Value, r: string)
    requires Shapely(x) && x.session(v).Some?
    ensures Mentioned(x, v, r) <==> r == Resource("SessionRef", x.session(v).value)
  {
    assert v.fields.Keys == SESSION_FIELDS;
    LeavesMention(x, v, r);
  }

  // --------------------------------------------------------------------- rules

  /** The resources of a normal form are what its payload mentions. */
  ghost predicate Exactly(x: Naming, n: Normal) {
    forall r :: r in n.resources <==> Mentioned(x, n.payload, r)
  }

  ghost predicate Exacting(x: Naming, rule: Rule) {
    forall raw :: rule(raw).Some? ==> Exactly(x, rule(raw).value)
  }

  lemma PlainExacting(x: Naming, detail: Value -> Option<set<string>>)
    requires forall v :: detail(v).Some? ==> Exactly(x, Normal(v, detail(v).value))
    ensures Exacting(x, Plain(detail))
  {
    forall raw | PlainOf(detail, raw).Some? ensures Exactly(x, PlainOf(detail, raw).value) {
      assert detail(raw).Some?;
    }
  }

  lemma FillingExacting(x: Naming, required: set<string>, optional: map<string, Value>, detail: Value -> Option<set<string>>)
    requires forall v :: Exact(v, required + optional.Keys) && detail(v).Some? ==> Exactly(x, Normal(v, detail(v).value))
    ensures Exacting(x, Filling(required, optional, detail))
  {
    forall raw | Filled(required, optional, detail, raw).Some? ensures Exactly(x, Filled(required, optional, detail, raw).value) {
      var v := Fields(raw, required, optional).value;
      assert Exact(v, required + optional.Keys) && detail(v).Some?;
    }
  }

  lemma QuietExactly(x: Naming, v: Value)
    requires Shapely(x) && Quiet(v) && Leaves(v)
    ensures Exactly(x, Normal(v, {}))
  {
    forall r ensures !Mentioned(x, v, r) {
      QuietLeaves(x, v, r);
    }
  }

  // ------------------------------------------------------------ plain payloads

  lemma NoDetailExactly(x: Naming, v: Value)
    requires Shapely(x) && NoDetail(v).Some?
    ensures Exactly(x, Normal(v, NoDetail(v).value))
  {
    assert v.fields.Keys == {};
    QuietExactly(x, v);
  }

  lemma WordExactly(x: Naming, key: string, words: set<string>, v: Value)
    requires Shapely(x) && (key == "state" || key == "status") && WordDetail(key, words, v).Some?
    ensures Exactly(x, Normal(v, WordDetail(key, words, v).value))
  {
    assert v.fields.Keys == {key};
    QuietExactly(x, v);
  }

  lemma WorkFieldKey(k: string, v: Value)
    requires WorkFieldOk(k, v)
    ensures k in {"id", "title"} + WORK_DEFAULTS.Keys && Leaf(v)
  {
  }

  lemma WorkFieldsExactly(x: Naming, v: Value)
    requires Shapely(x) && v.Obj? && forall k | k in v.fields :: WorkFieldOk(k, v.fields[k])
    ensures Exactly(x, Normal(v, {}))
  {
    forall k | k in v.fields ensures k in {"id", "title"} + WORK_DEFAULTS.Keys && Leaf(v.fields[k]) {
      WorkFieldKey(k, v.fields[k]);
    }
    QuietExactly(x, v);
  }

  lemma ArenaFieldsExactly(x: Naming, v: Value)
    requires Shapely(x) && v.Obj? && forall k | k in v.fields :: ArenaFieldOk(k, v.fields[k])
    ensures Exactly(x, Normal(v, {}))
  {
    forall k | k in v.fields ensures k in {"id", "title", "description"} && Leaf(v.fields[k]) {
      assert ArenaFieldOk(k, v.fields[k]);
    }
    QuietExactly(x, v);
  }

  // ----------------------------------------------------------------- proposals

  lemma ProposalNames(x: Naming, v: Value, r: string)
    requires Shapely(x) && v.Obj? && VERSION !in v.fields && URL !in v.fields && RECORD !in v.fields
    requires EVENT !in v.fields && NATIVE !in v.fields
    ensures Denotes(x, v, r) <==> Decides(v, r) || Opens(v, r)
  {
  }

  lemma ProposalShape(op: string, kind: string, v: Value)
    requires ProposalDetail(op, kind, v).Some?
    ensures v.Obj? && v.fields.Keys <= {DECISION, "reason", "decision_title", ISSUE} && AllText(v) && At(v, DECISION).Str?
    ensures ProposalDetail(op, kind, v).value
         == {Resource("Decision", At(v, DECISION).s)} + if At(v, ISSUE).Str? then {Resource("Issue", At(v, ISSUE).s)} else {}
  {
  }

  lemma ProposalExactly(x: Naming, op: string, kind: string, v: Value)
    requires Shapely(x) && ProposalDetail(op, kind, v).Some?
    ensures Exactly(x, Normal(v, ProposalDetail(op, kind, v).value))
  {
    ProposalShape(op, kind, v);
    forall r ensures r in ProposalDetail(op, kind, v).value <==> Mentioned(x, v, r) {
      LeavesMention(x, v, r);
      ProposalNames(x, v, r);
    }
  }

  // ---------------------------------------------------------------- references

  lemma ReferenceShape(v: Value, kinds: string -> bool)
    requires Reference(v, kinds).Some?
    ensures Exact(v, {"kind", "id", VERSION}) && Leaves(v)
    ensures At(v, "kind").Str? && At(v, "id").Str? && Reference(v, kinds).value == Resource(At(v, "kind").s, At(v, "id").s)
  {
    assert v.fields.Keys == {"kind", "id", VERSION};
    forall k | k in v.fields ensures Leaf(v.fields[k]) {
      assert k == "kind" || k == "id" || k == VERSION;
    }
  }

  lemma ReferenceNames(x: Naming, v: Value, r: string)
    requires Shapely(x) && Exact(v, {"kind", "id", VERSION})
    ensures Denotes(x, v, r) <==> Refers(v, r)
  {
    assert v.fields.Keys == {"kind", "id", VERSION};
    assert NATIVE !in v.fields && URL !in v.fields && RECORD !in v.fields;
    assert DECISION !in v.fields && ISSUE !in v.fields && EVENT !in v.fields;
  }

  lemma ReferenceMention(x: Naming, v: Value, kinds: string -> bool, r: string)
    requires Shapely(x) && Reference(v, kinds).Some?
    ensures Mentioned(x, v, r) <==> r == Reference(v, kinds).value
  {
    ReferenceShape(v, kinds);
    LeavesMention(x, v, r);
    ReferenceNames(x, v, r);
  }

  lemma ArenaAtMention(x: Naming, v: Value, key: string, r: string)
    requires Shapely(x) && ArenaAt(v, key).Some?
    ensures r in ArenaAt(v, key).value <==> Mentioned(x, At(v, key), r)
  {
    if At(v, key) != Null {
      ReferenceMention(x, At(v, key), IsArena, r);
    }
  }

  lemma ParentAtMention(x: Naming, v: Value, key: string, kinds: set<string>, r: string)
    requires Shapely(x) && ParentAt(v, key, kinds).Some?
    ensures r in ParentAt(v, key, kinds).value <==> Mentioned(x, At(v, key), r)
  {
    if At(v, key) != Null {
      ReferenceMention(x, At(v, key), AnyKind, r);
    }
  }

  /** A quiet object mentions what its members mention. */
  lemma QuietMentions(x: Naming, v: Value, r: string)
    requires Shapely(x) && Quiet(v)
    ensures Mentioned(x, v, r) <==> exists k | k in v.fields :: Mentioned(x, At(v, k), r)
  {
    QuietNamesNothing(x, v, r);
    forall k | k in v.fields ensures At(v, k) == v.fields[k] {
    }
    if Mentioned(x, v, r) {
      var k :| k in v.fields && Mentioned(x, v.fields[k], r);
      assert Mentioned(x, At(v, k), r);
    }
  }

  /** When all but three members are leaves, those three say what is mentioned; a missing one says nothing. */
  lemma ThreeMentions(x: Naming, v: Value, a: string, b: string, c: string, r: string)
    requires Shapely(x) && Quiet(v) && forall k | k in v.fields && k != a && k != b && k != c :: Leaf(v.fields[k])
    ensures Mentioned(x, v, r) <==> Mentioned(x, At(v, a), r) || Mentioned(x, At(v, b), r) || Mentioned(x, At(v, c), r)
  {
    QuietMentions(x, v, r);
    if Mentioned(x, v, r) {
      var k :| k in v.fields && Mentioned(x, At(v, k), r);
      if k != a && k != b && k != c {
        LeafMention(x, v.fields[k], r);
      }
    }
  }

  lemma MemberExactly(x: Naming, v: Value)
    requires Shapely(x) && MemberDetail(v).Some?
    ensures Exactly(x, Normal(v, MemberDetail(v).value))
  {
    assert v.fields.Keys == {"previous_arena", "arena"};
    forall r ensures r in MemberDetail(v).value <==> Mentioned(x, v, r) {
      QuietMentions(x, v, r);
      ArenaAtMention(x, v, "previous_arena", r);
      ArenaAtMention(x, v, "arena", r);
    }
  }

  lemma DependencyExactly(x: Naming, op: string, kind: string, id: string, v: Value)
    requires Shapely(x) && DependencyDetail(op, kind, id, v).Some?
    ensures Exactly(x, Normal(v, DependencyDetail(op, kind, id, v).value))
  {
    assert v.fields.Keys == {"target"};
    forall r ensures r in DependencyDetail(op, kind, id, v).value <==> Mentioned(x, v, r) {
      QuietMentions(x, v, r);
      ReferenceMention(x, At(v, "target"), AnyKind, r);
    }
  }

  /** The three places a parent change may refer to; a missing one reads as nothing. */
  lemma ParentShape(kind: string, v: Value)
    requires ParentDetail(kind, v).Some?
    ensures v.Obj? && {"previous_parent", "parent"} <= v.fields.Keys <= {"previous_parent", "parent", "previous_arena"}
    ensures ArenaAt(v, "previous_arena").Some?
    ensures ParentAt(v, "previous_parent", ParentKinds(kind)).Some? && ParentAt(v, "parent", ParentKinds(kind)).Some?
    ensures ParentDetail(kind, v).value == ArenaAt(v, "previous_arena").value
              + ParentAt(v, "previous_parent", ParentKinds(kind)).value + ParentAt(v, "parent", ParentKinds(kind)).value
  {
  }

  lemma ParentQuiet(v: Value)
    requires v.Obj? && v.fields.Keys <= {"previous_parent", "parent", "previous_arena"}
    ensures Quiet(v)
    ensures forall k | k in v.fields && k != "previous_arena" && k != "previous_parent" && k != "parent" :: Leaf(v.fields[k])
  {
    forall k | k in v.fields ensures k == "previous_parent" || k == "parent" || k == "previous_arena" {
      assert k in v.fields.Keys;
    }
  }

  lemma ParentMention(x: Naming, v: Value, kinds: set<string>, r: string)
    requires Shapely(x) && v.Obj? && v.fields.Keys <= {"previous_parent", "parent", "previous_arena"}
    requires ArenaAt(v, "previous_arena").Some?
    requires ParentAt(v, "previous_parent", kinds).Some? && ParentAt(v, "parent", kinds).Some?
    ensures Mentioned(x, v, r) <==>
      || r in ArenaAt(v, "previous_arena").value
      || r in ParentAt(v, "previous_parent", kinds).value || r in ParentAt(v, "parent", kinds).value
  {
    ParentQuiet(v);
    ThreeMentions(x, v, "previous_arena", "previous_parent", "parent", r);
    ArenaAtMention(x, v, "previous_arena", r);
    ParentAtMention(x, v, "previous_parent", kinds, r);
    ParentAtMention(x, v, "parent", kinds, r);
  }

  lemma ParentExactly(x: Naming, kind: string, v: Value)
    requires Shapely(x) && ParentDetail(kind, v).Some?
    ensures Exactly(x, Normal(v, ParentDetail(kind, v).value))
  {
    ParentShape(kind, v);
    forall r ensures r in ParentDetail(kind, v).value <==> Mentioned(x, v, r) {
      ParentMention(x, v, ParentKinds(kind), r);
    }
  }

  // ------------------------------------------------------------ filled payloads

  lemma AssignExactly(x: Naming, v: Value)
    requires Shapely(x) && Exact(v, {"workflow_id", "reason"} + ASSIGN_DEFAULTS.Keys) && AssignDetail(v).Some?
    ensures Exactly(x, Normal(v, AssignDetail(v).value))
  {
    assert v.fields.Keys == {"workflow_id", "reason", "stage"};
    QuietExactly(x, v);
  }

  lemma TransitionExactly(x: Naming, v: Value)
    requires Shapely(x) && Exact(v, {"stage"} + TRANSITION_DEFAULTS.Keys) && TransitionDetail(v).Some?
    ensures Exactly(x, Normal(v, TransitionDetail(v).value))
  {
    assert v.fields.Keys == {"stage", "reason"};
    QuietExactly(x, v);
  }

  lemma LinkNames(v: Value)
    requires Exact(v, LINK_FIELDS)
    ensures EVENT in v.fields && VERSION !in v.fields && URL !in v.fields && RECORD !in v.fields
    ensures DECISION !in v.fields && ISSUE !in v.fields && NATIVE !in v.fields
  {
    assert v.fields.Keys == LINK_FIELDS;
  }

  lemma LinkField(v: Value, k: string)
    requires LinkTexts(v) && k in LINK_FIELDS && k != "origin" && k != "target"
    ensures At(v, k).Str?
  {
  }

  lemma LinkShape(v: Value)
    requires LinkTexts(v)
    ensures v.Obj? && EVENT in v.fields && VERSION !in v.fields && URL !in v.fields && RECORD !in v.fields
    ensures DECISION !in v.fields && ISSUE !in v.fields && NATIVE !in v.fields
    ensures forall k | k in v.fields && k != "origin" && k != "target" :: v.fields[k].Str?
  {
    LinkNames(v);
    forall k | k in v.fields && k != "origin" && k != "target" ensures v.fields[k].Str? {
      assert v.fields.Keys == LINK_FIELDS;
      LinkField(v, k);
    }
  }

  lemma LinkMention(x: Naming, v: Value, session: string, r: string)
    requires Shapely(x) && Link(x, v, session).Some?
    ensures r in Link(x, v, session).value <==> Mentioned(x, v, r)
  {
    LinkShape(v);
    SessionMention(x, At(v, "origin"), r);
    SessionMention(x, At(v, "target"), r);
    assert v.fields.Keys == LINK_FIELDS;
    assert At(v, "origin") == v.fields["origin"] && At(v, "target") == v.fields["target"];
    JoinMentions(x, v, "origin", "target", r);
  }

  lemma JoinMentions(x: Naming, v: Value, a: string, b: string, r: string)
    requires Shapely(x) && v.Obj? && VERSION !in v.fields && URL !in v.fields && RECORD !in v.fields
    requires DECISION !in v.fields && ISSUE !in v.fields && NATIVE !in v.fields && a in v.fields && b in v.fields
    requires forall k | k in v.fields && k != a && k != b :: v.fields[k].Str?
    ensures Mentioned(x, v, r) <==> Joins(x, v, r) || Mentioned(x, v.fields[a], r) || Mentioned(x, v.fields[b], r)
  {
  }

  lemma AttachShape(x: Naming, v: Value)
    requires Exact(v, {"session", "observed_at", "basis"} + ATTACH_DEFAULTS.Keys) && AttachTexts(v)
    ensures Quiet(v) && forall k | k in v.fields && k != "session" && k != "link" :: Leaf(v.fields[k])
  {
    assert v.fields.Keys == {"session", "observed_at", "basis", "link"};
  }

  lemma AttachMention(x: Naming, v: Value, r: string)
    requires Shapely(x) && Exact(v, {"session", "observed_at", "basis"} + ATTACH_DEFAULTS.Keys) && AttachDetail(x, v).Some?
    ensures r in AttachDetail(x, v).value <==> Mentioned(x, v, r)
  {
    AttachShape(x, v);
    ThreeMentions(x, v, "session", "link", "link", r);
    SessionMention(x, At(v, "session"), r);
    if At(v, "link") != Null {
      LinkMention(x, At(v, "link"), x.session(At(v, "session")).value, r);
    }
  }

  lemma AttachExactly(x: Naming, v: Value)
    requires Shapely(x) && Exact(v, {"session", "observed_at", "basis"} + ATTACH_DEFAULTS.Keys) && AttachDetail(x, v).Some?
    ensures Exactly(x, Normal(v, AttachDetail(x, v).value))
  {
    forall r ensures r in AttachDetail(x, v).value <==> Mentioned(x, v, r) {
      AttachMention(x, v, r);
    }
  }
}
