/**
 The resources of a request are exactly its own record and what its payload mentions by reference, by new link, by
 recorded decision, issue or review, and by session. Identifiers that are only listed are not among them.
 */
module RequestResources {
  import opened Bytes
  import opened Wrappers
  import opened JsonValue
  import opened WorkValues
  import opened WorkProgress
  import opened WorkSessions
  import opened WorkRequest
  import opened ProgressFixedPoint
  import opened RequestFixedPoint
  import opened RequestMentions

  // ------------------------------------------------------------------- reviews

  /** A checker whose item mentions its link and nothing else. */
  ghost predicate Telling(x: Naming, check: Value -> Option<Entry>) {
    forall raw, r | check(raw).Some? :: Mentioned(x, check(raw).value.item, r) <==> check(raw).value.link == Some(r)
  }

  lemma CheckerTelling(x: Naming, required: set<string>, optional: map<string, Value>, detail: Detail)
    requires forall v, r | Exact(v, required + optional.Keys) && detail(v).Some? ::
      Mentioned(x, v, r) <==> detail(v).value.1 == Some(r)
    ensures Telling(x, Checker(required, optional, detail))
  {
    forall raw, r | Checked(required, optional, detail, raw).Some?
      ensures Mentioned(x, Checked(required, optional, detail, raw).value.item, r)
         <==> Checked(required, optional, detail, raw).value.link == Some(r)
    {
      var v := Fields(raw, required, optional).value;
      assert Exact(v, required + optional.Keys) && detail(v).Some?;
    }
  }

  /** A list mentions the resources its items add. */
  lemma {:induction false} CollectedMention(x: Naming, check: Value -> Option<Entry>, raw: seq<Value>, r: string)
    requires Telling(x, check) && Collected(check, raw).Some?
    ensures Mentioned(x, Arr(Collected(check, raw).value.items), r) <==> r in Collected(check, raw).value.resources
  {
    if raw != [] {
      var front, last := raw[..|raw| - 1], raw[|raw| - 1];
      CollectedMention(x, check, front, r);
      var items, item := Collected(check, front).value.items, check(last).value.item;
      ListMention(x, items, item, r);
      assert Mentioned(x, item, r) <==> check(last).value.link == Some(r);
    }
  }

  lemma ListMention(x: Naming, items: seq<Value>, item: Value, r: string)
    ensures Mentioned(x, Arr(items + [item]), r) <==> Mentioned(x, Arr(items), r) || Mentioned(x, item, r)
  {
    var all := items + [item];
    assert all[|items|] == item && forall i | 0 <= i < |items| :: all[i] == items[i];
    if Mentioned(x, Arr(all), r) {
      var i :| 0 <= i < |all| && Mentioned(x, all[i], r);
      assert i < |items| ==> Mentioned(x, items[i], r);
    }
    if Mentioned(x, Arr(items), r) {
      var i :| 0 <= i < |items| && Mentioned(x, items[i], r);
      assert Mentioned(x, all[i], r);
    }
    if Mentioned(x, item, r) {
      assert Mentioned(x, all[|items|], r);
    }
  }

  ghost predicate Linkless(check: Value -> Option<Entry>) {
    forall raw :: check(raw).Some? ==> check(raw).value.link.None?
  }

  lemma CheckerLinkless(required: set<string>, optional: map<string, Value>, detail: Detail)
    requires forall v | Exact(v, required + optional.Keys) && detail(v).Some? :: detail(v).value.1.None?
    ensures Linkless(Checker(required, optional, detail))
  {
    forall raw | Checked(required, optional, detail, raw).Some?
      ensures Checked(required, optional, detail, raw).value.link.None?
    {
      var v := Fields(raw, required, optional).value;
      assert Exact(v, required + optional.Keys) && detail(v).Some?;
    }
  }

  lemma {:induction false} CollectedLinkless(check: Value -> Option<Entry>, raw: seq<Value>)
    requires Linkless(check) && Collected(check, raw).Some?
    ensures Collected(check, raw).value.resources == {}
  {
    if raw != [] {
      CollectedLinkless(check, raw[..|raw| - 1]);
      assert check(raw[|raw| - 1]).value.link.None?;
    }
  }

  lemma EvidenceShape(env: Outside, v: Value)
    requires Exact(v, {"kind", "id"} + EVIDENCE_DEFAULTS.Keys) && EvidenceDetail(env, v).Some?
    ensures Leaves(v) && v.fields.Keys == {"kind", "id", "title", URL} && At(v, "id").Str? && At(v, URL).Str?
    ensures EvidenceDetail(env, v).value.1
         == if At(v, URL).s == "" then None else Some(Resource("ExternalLink", At(v, "id").s))
  {
    assert v.fields.Keys == {"kind", "id", "title", URL};
    forall k | k in v.fields ensures Leaf(v.fields[k]) {
      assert k == "kind" || k == "id" || k == "title" || k == URL;
    }
  }

  lemma EvidenceMention(x: Naming, env: Outside, v: Value, r: string)
    requires Shapely(x) && Exact(v, {"kind", "id"} + EVIDENCE_DEFAULTS.Keys) && EvidenceDetail(env, v).Some?
    ensures Mentioned(x, v, r) <==> EvidenceDetail(env, v).value.1 == Some(r)
  {
    EvidenceShape(env, v);
    LeavesMention(x, v, r);
    EvidenceNames(x, v, r);
  }

  lemma EvidenceNames(x: Naming, v: Value, r: string)
    requires Shapely(x) && v.Obj? && v.fields.Keys == {"kind", "id", "title", URL}
    ensures Denotes(x, v, r) <==> Links(v, r)
  {
    assert VERSION !in v.fields && RECORD !in v.fields && DECISION !in v.fields && ISSUE !in v.fields;
    assert EVENT !in v.fields && NATIVE !in v.fields;
  }

  lemma RequirementFields(ids: set<string>, v: Value)
    requires RequirementDetail(ids, v).Some?
    ensures At(v, "id").Str? && At(v, "title").Str? && At(v, "outcome").Str? && At(v, "subject").Str? && At(v, "reason").Str?
    ensures Leaf(At(v, "evidence_ids")) && RequirementDetail(ids, v).value.1.None?
  {
  }

  lemma RequirementQuiet(v: Value)
    requires Exact(v, {"id", "title", "outcome", "subject", "evidence_ids", "reason"})
    ensures Quiet(v)
  {
  }

  lemma RequirementShape(ids: set<string>, v: Value)
    requires Exact(v, {"id", "title", "outcome"} + REQUIREMENT_DEFAULTS.Keys) && RequirementDetail(ids, v).Some?
    ensures Quiet(v) && Leaves(v) && RequirementDetail(ids, v).value.1.None?
  {
    assert v.fields.Keys == {"id", "title", "outcome", "subject", "evidence_ids", "reason"};
    RequirementQuiet(v);
    RequirementFields(ids, v);
    forall k | k in v.fields ensures Leaf(v.fields[k]) {
      assert At(v, k) == v.fields[k];
      assert k == "id" || k == "title" || k == "outcome" || k == "subject" || k == "evidence_ids" || k == "reason";
    }
  }

  lemma LayerShape(v: Value)
    requires Exact(v, {"layer", "verdict"} + LAYER_DEFAULTS.Keys) && LayerDetail(v).Some?
    ensures Quiet(v) && Leaves(v) && LayerDetail(v).value.1.None?
  {
    assert v.fields.Keys == {"layer", "verdict", "reason"};
  }

  /** A review records its own resource, and its lists mention their links. */
  ghost predicate TellingChecks(x: Naming, c: Checks) {
    && Telling(x, c.evidence)
    && Telling(x, c.layer) && Linkless(c.layer)
    && (forall ids :: Telling(x, c.requirement(ids)) && Linkless(c.requirement(ids)))
    && (forall v :: c.record(v).Some? ==> Recorded(v, c.record(v).value))
  }

  /** The texts of a review, and the record they name. */
  predicate Recorded(v: Value, record: string) {
    At(v, RECORD).Str? && At(v, "phase").Str? && At(v, "verdict").Str? && At(v, "summary").Str? && Records(v, record)
  }

  lemma RequirementTelling(x: Naming, ids: set<string>)
    requires Shapely(x)
    ensures Telling(x, RequirementCheck(ids))
  {
    forall v, r | Exact(v, {"id", "title", "outcome"} + REQUIREMENT_DEFAULTS.Keys) && RequirementDetail(ids, v).Some?
      ensures Mentioned(x, v, r) <==> RequirementDetail(ids, v).value.1 == Some(r)
    {
      RequirementShape(ids, v);
      QuietLeaves(x, v, r);
    }
    CheckerTelling(x, {"id", "title", "outcome"}, REQUIREMENT_DEFAULTS, e => RequirementDetail(ids, e));
  }

  lemma RequirementLinkless(ids: set<string>)
    ensures Linkless(RequirementCheck(ids))
  {
    forall v | Exact(v, {"id", "title", "outcome"} + REQUIREMENT_DEFAULTS.Keys) && RequirementDetail(ids, v).Some?
      ensures RequirementDetail(ids, v).value.1.None?
    {
      RequirementShape(ids, v);
    }
    CheckerLinkless({"id", "title", "outcome"}, REQUIREMENT_DEFAULTS, e => RequirementDetail(ids, e));
  }

  lemma LayerTelling(x: Naming)
    requires Shapely(x)
    ensures Telling(x, LayerCheck())
  {
    forall v, r | Exact(v, {"layer", "verdict"} + LAYER_DEFAULTS.Keys) && LayerDetail(v).Some?
      ensures Mentioned(x, v, r) <==> LayerDetail(v).value.1 == Some(r)
    {
      LayerShape(v);
      QuietLeaves(x, v, r);
    }
    CheckerTelling(x, {"layer", "verdict"}, LAYER_DEFAULTS, e => LayerDetail(e));
  }

  lemma LayerLinkless()
    ensures Linkless(LayerCheck())
  {
    forall v | Exact(v, {"layer", "verdict"} + LAYER_DEFAULTS.Keys) && LayerDetail(v).Some?
      ensures LayerDetail(v).value.1.None?
    {
      LayerShape(v);
    }
    CheckerLinkless({"layer", "verdict"}, LAYER_DEFAULTS, e => LayerDetail(e));
  }

  lemma EvidenceTelling(x: Naming, env: Outside)
    requires Shapely(x)
    ensures Telling(x, EvidenceCheck(env))
  {
    forall v, r | Exact(v, {"kind", "id"} + EVIDENCE_DEFAULTS.Keys) && EvidenceDetail(env, v).Some?
      ensures Mentioned(x, v, r) <==> EvidenceDetail(env, v).value.1 == Some(r)
    {
      EvidenceMention(x, env, v, r);
    }
    CheckerTelling(x, {"kind", "id"}, EVIDENCE_DEFAULTS, e => EvidenceDetail(env, e));
  }

  lemma RecordTold(v: Value)
    requires ReviewRecord(v).Some?
    ensures Recorded(v, ReviewRecord(v).value)
  {
  }

  lemma ReviewTelling(x: Naming, env: Outside)
    requires Shapely(x)
    ensures TellingChecks(x, ReviewChecks(env))
  {
    EvidenceTelling(x, env);
    LayerTelling(x);
    LayerLinkless();
    forall ids ensures Telling(x, ReviewChecks(env).requirement(ids)) && Linkless(ReviewChecks(env).requirement(ids)) {
      RequirementTelling(x, ids);
      RequirementLinkless(ids);
    }
    forall v | ReviewRecord(v).Some? ensures Recorded(v, ReviewRecord(v).value) {
      RecordTold(v);
    }
  }

  /** A review names its record; the rest of what it mentions is in its lists. */
  lemma ReviewMentions(x: Naming, v: Value, r: string)
    requires Shapely(x) && v.Obj? && VERSION !in v.fields && URL !in v.fields && DECISION !in v.fields && ISSUE !in v.fields
    requires EVENT !in v.fields && NATIVE !in v.fields && EVIDENCE in v.fields && REQUIREMENTS in v.fields
    requires forall k | k in v.fields && k != EVIDENCE && k != REQUIREMENTS && k != LAYERS :: v.fields[k].Str?
    ensures Mentioned(x, v, r) <==>
      || Records(v, r) || Mentioned(x, v.fields[EVIDENCE], r) || Mentioned(x, v.fields[REQUIREMENTS], r)
      || Mentioned(x, At(v, LAYERS), r)
  {
    assert Denotes(x, v, r) <==> Records(v, r);
  }

  lemma ReviewKeys(v: Value, a: seq<Value>, b: seq<Value>, d: seq<Value>, record: string)
    requires Exact(v, REVIEW_FIELDS + REVIEW_DEFAULTS.Keys) && Recorded(v, record)
    ensures var w := WithLists(v, a, b, d);
      && VERSION !in w.fields && URL !in w.fields && DECISION !in w.fields && ISSUE !in w.fields
      && EVENT !in w.fields && NATIVE !in w.fields && EVIDENCE in w.fields && REQUIREMENTS in w.fields
      && forall k | k in w.fields && k != EVIDENCE && k != REQUIREMENTS && k != LAYERS :: w.fields[k].Str?
  {
    var w := WithLists(v, a, b, d);
    forall k | k in w.fields
      ensures k == RECORD || k == "phase" || k == "verdict" || k == "summary" || k == EVIDENCE || k == REQUIREMENTS || k == LAYERS
    {
      assert k in REVIEW_FIELDS + REVIEW_DEFAULTS.Keys;
    }
  }

  lemma ReviewRecords(v: Value, a: seq<Value>, b: seq<Value>, d: seq<Value>, record: string, r: string)
    requires v.Obj? && Recorded(v, record)
    ensures Records(WithLists(v, a, b, d), r) <==> r == record
  {
    var w := WithLists(v, a, b, d);
    assert At(w, RECORD) == At(v, RECORD) && At(w, "phase") == At(v, "phase");
  }

  lemma ListsMention(x: Naming, c: Checks, v: Value, a: Listed, b: Listed, d: Listed, r: string)
    requires TellingChecks(x, c) && ListsChecked(c, v, a, b, d)
    ensures Mentioned(x, Arr(a.items), r) <==> r in a.resources
    ensures !Mentioned(x, Arr(b.items), r) && !Mentioned(x, Arr(d.items), r)
  {
    var evidence, requirements, layers :=
      ArrayAt(v, EVIDENCE, 50).value, ArrayAt(v, REQUIREMENTS, 100).value, ArrayAt(v, LAYERS, 6).value;
    CollectedMention(x, c.evidence, evidence, r);
    CollectedMention(x, c.requirement(a.ids), requirements, r);
    CollectedLinkless(c.requirement(a.ids), requirements);
    CollectedMention(x, c.layer, layers, r);
    CollectedLinkless(c.layer, layers);
  }

  lemma ReviewMention(x: Naming, c: Checks, raw: Value, r: string)
    requires Shapely(x) && TellingChecks(x, c) && ReviewWith(c, raw).Some?
    ensures r in ReviewWith(c, raw).value.resources <==> Mentioned(x, ReviewWith(c, raw).value.payload, r)
  {
    var v, record, a, b, d := ReviewParts(c, raw);
    assert Recorded(v, record);
    ReviewKeys(v, a.items, b.items, d.items, record);
    ListsAt(v, a.items, b.items, d.items);
    ReviewMentions(x, WithLists(v, a.items, b.items, d.items), r);
    ReviewRecords(v, a.items, b.items, d.items, record, r);
    ListsMention(x, c, v, a, b, d, r);
  }

  // ------------------------------------------------------------------ progress

  lemma UpdateKeys(progress: Value, reason: Value, record: Value, e: Value, r: Value)
    requires progress.Str? && reason.Str? && record.Str?
    ensures var w := Update(progress, reason, record, e, r);
      && VERSION !in w.fields && URL !in w.fields && DECISION !in w.fields && ISSUE !in w.fields
      && EVENT !in w.fields && NATIVE !in w.fields && EVIDENCE in w.fields && REQUIREMENTS in w.fields
      && (forall k | k in w.fields && k != EVIDENCE && k != REQUIREMENTS && k != LAYERS :: w.fields[k].Str?)
      && At(w, LAYERS) == Null && At(w, "phase") == Null
  {
    var w := Update(progress, reason, record, e, r);
    forall k | k in w.fields ensures k == "progress" || k == "reason" || k == RECORD || k == EVIDENCE || k == REQUIREMENTS {
    }
  }

  lemma UpdateRecords(x: Naming, c: Checks, progress: Value, id: Value, reason: Value, e: Value, q: Value, a: Value, b: Value,
                      record: string, r: string)
    requires TellingChecks(x, c) && c.record(FilledReview(id, reason, e, q, NOTHING)) == Some(record)
    ensures id.Str? && (Records(Update(progress, reason, id, a, b), r) <==> r == record)
  {
    var u := FilledReview(id, reason, e, q, NOTHING);
    assert Recorded(u, record);
    FilledAt(id, reason, e, q, NOTHING);
    assert At(u, "phase") == Str("requirements");
    UpdateAt(progress, reason, id, a, b);
    assert At(Update(progress, reason, id, a, b), "phase") == Null;
  }

  lemma UpdateMention(x: Naming, progress: Value, reason: Value, record: Value, e: Value, q: Value, r: string)
    requires Shapely(x) && progress.Str? && reason.Str? && record.Str?
    ensures Mentioned(x, Update(progress, reason, record, e, q), r) <==>
      Records(Update(progress, reason, record, e, q), r) || Mentioned(x, e, r) || Mentioned(x, q, r)
  {
    UpdateKeys(progress, reason, record, e, q);
    UpdateAt(progress, reason, record, e, q);
    ReviewMentions(x, Update(progress, reason, record, e, q), r);
  }

  lemma ProgressMention(x: Naming, c: Checks, raw: Value, r: string)
    requires Shapely(x) && TellingChecks(x, c) && ProgressWith(c, raw).Some?
    ensures r in ProgressWith(c, raw).value.resources <==> Mentioned(x, ProgressWith(c, raw).value.payload, r)
  {
    var v, record, a, b := ProgressParts(c, raw);
    var progress, id, reason := At(v, "progress"), At(v, "record_id"), At(v, "reason");
    UpdateRecords(x, c, progress, id, reason, At(v, EVIDENCE), At(v, REQUIREMENTS), Arr(a.items), Arr(b.items), record, r);
    UpdateMention(x, progress, reason, id, Arr(a.items), Arr(b.items), r);
    ListsMention(x, c, FilledReview(id, reason, At(v, EVIDENCE), At(v, REQUIREMENTS), NOTHING), a, b, Listed([], {}, {}), r);
  }

  lemma ReviewExacting(x: Naming, c: Checks)
    requires Shapely(x) && TellingChecks(x, c)
    ensures Exacting(x, Review(c)) && Exacting(x, Progress(c))
  {
    forall raw, r | ReviewWith(c, raw).Some?
      ensures r in ReviewWith(c, raw).value.resources <==> Mentioned(x, ReviewWith(c, raw).value.payload, r)
    {
      ReviewMention(x, c, raw, r);
    }
    forall raw, r | ProgressWith(c, raw).Some?
      ensures r in ProgressWith(c, raw).value.resources <==> Mentioned(x, ProgressWith(c, raw).value.payload, r)
    {
      ProgressMention(x, c, raw, r);
    }
  }

  // ------------------------------------------------------------ every operation

  lemma WordExacting(x: Naming, key: string, words: set<string>)
    requires Shapely(x) && (key == "state" || key == "status")
    ensures Exacting(x, Word(key, words))
  {
    forall v | WordDetail(key, words, v).Some? ensures Exactly(x, Normal(v, WordDetail(key, words, v).value)) {
      WordExactly(x, key, words, v);
    }
    PlainExacting(x, v => WordDetail(key, words, v));
  }

  lemma EmptyExacting(x: Naming)
    requires Shapely(x)
    ensures Exacting(x, Plain(v => NoDetail(v)))
  {
    forall v | NoDetail(v).Some? ensures Exactly(x, Normal(v, NoDetail(v).value)) {
      NoDetailExactly(x, v);
    }
    PlainExacting(x, v => NoDetail(v));
  }

  lemma CreateExacting(x: Naming, id: string)
    requires Shapely(x)
    ensures Exacting(x, Filling({"id", "title"}, WORK_DEFAULTS, v => CreateDetail(id, v)))
  {
    forall v | CreateDetail(id, v).Some? ensures Exactly(x, Normal(v, CreateDetail(id, v).value)) {
      WorkFieldsExactly(x, v);
    }
    FillingExacting(x, {"id", "title"}, WORK_DEFAULTS, v => CreateDetail(id, v));
  }

  lemma PatchExacting(x: Naming)
    requires Shapely(x)
    ensures Exacting(x, Plain(v => PatchDetail(v)))
  {
    forall v | PatchDetail(v).Some? ensures Exactly(x, Normal(v, PatchDetail(v).value)) {
      WorkFieldsExactly(x, v);
    }
    PlainExacting(x, v => PatchDetail(v));
  }

  lemma ArenaRuleExacting(x: Naming, op: string, id: string)
    requires Shapely(x) && ArenaRule(op, id).Some?
    ensures Exacting(x, ArenaRule(op, id).value)
  {
    match op
    case "create" =>
      forall v | ArenaCreateDetail(id, v).Some? ensures Exactly(x, Normal(v, ArenaCreateDetail(id, v).value)) {
        ArenaFieldsExactly(x, v);
      }
      FillingExacting(x, {"id", "title"}, ARENA_DEFAULTS, v => ArenaCreateDetail(id, v));
    case "patch" =>
      forall v | ArenaPatchDetail(v).Some? ensures Exactly(x, Normal(v, ArenaPatchDetail(v).value)) {
        ArenaFieldsExactly(x, v);
      }
      PlainExacting(x, v => ArenaPatchDetail(v));
    case "archive" => EmptyExacting(x);
    case "member.set" =>
      forall v | MemberDetail(v).Some? ensures Exactly(x, Normal(v, MemberDetail(v).value)) {
        MemberExactly(x, v);
      }
      PlainExacting(x, v => MemberDetail(v));
  }

  lemma RecordRuleExacting(x: Naming, op: string, id: string)
    requires Shapely(x) && RecordRule(op, id).Some?
    ensures Exacting(x, RecordRule(op, id).value)
  {
    match op
    case "create" => CreateExacting(x, id);
    case "patch" => PatchExacting(x);
    case "status" => WordExacting(x, "status", {"draft", "review", "accepted", "archived"});
    case "session.state" => WordExacting(x, "state", {"open", "done"});
    case _ => EmptyExacting(x);
  }

  lemma AttachExacting(x: Naming)
    requires Shapely(x)
    ensures Exacting(x, Attach(x))
  {
    forall v | Exact(v, {"session", "observed_at", "basis"} + ATTACH_DEFAULTS.Keys) && AttachDetail(x, v).Some?
      ensures Exactly(x, Normal(v, AttachDetail(x, v).value))
    {
      AttachExactly(x, v);
    }
    FillingExacting(x, {"session", "observed_at", "basis"}, ATTACH_DEFAULTS, v => AttachDetail(x, v));
  }

  lemma AssignExacting(x: Naming)
    requires Shapely(x)
    ensures Exacting(x, Assign())
  {
    forall v | Exact(v, {"workflow_id", "reason"} + ASSIGN_DEFAULTS.Keys) && AssignDetail(v).Some?
      ensures Exactly(x, Normal(v, AssignDetail(v).value))
    {
      AssignExactly(x, v);
    }
    FillingExacting(x, {"workflow_id", "reason"}, ASSIGN_DEFAULTS, v => AssignDetail(v));
  }

  lemma TransitionExacting(x: Naming)
    requires Shapely(x)
    ensures Exacting(x, Transition())
  {
    forall v | Exact(v, {"stage"} + TRANSITION_DEFAULTS.Keys) && TransitionDetail(v).Some?
      ensures Exactly(x, Normal(v, TransitionDetail(v).value))
    {
      TransitionExactly(x, v);
    }
    FillingExacting(x, {"stage"}, TRANSITION_DEFAULTS, v => TransitionDetail(v));
  }

  lemma FlowRuleExacting(x: Naming, c: Checks, op: string)
    requires Shapely(x) && TellingChecks(x, c) && FlowRule(x, c, op).Some?
    ensures Exacting(x, FlowRule(x, c, op).value)
  {
    match op
    case "session.attach" => AttachExacting(x);
    case "workflow.assign" => AssignExacting(x);
    case "workflow.transition" => TransitionExacting(x);
    case _ => ReviewExacting(x, c);
  }

  lemma ProposalExacting(x: Naming, op: string, kind: string)
    requires Shapely(x)
    ensures Exacting(x, Proposal(op, kind))
  {
    forall v | ProposalDetail(op, kind, v).Some? ensures Exactly(x, Normal(v, ProposalDetail(op, kind, v).value)) {
      ProposalExactly(x, op, kind, v);
    }
    PlainExacting(x, v => ProposalDetail(op, kind, v));
  }

  lemma DependencyExacting(x: Naming, op: string, kind: string, id: string)
    requires Shapely(x)
    ensures Exacting(x, Dependency(op, kind, id))
  {
    forall v | DependencyDetail(op, kind, id, v).Some? ensures Exactly(x, Normal(v, DependencyDetail(op, kind, id, v).value)) {
      DependencyExactly(x, op, kind, id, v);
    }
    PlainExacting(x, v => DependencyDetail(op, kind, id, v));
  }

  lemma ParentExacting(x: Naming, kind: string)
    requires Shapely(x)
    ensures Exacting(x, Plain(v => ParentDetail(kind, v)))
  {
    forall v | ParentDetail(kind, v).Some? ensures Exactly(x, Normal(v, ParentDetail(kind, v).value)) {
      ParentExactly(x, kind, v);
    }
    PlainExacting(x, v => ParentDetail(kind, v));
  }

  lemma LinkRuleExacting(x: Naming, op: string, kind: string, id: string)
    requires Shapely(x) && LinkRule(op, kind, id).Some?
    ensures Exacting(x, LinkRule(op, kind, id).value)
  {
    ParentExacting(x, kind);
    ProposalExacting(x, op, kind);
    DependencyExacting(x, op, kind, id);
  }

  lemma RuleExacting(env: Outside, h: Header)
    requires RuleOf(env, h).Some?
    ensures Exacting(HashNaming(env), RuleOf(env, h).value)
  {
    var x, c := HashNaming(env), ReviewChecks(env);
    HashNamingShapely(env);
    if h.schema == ARENA {
      ArenaRuleExacting(x, h.op, h.id);
    } else if RecordRule(h.op, h.id).Some? {
      RecordRuleExacting(x, h.op, h.id);
    } else if FlowRule(x, c, h.op).Some? {
      ReviewTelling(x, env);
      FlowRuleExacting(x, c, h.op);
    } else {
      LinkRuleExacting(x, h.op, h.kind, h.id);
    }
  }

  // ---------------------------------------------------------------- requests

  ghost predicate ExactRules(x: Naming, rules: Rules) {
    forall h :: rules(h).Some? ==> Exacting(x, rules(h).value)
  }

  lemma WorkRulesExact(env: Outside)
    ensures ExactRules(HashNaming(env), WorkRules(env))
  {
    forall h | RuleOf(env, h).Some? ensures Exacting(HashNaming(env), RuleOf(env, h).value) {
      RuleExacting(env, h);
    }
  }

  /** A request asks for its own record and for what its payload mentions, and for nothing else. */
  lemma ResourcesAreTheMentions(env: Outside, raw: bytes, r: string)
    requires Parsed(WorkRules(env), raw).Some?
    ensures var w := Parsed(WorkRules(env), raw).value;
      HeaderOf(w.value).Some?
      && (r in w.resources <==>
          r == Resource(HeaderOf(w.value).value.kind, HeaderOf(w.value).value.id)
          || Mentioned(HashNaming(env), At(w.value, PAYLOAD), r))
  {
    WorkRulesExact(env);
    ParsedMentions(HashNaming(env), WorkRules(env), raw, r);
  }

  lemma ParsedMentions(x: Naming, rules: Rules, raw: bytes, r: string)
    requires ExactRules(x, rules) && Parsed(rules, raw).Some?
    ensures var w := Parsed(rules, raw).value;
      HeaderOf(w.value).Some?
      && (r in w.resources <==>
          r == Resource(HeaderOf(w.value).value.kind, HeaderOf(w.value).value.id) || Mentioned(x, At(w.value, PAYLOAD), r))
  {
    var v, normal := ParsedParts(rules, raw);
    var h, rule, n := NormalParts(rules, v);
    HeaderKept(v, n.payload);
    assert Exactly(x, n);
    assert r in Parsed(rules, raw).value.resources <==> r in normal.resources;
  }
}
