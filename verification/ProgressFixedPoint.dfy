/** Filling in the defaults of a payload settles at once and only adds members. */
module ProgressFixedPoint {
  import opened Wrappers
  import opened JsonValue
  import opened StrictJson
  import opened WorkValues
  import opened WorkProgress

  // ------------------------------------------------------------------- lists

  /** A checker that accepts its own output unchanged, and only adds members on the way. */
  ghost predicate Stable(check: Value -> Option<Entry>) {
    forall raw :: check(raw).Some? ==>
      check(check(raw).value.item) == check(raw) && Extends(raw, check(raw).value.item)
  }

  lemma {:induction false} CollectedFixed(check: Value -> Option<Entry>, raw: seq<Value>)
    requires Stable(check) && Collected(check, raw).Some?
    ensures Collected(check, Collected(check, raw).value.items) == Collected(check, raw)
  {
    if raw != [] {
      var front, last := raw[..|raw| - 1], raw[|raw| - 1];
      CollectedFixed(check, front);
      var items, item := Collected(check, front).value.items, check(last).value.item;
      assert (items + [item])[..|items|] == items && (items + [item])[|items|] == item;
    }
  }

  lemma {:induction false} CollectedExtends(check: Value -> Option<Entry>, raw: seq<Value>)
    requires Stable(check) && Collected(check, raw).Some?
    ensures Extends(Arr(raw), Arr(Collected(check, raw).value.items))
  {
    if raw != [] {
      CollectedExtends(check, raw[..|raw| - 1]);
    }
  }

  lemma CheckerStable(required: set<string>, optional: map<string, Value>, detail: Detail)
    ensures Stable(Checker(required, optional, detail))
  {
    forall raw | Checked(required, optional, detail, raw).Some?
      ensures Extends(raw, Checked(required, optional, detail, raw).value.item)
    {
      FieldsExtend(raw, required, optional);
    }
  }

  // ---------------------------------------------------------------- payloads

  /** Checks whose list items settle at once, and whose record does not look at the lists. */
  ghost predicate Regular(c: Checks) {
    && Stable(c.evidence) && Stable(c.layer)
    && (forall ids :: Stable(c.requirement(ids)))
    && forall v: Value, a, b, d | v.Obj? :: c.record(WithLists(v, a, b, d)) == c.record(v)
  }

  lemma ListsAt(v: Value, a: seq<Value>, b: seq<Value>, d: seq<Value>)
    requires v.Obj?
    ensures At(WithLists(v, a, b, d), EVIDENCE) == Arr(a)
    ensures At(WithLists(v, a, b, d), REQUIREMENTS) == Arr(b)
    ensures At(WithLists(v, a, b, d), LAYERS) == Arr(d)
    ensures WithLists(WithLists(v, a, b, d), a, b, d) == WithLists(v, a, b, d)
  {
    assert WithLists(WithLists(v, a, b, d), a, b, d).fields == WithLists(v, a, b, d).fields;
  }

  lemma ListsRefill(v: Value, a: seq<Value>, b: seq<Value>, d: seq<Value>)
    requires Exact(v, REVIEW_FIELDS + REVIEW_DEFAULTS.Keys)
    ensures Fields(WithLists(v, a, b, d), REVIEW_FIELDS, REVIEW_DEFAULTS) == Some(WithLists(v, a, b, d))
  {
    assert WithLists(v, a, b, d).fields.Keys == v.fields.Keys + {EVIDENCE, REQUIREMENTS, LAYERS} == v.fields.Keys;
  }

  /** The three lists of a filled review, checked. */
  ghost predicate ListsChecked(c: Checks, v: Value, a: Listed, b: Listed, d: Listed) {
    && ArrayAt(v, EVIDENCE, 50).Some? && Collected(c.evidence, ArrayAt(v, EVIDENCE, 50).value) == Some(a)
    && ArrayAt(v, REQUIREMENTS, 100).Some? && Collected(c.requirement(a.ids), ArrayAt(v, REQUIREMENTS, 100).value) == Some(b)
    && ArrayAt(v, LAYERS, 6).Some? && Collected(c.layer, ArrayAt(v, LAYERS, 6).value) == Some(d)
  }

  lemma ListsCheckedFixed(c: Checks, v: Value, a: Listed, b: Listed, d: Listed)
    requires Regular(c) && v.Obj? && ListsChecked(c, v, a, b, d)
    ensures ListsChecked(c, WithLists(v, a.items, b.items, d.items), a, b, d)
  {
    CollectedFixed(c.evidence, ArrayAt(v, EVIDENCE, 50).value);
    CollectedFixed(c.requirement(a.ids), ArrayAt(v, REQUIREMENTS, 100).value);
    CollectedFixed(c.layer, ArrayAt(v, LAYERS, 6).value);
    ListsAt(v, a.items, b.items, d.items);
  }

  lemma ReviewOf(c: Checks, raw: Value, v: Value, record: string, a: Listed, b: Listed, d: Listed)
    requires Fields(raw, REVIEW_FIELDS, REVIEW_DEFAULTS) == Some(v) && c.record(v) == Some(record) && ListsChecked(c, v, a, b, d)
    ensures ReviewWith(c, raw) == Some(Normal(WithLists(v, a.items, b.items, d.items), {record} + a.resources))
  {
  }

  lemma ReviewParts(c: Checks, raw: Value) returns (v: Value, record: string, a: Listed, b: Listed, d: Listed)
    requires ReviewWith(c, raw).Some?
    ensures Fields(raw, REVIEW_FIELDS, REVIEW_DEFAULTS) == Some(v) && c.record(v) == Some(record) && ListsChecked(c, v, a, b, d)
    ensures ReviewWith(c, raw) == Some(Normal(WithLists(v, a.items, b.items, d.items), {record} + a.resources))
  {
    v := Fields(raw, REVIEW_FIELDS, REVIEW_DEFAULTS).value;
    record := c.record(v).value;
    a := Collected(c.evidence, ArrayAt(v, EVIDENCE, 50).value).value;
    b := Collected(c.requirement(a.ids), ArrayAt(v, REQUIREMENTS, 100).value).value;
    d := Collected(c.layer, ArrayAt(v, LAYERS, 6).value).value;
  }

  lemma ReviewFixed(c: Checks, raw: Value)
    requires Regular(c) && ReviewWith(c, raw).Some?
    ensures ReviewWith(c, ReviewWith(c, raw).value.payload) == ReviewWith(c, raw)
  {
    var v, record, a, b, d := ReviewParts(c, raw);
    var w := WithLists(v, a.items, b.items, d.items);
    ListsRefill(v, a.items, b.items, d.items);
    ListsCheckedFixed(c, v, a, b, d);
    ReviewOf(c, w, w, record, a, b, d);
    ListsAt(v, a.items, b.items, d.items);
  }

  lemma ReviewExtends(c: Checks, raw: Value)
    requires Regular(c) && ReviewWith(c, raw).Some?
    ensures Extends(raw, ReviewWith(c, raw).value.payload)
  {
    var v, record, a, b, d := ReviewParts(c, raw);
    CollectedExtends(c.evidence, ArrayAt(v, EVIDENCE, 50).value);
    CollectedExtends(c.requirement(a.ids), ArrayAt(v, REQUIREMENTS, 100).value);
    CollectedExtends(c.layer, ArrayAt(v, LAYERS, 6).value);
    ExtendsLists(raw, v, a.items, b.items, d.items);
  }

  lemma ExtendsLists(raw: Value, v: Value, a: seq<Value>, b: seq<Value>, d: seq<Value>)
    requires raw.Obj? && v.Obj? && forall k | k in raw.fields :: k in v.fields && v.fields[k] == raw.fields[k]
    requires Extends(At(v, EVIDENCE), Arr(a)) && Extends(At(v, REQUIREMENTS), Arr(b)) && Extends(At(v, LAYERS), Arr(d))
    ensures Extends(raw, WithLists(v, a, b, d))
  {
    ListsAt(v, a, b, d);
    forall k | k in raw.fields ensures Extends(raw.fields[k], WithLists(v, a, b, d).fields[k]) {
      ExtendsSelf(raw.fields[k]);
    }
  }

  lemma ReviewRegular(env: Outside)
    ensures Regular(ReviewChecks(env))
  {
    CheckerStable({"kind", "id"}, EVIDENCE_DEFAULTS, e => EvidenceDetail(env, e));
    CheckerStable({"layer", "verdict"}, LAYER_DEFAULTS, e => LayerDetail(e));
    forall ids ensures Stable(ReviewChecks(env).requirement(ids)) {
      CheckerStable({"id", "title", "outcome"}, REQUIREMENT_DEFAULTS, e => RequirementDetail(ids, e));
    }
    forall v: Value, a, b, d | v.Obj? ensures ReviewRecord(WithLists(v, a, b, d)) == ReviewRecord(v) {
      RecordIgnoresLists(v, a, b, d);
    }
  }

  lemma RecordIgnoresLists(v: Value, a: seq<Value>, b: seq<Value>, d: seq<Value>)
    requires v.Obj?
    ensures ReviewRecord(WithLists(v, a, b, d)) == ReviewRecord(v)
  {
    var w := WithLists(v, a, b, d);
    assert At(w, "record_id") == At(v, "record_id");
    assert At(w, "phase") == At(v, "phase");
    assert At(w, "summary") == At(v, "summary");
    assert At(w, "verdict") == At(v, "verdict");
  }

  // ---------------------------------------------------------------- progress

  /** The filled form of the review behind a progress update. */
  ghost function FilledReview(record: Value, summary: Value, evidence: Value, requirements: Value, layers: Value): Value {
    Obj(map["record_id" := record, "phase" := Str("requirements"), "verdict" := Str("approved"),
            "summary" := summary, EVIDENCE := evidence, REQUIREMENTS := requirements, LAYERS := layers])
  }

  lemma FillReview(record: Value, summary: Value, evidence: Value, requirements: Value)
    ensures Fields(RequirementsReview(record, summary, evidence, requirements), REVIEW_FIELDS, REVIEW_DEFAULTS)
         == Some(FilledReview(record, summary, evidence, requirements, NOTHING))
  {
    var r := RequirementsReview(record, summary, evidence, requirements);
    assert REVIEW_DEFAULTS + r.fields == FilledReview(record, summary, evidence, requirements, NOTHING).fields;
    assert r.fields.Keys == REVIEW_FIELDS + {EVIDENCE, REQUIREMENTS};
  }

  lemma FilledLists(record: Value, summary: Value, e: Value, r: Value, l: Value, a: seq<Value>, b: seq<Value>, d: seq<Value>)
    ensures WithLists(FilledReview(record, summary, e, r, l), a, b, d)
         == FilledReview(record, summary, Arr(a), Arr(b), Arr(d))
  {
    assert WithLists(FilledReview(record, summary, e, r, l), a, b, d).fields
        == FilledReview(record, summary, Arr(a), Arr(b), Arr(d)).fields;
  }

  lemma FilledAt(record: Value, summary: Value, e: Value, r: Value, l: Value)
    ensures At(FilledReview(record, summary, e, r, l), "record_id") == record
    ensures At(FilledReview(record, summary, e, r, l), EVIDENCE) == e
    ensures At(FilledReview(record, summary, e, r, l), REQUIREMENTS) == r
    ensures At(FilledReview(record, summary, e, r, l), LAYERS) == l
  {
  }

  lemma UpdateAt(progress: Value, reason: Value, record: Value, e: Value, r: Value)
    ensures At(Update(progress, reason, record, e, r), "progress") == progress
    ensures At(Update(progress, reason, record, e, r), "reason") == reason
    ensures At(Update(progress, reason, record, e, r), "record_id") == record
    ensures At(Update(progress, reason, record, e, r), EVIDENCE) == e
    ensures At(Update(progress, reason, record, e, r), REQUIREMENTS) == r
    ensures Exact(Update(progress, reason, record, e, r), PROGRESS_FIELDS + PROGRESS_DEFAULTS.Keys)
  {
  }

  /** A progress update is its own update, with the lists of the review behind it. */
  lemma ProgressParts(c: Checks, raw: Value) returns (v: Value, record: string, a: Listed, b: Listed)
    requires ProgressWith(c, raw).Some?
    ensures Fields(raw, PROGRESS_FIELDS, PROGRESS_DEFAULTS) == Some(v) && ProgressOk(v)
    ensures ReviewWith(c, AsReview(v)).Some?
    ensures var u := FilledReview(At(v, "record_id"), At(v, "reason"), At(v, EVIDENCE), At(v, REQUIREMENTS), NOTHING);
      c.record(u) == Some(record) && ListsChecked(c, u, a, b, Listed([], {}, {}))
    ensures ProgressWith(c, raw) == Some(Normal(
      Update(At(v, "progress"), At(v, "reason"), At(v, "record_id"), Arr(a.items), Arr(b.items)), {record} + a.resources))
  {
    v := Fields(raw, PROGRESS_FIELDS, PROGRESS_DEFAULTS).value;
    var id, reason, e, r := At(v, "record_id"), At(v, "reason"), At(v, EVIDENCE), At(v, REQUIREMENTS);
    var u, name, x, y, z := ReviewParts(c, AsReview(v));
    record, a, b := name, x, y;
    FillReview(id, reason, e, r);
    FilledAt(id, reason, e, r, NOTHING);
    FilledLists(id, reason, e, r, NOTHING, a.items, b.items, z.items);
    FilledAt(id, reason, Arr(a.items), Arr(b.items), Arr(z.items));
  }

  lemma UpdateOk(v: Value, id: Value, e: Value, r: Value)
    requires ProgressOk(v)
    ensures ProgressOk(Update(At(v, "progress"), At(v, "reason"), id, e, r))
  {
    UpdateAt(At(v, "progress"), At(v, "reason"), id, e, r);
  }

  /** An update whose lists are already in their checked form stays as it is. */
  lemma ProgressOf(c: Checks, progress: Value, reason: Value, id: Value, record: string, a: Listed, b: Listed)
    requires ProgressOk(Update(progress, reason, id, Arr(a.items), Arr(b.items)))
    requires c.record(FilledReview(id, reason, Arr(a.items), Arr(b.items), NOTHING)) == Some(record)
    requires ListsChecked(c, FilledReview(id, reason, Arr(a.items), Arr(b.items), NOTHING), a, b, Listed([], {}, {}))
    ensures var p := Update(progress, reason, id, Arr(a.items), Arr(b.items));
      ProgressWith(c, p) == Some(Normal(p, {record} + a.resources))
  {
    var e, r := Arr(a.items), Arr(b.items);
    var p, w := Update(progress, reason, id, e, r), FilledReview(id, reason, e, r, NOTHING);
    UpdateAt(progress, reason, id, e, r);
    FillReview(id, reason, e, r);
    FilledAt(id, reason, e, r, NOTHING);
    FilledLists(id, reason, e, r, NOTHING, a.items, b.items, []);
    ReviewOf(c, RequirementsReview(id, reason, e, r), w, record, a, b, Listed([], {}, {}));
  }

  lemma ProgressFixed(c: Checks, raw: Value)
    requires Regular(c) && ProgressWith(c, raw).Some?
    ensures ProgressWith(c, ProgressWith(c, raw).value.payload) == ProgressWith(c, raw)
  {
    var v, record, a, b := ProgressParts(c, raw);
    var id, reason, e, r := At(v, "record_id"), At(v, "reason"), Arr(a.items), Arr(b.items);
    var u := FilledReview(id, reason, At(v, EVIDENCE), At(v, REQUIREMENTS), NOTHING);
    UpdateOk(v, id, e, r);
    FilledLists(id, reason, At(v, EVIDENCE), At(v, REQUIREMENTS), NOTHING, a.items, b.items, []);
    ListsCheckedFixed(c, u, a, b, Listed([], {}, {}));
    ProgressOf(c, At(v, "progress"), reason, id, record, a, b);
  }

  lemma ProgressExtends(c: Checks, raw: Value)
    requires Regular(c) && ProgressWith(c, raw).Some?
    ensures Extends(raw, ProgressWith(c, raw).value.payload)
  {
    var v, record, a, b := ProgressParts(c, raw);
    var u := FilledReview(At(v, "record_id"), At(v, "reason"), At(v, EVIDENCE), At(v, REQUIREMENTS), NOTHING);
    FilledAt(At(v, "record_id"), At(v, "reason"), At(v, EVIDENCE), At(v, REQUIREMENTS), NOTHING);
    CollectedExtends(c.evidence, ArrayAt(u, EVIDENCE, 50).value);
    CollectedExtends(c.requirement(a.ids), ArrayAt(u, REQUIREMENTS, 100).value);
    UpdateExtends(raw, v, Arr(a.items), Arr(b.items));
  }

  lemma UpdateExtends(raw: Value, v: Value, e: Value, r: Value)
    requires Fields(raw, PROGRESS_FIELDS, PROGRESS_DEFAULTS) == Some(v)
    requires Extends(At(v, EVIDENCE), e) && Extends(At(v, REQUIREMENTS), r)
    ensures Extends(raw, Update(At(v, "progress"), At(v, "reason"), At(v, "record_id"), e, r))
  {
    var p := Update(At(v, "progress"), At(v, "reason"), At(v, "record_id"), e, r);
    forall k | k in raw.fields ensures k in p.fields && Extends(raw.fields[k], p.fields[k]) {
      ExtendsSelf(raw.fields[k]);
      assert k in PROGRESS_FIELDS || k == EVIDENCE || k == REQUIREMENTS;
    }
  }

  // ---------------------------------------------------- depth and names kept

  /** A checker that stays within the depth limit and adds no reserved name. */
  ghost predicate Tidy(check: Value -> Option<Entry>, n: nat) {
    forall raw :: check(raw).Some? && Clean(raw, n) ==> Clean(check(raw).value.item, n)
  }

  lemma CheckerTidy(required: set<string>, optional: map<string, Value>, detail: Detail, n: nat)
    requires Clean(Obj(optional), n)
    ensures Tidy(Checker(required, optional, detail), n)
  {
    forall raw | Checked(required, optional, detail, raw).Some? && Clean(raw, n)
      ensures Clean(Checked(required, optional, detail, raw).value.item, n)
    {
      FieldsClean(raw, required, optional, n);
    }
  }

  lemma {:induction false} CollectedClean(check: Value -> Option<Entry>, raw: seq<Value>, n: nat, next: nat)
    requires next == n + 1 && Tidy(check, next) && Clean(Arr(raw), n) && Collected(check, raw).Some?
    ensures Clean(Arr(Collected(check, raw).value.items), n)
  {
    if raw != [] {
      assert Clean(Arr(raw[..|raw| - 1]), n);
      CollectedClean(check, raw[..|raw| - 1], n, next);
      assert Clean(raw[|raw| - 1], next);
    }
  }

  ghost predicate TidyChecks(c: Checks, n: nat) {
    Tidy(c.evidence, n) && Tidy(c.layer, n) && forall ids :: Tidy(c.requirement(ids), n)
  }

  lemma ReviewTidy(env: Outside, n: nat)
    requires n < MAX_DEPTH
    ensures TidyChecks(ReviewChecks(env), n)
  {
    CheckerTidy({"kind", "id"}, EVIDENCE_DEFAULTS, e => EvidenceDetail(env, e), n);
    CheckerTidy({"layer", "verdict"}, LAYER_DEFAULTS, e => LayerDetail(e), n);
    forall ids ensures Tidy(ReviewChecks(env).requirement(ids), n) {
      CheckerTidy({"id", "title", "outcome"}, REQUIREMENT_DEFAULTS, e => RequirementDetail(ids, e), n);
    }
  }

  lemma CleanLists(c: Checks, v: Value, a: Listed, b: Listed, d: Listed, n: nat, next: nat)
    requires next == n + 1 && TidyChecks(c, next) && v.Obj? && ListsChecked(c, v, a, b, d)
    requires Clean(At(v, EVIDENCE), n) && Clean(At(v, REQUIREMENTS), n) && Clean(At(v, LAYERS), n)
    ensures Clean(Arr(a.items), n) && Clean(Arr(b.items), n) && Clean(Arr(d.items), n)
  {
    CollectedClean(c.evidence, ArrayAt(v, EVIDENCE, 50).value, n, next);
    CollectedClean(c.requirement(a.ids), ArrayAt(v, REQUIREMENTS, 100).value, n, next);
    CollectedClean(c.layer, ArrayAt(v, LAYERS, 6).value, n, next);
  }

  lemma AtClean(v: Value, key: string, n: nat)
    requires Clean(v, n) && n < MAX_DEPTH
    ensures Clean(At(v, key), n + 1)
  {
  }

  lemma WithListsClean(v: Value, a: seq<Value>, b: seq<Value>, d: seq<Value>, n: nat)
    requires v.Obj? && Clean(v, n) && Clean(Arr(a), n + 1) && Clean(Arr(b), n + 1) && Clean(Arr(d), n + 1)
    ensures Clean(WithLists(v, a, b, d), n)
  {
  }

  lemma FilledListsClean(raw: Value, v: Value, n: nat)
    requires Clean(raw, n) && n < MAX_DEPTH && Fields(raw, REVIEW_FIELDS, REVIEW_DEFAULTS) == Some(v)
    ensures Clean(v, n)
    ensures Clean(At(v, EVIDENCE), n + 1) && Clean(At(v, REQUIREMENTS), n + 1) && Clean(At(v, LAYERS), n + 1)
  {
    FieldsClean(raw, REVIEW_FIELDS, REVIEW_DEFAULTS, n);
    AtClean(v, EVIDENCE, n);
    AtClean(v, REQUIREMENTS, n);
    AtClean(v, LAYERS, n);
  }

  lemma ReviewPartsClean(c: Checks, v: Value, a: Listed, b: Listed, d: Listed, n: nat, next: nat)
    requires next == n + 1 < MAX_DEPTH && TidyChecks(c, next + 1) && v.Obj? && Clean(v, n) && ListsChecked(c, v, a, b, d)
    requires Clean(At(v, EVIDENCE), next) && Clean(At(v, REQUIREMENTS), next) && Clean(At(v, LAYERS), next)
    ensures Clean(WithLists(v, a.items, b.items, d.items), n)
  {
    CleanLists(c, v, a, b, d, next, next + 1);
    WithListsClean(v, a.items, b.items, d.items, n);
  }

  lemma ReviewClean(c: Checks, raw: Value, n: nat)
    requires n + 3 <= MAX_DEPTH && TidyChecks(c, n + 2) && Clean(raw, n) && ReviewWith(c, raw).Some?
    ensures Clean(ReviewWith(c, raw).value.payload, n)
  {
    var v, record, a, b, d := ReviewParts(c, raw);
    FilledListsClean(raw, v, n);
    ReviewPartsClean(c, v, a, b, d, n, n + 1);
  }

  lemma UpdateClean(progress: Value, reason: Value, record: Value, e: Value, r: Value, n: nat)
    requires Clean(progress, n + 1) && Clean(reason, n + 1) && Clean(record, n + 1) && Clean(e, n + 1) && Clean(r, n + 1)
    ensures Clean(Update(progress, reason, record, e, r), n)
  {
  }

  lemma FilledReviewClean(c: Checks, id: Value, reason: Value, e: Value, r: Value, a: Listed, b: Listed, n: nat, next: nat)
    requires next == n + 1 <= MAX_DEPTH && TidyChecks(c, next)
    requires ListsChecked(c, FilledReview(id, reason, e, r, NOTHING), a, b, Listed([], {}, {}))
    requires Clean(e, n) && Clean(r, n)
    ensures Clean(Arr(a.items), n) && Clean(Arr(b.items), n)
  {
    FilledAt(id, reason, e, r, NOTHING);
    CleanLists(c, FilledReview(id, reason, e, r, NOTHING), a, b, Listed([], {}, {}), n, next);
  }

  lemma FilledProgressClean(raw: Value, v: Value, n: nat)
    requires Clean(raw, n) && n < MAX_DEPTH && Fields(raw, PROGRESS_FIELDS, PROGRESS_DEFAULTS) == Some(v)
    ensures Clean(At(v, "progress"), n + 1) && Clean(At(v, "reason"), n + 1) && Clean(At(v, "record_id"), n + 1)
    ensures Clean(At(v, EVIDENCE), n + 1) && Clean(At(v, REQUIREMENTS), n + 1)
  {
    FieldsClean(raw, PROGRESS_FIELDS, PROGRESS_DEFAULTS, n);
    AtClean(v, "progress", n);
    AtClean(v, "reason", n);
    AtClean(v, "record_id", n);
    AtClean(v, EVIDENCE, n);
    AtClean(v, REQUIREMENTS, n);
  }

  lemma ProgressPartsClean(c: Checks, v: Value, record: string, a: Listed, b: Listed, n: nat, next: nat)
    requires next == n + 1 < MAX_DEPTH && TidyChecks(c, next + 1)
    requires ListsChecked(c, FilledReview(At(v, "record_id"), At(v, "reason"), At(v, EVIDENCE), At(v, REQUIREMENTS), NOTHING),
                          a, b, Listed([], {}, {}))
    requires Clean(At(v, "progress"), next) && Clean(At(v, "reason"), next) && Clean(At(v, "record_id"), next)
    requires Clean(At(v, EVIDENCE), next) && Clean(At(v, REQUIREMENTS), next)
    ensures Clean(Update(At(v, "progress"), At(v, "reason"), At(v, "record_id"), Arr(a.items), Arr(b.items)), n)
  {
    var id, reason := At(v, "record_id"), At(v, "reason");
    FilledReviewClean(c, id, reason, At(v, EVIDENCE), At(v, REQUIREMENTS), a, b, next, next + 1);
    UpdateClean(At(v, "progress"), reason, id, Arr(a.items), Arr(b.items), n);
  }

  lemma ProgressClean(c: Checks, raw: Value, n: nat)
    requires n + 3 <= MAX_DEPTH && TidyChecks(c, n + 2) && Clean(raw, n) && ProgressWith(c, raw).Some?
    ensures Clean(ProgressWith(c, raw).value.payload, n)
  {
    var v, record, a, b := ProgressParts(c, raw);
    FilledProgressClean(raw, v, n);
    ProgressPartsClean(c, v, record, a, b, n, n + 1);
  }
}
