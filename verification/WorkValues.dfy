/** Member access, closed shapes and the small vocabularies shared by the request parsers. */
module WorkValues {
  import opened Bytes
  import opened Text
  import opened Wrappers
  import opened Limits
  import opened JsonValue
  import opened StrictJson

  /** Hashing and address syntax come from outside. */
  datatype Outside = Outside(sha256: bytes -> bytes, isIpv6: string -> bool)

  /** A member, or null when there is none. */
  function At(v: Value, key: string): Value {
    if v.Obj? && key in v.fields then v.fields[key] else Null
  }

  function TextAt(v: Value, key: string): (r: Option<string>)
    ensures r.Some? ==> At(v, key) == Str(r.value)
  {
    if At(v, key).Str? then Some(At(v, key).s) else None
  }

  /** An object with exactly these members. */
  predicate Exact(v: Value, keys: set<string>) { v.Obj? && v.fields.Keys == keys }

  /** An object with the required members, and the optional ones filled in; nothing else is allowed. */
  function Fields(v: Value, required: set<string>, optional: map<string, Value>): (r: Option<Value>)
    ensures r.Some? ==> r.value.Obj? && r.value.fields.Keys == required + optional.Keys
    ensures r.Some? ==> v.Obj? && forall k | k in v.fields :: k in r.value.fields && r.value.fields[k] == v.fields[k]
    ensures Exact(v, required + optional.Keys) ==> r == Some(v)
  {
    if !v.Obj? || !(required <= v.fields.Keys) || !(v.fields.Keys <= required + optional.Keys) then None
    else
      assert Exact(v, required + optional.Keys) ==> optional + v.fields == v.fields;
      Some(Obj(optional + v.fields))
  }

  predicate Identifier(s: string) {
    && 0 < |s| <= 256
    && s[0] != '-' && s[|s| - 1] != '-'
    && forall i | 0 <= i < |s| :: IsLower(s[i]) || IsDigit(s[i]) || s[i] == '-'
  }

  predicate Kind(s: string) {
    s == "Proposal" || s == "Initiative" || s == "Project" || s == "Issue" || s == "Task"
  }

  predicate Positive(v: Value) { v.Num? && 1 <= v.n <= MAX_SAFE }

  /** A reference to a versioned record of one of the given kinds, as the resource it names. */
  function Reference(v: Value, kinds: string -> bool): (r: Option<string>)
  {
    if !Exact(v, {"kind", "id", "expected_version"}) then None
    else
      var kind :- TextAt(v, "kind");
      var id :- TextAt(v, "id");
      if kinds(kind) && Identifier(id) && Positive(At(v, "expected_version")) then Some(Resource(kind, id)) else None
  }

  function Resource(kind: string, id: string): string { kind + "/" + id }

  /** A member text whose length in characters is in range. */
  function Bounded(v: Value, field: string, min: nat, max: nat): (r: Option<string>)
    ensures r.Some? ==> At(v, field) == Str(r.value) && min <= |r.value| <= max
  {
    var t :- TextAt(v, field);
    if min <= |t| <= max then Some(t) else None
  }

  function IdAt(v: Value, field: string): (r: Option<string>)
    ensures r.Some? ==> Identifier(r.value)
  {
    var t :- Bounded(v, field, 1, 256);
    if Identifier(t) then Some(t) else None
  }

  function ArrayAt(v: Value, field: string, max: nat): (r: Option<seq<Value>>)
    ensures r.Some? ==> At(v, field) == Arr(r.value) && |r.value| <= max
  {
    if At(v, field).Arr? && |At(v, field).items| <= max then Some(At(v, field).items) else None
  }

  function DigitValue(c: char): nat
    requires IsDigit(c)
  {
    c as int - '0' as int
  }

  function DecimalValue(s: string): nat
    requires forall i | 0 <= i < |s| :: IsDigit(s[i])
  {
    if s == "" then 0 else DecimalValue(s[..|s| - 1]) * 10 + DigitValue(s[|s| - 1])
  }

  /** A payload with its defaults filled in, and the resources it touches. */
  datatype Normal = Normal(payload: Value, resources: set<string>)

  type Rule = Value -> Option<Normal>

  /** Check a payload and leave it as it is. */
  function Plain(detail: Value -> Option<set<string>>): Rule { raw => PlainOf(detail, raw) }

  function PlainOf(detail: Value -> Option<set<string>>, raw: Value): (r: Option<Normal>)
  {
    var resources :- detail(raw);
    Some(Normal(raw, resources))
  }

  /** Fill a shape in, then look at the details. */
  function Filling(required: set<string>, optional: map<string, Value>, detail: Value -> Option<set<string>>): Rule {
    raw => Filled(required, optional, detail, raw)
  }

  function Filled(required: set<string>, optional: map<string, Value>,
                  detail: Value -> Option<set<string>>, raw: Value): (r: Option<Normal>)
  {
    var v :- Fields(raw, required, optional);
    var resources :- detail(v);
    Some(Normal(v, resources))
  }

  // ---------------------------------------------------------- what survives

  /** The same value, except that objects may have gained members. */
  ghost predicate Extends(v: Value, w: Value) {
    match v
    case Arr(items) => w.Arr? && |items| == |w.items| && forall i | 0 <= i < |items| :: Extends(items[i], w.items[i])
    case Obj(fields) => w.Obj? && forall k | k in fields :: k in w.fields && Extends(fields[k], w.fields[k])
    case _ => v == w
  }

  lemma {:induction false} ExtendsSelf(v: Value)
    ensures Extends(v, v)
  {
    match v
    case Arr(items) => forall i | 0 <= i < |items| ensures Extends(items[i], items[i]) { ExtendsSelf(items[i]); }
    case Obj(fields) => forall k | k in fields ensures Extends(fields[k], fields[k]) { ExtendsSelf(fields[k]); }
    case _ =>
  }

  lemma FieldsExtend(v: Value, required: set<string>, optional: map<string, Value>)
    requires Fields(v, required, optional).Some?
    ensures Extends(v, Fields(v, required, optional).value)
  {
    ExtendsSelf(v);
  }

  /** Within the depth limit and without the reserved member name. */
  predicate Clean(v: Value, n: nat) {
    && n <= MAX_DEPTH
    && match v
       case Arr(items) => forall i | 0 <= i < |items| :: Clean(items[i], n + 1)
       case Obj(fields) => forall k | k in fields :: NotPrivate(k) && Clean(fields[k], n + 1)
       case _ => true
  }

  lemma FieldsClean(v: Value, required: set<string>, optional: map<string, Value>, n: nat)
    requires Clean(v, n) && Clean(Obj(optional), n) && Fields(v, required, optional).Some?
    ensures Clean(Fields(v, required, optional).value, n)
  {
  }
}
