/** The digest of a policy: two valid policies with one digest are one policy, unless the hash collides. */
module PolicyDigest {
  import opened Bytes
  import opened Text
  import opened Wrappers
  import opened JsonValue
  import opened GrantValidity
  import opened WorkPolicy
  import opened Credentials

  const POLICY_STEM := "secs-devgraph-work-policy.v"

  // -------------------------------------------------------------- wire values

  function GrantValue(g: Grant): Value {
    match g.notAfter
    case Some(end) =>
      Obj(map["mode" := Str("dated"), "schema" := Str("castalia.grant-validity.v1"), "not_before" := Num(g.notBefore),
              "not_after" := Num(end)])
    case None =>
      Obj(map["mode" := Str("until_revoked"), "schema" := Str("castalia.grant-validity.v1"), "not_before" := Num(g.notBefore)])
  }

  /** The first version writes its bounds in the rule; the second writes a grant. */
  function BoundsValue(g: Grant, version: nat): map<string, Value>
    requires version == 1 ==> g.notAfter.Some?
  {
    if version == 1 then map["not_after" := Num(g.notAfter.value), "not_before" := Num(g.notBefore)]
    else map["validity" := GrantValue(g)]
  }

  function RuleTexts(r: Rule): map<string, Value> {
    map["actor_id" := Str(r.actorId), "effect" := Str(r.effect), "operation" := Str(r.operation),
        "resource" := Str(r.resource), "resource_match" := Str(r.resourceMatch), "status" := Str(r.status)]
  }

  predicate Writable(r: Rule, version: nat) { version == 1 ==> r.validity.notAfter.Some? }

  function RuleValue(r: Rule, version: nat): Value
    requires Writable(r, version)
  {
    Obj(RuleTexts(r) + BoundsValue(r.validity, version))
  }

  predicate AllWritable(rules: seq<Rule>, version: nat) { forall i | 0 <= i < |rules| :: Writable(rules[i], version) }

  function RuleValues(rules: seq<Rule>, version: nat): (vs: seq<Value>)
    requires AllWritable(rules, version)
    ensures |vs| == |rules| && forall i | 0 <= i < |vs| :: vs[i] == RuleValue(rules[i], version)
  {
    seq(|rules|, i requires 0 <= i < |rules| => RuleValue(rules[i], version))
  }

  lemma ValidIsWritable(p: Policy)
    requires ValidPolicy(p)
    ensures AllWritable(p.rules, p.schemaVersion)
  {
    forall i | 0 <= i < |p.rules| ensures Writable(p.rules[i], p.schemaVersion) {
      assert RuleOk(p.rules[i], p.schemaVersion);
    }
  }

  function PolicyValue(p: Policy): Value
    requires ValidPolicy(p)
  {
    ValidIsWritable(p);
    Obj(map["audience" := Str(p.audience), "policy_id" := Str(p.policyId), "policy_version" := Num(p.policyVersion),
            "rules" := Arr(RuleValues(p.rules, p.schemaVersion)), "schema" := Str(p.schema),
            "schema_version" := Num(p.schemaVersion)])
  }

  function VersionDigit(version: nat): char { if version == 1 then '1' else '2' }

  function PolicyDomain(stem: string, version: nat): bytes { Utf8(stem + [VersionDigit(version)]) + [0] }

  function PolicyBytes(x: Crypto, stem: string, p: Policy): Option<bytes> {
    if !ValidPolicy(p) then None
    else
      var body :- x.canonical(PolicyValue(p));
      Some(PolicyDomain(stem, p.schemaVersion) + body)
  }

  function PolicyHash(x: Crypto, p: Policy): Option<string> {
    var preimage :- PolicyBytes(x, POLICY_STEM, p);
    Some(Hex(x.sha256(preimage)))
  }

  // ---------------------------------------------------------------- injective

  /** No two values print alike. */
  ghost predicate Injective(canonical: Value -> Option<bytes>) {
    forall v, w :: canonical(v).Some? && canonical(v) == canonical(w) ==> v == w
  }

  /** Two different texts with one hash. */
  predicate Clash(sha256: bytes -> bytes, a: Option<bytes>, b: Option<bytes>) {
    a.Some? && b.Some? && a != b && sha256(a.value) == sha256(b.value)
  }

  lemma HexDecides(sha256: bytes -> bytes, a: bytes, b: bytes)
    requires Hex(sha256(a)) == Hex(sha256(b))
    ensures a == b || Clash(sha256, Some(a), Some(b))
  {
    UnhexOfHex(sha256(a));
    UnhexOfHex(sha256(b));
  }

  lemma GrantDecided(g: Grant, h: Grant)
    requires GrantValue(g) == GrantValue(h)
    ensures g == h
  {
    var v, w := GrantValue(g), GrantValue(h);
    assert v.fields["not_before"] == w.fields["not_before"] && ("not_after" in v.fields <==> "not_after" in w.fields);
    assert g.notAfter.Some? ==> v.fields["not_after"] == w.fields["not_after"];
  }

  lemma TextsDecided(r: Rule, s: Rule)
    requires RuleTexts(r) == RuleTexts(s)
    ensures r.(validity := s.validity) == s
  {
    var v, w := RuleTexts(r), RuleTexts(s);
    assert v["actor_id"] == w["actor_id"] && v["effect"] == w["effect"] && v["operation"] == w["operation"];
    assert v["resource"] == w["resource"] && v["resource_match"] == w["resource_match"] && v["status"] == w["status"];
  }

  lemma BoundsDecided(g: Grant, h: Grant, version: nat)
    requires version == 1 ==> g.notAfter.Some? && h.notAfter.Some?
    requires BoundsValue(g, version) == BoundsValue(h, version)
    ensures g == h
  {
    var v, w := BoundsValue(g, version), BoundsValue(h, version);
    if version == 1 {
      assert v["not_before"] == w["not_before"] && v["not_after"] == w["not_after"];
    } else {
      assert v["validity"] == w["validity"];
      GrantDecided(g, h);
    }
  }

  /** Maps over separate names can be told apart again. */
  lemma Separate<K, V>(a: map<K, V>, b: map<K, V>, c: map<K, V>, d: map<K, V>)
    requires a.Keys == c.Keys && b.Keys == d.Keys && a.Keys !! b.Keys && a + b == c + d
    ensures a == c && b == d
  {
    assert forall k | k in a :: a[k] == (a + b)[k] && c[k] == (c + d)[k];
    assert forall k | k in b :: b[k] == (a + b)[k] && d[k] == (c + d)[k];
  }

  lemma RuleDecided(r: Rule, s: Rule, version: nat)
    requires Writable(r, version) && Writable(s, version) && RuleValue(r, version) == RuleValue(s, version)
    ensures r == s
  {
    Separate(RuleTexts(r), BoundsValue(r.validity, version), RuleTexts(s), BoundsValue(s.validity, version));
    TextsDecided(r, s);
    BoundsDecided(r.validity, s.validity, version);
  }

  lemma RulesDecided(p: seq<Rule>, q: seq<Rule>, version: nat)
    requires AllWritable(p, version) && AllWritable(q, version) && RuleValues(p, version) == RuleValues(q, version)
    ensures p == q
  {
    assert |p| == |RuleValues(p, version)| == |q|;
    forall i | 0 <= i < |p| ensures p[i] == q[i] {
      assert RuleValues(p, version)[i] == RuleValues(q, version)[i];
      RuleDecided(p[i], q[i], version);
    }
  }

  lemma PolicyDecided(p: Policy, q: Policy)
    requires ValidPolicy(p) && ValidPolicy(q) && PolicyValue(p) == PolicyValue(q)
    ensures p == q
  {
    var v, w := PolicyValue(p), PolicyValue(q);
    assert v.fields["audience"] == w.fields["audience"] && v.fields["policy_id"] == w.fields["policy_id"];
    assert v.fields["policy_version"] == w.fields["policy_version"] && v.fields["rules"] == w.fields["rules"];
    assert v.fields["schema"] == w.fields["schema"] && v.fields["schema_version"] == w.fields["schema_version"];
    ValidIsWritable(p);
    ValidIsWritable(q);
    RulesDecided(p.rules, q.rules, p.schemaVersion);
  }

  lemma SameLengthPrefix(a: bytes, b: bytes, x: bytes, y: bytes)
    requires |a| == |b| && a + x == b + y
    ensures a == b && x == y
  {
    assert (a + x)[..|a|] == a && (b + y)[..|b|] == b;
    assert (a + x)[|a|..] == x && (b + y)[|b|..] == y;
  }

  lemma DomainsAlike(stem: string, version: nat, other: nat)
    ensures |PolicyDomain(stem, version)| == |PolicyDomain(stem, other)|
  {
    Utf8Concat(stem, [VersionDigit(version)]);
    Utf8Concat(stem, [VersionDigit(other)]);
    assert |Utf8([VersionDigit(version)])| == 1 == |Utf8([VersionDigit(other)])|;
  }

  lemma BytesDecidePolicy(x: Crypto, stem: string, p: Policy, q: Policy)
    requires Injective(x.canonical) && PolicyBytes(x, stem, p).Some? && PolicyBytes(x, stem, p) == PolicyBytes(x, stem, q)
    ensures p == q
  {
    DomainsAlike(stem, p.schemaVersion, q.schemaVersion);
    SameLengthPrefix(PolicyDomain(stem, p.schemaVersion), PolicyDomain(stem, q.schemaVersion),
                     x.canonical(PolicyValue(p)).value, x.canonical(PolicyValue(q)).value);
    PolicyDecided(p, q);
  }

  /** The hash takes two different policies to one digest. */
  predicate PolicyClash(x: Crypto, p: Policy, q: Policy) {
    Clash(x.sha256, PolicyBytes(x, POLICY_STEM, p), PolicyBytes(x, POLICY_STEM, q))
  }

  /** A digest names one policy, unless the hash clashes on these two. */
  lemma DigestNamesPolicy(x: Crypto, p: Policy, q: Policy)
    requires Injective(x.canonical) && PolicyHash(x, p).Some? && PolicyHash(x, p) == PolicyHash(x, q)
    ensures p == q || PolicyClash(x, p, q)
  {
    HexDecides(x.sha256, PolicyBytes(x, POLICY_STEM, p).value, PolicyBytes(x, POLICY_STEM, q).value);
    if PolicyBytes(x, POLICY_STEM, p) == PolicyBytes(x, POLICY_STEM, q) {
      BytesDecidePolicy(x, POLICY_STEM, p, q);
    }
  }
}
