/** Request credentials and their presentations: what binds them and how long they hold. */
module Credentials {
  import opened Bytes
  import opened Text
  import opened Wrappers
  import opened Limits
  import opened JsonValue

  const CREDENTIAL_SCHEMA := "castalia.request-credential.v1"
  const PRESENTATION_SCHEMA := "castalia.credential-presentation.v2"
  const CREDENTIAL_DOMAIN := "castalia.request-credential.v1/signature"
  const PRESENTATION_DOMAIN := "castalia.credential-presentation.v2/signature"
  const CREDENTIAL_LIFETIME := 120
  const PRESENTATION_LIFETIME := 60

  datatype Caller = Caller(kind: string, id: string)

  datatype Claims = Claims(
    schema: string, issuer: string, keyId: string, holder: string, audience: string, caller: Caller,
    requestDigest: string, disclosureDigest: string, policyDigest: string, nonce: string,
    issued: nat, expires: nat)

  datatype Credential = Credential(claims: Claims, signature: string)

  datatype Presentation = Presentation(
    schema: string, holder: string, issuer: string, keyId: string, audience: string, caller: Caller,
    requestDigest: string, credentialDigest: string, disclosureDigest: string, nonce: string,
    issued: nat, expires: nat, signature: string)

  /** Hashing, signatures, key and origin syntax come from outside; so does the canonical printer. */
  datatype Crypto = Crypto(
    canonical: Value -> Option<bytes>,
    sha256: bytes -> bytes,
    verify: (bytes, bytes, bytes) -> bool,
    isKey: bytes -> bool,
    isOrigin: string -> bool)

  // -------------------------------------------------------------- small words

  predicate Label(s: string) {
    0 < |s| <= 200 && forall i | 0 <= i < |s| :: ' ' <= s[i] <= '~'
  }

  predicate CallerOk(x: Crypto, c: Caller) {
    Label(c.id) && (c.kind == "terminal" || (c.kind == "browser" && x.isOrigin(c.id)))
  }

  /** The hexadecimal text of so many bytes. */
  predicate HexOf(s: string, n: nat) {
    |s| == 2 * n && forall i | 0 <= i < |s| :: IsHex(s[i])
  }

  function HexDigitValue(c: char): (r: nat)
    requires IsHex(c)
    ensures r < 16 && HexDigit(r) == c
  {
    if IsDigit(c) then c as int - '0' as int else c as int - 'a' as int + 10
  }

  function HexPair(high: char, low: char): (r: byte)
    requires IsHex(high) && IsHex(low)
    ensures HexDigit(r / 16) == high && HexDigit(r % 16) == low
  {
    HexDigitValue(high) * 16 + HexDigitValue(low)
  }

  function Unhex(s: string): (r: bytes)
    requires |s| % 2 == 0 && forall i | 0 <= i < |s| :: IsHex(s[i])
    ensures |r| == |s| / 2 && Hex(r) == s
  {
    if s == [] then []
    else
      assert s == [s[0], s[1]] + s[2..];
      [HexPair(s[0], s[1])] + Unhex(s[2..])
  }

  lemma HexPairOf(b: byte)
    ensures HexPair(HexDigit(b / 16), HexDigit(b % 16)) == b
  {
    assert HexDigitValue(HexDigit(b / 16)) == b / 16;
    assert HexDigitValue(HexDigit(b % 16)) == b % 16;
  }

  lemma HexIsHex(b: bytes)
    ensures HexOf(Hex(b), |b|)
  {
    assert forall i | 0 <= i < |Hex(b)| :: Hex(b)[i] in Hex(b);
  }

  lemma {:induction false} UnhexOfHex(b: bytes)
    ensures HexOf(Hex(b), |b|) && Unhex(Hex(b)) == b
  {
    HexIsHex(b);
    if b != [] {
      var rest := Hex(b[1..]);
      UnhexOfHex(b[1..]);
      HexPairOf(b[0]);
      assert Hex(b)[2..] == rest;
      assert Unhex(Hex(b)) == [b[0]] + Unhex(rest);
    }
  }

  lemma {:induction false} UnhexAt(s: string, k: nat)
    requires |s| % 2 == 0 && (forall i | 0 <= i < |s| :: IsHex(s[i])) && 2 * k < |s|
    ensures Unhex(s)[k] == HexPair(s[2 * k], s[2 * k + 1])
  {
    if k > 0 {
      UnhexAt(s[2..], k - 1);
    }
  }

  /** Decode exactly so many bytes, filling a buffer two digits at a time. */
  method UnhexExact(text: string, n: nat) returns (r: Option<bytes>)
    ensures r == if HexOf(text, n) then Some(Unhex(text)) else None
  {
    if !HexOf(text, n) { return None; }
    var out := new byte[n](_ => 0);
    ghost var want := Unhex(text);
    for i := 0 to n
      invariant forall k | 0 <= k < i :: out[k] == want[k]
    {
      var b := HexPair(text[2 * i], text[2 * i + 1]);
      assert b == want[i] by { UnhexAt(text, i); }
      out[i] := b;
    }
    assert out[..] == want;
    return Some(out[..]);
  }

  /** In force now, and for no longer than allowed. */
  predicate InForce(issued: nat, expires: nat, now: nat, maximum: nat) {
    issued <= now < expires && expires <= MAX_SAFE && expires - issued <= maximum
  }

  // ----------------------------------------------------------- canonical form

  /** Members in order; a later one with the same name wins. */
  function Fields(pairs: seq<(string, Value)>): map<string, Value> {
    if pairs == [] then map[] else Fields(pairs[..|pairs| - 1])[pairs[|pairs| - 1].0 := pairs[|pairs| - 1].1]
  }

  function CallerValue(c: Caller): Value { Obj(Fields([("kind", Str(c.kind)), ("id", Str(c.id))])) }

  function ClaimsValue(c: Claims): Value {
    Obj(Fields([("schema", Str(c.schema)), ("issuer", Str(c.issuer)), ("key_id", Str(c.keyId)),
                ("holder_public_key", Str(c.holder)), ("audience", Str(c.audience)), ("caller", CallerValue(c.caller)),
                ("request_digest_sha256", Str(c.requestDigest)), ("disclosure_digest_sha256", Str(c.disclosureDigest)),
                ("policy_digest_sha256", Str(c.policyDigest)), ("nonce", Str(c.nonce)),
                ("issued_at", Num(c.issued)), ("expires_at", Num(c.expires))]))
  }

  function CredentialValue(c: Credential): Value {
    Obj(Fields([("claims", ClaimsValue(c.claims)), ("signature", Str(c.signature))]))
  }

  /** Everything but the signature. */
  function UnsignedPresentation(p: Presentation): Value {
    Obj(Fields([("schema", Str(p.schema)), ("holder_public_key", Str(p.holder)), ("issuer", Str(p.issuer)),
                ("key_id", Str(p.keyId)), ("audience", Str(p.audience)), ("caller", CallerValue(p.caller)),
                ("request_digest_sha256", Str(p.requestDigest)), ("credential_digest_sha256", Str(p.credentialDigest)),
                ("disclosure_digest_sha256", Str(p.disclosureDigest)), ("nonce", Str(p.nonce)),
                ("issued_at", Num(p.issued)), ("expires_at", Num(p.expires))]))
  }

  function PresentationValue(p: Presentation): Value {
    Obj(UnsignedPresentation(p).fields["signature" := Str(p.signature)])
  }

  function Digest(x: Crypto, v: Value): Option<string> {
    var b :- x.canonical(v);
    Some(Hex(x.sha256(b)))
  }

  function Preimage(x: Crypto, domain: string, v: Value): Option<bytes> {
    var b :- x.canonical(v);
    Some(Utf8(domain) + [0] + b)
  }

  predicate Signed(x: Crypto, key: bytes, domain: string, v: Value, signature: string) {
    && Preimage(x, domain, v).Some?
    && HexOf(signature, 64)
    && x.verify(key, Preimage(x, domain, v).value, Unhex(signature))
  }

  // ------------------------------------------------------------ verification

  /** Everything a credential is checked for except its lifetime. */
  predicate CredentialBound(x: Crypto, c: Credential, issuer: string, keyId: string, key: bytes, audience: string, caller: Caller) {
    var k := c.claims;
    && k.schema == CREDENTIAL_SCHEMA && k.issuer == issuer && k.keyId == keyId && k.audience == audience && k.caller == caller
    && Label(k.issuer) && Label(k.keyId) && Label(k.audience) && CallerOk(x, k.caller)
    && HexOf(k.holder, 32) && HexOf(k.requestDigest, 32) && HexOf(k.disclosureDigest, 32)
    && HexOf(k.policyDigest, 32) && HexOf(k.nonce, 16)
    && Signed(x, key, CREDENTIAL_DOMAIN, ClaimsValue(k), c.signature)
  }

  predicate CredentialOk(x: Crypto, c: Credential, issuer: string, keyId: string, key: bytes, audience: string, caller: Caller, now: nat) {
    CredentialBound(x, c, issuer, keyId, key, audience, caller)
    && InForce(c.claims.issued, c.claims.expires, now, CREDENTIAL_LIFETIME)
  }

  /** Everything a presentation is checked for except its lifetime. */
  predicate PresentationBound(x: Crypto, p: Presentation, c: Credential) {
    var k := c.claims;
    && p.schema == PRESENTATION_SCHEMA && p.holder == k.holder && p.issuer == k.issuer && p.keyId == k.keyId
    && p.audience == k.audience && p.caller == k.caller && p.requestDigest == k.requestDigest
    && p.disclosureDigest == k.disclosureDigest && Digest(x, CredentialValue(c)) == Some(p.credentialDigest)
    && p.expires <= k.expires && k.issued <= p.issued
    && HexOf(p.nonce, 16) && HexOf(p.holder, 32) && x.isKey(Unhex(p.holder))
    && Signed(x, Unhex(p.holder), PRESENTATION_DOMAIN, UnsignedPresentation(p), p.signature)
  }
}
