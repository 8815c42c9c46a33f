/** Issuing a credential for a request, and later turning it into a reserved work authority. */
module CredentialFlow {
  import opened Bytes
  import opened Text
  import opened Wrappers
  import opened Limits
  import opened JsonValue
  import opened WorkValues
  import opened WorkRequest
  import opened WorkPolicy
  import opened Credentials
  import opened PolicyDigest
  import Base64Url
  import Disclosure
  import ReplayTable

  const CONFIG_SCHEMA := "secs-devgraph-credential-config.v2"
  const REQUEST_DOMAIN := "devgraph.credential-request.v2"
  const PROJECTION_DOMAIN := "secs-devgraph-work-authority.v2/signature"
  const CONTEXT_DOMAIN := "secs-devgraph-work-context.v2"
  const MAX_REQUEST := 131_072
  const ENVELOPE_SCHEMA := "castalia.credential-presentation-request.v2"
  const MAX_ENVELOPE := 262_144

  datatype Config = Config(schema: string, version: nat, issuer: string, callers: seq<Caller>)

  /** The issuing node's own material. */
  datatype Signer = Signer(keyId: string, key: bytes, sign: bytes -> Option<bytes>)

  // ---------------------------------------------------------- caller and keys

  predicate ConfigOk(x: Crypto, c: Config) {
    && c.schema == CONFIG_SCHEMA && c.version == 2 && Label(c.issuer) && 0 < |c.callers| <= 64
    && (forall i | 0 <= i < |c.callers| :: CallerOk(x, c.callers[i]))
    && (forall i, j | 0 <= i < j < |c.callers| :: c.callers[i] != c.callers[j])
  }

  predicate CallerTrusted(x: Crypto, c: Config, caller: Caller) {
    ConfigOk(x, c) && CallerOk(x, caller) && caller in c.callers
  }

  function IdempotencyDigest(x: Crypto, key: string): Option<string> {
    if 16 <= |key| <= 128 && forall i | 0 <= i < |key| :: IsAlphanumeric(key[i]) || key[i] in "._~-"
    then Some(Hex(x.sha256(Utf8(key)))) else None
  }

  function ActorId(x: Crypto, holder: string): string {
    if HexOf(holder, 32) then "pubkey:sha256:" + Hex(x.sha256(Unhex(holder))) else ""
  }

  function DomainDigest(x: Crypto, domain: string, b: bytes): string { Hex(x.sha256(Utf8(domain) + [0] + b)) }

  // ------------------------------------------------------ what a request binds

  function JoinNames(names: seq<string>): string {
    if names == [] then "" else if |names| == 1 then names[0] else names[0] + ", " + JoinNames(names[1..])
  }

  function VersionText(v: Value): string {
    if v.Num? && v.n >= 0 then Disclosure.Number(v.n) else "new"
  }

  function Headers(w: Request, idempotency: string): (r: seq<string>)
    ensures |r| == 4
  {
    ["Operation: " + w.operation, "Resources: " + JoinNames(w.resources),
     "Expected version: " + VersionText(At(w.value, "expected_version")), "Idempotency digest: " + idempotency]
  }

  function Statements(x: Crypto, w: Request, key: string): Option<seq<string>> {
    var idempotency :- IdempotencyDigest(x, key);
    var text :- FromUtf8(w.canonical);
    var r := Disclosure.Disclosed(Headers(w, idempotency), text);
    if r.Ok? then Some(r.value) else None
  }

  function Texts(ss: seq<string>): Value { Arr(seq(|ss|, i requires 0 <= i < |ss| => Str(ss[i]))) }

  function DisclosureValue(statements: seq<string>): Value {
    Obj(Credentials.Fields([("title", Str("Devgraph request")), ("statements", Texts(statements))]))
  }

  function RequestBody(domain: string, w: Request, idempotency: string): Value {
    Obj(map["schema" := Str(domain), "request" := w.value, "idempotency_key_digest_sha256" := Str(idempotency)])
  }

  /** The opaque bytes the wallet hashes: the request and the digest of its idempotency key. */
  function RequestBytes(x: Crypto, domain: string, w: Request, idempotency: string): Option<bytes> {
    var body :- x.canonical(RequestBody(domain, w, idempotency));
    var out := Utf8(domain) + [0] + body;
    if |out| > MAX_REQUEST then None else Some(out)
  }

  /** A parsed request with the three digests a credential for it must carry. */
  datatype Bound = Bound(request: Request, statements: seq<string>, idempotency: string, body: bytes,
                         requestDigest: string, disclosureDigest: string, policyDigest: string)

  function Bind(x: Crypto, domain: string, parse: bytes -> Option<Request>, policyDigest: Option<string>, raw: bytes, key: string):
    Option<Bound>
  {
    var w :- parse(raw);
    var idempotency :- IdempotencyDigest(x, key);
    var body :- RequestBytes(x, domain, w, idempotency);
    var statements :- Statements(x, w, key);
    var disclosure :- Digest(x, DisclosureValue(statements));
    var policy :- policyDigest;
    Some(Bound(w, statements, idempotency, body, Hex(x.sha256(body)), disclosure, policy))
  }

  function AskOf(w: Request): Ask { Ask(w.operation, w.resources) }

  // --------------------------------------------------------------- credential

  datatype CredentialInput = CredentialInput(raw: bytes, key: string, holder: string, caller: Caller, nonce: bytes, now: nat)

  predicate HolderOk(x: Crypto, holder: string) { HexOf(holder, 32) && x.isKey(Unhex(holder)) }

  /** What a node checks about whoever asks for a credential. */
  predicate Opens(x: Crypto, config: Config, input: CredentialInput) {
    CallerTrusted(x, config, input.caller) && HolderOk(x, input.holder)
  }

  function AsciiText(b: bytes): string { seq(|b|, i requires 0 <= i < |b| => b[i] as char) }

  function Padding(n: nat): bytes { seq((4 - n % 4) % 4, _ => 0x3D) }

  /** Standard padded base64, made from the other alphabet. */
  function StandardBase64(b: bytes): bytes {
    var s := Base64Url.Encode(b);
    seq(|s|, i requires 0 <= i < |s| => if s[i] == 0x2D then 0x2B else if s[i] == 0x5F then 0x2F else s[i]) + Padding(|s|)
  }

  /** What the wallet is handed: the request's bytes, what is disclosed of it, and the credential. */
  function EnvelopeValue(b: Bound, c: Credential): Value {
    Obj(map["schema" := Str(ENVELOPE_SCHEMA), "request_bytes_base64" := Str(AsciiText(StandardBase64(b.body))),
            "disclosure" := DisclosureValue(b.statements), "credential" := CredentialValue(c)])
  }

  predicate EnvelopeFits(x: Crypto, b: Bound, c: Credential) {
    x.canonical(EnvelopeValue(b, c)).Some? && |x.canonical(EnvelopeValue(b, c)).value| <= MAX_ENVELOPE
  }

  /** The signed credential for a request, checked once more by its own rules, in an envelope that fits. */
  function NewCredential(x: Crypto, signer: Signer, config: Config, audience: string, b: Bound, input: CredentialInput, expires: nat):
    (r: Option<Credential>)
    ensures r.Some? ==> r.value.claims.holder == input.holder && r.value.claims.issued == input.now && r.value.claims.expires == expires
    ensures r.Some? ==> r.value.claims.requestDigest == b.requestDigest && r.value.claims.policyDigest == b.policyDigest
    ensures r.Some? ==> r.value.claims.disclosureDigest == b.disclosureDigest && r.value.claims.nonce == Hex(input.nonce)
    ensures r.Some? ==>
      && CredentialOk(x, r.value, config.issuer, signer.keyId, signer.key, audience, input.caller, input.now)
      && EnvelopeFits(x, b, r.value)
  {
    var claims := Claims(CREDENTIAL_SCHEMA, config.issuer, signer.keyId, input.holder, audience, input.caller,
                         b.requestDigest, b.disclosureDigest, b.policyDigest, Hex(input.nonce), input.now, expires);
    var preimage :- Preimage(x, CREDENTIAL_DOMAIN, ClaimsValue(claims));
    var signature :- signer.sign(preimage);
    var c := Credential(claims, Hex(signature));
    if CredentialOk(x, c, config.issuer, signer.keyId, signer.key, audience, input.caller, input.now) && EnvelopeFits(x, b, c)
    then Some(c) else None
  }

  // --------------------------------------------------------------- projection

  datatype Projection = Projection(
    actor: string, audience: string, expires: nat, idempotency: string, issued: nat, nonce: string,
    operation: string, policyDigest: string, policyId: string, policyVersion: nat, requestDigest: string,
    resources: seq<string>, context: string, keyId: string, session: string,
    credentialRequestDigest: string, credentialDigest: string, disclosureDigest: string,
    presentationDigest: string, signature: string)

  /** The projection without its signature; the deadline is its last member. */
  function UnsignedProjection(p: Projection): Value {
    Obj(Credentials.Fields([("actor_id", Str(p.actor)), ("actor_signature_suite", Str("Ed25519")), ("audience", Str(p.audience)),
                 ("idempotency_key_digest_sha256", Str(p.idempotency)), ("issued_at", Num(p.issued)),
                 ("nonce", Str(p.nonce)), ("operation", Str(p.operation)),
                 ("receiver_policy_digest_sha256", Str(p.policyDigest)), ("receiver_policy_id", Str(p.policyId)),
                 ("receiver_policy_version", Num(p.policyVersion)), ("replay_scope", Str("credential:operation:nonce")),
                 ("request_digest_sha256", Str(p.requestDigest)), ("resources", Texts(p.resources)),
                 ("schema", Str("secs-devgraph-work-authority.v2")), ("schema_version", Num(2)),
                 ("secs_context_id", Str(p.context)), ("secs_verifier_key_id", Str(p.keyId)),
                 ("secs_verifier_signature_suite", Str("Ed25519")), ("session_id", Str(p.session)),
                 ("credential_request_digest_sha256", Str(p.credentialRequestDigest)),
                 ("credential_digest_sha256", Str(p.credentialDigest)),
                 ("disclosure_digest_sha256", Str(p.disclosureDigest)),
                 ("credential_presentation_digest_sha256", Str(p.presentationDigest))])["expires_at" := Num(p.expires)])
  }

  function ProjectionValue(p: Projection): Value {
    Obj(UnsignedProjection(p).fields["secs_verifier_signature" := Str(p.signature)])
  }

  datatype AuthorityInput = AuthorityInput(raw: bytes, credential: Credential, statements: seq<string>,
                                           presentation: Presentation, key: string)

  /** Everything an exchange checks that does not depend on the time. */
  predicate Admits(x: Crypto, signer: Signer, config: Config, audience: string, input: AuthorityInput, b: Bound) {
    var k := input.credential.claims;
    && CallerTrusted(x, config, k.caller)
    && CredentialBound(x, input.credential, config.issuer, signer.keyId, signer.key, audience, k.caller)
    && input.statements == b.statements && k.disclosureDigest == b.disclosureDigest
    && k.requestDigest == b.requestDigest && k.policyDigest == b.policyDigest
    && PresentationBound(x, input.presentation, input.credential)
  }

  /** The digest of the request under its own schema. */
  function RequestDigest(x: Crypto, w: Request): string {
    DomainDigest(x, if At(w.value, "schema") == Str(ARENA) then ARENA
                    else if At(w.value, "schema") == Str(WORK_2) then WORK_2 else WORK_1, w.canonical)
  }

  function ContextId(x: Crypto, keyId: string, b: Bound, presentationDigest: string): Option<string> {
    var v :- x.canonical(Obj(Credentials.Fields([
      ("policy", Str(b.policyDigest)), ("presentation", Str(presentationDigest)), ("signer", Str(keyId))])));
    Some("ctx:sha256:" + DomainDigest(x, CONTEXT_DOMAIN, v))
  }

  function SealedProjection(x: Crypto, sign: bytes -> Option<bytes>, domain: string, draft: Projection): (r: Option<Projection>)
    ensures r.Some? ==> r.value == draft.(signature := r.value.signature)
  {
    var preimage :- Preimage(x, domain, UnsignedProjection(draft));
    var signature :- sign(preimage);
    Some(draft.(signature := AsciiText(Base64Url.Encode(signature))))
  }

  /** The signed projection with a given deadline. */
  function NewProjection(x: Crypto, signer: Signer, policy: Policy, input: AuthorityInput, b: Bound, expires: nat):
    (r: Option<Projection>)
    ensures r.Some? ==> r.value.expires == expires && r.value.operation == b.request.operation
    ensures r.Some? ==> r.value.session == input.credential.claims.nonce && r.value.nonce == input.presentation.nonce
    ensures r.Some? ==> r.value.actor == ActorId(x, input.credential.claims.holder) && r.value.resources == b.request.resources
    ensures r.Some? ==> r.value.policyDigest == b.policyDigest && r.value.requestDigest == RequestDigest(x, b.request)
    ensures r.Some? ==> Digest(x, CredentialValue(input.credential)) == Some(r.value.credentialDigest)
    ensures r.Some? ==> Digest(x, PresentationValue(input.presentation)) == Some(r.value.presentationDigest)
  {
    var k, p := input.credential.claims, input.presentation;
    var presentation :- Digest(x, PresentationValue(p));
    var credential :- Digest(x, CredentialValue(input.credential));
    var context :- ContextId(x, signer.keyId, b, presentation);
    var unsigned := Projection(
      ActorId(x, k.holder), policy.audience, expires, b.idempotency, p.issued, p.nonce,
      b.request.operation, b.policyDigest, policy.policyId, policy.policyVersion, RequestDigest(x, b.request),
      b.request.resources, context, signer.keyId, k.nonce, k.requestDigest, credential, k.disclosureDigest, presentation, "");
    SealedProjection(x, signer.sign, PROJECTION_DOMAIN, unsigned)
  }

  lemma SignatureIsNotProjected(p: Projection, signature: string)
    ensures UnsignedProjection(p.(signature := signature)) == UnsignedProjection(p)
  {
  }

  /** The signature is over the projection itself, which nothing else changes. */
  lemma SealIsOverProjection(x: Crypto, sign: bytes -> Option<bytes>, domain: string, draft: Projection, p: Projection)
    requires SealedProjection(x, sign, domain, draft) == Some(p)
    ensures p == draft.(signature := p.signature)
    ensures
      && Preimage(x, domain, UnsignedProjection(p)).Some?
      && sign(Preimage(x, domain, UnsignedProjection(p)).value).Some?
      && p.signature == AsciiText(Base64Url.Encode(sign(Preimage(x, domain, UnsignedProjection(p)).value).value))
  {
    SignatureIsNotProjected(draft, p.signature);
  }

  // --------------------------------------------------------------------- node

  /** A node as the two flows see it: what it binds, checks and signs, and when its key is trusted. */
  datatype Node = Node(
    bind: (bytes, string) -> Option<Bound>,
    opens: CredentialInput -> bool,
    issue: (Bound, CredentialInput, nat) -> Option<Credential>,
    admits: (AuthorityInput, Bound) -> bool,
    project: (AuthorityInput, Bound, nat) -> Option<Projection>,
    actor: string -> string,
    trusted: nat -> bool,
    policy: Policy)

  /** What the flows rely on. */
  ghost predicate Sound(n: Node) {
    && (forall b, i, e :: n.issue(b, i, e).Some? ==>
          var k := n.issue(b, i, e).value.claims; k.holder == i.holder && k.issued == i.now && k.expires == e)
    && (forall i, b :: n.admits(i, b) ==>
          var k, p := i.credential.claims, i.presentation;
          p.expires <= k.expires && k.issued <= p.issued && |k.nonce| == 32 && |p.nonce| == 32)
    && (forall i, b, e :: n.project(i, b, e).Some? ==>
          var q := n.project(i, b, e).value;
          q.expires == e && q.operation == b.request.operation
          && q.session == i.credential.claims.nonce && q.nonce == i.presentation.nonce)
  }

  function SecsNode(x: Crypto, parse: bytes -> Option<Request>, signer: Signer, config: Config, policy: Policy,
                    trusted: nat -> bool): Node {
    Node((raw, key) => Bind(x, REQUEST_DOMAIN, parse, PolicyHash(x, policy), raw, key),
         i => Opens(x, config, i),
         (b: Bound, i: CredentialInput, e: nat) => NewCredential(x, signer, config, policy.audience, b, i, e),
         (i, b) => Admits(x, signer, config, policy.audience, i, b),
         (i: AuthorityInput, b: Bound, e: nat) => NewProjection(x, signer, policy, i, b, e),
         holder => ActorId(x, holder), trusted, policy)
  }

  lemma SecsNodeSound(x: Crypto, parse: bytes -> Option<Request>, signer: Signer, config: Config, policy: Policy,
                      trusted: nat -> bool)
    ensures Sound(SecsNode(x, parse, signer, config, policy, trusted))
  {
  }

  // -------------------------------------------------------------------- flows

  /** The deadline the policy sets for a holder's request, for as long as asked. */
  ghost function PolicyDeadline(n: Node, holder: string, w: Request, now: nat, lifetime: nat): Option<nat> {
    var r := Authorize(n.policy, n.actor(holder), AskOf(w), now, lifetime);
    if r.Ok? then Some(r.value) else None
  }

  /** The credential a node issues: valid from now until the policy's own deadline, two minutes at most. */
  ghost function Issued(n: Node, input: CredentialInput): Option<Credential> {
    if !n.opens(input) || !n.trusted(input.now) then None
    else
      var b :- n.bind(input.raw, input.key);
      var expires :- PolicyDeadline(n, input.holder, b.request, input.now, CREDENTIAL_LIFETIME);
      n.issue(b, input, expires)
  }

  /** What an exchange checks against the clock, apart from the policy. */
  predicate Timely(n: Node, input: AuthorityInput, now: nat) {
    && now <= MAX_SAFE - CREDENTIAL_LIFETIME
    && n.trusted(now)
    && InForce(input.credential.claims.issued, input.credential.claims.expires, now, CREDENTIAL_LIFETIME)
    && InForce(input.presentation.issued, input.presentation.expires, now, PRESENTATION_LIFETIME)
  }

  /** What an exchange projects before it reserves it. */
  ghost function Projected(n: Node, input: AuthorityInput, now: nat): Option<Projection> {
    var b :- n.bind(input.raw, input.key);
    if !Timely(n, input, now) || !n.admits(input, b) then None
    else
      var again :- PolicyDeadline(n, input.credential.claims.holder, b.request, now, PRESENTATION_LIFETIME);
      n.project(input, b, Min(again, input.presentation.expires))
  }

  method IssueCredential(n: Node, input: CredentialInput) returns (r: Option<Credential>)
    ensures r == Issued(n, input)
  {
    if !n.opens(input) || !n.trusted(input.now) { return None; }
    var b :- n.bind(input.raw, input.key);
    var until := AuthorizeUntil(n.policy, n.actor(input.holder), AskOf(b.request), input.now, CREDENTIAL_LIFETIME);
    if until.Err? { return None; }
    return n.issue(b, input, until.value);
  }

  function AttemptFor(p: Projection, projection: bytes, now: nat, fault: bool): ReplayTable.Attempt {
    ReplayTable.Attempt(ReplayTable.Key(p.session, p.operation, p.nonce), ReplayTable.Held(p.expires, projection), now, fault)
  }

  /** Project, print and reserve; nothing is handed out that is not reserved. */
  method IssueAuthority(n: Node, table: ReplayTable.Table, printed: Projection -> Option<bytes>, input: AuthorityInput,
                        now: nat, fault: bool) returns (r: Option<Projection>)
    modifies table
    ensures var p := Projected(n, input, now);
      if p.None? || printed(p.value).None? then r.None? && table.rows == old(table.rows)
      else
        var reserved := ReplayTable.Reserved(old(table.rows), AttemptFor(p.value, printed(p.value).value, now, fault));
        table.rows == reserved.0 && r == if reserved.1.Ok? then p else None
  {
    if !Timely(n, input, now) { return None; }
    var b :- n.bind(input.raw, input.key);
    if !n.admits(input, b) { return None; }
    var again := AuthorizeUntil(n.policy, n.actor(input.credential.claims.holder), AskOf(b.request), now, PRESENTATION_LIFETIME);
    if again.Err? { return None; }
    var p :- n.project(input, b, Min(again.value, input.presentation.expires));
    var projection :- printed(p);
    var answer := table.Reserve(AttemptFor(p, projection, now, fault));
    return if answer.Ok? then Some(p) else None;
  }
}
