/** A credential stays good for what it was issued for, and an exact retry yields the same reserved bytes. */
module CredentialFacts {
  import opened Bytes
  import opened Text
  import opened Wrappers
  import opened Limits
  import opened JsonValue
  import opened CanonicalRoundTrip
  import opened WorkValues
  import opened WorkRequest
  import opened WorkPolicy
  import opened WorkPolicyFacts
  import opened Credentials
  import opened PolicyDigest
  import opened RequestFixedPoint
  import opened CredentialFlow
  import opened ReplayTable
  import CanonicalText

  // ----------------------------------------------------------- still good

  /** A credential of one node, presented to another with the same policy for the request it was issued for. */
  ghost predicate Presented(from: Node, n: Node, issue: CredentialInput, input: AuthorityInput, b: Bound) {
    && Issued(from, issue) == Some(input.credential)
    && n.bind(input.raw, input.key) == Some(b) && n.admits(input, b)
    && from.bind(issue.raw, issue.key).Some? && from.bind(issue.raw, issue.key).value.request == b.request
    && from.policy == n.policy && from.actor(issue.holder) == n.actor(issue.holder)
  }

  /** The later policy check cannot refuse a presented credential, nor shorten what the presentation says. */
  lemma PolicyAgreesAgain(n: Node, holder: string, w: Request, issued: nat, expires: nat, from: nat, until: nat, now: nat)
    requires PolicyDeadline(n, holder, w, issued, CREDENTIAL_LIFETIME) == Some(expires)
    requires issued <= from && until <= expires && InForce(from, until, now, PRESENTATION_LIFETIME)
    requires now <= MAX_SAFE - CREDENTIAL_LIFETIME
    ensures PolicyDeadline(n, holder, w, now, PRESENTATION_LIFETIME).Some?
    ensures until <= PolicyDeadline(n, holder, w, now, PRESENTATION_LIFETIME).value
  {
    PermissionPersists(n.policy, n.actor(holder), AskOf(w), issued, CREDENTIAL_LIFETIME, now, PRESENTATION_LIFETIME);
  }

  /**
   Exactly when the clock allows it, a presented credential is projected, and always to the same projection:
   the one that ends when the presentation does.
   */
  lemma ProjectedExactlyWhenTimely(from: Node, n: Node, issue: CredentialInput, input: AuthorityInput, b: Bound, now: nat)
    requires Sound(from) && Sound(n) && Presented(from, n, issue, input, b)
    ensures Projected(n, input, now)
         == if Timely(n, input, now) then n.project(input, b, input.presentation.expires) else None
  {
    var k, p := input.credential.claims, input.presentation;
    if Timely(n, input, now) {
      PolicyAgreesAgain(n, k.holder, b.request, k.issued, k.expires, p.issued, p.expires, now);
    }
  }

  // ------------------------------------------------------------------- digests

  /** A parser whose requests are decided by their values. */
  ghost predicate Faithful(parse: bytes -> Option<Request>) {
    forall a, b :: parse(a).Some? && parse(b).Some? && parse(a).value.value == parse(b).value.value ==> parse(a) == parse(b)
  }

  ghost function WorkParser(env: Outside): bytes -> Option<Request> { raw => Parsed(WorkRules(env), raw) }

  lemma WorkParserFaithful(env: Outside)
    ensures Faithful(WorkParser(env))
  {
    forall a, b | Parsed(WorkRules(env), a).Some? && Parsed(WorkRules(env), b).Some?
                  && Parsed(WorkRules(env), a).value.value == Parsed(WorkRules(env), b).value.value
      ensures Parsed(WorkRules(env), a) == Parsed(WorkRules(env), b)
    {
      SameValueSameRequest(env, a, b);
    }
  }

  /** The bytes a wallet hashes decide the request's value. */
  lemma BytesDecideValue(x: Crypto, domain: string, w: Request, idempotency: string, v: Request, other: string)
    requires Injective(x.canonical) && RequestBytes(x, domain, w, idempotency).Some?
    requires RequestBytes(x, domain, w, idempotency) == RequestBytes(x, domain, v, other)
    ensures w.value == v.value
  {
    var a, b := RequestBody(domain, w, idempotency), RequestBody(domain, v, other);
    var prefix := Utf8(domain) + [0];
    SameLengthPrefix(prefix, prefix, x.canonical(a).value, x.canonical(b).value);
    assert a.fields["request"] == b.fields["request"];
  }

  lemma BoundParts(x: Crypto, domain: string, parse: bytes -> Option<Request>, hash: Option<string>, raw: bytes, key: string, b: Bound)
    requires Bind(x, domain, parse, hash, raw, key) == Some(b)
    ensures parse(raw) == Some(b.request) && hash == Some(b.policyDigest)
    ensures RequestBytes(x, domain, b.request, b.idempotency).Some?
    ensures b.requestDigest == Hex(x.sha256(RequestBytes(x, domain, b.request, b.idempotency).value))
  {
  }

  /** The hash takes two different requests to one digest. */
  predicate RequestClash(x: Crypto, domain: string, a: Bound, b: Bound) {
    Clash(x.sha256, RequestBytes(x, domain, a.request, a.idempotency), RequestBytes(x, domain, b.request, b.idempotency))
  }

  lemma DigestDecidesValue(x: Crypto, domain: string, a: Bound, b: Bound)
    requires Injective(x.canonical) && a.requestDigest == b.requestDigest
    requires RequestBytes(x, domain, a.request, a.idempotency).Some? && RequestBytes(x, domain, b.request, b.idempotency).Some?
    requires a.requestDigest == Hex(x.sha256(RequestBytes(x, domain, a.request, a.idempotency).value))
    requires b.requestDigest == Hex(x.sha256(RequestBytes(x, domain, b.request, b.idempotency).value))
    ensures a.request.value == b.request.value || RequestClash(x, domain, a, b)
  {
    var s := RequestBytes(x, domain, a.request, a.idempotency).value;
    var t := RequestBytes(x, domain, b.request, b.idempotency).value;
    HexDecides(x.sha256, s, t);
    if s == t {
      BytesDecideValue(x, domain, a.request, a.idempotency, b.request, b.idempotency);
    }
  }

  /** A digest names one request. */
  lemma DigestNamesRequest(x: Crypto, domain: string, parse: bytes -> Option<Request>, p: Option<string>, q: Option<string>,
                           raw: bytes, key: string, a: Bound, again: bytes, other: string, b: Bound)
    requires Injective(x.canonical) && Faithful(parse)
    requires Bind(x, domain, parse, p, raw, key) == Some(a) && Bind(x, domain, parse, q, again, other) == Some(b)
    requires a.requestDigest == b.requestDigest
    ensures a.request == b.request || RequestClash(x, domain, a, b)
  {
    BoundParts(x, domain, parse, p, raw, key, a);
    BoundParts(x, domain, parse, q, again, other, b);
    DigestDecidesValue(x, domain, a, b);
  }

  lemma IssuedParts(from: Node, issue: CredentialInput) returns (a: Bound, expires: nat)
    requires Issued(from, issue).Some?
    ensures from.bind(issue.raw, issue.key) == Some(a) && from.issue(a, issue, expires) == Issued(from, issue)
  {
    a := from.bind(issue.raw, issue.key).value;
    expires := PolicyDeadline(from, issue.holder, a.request, issue.now, CREDENTIAL_LIFETIME).value;
  }

  /** Two nodes whose digests name requests and policies, but for the clashes listed. */
  ghost predicate Digested(from: Node, n: Node, requests: (Bound, Bound) -> bool, policies: bool) {
    && (forall b, i, e :: from.issue(b, i, e).Some? ==>
          var k := from.issue(b, i, e).value.claims; k.requestDigest == b.requestDigest && k.policyDigest == b.policyDigest)
    && (forall i, b :: n.admits(i, b) ==>
          var k := i.credential.claims; k.requestDigest == b.requestDigest && k.policyDigest == b.policyDigest)
    && (forall raw, key, again, other :: from.bind(raw, key).Some? && n.bind(again, other).Some? ==>
          var a, b := from.bind(raw, key).value, n.bind(again, other).value;
          && (a.requestDigest == b.requestDigest ==> a.request == b.request || requests(a, b))
          && (a.policyDigest == b.policyDigest ==> from.policy == n.policy || policies))
    && (forall holder :: from.actor(holder) == n.actor(holder))
  }

  /** So a credential that a node admits was issued for this very request under this very policy. */
  lemma AdmittedIsPresented(from: Node, n: Node, requests: (Bound, Bound) -> bool, policies: bool,
                            issue: CredentialInput, input: AuthorityInput, b: Bound)
    requires Digested(from, n, requests, policies) && Issued(from, issue) == Some(input.credential)
    requires n.bind(input.raw, input.key) == Some(b) && n.admits(input, b)
    ensures from.bind(issue.raw, issue.key).Some?
    ensures Presented(from, n, issue, input, b) || requests(from.bind(issue.raw, issue.key).value, b) || policies
  {
    var a, expires := IssuedParts(from, issue);
  }

  ghost function RequestClashes(x: Crypto): (Bound, Bound) -> bool { (a, b) => RequestClash(x, REQUEST_DOMAIN, a, b) }

  lemma BindingsDigested(x: Crypto, domain: string, parse: bytes -> Option<Request>, p: Policy, q: Policy,
                         raw: bytes, key: string, a: Bound, again: bytes, other: string, b: Bound)
    requires Injective(x.canonical) && Faithful(parse)
    requires Bind(x, domain, parse, PolicyHash(x, p), raw, key) == Some(a)
    requires Bind(x, domain, parse, PolicyHash(x, q), again, other) == Some(b)
    ensures a.requestDigest == b.requestDigest ==> a.request == b.request || RequestClash(x, domain, a, b)
    ensures a.policyDigest == b.policyDigest ==>
      p == q || PolicyClash(x, p, q)
  {
    if a.requestDigest == b.requestDigest {
      DigestNamesRequest(x, domain, parse, PolicyHash(x, p), PolicyHash(x, q), raw, key, a, again, other, b);
    }
    if a.policyDigest == b.policyDigest {
      BoundParts(x, domain, parse, PolicyHash(x, p), raw, key, a);
      BoundParts(x, domain, parse, PolicyHash(x, q), again, other, b);
      DigestNamesPolicy(x, p, q);
    }
  }

  /** Two nodes with a parser and hash in common are such nodes; the clashes are those of the hash on what they hashed. */
  lemma SecsNodesDigested(x: Crypto, parse: bytes -> Option<Request>, signer: Signer, config: Config, policy: Policy,
                          trusted: nat -> bool, signer': Signer, config': Config, policy': Policy, trusted': nat -> bool)
    requires Injective(x.canonical) && Faithful(parse)
    ensures Digested(SecsNode(x, parse, signer, config, policy, trusted),
                     SecsNode(x, parse, signer', config', policy', trusted'), RequestClashes(x),
                     PolicyClash(x, policy, policy'))
  {
    forall raw, key, again, other, a, b
      | Bind(x, REQUEST_DOMAIN, parse, PolicyHash(x, policy), raw, key) == Some(a)
        && Bind(x, REQUEST_DOMAIN, parse, PolicyHash(x, policy'), again, other) == Some(b)
      ensures a.requestDigest == b.requestDigest ==> a.request == b.request || RequestClash(x, REQUEST_DOMAIN, a, b)
      ensures a.policyDigest == b.policyDigest ==>
        policy == policy' || PolicyClash(x, policy, policy')
    {
      BindingsDigested(x, REQUEST_DOMAIN, parse, policy, policy', raw, key, a, again, other, b);
    }
  }

  ghost function CanonicalForm(): Value -> Option<bytes> { v => if Printable(v) then Some(Canon(v)) else None }

  lemma CanonicalFormInjective()
    ensures Injective(CanonicalForm())
  {
    forall v, w | Printable(v) && Printable(w) && Canon(v) == Canon(w) ensures v == w {
      CanonInjective(v, w);
    }
  }

  // --------------------------------------------------------------- put together

  /** What a node admits of what another issued is projected exactly when the clock allows it, but for a clash. */
  lemma AdmittedIsProjected(from: Node, n: Node, requests: (Bound, Bound) -> bool, policies: bool,
                            issue: CredentialInput, input: AuthorityInput, b: Bound, now: nat)
    requires Sound(from) && Sound(n) && Digested(from, n, requests, policies) && Issued(from, issue) == Some(input.credential)
    requires n.bind(input.raw, input.key) == Some(b) && n.admits(input, b)
    ensures from.bind(issue.raw, issue.key).Some?
    ensures
      || Projected(n, input, now) == (if Timely(n, input, now) then n.project(input, b, input.presentation.expires) else None)
      || requests(from.bind(issue.raw, issue.key).value, b) || policies
  {
    AdmittedIsPresented(from, n, requests, policies, issue, input, b);
    if Presented(from, n, issue, input, b) {
      ProjectedExactlyWhenTimely(from, n, issue, input, b, now);
    }
  }

  lemma WorkNodesDigested(x: Crypto, parse: bytes -> Option<Request>, signer: Signer, config: Config, policy: Policy,
                          trusted: nat -> bool, signer': Signer, config': Config, policy': Policy, trusted': nat -> bool,
                          from: Node, n: Node)
    requires x.canonical == CanonicalForm() && Faithful(parse)
    requires from == SecsNode(x, parse, signer, config, policy, trusted)
    requires n == SecsNode(x, parse, signer', config', policy', trusted')
    ensures Sound(from) && Sound(n) && Digested(from, n, RequestClashes(x), PolicyClash(x, policy, policy'))
  {
    CanonicalFormInjective();
    SecsNodeSound(x, parse, signer, config, policy, trusted);
    SecsNodeSound(x, parse, signer', config', policy', trusted');
    SecsNodesDigested(x, parse, signer, config, policy, trusted, signer', config', policy', trusted');
  }

  /**
   A credential that one node issued and another admits is honoured: it is projected exactly when the clock allows it,
   to the projection that ends with the presentation. The two nodes may differ in everything but the hash; the only way
   out is a clash of that hash on the two requests or the two policies.
   */
  lemma CredentialsAreHonoured(x: Crypto, env: Outside, parse: bytes -> Option<Request>, signer: Signer, config: Config,
                               policy: Policy, trusted: nat -> bool, signer': Signer, config': Config, policy': Policy,
                               trusted': nat -> bool, from: Node, n: Node, issue: CredentialInput, input: AuthorityInput,
                               a: Bound, b: Bound, now: nat)
    requires x.canonical == CanonicalForm() && parse == WorkParser(env)
    requires from == SecsNode(x, parse, signer, config, policy, trusted)
    requires n == SecsNode(x, parse, signer', config', policy', trusted')
    requires Issued(from, issue) == Some(input.credential) && from.bind(issue.raw, issue.key) == Some(a)
    requires n.bind(input.raw, input.key) == Some(b) && n.admits(input, b)
    ensures
      || Projected(n, input, now) == (if Timely(n, input, now) then n.project(input, b, input.presentation.expires) else None)
      || RequestClash(x, REQUEST_DOMAIN, a, b) || PolicyClash(x, policy, policy')
  {
    WorkParserFaithful(env);
    WorkNodesDigested(x, parse, signer, config, policy, trusted, signer', config', policy', trusted', from, n);
    AdmittedIsProjected(from, n, RequestClashes(x), PolicyClash(x, policy, policy'), issue, input, b, now);
  }

  // ------------------------------------------------------------------- replay

  /** The deadline written in the value some bytes print, for a printer that prints no two values alike. */
  ghost function DeadlineIn(prints: (Value, bytes) -> bool, b: bytes): nat {
    if exists v :: prints(v, b) then
      var v :| prints(v, b);
      var e := At(v, "expires_at");
      if e.Num? && e.n >= 0 then e.n else 0
    else 0
  }

  lemma {:induction false} DeadlineRead(prints: (Value, bytes) -> bool, v: Value, b: bytes, e: nat)
    requires prints(v, b) && (forall w | prints(w, b) :: w == v) && At(v, "expires_at") == Num(e)
    ensures DeadlineIn(prints, b) == e
  {
  }

  lemma ProjectionDeadline(p: Projection)
    ensures At(ProjectionValue(p), "expires_at") == Num(p.expires)
  {
  }

  /** The attempt that reserves a projection. */
  predicate Reserves(canonical: Value -> Option<bytes>, a: Attempt, p: Projection) {
    && a.key == Key(p.session, p.operation, p.nonce)
    && canonical(ProjectionValue(p)) == Some(a.held.projection)
    && a.held.expires == p.expires
  }

  predicate AllReserve(canonical: Value -> Option<bytes>, attempts: seq<Attempt>, ps: seq<Projection>) {
    |attempts| == |ps| && forall i | 0 <= i < |ps| :: Reserves(canonical, attempts[i], ps[i])
  }

  function Printing(canonical: Value -> Option<bytes>): (Value, bytes) -> bool { (v, b) => canonical(v) == Some(b) }

  ghost function Deadlines(canonical: Value -> Option<bytes>): bytes -> nat { b => DeadlineIn(Printing(canonical), b) }

  lemma ReservationIsDated(canonical: Value -> Option<bytes>, a: Attempt, p: Projection)
    requires Injective(canonical) && Reserves(canonical, a, p)
    ensures a.held.expires == DeadlineIn(Printing(canonical), a.held.projection)
  {
    ProjectionDeadline(p);
    DeadlineRead(Printing(canonical), ProjectionValue(p), a.held.projection, p.expires);
  }

  lemma ReservationsAreDated(canonical: Value -> Option<bytes>, attempts: seq<Attempt>, ps: seq<Projection>)
    requires Injective(canonical) && AllReserve(canonical, attempts, ps)
    ensures AttemptsDated(Deadlines(canonical), attempts)
  {
    forall i | 0 <= i < |attempts| ensures Dated(Deadlines(canonical), attempts[i].held) {
      assert Reserves(canonical, attempts[i], ps[i]);
      ReservationIsDated(canonical, attempts[i], ps[i]);
    }
  }

  /** A verified credential and presentation always fit the replay table. */
  lemma AlwaysStorable(n: Node, input: AuthorityInput, now: nat)
    requires Sound(n) && Projected(n, input, now).Some?
    ensures var p := Projected(n, input, now).value; Storable(Key(p.session, p.operation, p.nonce))
  {
  }

  /**
   An exact retry: while the first projection is live and the clock allows the exchange, trying again projects the
   same authority and its reservation succeeds.
   */
  lemma ExactRetrySucceeds(from: Node, n: Node, issue: CredentialInput, input: AuthorityInput, b: Bound,
                           canonical: Value -> Option<bytes>, attempts: seq<Attempt>, ps: seq<Projection>, i: nat, j: nat)
    requires Sound(from) && Sound(n) && Presented(from, n, issue, input, b) && Injective(canonical) && AllReserve(canonical, attempts, ps)
    requires i < j < |attempts| && !attempts[j].fault && !Purged(map[], attempts, i, j)
    requires Projected(n, input, attempts[i].now) == Some(ps[i]) && Answer(map[], attempts, i).Ok?
    requires Timely(n, input, attempts[j].now) && Projected(n, input, attempts[j].now) == Some(ps[j])
    ensures ps[j] == ps[i] && attempts[j].held == attempts[i].held && Answer(map[], attempts, j).Ok?
  {
    ProjectedExactlyWhenTimely(from, n, issue, input, b, attempts[i].now);
    ProjectedExactlyWhenTimely(from, n, issue, input, b, attempts[j].now);
    ReservationsAreDated(canonical, attempts, ps);
    assert Reserves(canonical, attempts[i], ps[i]) && Reserves(canonical, attempts[j], ps[j]);
    RetryExactlyWhenSame(Deadlines(canonical), map[], attempts, i, j);
  }

  /** Whatever is exchanged, two different projections under one key are never live together, unless one was purged early. */
  lemma NoTwoLiveProjections(canonical: Value -> Option<bytes>, attempts: seq<Attempt>, ps: seq<Projection>, i: nat, j: nat)
    requires Injective(canonical) && AllReserve(canonical, attempts, ps) && i < j < |attempts|
    requires attempts[i].key == attempts[j].key && Answer(map[], attempts, i).Ok? && Answer(map[], attempts, j).Ok?
    ensures ProjectionValue(ps[i]) == ProjectionValue(ps[j]) || ps[i].expires <= attempts[j].now
            || Purged(map[], attempts, i, j)
  {
    ReservationsAreDated(canonical, attempts, ps);
    assert Reserves(canonical, attempts[i], ps[i]) && Reserves(canonical, attempts[j], ps[j]);
    OneLiveProjection(Deadlines(canonical), map[], attempts, i, j);
  }

  // --------------------------------------------------------------- disclosure

  /** A parsed request can be disclosed exactly when its headers can be shown and none of its characters is forbidden. */
  lemma DisclosedExactlyWhenShowable(x: Crypto, w: Request, key: string)
    requires w.canonical == Canon(w.value) && |w.canonical| <= MAX_CANONICAL
    ensures FromUtf8(w.canonical).Some?
    ensures Statements(x, w, key).Some? <==>
      && IdempotencyDigest(x, key).Some?
      && Disclosure.AllDisplayable(Headers(w, IdempotencyDigest(x, key).value))
      && Disclosure.Clear(FromUtf8(w.canonical).value)
  {
    CanonicalText.CanonicalDecodes(w.value);
    if IdempotencyDigest(x, key).Some? {
      Disclosure.DisclosedExactlyWhen(Headers(w, IdempotencyDigest(x, key).value), FromUtf8(w.canonical).value);
    }
  }
}
