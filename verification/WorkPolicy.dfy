/** Deny-wins work policies with time-bounded rules. */
module WorkPolicy {
  import opened Wrappers
  import opened Text
  import opened Limits
  import opened GrantValidity
  import WorkValues

  datatype Rule = Rule(
    actorId: string, effect: string, validity: Grant, operation: string,
    resource: string, resourceMatch: string, status: string)

  datatype Policy = Policy(
    audience: string, policyId: string, policyVersion: nat, rules: seq<Rule>, schema: string, schemaVersion: nat)

  /** What a parsed request asks for. */
  datatype Ask = Ask(operation: string, resources: seq<string>)

  datatype Refusal = InvalidPolicy | InvalidClock | InvalidValidity | Denied

  // -------------------------------------------------------------- validation

  function StripPrefix(s: string, prefix: string): (r: Option<string>)
    ensures r.Some? <==> prefix <= s
    ensures r.Some? ==> s == prefix + r.value
  {
    if prefix <= s then Some(s[|prefix|..]) else None
  }

  function StripSuffix(s: string, suffix: string): (r: Option<string>)
    ensures r.Some? ==> s == r.value + suffix
  {
    if |suffix| <= |s| && s[|s| - |suffix|..] == suffix then Some(s[..|s| - |suffix|]) else None
  }

  predicate SafeLabel(s: string, max: nat) {
    s != "" && |s| <= max && forall c | c in s :: IsAlphanumeric(c) || c in "._:-"
  }

  predicate NamedWorkOperation(op: string, version: nat) {
    if op in {"progress.set", "restore", "proposal.reject", "session.attach", "session.state"} then version == 2
    else
      && !(version == 2 && op == "status")
      && op in {"create", "patch", "status", "archive", "accept", "convert", "parent.set", "dependency.add",
                "dependency.remove", "blocker.add", "blocker.remove", "workflow.assign", "workflow.review",
                "workflow.transition"}
  }

  predicate NamedOperation(s: string) {
    var arena := StripPrefix(s, "devgraph.arena.");
    var work := StripPrefix(s, "devgraph.work.");
    if arena.Some? && StripSuffix(arena.value, ".v1").Some? then
      StripSuffix(arena.value, ".v1").value in {"create", "patch", "archive", "member.set"}
    else if work.None? then false
    else if StripSuffix(work.value, ".v1").Some? then NamedWorkOperation(StripSuffix(work.value, ".v1").value, 1)
    else StripSuffix(work.value, ".v2").Some? && NamedWorkOperation(StripSuffix(work.value, ".v2").value, 2)
  }

  /** A resource is a kind and, after the first slash, an identifier, or what one begins with. */
  predicate ResourceOk(r: Rule) {
    var parts := SplitOnce(r.resource, '/');
    && parts.Some?
    && (|| WorkValues.Kind(parts.value.0)
        || parts.value.0 in {"Todo", "Decision", "Arena", "ReviewPacket", "Handoff", "ExternalLink",
                             "SessionRef", "SessionLink"})
    && (if r.resourceMatch == "exact" then WorkValues.Identifier(parts.value.1)
        else
          && r.resourceMatch == "prefix" && |parts.value.1| <= 256
          && forall c | c in parts.value.1 :: IsLower(c) || IsDigit(c) || c == '-')
  }

  predicate RuleOk(r: Rule, schemaVersion: nat) {
    var actor := StripPrefix(r.actorId, "pubkey:sha256:");
    && actor.Some? && IsDigest(actor.value)
    && NamedOperation(r.operation)
    && ResourceOk(r)
    && r.effect in {"allow", "deny"}
    && r.status in {"active", "revoked"}
    && (schemaVersion == 1 ==> r.validity.notAfter.Some?)
  }

  predicate ValidPolicy(p: Policy) {
    && (p.schema, p.schemaVersion) in {("secs-devgraph-work-policy.v1", 1), ("secs-devgraph-work-policy.v2", 2)}
    && 0 < p.policyVersion <= MAX_SAFE
    && SafeLabel(p.policyId, 128)
    && p.audience == "devgraph://receiver-local"
    && 0 < |p.rules| <= 1000
    && forall r | r in p.rules :: RuleOk(r, p.schemaVersion)
  }

  // ----------------------------------------------------------- the reference

  predicate Matches(r: Rule, actor: string, operation: string, resource: string) {
    && r.status == "active" && r.actorId == actor && r.operation == operation
    && if r.resourceMatch == "exact" then resource == r.resource else r.resource <= resource
  }

  predicate Allows(r: Rule, actor: string, operation: string, resource: string) {
    Matches(r, actor, operation, resource) && r.effect != "deny"
  }

  predicate Denies(r: Rule, actor: string, operation: string, resource: string) {
    Matches(r, actor, operation, resource) && r.effect == "deny"
  }

  /** One allow held now lasts until `t`, and no deny still to run out begins before `t`. */
  ghost predicate Spans(rules: seq<Rule>, actor: string, operation: string, resource: string, now: nat, t: nat) {
    && (exists r :: r in rules && Allows(r, actor, operation, resource)
                    && r.validity.Contains(now) && r.validity.Reaches(t))
    && (forall r | r in rules && Denies(r, actor, operation, resource) && r.validity.Live(now) ::
          t <= r.validity.notBefore)
  }

  ghost predicate AllSpan(rules: seq<Rule>, actor: string, ask: Ask, now: nat, t: nat) {
    forall x | x in ask.resources :: Spans(rules, actor, ask.operation, x, now, t)
  }

  /** The latest end within the lifetime that every resource spans. */
  ghost predicate IsDeadline(rules: seq<Rule>, actor: string, ask: Ask, now: nat, lifetime: nat, e: nat) {
    && now < e <= now + lifetime
    && AllSpan(rules, actor, ask, now, e)
    && forall t | e < t <= now + lifetime :: !AllSpan(rules, actor, ask, now, t)
  }

  /** What an evaluation must return for a lifetime in range. */
  ghost function Authorize(p: Policy, actor: string, ask: Ask, now: nat, lifetime: nat): (r: Result<nat, Refusal>)
    ensures r.Ok? ==> IsDeadline(p.rules, actor, ask, now, lifetime, r.value) && r.value <= MAX_SAFE
    ensures r.Ok? ==> ValidPolicy(p)
  {
    if !ValidPolicy(p) then Err(InvalidPolicy)
    else if now + lifetime > MAX_SAFE then Err(InvalidClock)
    else if exists e :: IsDeadline(p.rules, actor, ask, now, lifetime, e) then
      var e :| IsDeadline(p.rules, actor, ask, now, lifetime, e);
      Ok(e)
    else Err(Denied)
  }

  lemma DeadlineUnique(rules: seq<Rule>, actor: string, ask: Ask, now: nat, lifetime: nat, d: nat, e: nat)
    requires IsDeadline(rules, actor, ask, now, lifetime, d) && IsDeadline(rules, actor, ask, now, lifetime, e)
    ensures d == e
  {
  }

  // ---------------------------------------------------------- the evaluation

  /** The first of the denies still to run out, or `cap` if none begins earlier. */
  ghost predicate DeniedFrom(rules: seq<Rule>, actor: string, operation: string, x: string, now: nat, cap: nat, e: nat) {
    && e <= cap
    && (forall r | r in rules && Denies(r, actor, operation, x) && r.validity.Live(now) :: e <= r.validity.notBefore)
    && (e < cap ==> exists r :: r in rules && Denies(r, actor, operation, x) && r.validity.Live(now)
                                && r.validity.notBefore == e)
  }

  /** The rule loop for one resource. */
  method Scan(rules: seq<Rule>, actor: string, operation: string, x: string, now: nat, lifetime: nat, cap: nat)
    returns (r: Result<(nat, Option<nat>), Refusal>)
    requires now <= cap && now + lifetime <= MAX_SAFE
    ensures r.Ok? ==> DeniedFrom(rules, actor, operation, x, now, cap, r.value.0)
                      && (r.value.0 == cap || now < r.value.0)
                      && AllowedUpTo(rules, actor, operation, x, now, lifetime, r.value.1)
    ensures r.Err? && 1 <= lifetime <= 3600 ==>
              r.error == Denied && forall t | now < t :: !Spans(rules, actor, operation, x, now, t)
  {
    var expires, allowed: Option<nat> := cap, None;
    for k := 0 to |rules|
      invariant expires == cap || now < expires
      invariant DeniedFrom(rules[..k], actor, operation, x, now, cap, expires)
      invariant AllowedUpTo(rules[..k], actor, operation, x, now, lifetime, allowed)
    {
      var rule := rules[k];
      assert rules[..k + 1] == rules[..k] + [rule];
      if Matches(rule, actor, operation, x) && rule.validity.Live(now) {
        if rule.effect == "deny" {
          if rule.validity.notBefore <= now {
            assert rule in rules;
            return Err(Denied);
          }
          expires := if rule.validity.notBefore < expires then rule.validity.notBefore else expires;
        } else if rule.validity.Contains(now) {
          var deadline := CredentialDeadline(rule.validity, now, lifetime);
          if deadline.None? { return Err(InvalidValidity); }
          AllowStep(rules[..k], rule, actor, operation, x, now, lifetime, allowed);
          allowed := Some(Further(allowed, deadline.value));
        }
      }
    }
    assert rules[..|rules|] == rules;
    return Ok((expires, allowed));
  }

  /** Some resource met so far does not span up to `t`. */
  ghost predicate Blocked(rules: seq<Rule>, actor: string, ask: Ask, now: nat, i: nat, t: nat)
    requires i <= |ask.resources|
  {
    exists j :: 0 <= j < i && !Spans(rules, actor, ask.operation, ask.resources[j], now, t)
  }

  /** The evaluation loop computes the latest spanned end, or refuses when there is none. */
  method AuthorizeUntil(p: Policy, actor: string, ask: Ask, now: nat, lifetime: nat) returns (r: Result<nat, Refusal>)
    ensures 1 <= lifetime <= 3600 ==> r == Authorize(p, actor, ask, now, lifetime)
    ensures !(1 <= lifetime <= 3600) && ask.resources != [] ==> r.Err?
  {
    if !ValidPolicy(p) { return Err(InvalidPolicy); }
    if now + lifetime > MAX_SAFE { return Err(InvalidClock); }
    var expires := now + lifetime;
    for i := 0 to |ask.resources|
      invariant now <= expires <= now + lifetime && (lifetime > 0 ==> now < expires)
      invariant forall j | 0 <= j < i :: Spans(p.rules, actor, ask.operation, ask.resources[j], now, expires)
      invariant forall t | expires < t <= now + lifetime :: Blocked(p.rules, actor, ask, now, i, t)
      invariant i > 0 ==> 1 <= lifetime <= 3600
    {
      var x := ask.resources[i];
      var scanned := Scan(p.rules, actor, ask.operation, x, now, lifetime, expires);
      if scanned.Err? {
        if 1 <= lifetime <= 3600 {
          NoDeadline(p.rules, actor, ask, now, lifetime, i);
        }
        return Err(scanned.error);
      }
      if scanned.value.1.None? {
        NotAllowed(p.rules, actor, ask, now, lifetime, i);
        return Err(Denied);
      }
      ResourceDone(p.rules, actor, ask, now, lifetime, i, i + 1, expires, scanned.value.0, scanned.value.1.value);
      expires := Min(scanned.value.0, scanned.value.1.value);
    }
    if 1 <= lifetime <= 3600 {
      Evaluated(p, actor, ask, now, lifetime, expires);
    }
    return Ok(expires);
  }

  function Further(allowed: Option<nat>, deadline: nat): nat {
    if allowed.Some? && allowed.value > deadline then allowed.value else deadline
  }

  lemma AllowStep(rules: seq<Rule>, rule: Rule, actor: string, operation: string, x: string, now: nat, lifetime: nat,
                  allowed: Option<nat>)
    requires AllowedUpTo(rules, actor, operation, x, now, lifetime, allowed)
    requires Allows(rule, actor, operation, x) && CredentialDeadline(rule.validity, now, lifetime).Some?
    ensures var d := Further(allowed, CredentialDeadline(rule.validity, now, lifetime).value);
            AllowedUpTo(rules + [rule], actor, operation, x, now, lifetime, Some(d))
  {
    var d := CredentialDeadline(rule.validity, now, lifetime).value;
    if allowed.Some? && allowed.value > d {
      var r :| r in rules && Allows(r, actor, operation, x) && r.validity.Contains(now)
               && r.validity.Reaches(allowed.value);
      assert r in rules + [rule];
    } else {
      assert rule in rules + [rule];
    }
  }

  function Min(a: nat, b: nat): nat { if a < b then a else b }

  lemma Evaluated(p: Policy, actor: string, ask: Ask, now: nat, lifetime: nat, e: nat)
    requires ValidPolicy(p) && now < e <= now + lifetime <= MAX_SAFE
    requires forall j | 0 <= j < |ask.resources| :: Spans(p.rules, actor, ask.operation, ask.resources[j], now, e)
    requires forall t | e < t <= now + lifetime :: Blocked(p.rules, actor, ask, now, |ask.resources|, t)
    ensures Authorize(p, actor, ask, now, lifetime) == Ok(e)
  {
    forall t | e < t <= now + lifetime
      ensures !AllSpan(p.rules, actor, ask, now, t)
    {
      assert Blocked(p.rules, actor, ask, now, |ask.resources|, t);
    }
    assert IsDeadline(p.rules, actor, ask, now, lifetime, e);
    DeadlineUnique(p.rules, actor, ask, now, lifetime, e, Authorize(p, actor, ask, now, lifetime).value);
  }

  /** The furthest deadline of the allows met so far. */
  ghost predicate AllowedUpTo(rules: seq<Rule>, actor: string, operation: string, x: string, now: nat, lifetime: nat,
                              allowed: Option<nat>) {
    if allowed.None? then forall r | r in rules && Allows(r, actor, operation, x) :: !r.validity.Contains(now)
    else
      && 1 <= lifetime <= 3600 && now < allowed.value <= now + lifetime
      && (exists r :: r in rules && Allows(r, actor, operation, x) && r.validity.Contains(now)
                      && r.validity.Reaches(allowed.value))
      && (forall r, t | r in rules && Allows(r, actor, operation, x) && r.validity.Contains(now)
                        && allowed.value < t <= now + lifetime :: !r.validity.Reaches(t))
  }

  lemma NoDeadline(rules: seq<Rule>, actor: string, ask: Ask, now: nat, lifetime: nat, i: nat)
    requires i < |ask.resources|
    requires forall t | now < t <= now + lifetime :: !Spans(rules, actor, ask.operation, ask.resources[i], now, t)
    ensures forall e :: !IsDeadline(rules, actor, ask, now, lifetime, e)
  {
    assert ask.resources[i] in ask.resources;
  }

  lemma NotAllowed(rules: seq<Rule>, actor: string, ask: Ask, now: nat, lifetime: nat, i: nat)
    requires i < |ask.resources|
    requires AllowedUpTo(rules, actor, ask.operation, ask.resources[i], now, lifetime, None)
    ensures forall e :: !IsDeadline(rules, actor, ask, now, lifetime, e)
  {
    NoDeadline(rules, actor, ask, now, lifetime, i);
  }

  lemma SpansEarlier(rules: seq<Rule>, actor: string, operation: string, x: string, now: nat, t: nat, s: nat)
    requires Spans(rules, actor, operation, x, now, t) && s <= t
    ensures Spans(rules, actor, operation, x, now, s)
  {
    var r :| r in rules && Allows(r, actor, operation, x) && r.validity.Contains(now) && r.validity.Reaches(t);
    assert r.validity.Reaches(s);
  }

  lemma SpansNoFurther(rules: seq<Rule>, actor: string, operation: string, x: string, now: nat, lifetime: nat,
                       cap: nat, denied: nat, allowed: nat, t: nat)
    requires DeniedFrom(rules, actor, operation, x, now, cap, denied)
    requires AllowedUpTo(rules, actor, operation, x, now, lifetime, Some(allowed))
    requires Min(denied, allowed) < t <= cap <= now + lifetime
    ensures !Spans(rules, actor, operation, x, now, t)
  {
  }

  /** After its rules, a resource spans up to the smaller of its denies and its furthest allow, and no further. */
  lemma ResourceDone(rules: seq<Rule>, actor: string, ask: Ask, now: nat, lifetime: nat, i: nat, next: nat,
                     cap: nat, denied: nat, allowed: nat)
    requires i < |ask.resources| && next == i + 1 && now <= cap <= now + lifetime
    requires forall j | 0 <= j < i :: Spans(rules, actor, ask.operation, ask.resources[j], now, cap)
    requires forall t | cap < t <= now + lifetime :: Blocked(rules, actor, ask, now, i, t)
    requires DeniedFrom(rules, actor, ask.operation, ask.resources[i], now, cap, denied)
    requires AllowedUpTo(rules, actor, ask.operation, ask.resources[i], now, lifetime, Some(allowed))
    ensures forall j | 0 <= j < next ::
              Spans(rules, actor, ask.operation, ask.resources[j], now, Min(denied, allowed))
    ensures forall t | Min(denied, allowed) < t <= now + lifetime :: Blocked(rules, actor, ask, now, next, t)
  {
    var e := Min(denied, allowed);
    var x := ask.resources[i];
    forall j | 0 <= j < i
      ensures Spans(rules, actor, ask.operation, ask.resources[j], now, e)
    {
      SpansEarlier(rules, actor, ask.operation, ask.resources[j], now, cap, e);
    }
    var r :| r in rules && Allows(r, actor, ask.operation, x) && r.validity.Contains(now) && r.validity.Reaches(allowed);
    assert r.validity.Reaches(e);
    assert Spans(rules, actor, ask.operation, x, now, e);
    forall t | e < t <= now + lifetime
      ensures Blocked(rules, actor, ask, now, next, t)
    {
      if t > cap {
        assert Blocked(rules, actor, ask, now, i, t);
      } else {
        SpansNoFurther(rules, actor, ask.operation, x, now, lifetime, cap, denied, allowed, t);
      }
    }
  }
}
