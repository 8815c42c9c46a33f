/** What a deadline is worth: throughout its span, later within it, and whatever the rule order. */
module WorkPolicyFacts {
  import opened Wrappers
  import opened Limits
  import opened Text
  import opened GrantValidity
  import opened WorkPolicy

  /** At every instant before the deadline each resource is allowed and not denied. */
  lemma AuthorizedThroughout(p: Policy, actor: string, ask: Ask, now: nat, lifetime: nat, t: nat, x: string)
    requires Authorize(p, actor, ask, now, lifetime).Ok?
    requires now <= t < Authorize(p, actor, ask, now, lifetime).value && x in ask.resources
    ensures exists r :: r in p.rules && Allows(r, actor, ask.operation, x) && r.validity.Contains(t)
    ensures forall r | r in p.rules && Denies(r, actor, ask.operation, x) :: !r.validity.Contains(t)
  {
    var e := Authorize(p, actor, ask, now, lifetime).value;
    assert Spans(p.rules, actor, ask.operation, x, now, e);
    var r :| r in p.rules && Allows(r, actor, ask.operation, x) && r.validity.Contains(now) && r.validity.Reaches(e);
    assert r.validity.Contains(t);
  }

  /** If some end is spanned, there is a latest one. */
  lemma {:induction false} DeadlineExists(rules: seq<Rule>, actor: string, ask: Ask, now: nat, lifetime: nat, low: nat, high: nat)
    requires now < low <= high <= now + lifetime && AllSpan(rules, actor, ask, now, low)
    requires forall t | high < t <= now + lifetime :: !AllSpan(rules, actor, ask, now, t)
    ensures exists e :: low <= e && IsDeadline(rules, actor, ask, now, lifetime, e)
    decreases high
  {
    if AllSpan(rules, actor, ask, now, high) {
      assert IsDeadline(rules, actor, ask, now, lifetime, high);
    } else {
      DeadlineExists(rules, actor, ask, now, lifetime, low, high - 1);
    }
  }

  /** A spanned end bounds the deadline from below. */
  lemma AtLeast(p: Policy, actor: string, ask: Ask, now: nat, lifetime: nat, low: nat)
    requires ValidPolicy(p) && now < low <= now + lifetime <= MAX_SAFE && AllSpan(p.rules, actor, ask, now, low)
    ensures Authorize(p, actor, ask, now, lifetime).Ok?
    ensures low <= Authorize(p, actor, ask, now, lifetime).value
  {
    DeadlineExists(p.rules, actor, ask, now, lifetime, low, now + lifetime);
    var e :| low <= e && IsDeadline(p.rules, actor, ask, now, lifetime, e);
    DeadlineUnique(p.rules, actor, ask, now, lifetime, e, Authorize(p, actor, ask, now, lifetime).value);
  }

  lemma SpansLater(rules: seq<Rule>, actor: string, operation: string, x: string, now: nat, later: nat, t: nat)
    requires Spans(rules, actor, operation, x, now, t) && now <= later < t && t <= MAX_SAFE
    ensures Spans(rules, actor, operation, x, later, t)
  {
    var r :| r in rules && Allows(r, actor, operation, x) && r.validity.Contains(now) && r.validity.Reaches(t);
    assert r.validity.Contains(later);
  }

  /**
   Permission persists: any later evaluation before the deadline succeeds exactly when the clock check
   does, and its own deadline is no earlier, up to its own lifetime.
   */
  lemma PermissionPersists(p: Policy, actor: string, ask: Ask, now: nat, lifetime: nat, later: nat, again: nat)
    requires Authorize(p, actor, ask, now, lifetime).Ok? && again >= 1
    requires now <= later < Authorize(p, actor, ask, now, lifetime).value
    ensures Authorize(p, actor, ask, later, again).Ok? <==> later + again <= MAX_SAFE
    ensures later + again <= MAX_SAFE ==>
              Min(Authorize(p, actor, ask, now, lifetime).value, later + again)
              <= Authorize(p, actor, ask, later, again).value
  {
    if later + again <= MAX_SAFE {
      var e := Authorize(p, actor, ask, now, lifetime).value;
      var low := Min(e, later + again);
      forall x | x in ask.resources
        ensures Spans(p.rules, actor, ask.operation, x, later, low)
      {
        SpansLater(p.rules, actor, ask.operation, x, now, later, e);
        SpansEarlier(p.rules, actor, ask.operation, x, later, e, low);
      }
      AtLeast(p, actor, ask, later, again, low);
    }
  }

  /** With the same lifetime the deadline never moves back. */
  lemma DeadlineNeverMovesBack(p: Policy, actor: string, ask: Ask, now: nat, lifetime: nat, later: nat)
    requires Authorize(p, actor, ask, now, lifetime).Ok? && later + lifetime <= MAX_SAFE
    requires now <= later < Authorize(p, actor, ask, now, lifetime).value
    ensures Authorize(p, actor, ask, later, lifetime).Ok?
    ensures Authorize(p, actor, ask, now, lifetime).value <= Authorize(p, actor, ask, later, lifetime).value
  {
    PermissionPersists(p, actor, ask, now, lifetime, later, lifetime);
  }

  lemma SameValidity(p: Policy, q: Policy)
    requires p.(rules := q.rules) == q && |p.rules| == |q.rules| && forall r :: r in p.rules <==> r in q.rules
    ensures ValidPolicy(p) <==> ValidPolicy(q)
  {
  }

  lemma SameSpans(p: seq<Rule>, q: seq<Rule>, actor: string, ask: Ask, now: nat, lifetime: nat, e: nat)
    requires forall r :: r in p <==> r in q
    requires IsDeadline(p, actor, ask, now, lifetime, e)
    ensures IsDeadline(q, actor, ask, now, lifetime, e)
  {
    forall x, t
      ensures Spans(p, actor, ask.operation, x, now, t) <==> Spans(q, actor, ask.operation, x, now, t)
    {
    }
    forall t
      ensures AllSpan(p, actor, ask, now, t) <==> AllSpan(q, actor, ask, now, t)
    {
    }
  }

  /** The answer does not depend on the order of the rules. */
  lemma OrderDoesNotMatter(p: Policy, q: Policy, actor: string, ask: Ask, now: nat, lifetime: nat)
    requires p.(rules := q.rules) == q && multiset(p.rules) == multiset(q.rules)
    ensures Authorize(p, actor, ask, now, lifetime) == Authorize(q, actor, ask, now, lifetime)
  {
    assert |p.rules| == |multiset(p.rules)| == |q.rules|;
    forall r
      ensures r in p.rules <==> r in q.rules
    {
      assert r in p.rules <==> r in multiset(p.rules);
    }
    SameValidity(p, q);
    forall e
      ensures IsDeadline(p.rules, actor, ask, now, lifetime, e) <==> IsDeadline(q.rules, actor, ask, now, lifetime, e)
    {
      if IsDeadline(p.rules, actor, ask, now, lifetime, e) {
        SameSpans(p.rules, q.rules, actor, ask, now, lifetime, e);
      } else if IsDeadline(q.rules, actor, ask, now, lifetime, e) {
        SameSpans(q.rules, p.rules, actor, ask, now, lifetime, e);
      }
    }
    SameAnswer(p, q, actor, ask, now, lifetime);
  }

  lemma SameAnswer(p: Policy, q: Policy, actor: string, ask: Ask, now: nat, lifetime: nat)
    requires ValidPolicy(p) <==> ValidPolicy(q)
    requires forall e :: IsDeadline(p.rules, actor, ask, now, lifetime, e) <==> IsDeadline(q.rules, actor, ask, now, lifetime, e)
    ensures Authorize(p, actor, ask, now, lifetime) == Authorize(q, actor, ask, now, lifetime)
  {
    var a, b := Authorize(p, actor, ask, now, lifetime), Authorize(q, actor, ask, now, lifetime);
    if a.Ok? && b.Ok? {
      DeadlineUnique(p.rules, actor, ask, now, lifetime, a.value, b.value);
    }
  }

  // ------------------------------------------------------------------ retries

  /**
   A presentation bounds a projection to 60 seconds from its issue. An exact retry before the first expiry recomputes
   that expiry exactly when the presentation ends first, or some resource is not spanned past the first deadline even
   as things stand at the retry.
   */
  lemma RetryRecomputesExpiry(p: Policy, actor: string, ask: Ask, issued: nat, expires: nat, now: nat, later: nat)
    requires issued <= now && expires <= issued + 60 && later + 60 <= MAX_SAFE
    requires Authorize(p, actor, ask, now, 60).Ok?
    requires now <= later < Min(Authorize(p, actor, ask, now, 60).value, expires)
    ensures Authorize(p, actor, ask, later, 60).Ok?
    ensures var e := Authorize(p, actor, ask, now, 60).value;
      Min(Authorize(p, actor, ask, later, 60).value, expires) == Min(e, expires)
      <==> expires <= e || exists x | x in ask.resources :: !Spans(p.rules, actor, ask.operation, x, later, e + 1)
  {
    DeadlineNeverMovesBack(p, actor, ask, now, 60, later);
    var e, f := Authorize(p, actor, ask, now, 60).value, Authorize(p, actor, ask, later, 60).value;
    if e < f {
      forall x | x in ask.resources ensures Spans(p.rules, actor, ask.operation, x, later, e + 1) {
        SpansEarlier(p.rules, actor, ask.operation, x, later, f, e + 1);
      }
    } else if e < expires {
      assert !AllSpan(p.rules, actor, ask, later, e + 1);
    }
  }

  /** No allow for this resource starts after `now` and by `later`. */
  predicate NoAllowStarts(rules: seq<Rule>, actor: string, operation: string, x: string, now: nat, later: nat) {
    forall r | r in rules && Allows(r, actor, operation, x) :: !(now < r.validity.notBefore <= later)
  }

  lemma SpansBefore(rules: seq<Rule>, actor: string, operation: string, x: string, now: nat, e: nat, later: nat, t: nat)
    requires Spans(rules, actor, operation, x, now, e) && now <= later < e
    requires Spans(rules, actor, operation, x, later, t) && NoAllowStarts(rules, actor, operation, x, now, later)
    ensures Spans(rules, actor, operation, x, now, t)
  {
    var r :| r in rules && Allows(r, actor, operation, x) && r.validity.Contains(later) && r.validity.Reaches(t);
    assert r.validity.Contains(now);
  }

  /** So only an allow that starts in between can move the expiry. */
  lemma OnlyNewAllowsMoveExpiry(p: Policy, actor: string, ask: Ask, issued: nat, expires: nat, now: nat, later: nat)
    requires issued <= now && expires <= issued + 60 && later + 60 <= MAX_SAFE
    requires Authorize(p, actor, ask, now, 60).Ok?
    requires now <= later < Min(Authorize(p, actor, ask, now, 60).value, expires)
    requires forall x | x in ask.resources :: NoAllowStarts(p.rules, actor, ask.operation, x, now, later)
    ensures Authorize(p, actor, ask, later, 60).Ok?
    ensures Min(Authorize(p, actor, ask, later, 60).value, expires) == Min(Authorize(p, actor, ask, now, 60).value, expires)
  {
    RetryRecomputesExpiry(p, actor, ask, issued, expires, now, later);
    var e := Authorize(p, actor, ask, now, 60).value;
    if e < expires && AllSpan(p.rules, actor, ask, later, e + 1) {
      forall x | x in ask.resources ensures Spans(p.rules, actor, ask.operation, x, now, e + 1) {
        SpansBefore(p.rules, actor, ask.operation, x, now, e, later, e + 1);
      }
      assert AllSpan(p.rules, actor, ask, now, e + 1);
    }
  }

  // ---------------------------------------------------- a retry that moves it

  /** Two allows for one thing: the first until 10, the second from 5 until 20. */
  function TwoAllows(rule: Rule): Policy {
    var rules := [rule.(validity := Bounds(0, Some(10))), rule.(validity := Bounds(5, Some(20)))];
    Policy("devgraph://receiver-local", "p", 1, rules, "secs-devgraph-work-policy.v1", 1)
  }

  lemma TwoAllowsDeadlines(rule: Rule, actor: string, ask: Ask, x: string)
    requires Allows(rule, actor, ask.operation, x) && ask.resources == [x]
    ensures IsDeadline(TwoAllows(rule).rules, actor, ask, 0, 60, 10)
    ensures IsDeadline(TwoAllows(rule).rules, actor, ask, 6, 60, 20)
  {
    var rules := TwoAllows(rule).rules;
    var one, two := rules[0], rules[1];
    assert one in rules && two in rules;
    assert Allows(one, actor, ask.operation, x) && Allows(two, actor, ask.operation, x);
    assert one.validity.Contains(0) && one.validity.Reaches(10);
    assert two.validity.Contains(6) && two.validity.Reaches(20);
    assert x in ask.resources;
  }

  lemma TwoAllowsValid(rule: Rule)
    requires RuleOk(rule, 1)
    ensures ValidPolicy(TwoAllows(rule))
  {
    forall r | r in TwoAllows(rule).rules ensures RuleOk(r, 1) {
      assert r.(validity := rule.validity) == rule;
    }
  }

  lemma DeadlineAuthorizes(p: Policy, actor: string, ask: Ask, now: nat, lifetime: nat, e: nat)
    requires ValidPolicy(p) && now + lifetime <= MAX_SAFE && IsDeadline(p.rules, actor, ask, now, lifetime, e)
    ensures Authorize(p, actor, ask, now, lifetime) == Ok(e)
  {
    DeadlineUnique(p.rules, actor, ask, now, lifetime, e, Authorize(p, actor, ask, now, lifetime).value);
  }

  /** A retry at 6 of a presentation that lasts until 60 moves the expiry from 10 to 20, whatever the rule is for. */
  lemma RetryCanMoveExpiry(rule: Rule, actor: string, ask: Ask, x: string)
    requires RuleOk(rule, 1) && Allows(rule, actor, ask.operation, x) && ask.resources == [x]
    ensures ValidPolicy(TwoAllows(rule))
    ensures Authorize(TwoAllows(rule), actor, ask, 0, 60) == Ok(10)
    ensures Authorize(TwoAllows(rule), actor, ask, 6, 60) == Ok(20)
  {
    TwoAllowsValid(rule);
    TwoAllowsDeadlines(rule, actor, ask, x);
    DeadlineAuthorizes(TwoAllows(rule), actor, ask, 0, 60, 10);
    DeadlineAuthorizes(TwoAllows(rule), actor, ask, 6, 60, 20);
  }

  /** An allow for one exact resource, written as its parts. */
  function ExactAllow(digest: string, name: string, kind: string, id: string): Rule {
    Rule("pubkey:sha256:" + digest, "allow", Bounds(0, Some(10)), "devgraph.work." + (name + ".v1"), kind + ['/'] + id,
         "exact", "active")
  }

  lemma {:induction false} SplitsAt(a: string, c: char, b: string)
    requires c !in a
    ensures SplitOnce(a + [c] + b, c) == Some((a, b))
  {
    var s := a + [c] + b;
    if a == [] {
      assert s[1..] == b;
    } else {
      SplitsAt(a[1..], c, b);
      assert s[1..] == a[1..] + [c] + b && [a[0]] + a[1..] == a;
    }
  }

  lemma Stripped(prefix: string, s: string)
    ensures StripPrefix(prefix + s, prefix) == Some(s)
    ensures StripSuffix(prefix + s, s) == Some(prefix)
  {
  }

  lemma WorkIsNotArena(s: string)
    ensures StripPrefix("devgraph.work." + s, "devgraph.arena.").None?
  {
    assert ("devgraph.work." + s)[9] == 'w' && "devgraph.arena."[9] == 'a';
  }

  lemma IsNamed(name: string)
    requires NamedWorkOperation(name, 1)
    ensures NamedOperation("devgraph.work." + (name + ".v1"))
  {
    WorkIsNotArena(name + ".v1");
    Stripped("devgraph.work.", name + ".v1");
    Stripped(name, ".v1");
  }

  /** Such rules exist for every actor, every named operation of the first version and every identifier. */
  lemma ExactAllowIsARule(digest: string, name: string, kind: string, id: string)
    requires IsDigest(digest) && NamedWorkOperation(name, 1) && WorkValues.Kind(kind) && WorkValues.Identifier(id)
    ensures var r := ExactAllow(digest, name, kind, id); RuleOk(r, 1) && Allows(r, r.actorId, r.operation, r.resource)
  {
    Stripped("pubkey:sha256:", digest);
    IsNamed(name);
    SplitsAt(kind, '/', id);
  }
}
