/** What the cache may answer, how often the source is called, and what no run of lookups can undo. */
module LiveSourceFacts {
  import opened Text
  import opened Wrappers
  import opened LiveSource

  // --------------------------------------------------------------- transparency

  /** A hit is what mapping the cached response for the current request gives, and it always is an authority. */
  lemma HitIsTransparent(slot: Slot, q: Request, c: Context)
    requires FreshEntry(slot, q, c.now, c.policy, c.key).Ok? && FreshEntry(slot, q, c.now, c.policy, c.key).value.Some?
    ensures slot.Present?
    ensures FromCache(slot, q, c) == Some(Mapped(q, slot.entry.response, c.holder)) && Mapped(q, slot.entry.response, c.holder).Ok?
    ensures Semantics(q, slot.entry.response, Some(c.policy.staleMax)).Ok?
    ensures slot.entry.response.observed <= q.time && slot.entry.response.from <= q.time <= slot.entry.response.until
    ensures Fresh(slot.entry, c.now, c.policy.ttl)
  {
    var e := slot.entry;
    assert KeyOf(e.request).entity == KeyOf(q).entity && KeyOf(e.request).resource == KeyOf(q).resource;
    assert KeyOf(e.request).version == KeyOf(q).version && KeyOf(e.request).audience == KeyOf(q).audience;
    assert KeyOf(e.request).operation == KeyOf(q).operation;
    assert KeyOf(e.request).issuer == KeyOf(q).issuer && KeyOf(e.request).root == KeyOf(q).root;
  }

  // ------------------------------------------------------------------ transport

  lemma {:induction false} AnswerCalls(script: Script, q: Request, call: nat, left: nat)
    ensures var (answer, calls) := Answer(script, q, call, left);
      call < calls <= call + left + 1 && answer == script(calls - 1, q)
      && (forall i | call <= i < calls - 1 :: script(i, q) == Err(Timeout))
      && (answer == Err(Timeout) ==> calls == call + left + 1)
    decreases left
  {
    if script(call, q) == Err(Timeout) && left > 0 {
      AnswerCalls(script, q, call + 1, left - 1);
    }
  }

  /**
   An authority comes from a fresh entry with no call at all, or from the last of at most one more call than the
   retries allowed; every earlier call timed out, and the last answer was validated and is what was mapped.
   */
  lemma WhereAuthorityComesFrom(slot: Slot, script: Script, call: nat, q: Request, c: Context)
    ensures var o := LookedUp(slot, script, call, q, c);
      if FromCache(slot, q, c).Some? then o.calls == call && o.slot == slot && Some(o.result) == FromCache(slot, q, c)
      else
        && call < o.calls <= call + c.policy.retryMax + 1
        && (forall i | call <= i < o.calls - 1 :: script(i, q) == Err(Timeout))
        && (o.result.Ok? <==>
              && script(o.calls - 1, q).Ok?
              && Validate(q, script(o.calls - 1, q).value, Some(c.policy.staleMax), c.key).Ok?)
        && (o.result.Ok? ==> o.result == Mapped(q, script(o.calls - 1, q).value, c.holder))
  {
    AnswerCalls(script, q, call, c.policy.retryMax);
  }

  /** An authority for what was asked, active, observed recently and valid at the request's own time. */
  predicate Fits(q: Request, c: Context, a: Authority) {
    && a.entity == q.entity && a.resource == q.resource && a.audience == q.audience && a.operation == q.operation
    && (q.issuer.Some? ==> a.issuer == q.issuer.value) && (q.root.Some? ==> a.root == q.root.value)
    && a.sourceId == c.key.sourceId && a.rootActive && a.issuerActive && a.holder == c.holder
    && a.observed <= q.time <= a.observed + c.policy.staleMax && a.from <= q.time <= a.until
  }

  lemma MappedFits(q: Request, r: Response, c: Context)
    requires q.version == VERSION && r.version == VERSION && r.sourceId == c.key.sourceId
    requires Semantics(q, r, Some(c.policy.staleMax)).Ok?
    ensures Mapped(q, r, c.holder).Ok? && Fits(q, c, Mapped(q, r, c.holder).value)
  {
  }

  /** Cached or fetched, every authority a lookup returns fits the request that asked for it. */
  lemma EveryAuthorityFits(slot: Slot, script: Script, call: nat, q: Request, c: Context)
    requires LookedUp(slot, script, call, q, c).result.Ok?
    ensures Fits(q, c, LookedUp(slot, script, call, q, c).result.value)
  {
    WhereAuthorityComesFrom(slot, script, call, q, c);
    if FromCache(slot, q, c).Some? {
      HitIsTransparent(slot, q, c);
      assert KeyOf(slot.entry.request).version == KeyOf(q).version;
      MappedFits(q, slot.entry.response, c);
    } else {
      MappedFits(q, script(LookedUp(slot, script, call, q, c).calls - 1, q).value, c);
    }
  }

  // ----------------------------------------------------------------------- runs

  datatype Step = Step(request: Request, context: Context)

  /** The cache and the call count after a run of lookups against one source. */
  function Run(slot: Slot, script: Script, call: nat, steps: seq<Step>): (Slot, nat)
    decreases |steps|
  {
    if steps == [] then (slot, call)
    else
      var o := LookedUp(slot, script, call, steps[0].request, steps[0].context);
      Run(o.slot, script, o.calls, steps[1..])
  }

  lemma NewerIsTransitive(a: Response, b: Response, c: Response)
    requires Newer(a, b) && Newer(b, c)
    ensures Newer(a, c)
  {
    if a.observed == b.observed == c.observed {
      LessTransitive(Codes(c.generation), Codes(b.generation), Codes(a.generation));
    }
  }

  lemma NewerIsStrict(a: Response)
    ensures !Newer(a, a)
  {
    LessTotal(Codes(a.generation), Codes(a.generation));
  }

  /** What one slot may turn into: the same, or a newer response under the same key. */
  predicate Advances(before: Slot, after: Slot) {
    match before
    case Absent => !after.Corrupt?
    case Corrupt => after.Corrupt?
    case Present(e) =>
      after == before || (after.Present? && KeyOf(after.entry.request) == KeyOf(e.request) && Newer(after.entry.response, e.response))
  }

  lemma LookupAdvances(slot: Slot, script: Script, call: nat, q: Request, c: Context)
    ensures Advances(slot, LookedUp(slot, script, call, q, c).slot)
  {
  }

  /** Over any run the cached key never changes and observation and generation only rise. */
  lemma {:induction false} NeverRollsBack(slot: Slot, script: Script, call: nat, steps: seq<Step>)
    ensures Advances(slot, Run(slot, script, call, steps).0)
    decreases |steps|
  {
    if steps != [] {
      var o := LookedUp(slot, script, call, steps[0].request, steps[0].context);
      LookupAdvances(slot, script, call, steps[0].request, steps[0].context);
      NeverRollsBack(o.slot, script, o.calls, steps[1..]);
      var end := Run(slot, script, call, steps).0;
      if slot.Present? && o.slot != slot && end != o.slot {
        NewerIsTransitive(end.entry.response, o.slot.entry.response, slot.entry.response);
      }
    }
  }

  /** A replaced entry never comes back. */
  lemma ReplacedForGood(slot: Slot, script: Script, call: nat, steps: seq<Step>, more: seq<Step>)
    requires slot.Present? && Run(slot, script, call, steps).0 != slot
    ensures var (s, n) := Run(slot, script, call, steps); Run(s, script, n, more).0 != slot
  {
    var (s, n) := Run(slot, script, call, steps);
    NeverRollsBack(slot, script, call, steps);
    NeverRollsBack(s, script, n, more);
    NewerIsStrict(slot.entry.response);
    if Run(s, script, n, more).0 == slot {
      NewerIsTransitive(slot.entry.response, s.entry.response, slot.entry.response);
    }
  }

  /** An unreadable cache answers every lookup with the same error, and never calls the source. */
  lemma {:induction false} CorruptBlocksForever(script: Script, call: nat, steps: seq<Step>, q: Request, c: Context)
    ensures Run(Corrupt, script, call, steps) == (Corrupt, call)
    ensures LookedUp(Corrupt, script, call, q, c) == Outcome(Err(Malformed), Corrupt, call)
    decreases |steps|
  {
    if steps != [] {
      CorruptBlocksForever(script, call, steps[1..], q, c);
    }
  }

  // --------------------------------------------------------------------- vetting

  /** What the cache holds was signed by the key and valid when it was asked for. */
  predicate Vetted(slot: Slot, key: TrustedKey) {
    slot.Absent? || (slot.Present? && Validate(slot.entry.request, slot.entry.response, None, key).Ok?)
  }

  lemma {:induction false} StaysVetted(slot: Slot, script: Script, call: nat, steps: seq<Step>, key: TrustedKey)
    requires Vetted(slot, key) && forall i | 0 <= i < |steps| :: steps[i].context.key == key
    ensures Vetted(Run(slot, script, call, steps).0, key)
    decreases |steps|
  {
    if steps != [] {
      var o := LookedUp(slot, script, call, steps[0].request, steps[0].context);
      assert steps[0].context.key == key;
      StaysVetted(o.slot, script, o.calls, steps[1..], key);
    }
  }

  // -------------------------------------------------------------------- blocking

  /** The entry is for this request, still fresh and good in itself, but was observed after the request's own time. */
  predicate Ahead(slot: Slot, q: Request, c: Context) {
    && slot.Present? && KeyOf(slot.entry.request) == KeyOf(q) && Fresh(slot.entry, c.now, c.policy.ttl)
    && slot.entry.request.time <= slot.entry.response.observed + c.policy.staleMax
    && q.time < slot.entry.response.observed
  }

  /** A vetted cache is never wrong, only too old or ahead of the request; which of the two is exact. */
  lemma VettedErrors(slot: Slot, q: Request, c: Context)
    requires Vetted(slot, c.key)
    ensures FreshEntry(slot, q, c.now, c.policy, c.key).Err? ==>
      FreshEntry(slot, q, c.now, c.policy, c.key).error in {StaleStatus, FutureStatus}
    ensures FreshEntry(slot, q, c.now, c.policy, c.key) == Err(FutureStatus) <==> Ahead(slot, q, c)
  {
  }

  /** The cache refuses a lookup without asking the source exactly when it is unreadable or ahead of the request. */
  lemma BlocksExactlyWhen(slot: Slot, script: Script, call: nat, q: Request, c: Context)
    requires slot.Corrupt? || Vetted(slot, c.key)
    ensures var o := LookedUp(slot, script, call, q, c);
      && (o.result.Err? && o.calls == call <==> slot.Corrupt? || Ahead(slot, q, c))
      && (slot.Corrupt? ==> o.result == Err(Malformed))
      && (Ahead(slot, q, c) ==> o.result == Err(FutureStatus) && o.slot == slot)
  {
    WhereAuthorityComesFrom(slot, script, call, q, c);
    if Vetted(slot, c.key) {
      VettedErrors(slot, q, c);
      if FromCache(slot, q, c).Some? && !Ahead(slot, q, c) {
        HitIsTransparent(slot, q, c);
      }
    }
  }

  const ASKED := Request(VERSION, "a", "e", "r", "o", 0, "s", None, None, 10, "n")

  function Answered(observed: nat): Response {
    Response(VERSION, "s", "k", Active, "e", "r", "i", Active, "t", "f", Active, Active, Active, observed, 0, 100, "g", true, "ok",
             seq(64, _ => 0))
  }

  const TRUSTING := Context(Policy(0, 60, 60), TrustedKey("s", "k", true, (_, _) => true), Holder("", "", ""), 10, true)

  lemma ShortIsRedacted(s: string)
    requires |s| < 6
    ensures Redacted(s)
  {
    assert |Lower(s)| == |s|;
  }

  lemma NotBlank(s: string)
    requires s != "" && !IsWhitespace(s[0])
    ensures !Blank(s)
  {
    assert s[0] in s;
  }

  lemma AnsweredIsFilled(observed: nat)
    ensures Filled(Answered(observed))
  {
    NotBlank("s");
    NotBlank("k");
    NotBlank("e");
    NotBlank("r");
    NotBlank("i");
    NotBlank("t");
    NotBlank("f");
    NotBlank("g");
    NotBlank("ok");
  }

  lemma AnsweredIsGood(time: nat, observed: nat, maxAge: Option<nat>)
    requires observed <= time <= 100 && (maxAge.Some? ==> time <= observed + maxAge.value)
    ensures Validate(ASKED.(time := time), Answered(observed), maxAge, TRUSTING.key).Ok?
  {
    AnsweredIsFilled(observed);
    ShortIsRedacted("ok");
  }

  /** A vetted, fresh entry observed at 10 refuses a request for time 5, which the source would have answered. */
  lemma AheadBlocks(script: Script, call: nat)
    requires forall n, q :: script(n, q) == Ok(Answered(5))
    ensures var slot, q := Present(Entry(ASKED, Answered(10), 10)), ASKED.(time := 5);
      && Vetted(slot, TRUSTING.key)
      && LookedUp(slot, script, call, q, TRUSTING) == Outcome(Err(FutureStatus), slot, call)
      && LookedUp(Absent, script, call, q, TRUSTING).result.Ok?
  {
    var slot, q := Present(Entry(ASKED, Answered(10), 10)), ASKED.(time := 5);
    AnsweredIsGood(10, 10, None);
    AnsweredIsGood(5, 5, Some(60));
    BlocksExactlyWhen(slot, script, call, q, TRUSTING);
    WhereAuthorityComesFrom(Absent, script, call, q, TRUSTING);
  }

  // --------------------------------------------------------------------- renewal

  /** A lookup replaces an entry exactly when it asks the source and may write down a good answer newer under its key. */
  lemma ReplacedExactlyWhen(slot: Slot, script: Script, call: nat, q: Request, c: Context)
    requires slot.Present?
    ensures var o, answer := LookedUp(slot, script, call, q, c), Called(script, q, call, c.policy, c.key).0;
      && (o.slot != slot <==>
            && FromCache(slot, q, c).None? && answer.Ok? && c.writable
            && KeyOf(slot.entry.request) == KeyOf(q) && Newer(answer.value, slot.entry.response))
      && (o.slot != slot ==> o.slot == Present(Entry(q, answer.value, c.now)))
  {
    NewerIsStrict(slot.entry.response);
    var answer := Called(script, q, call, c.policy, c.key).0;
    if answer.Ok? {
      AgeIsNoMore(q, answer.value, c.policy.staleMax, c.key);
    }
  }

  /** A good answer is mapped, and is good at any age. */
  lemma AgeIsNoMore(q: Request, r: Response, maxAge: nat, key: TrustedKey)
    requires Validate(q, r, Some(maxAge), key).Ok?
    ensures Validate(q, r, None, key).Ok? && forall h :: Mapped(q, r, h).Ok?
  {
  }

  predicate Past(slot: Slot, step: Step) {
    slot.Present? && step.context.now > slot.entry.cachedAt + step.context.policy.ttl
  }

  lemma PastAsks(slot: Slot, script: Script, call: nat, step: Step)
    requires Past(slot, step)
    ensures FromCache(slot, step.request, step.context).None?
    ensures LookedUp(slot, script, call, step.request, step.context).calls > call
  {
    WhereAuthorityComesFrom(slot, script, call, step.request, step.context);
  }

  /**
   Over any run past its time, and as long as the source has nothing newer, an entry stays where it is and is of no use:
   each lookup asks the source, even when the source confirms the very same response.
   */
  lemma {:induction false} ExpiredUntilSuperseded(slot: Slot, script: Script, call: nat, steps: seq<Step>)
    requires slot.Present? && forall i | 0 <= i < |steps| :: Past(slot, steps[i])
    requires forall n, q :: script(n, q).Ok? ==> !Newer(script(n, q).value, slot.entry.response)
    ensures Run(slot, script, call, steps).0 == slot
    ensures Run(slot, script, call, steps).1 >= call + |steps|
    decreases |steps|
  {
    if steps != [] {
      var q, c := steps[0].request, steps[0].context;
      assert Past(slot, steps[0]);
      PastAsks(slot, script, call, steps[0]);
      AnswerCalls(script, q, call, c.policy.retryMax);
      ReplacedExactlyWhen(slot, script, call, q, c);
      var o := LookedUp(slot, script, call, q, c);
      ExpiredUntilSuperseded(slot, script, o.calls, steps[1..]);
    }
  }
}
