/** Whole runs of the wallet ceremony, whatever arrives and whatever the clock reads. */
module WalletRuns {
  import opened Wrappers
  import opened HttpHeaders
  import opened WalletCeremony

  /** A request arriving, or the ceremony being ended from outside. */
  datatype Event = Arrives(request: HttpRequest, now: instant, secrets: Secrets) | Ends

  function Stepped(c: Ceremony, e: Event): Ceremony {
    if e.Ends? then c.(state := Finished) else Handled(c, e.request, e.now, e.secrets).0
  }

  function After(events: seq<Event>): Ceremony {
    if events == [] then START else Stepped(After(events[..|events| - 1]), events[|events| - 1])
  }

  /** The event at a position submits the approval. */
  predicate SubmittedAt(events: seq<Event>, i: nat)
    requires i < |events|
  {
    events[i].Arrives?
    && Handled(After(events[..i]), events[i].request, events[i].now, events[i].secrets).1.Submission?
  }

  lemma AfterNext(events: seq<Event>, i: nat)
    requires i < |events|
    ensures After(events[..i + 1]) == Stepped(After(events[..i]), events[i])
  {
    assert events[..i + 1][..i] == events[..i];
  }

  // ------------------------------------------------------------------- order

  function Rank(s: State): nat {
    match s
    case AwaitingOpen => 0
    case AwaitingWallet(_) => 1
    case Consuming => 2
    case Finished => 3
  }

  lemma StepsForward(c: Ceremony, e: Event)
    ensures Rank(c.state) <= Rank(Stepped(c, e).state)
    ensures Rank(c.state) == 1 == Rank(Stepped(c, e).state) ==> Stepped(c, e) == c
  {
  }

  /** Nothing moves the state back, and an open ceremony keeps its deadline and secrets while it is open. */
  lemma {:induction false} NeverBack(events: seq<Event>, i: nat, j: nat)
    requires i <= j <= |events|
    ensures Rank(After(events[..i]).state) <= Rank(After(events[..j]).state)
    ensures Rank(After(events[..i]).state) == 1 == Rank(After(events[..j]).state) ==> After(events[..i]) == After(events[..j])
    decreases j
  {
    if i < j {
      NeverBack(events, i, j - 1);
      AfterNext(events, j - 1);
      StepsForward(After(events[..j - 1]), events[j - 1]);
    }
  }

  /** At most one submission, ever. */
  lemma AtMostOneSubmission(events: seq<Event>, i: nat, j: nat)
    requires i < j < |events| && SubmittedAt(events, i)
    ensures !SubmittedAt(events, j)
  {
    AfterNext(events, i);
    NeverBack(events, i + 1, j);
  }

  // ----------------------------------------------------------------- opening

  /** The event that opened the page: a plain top-level navigation with a readable clock. */
  predicate Opens(events: seq<Event>, i: nat) {
    && i < |events| && events[i].Arrives?
    && RouteOf(events[i].request).Open? && TopLevelGet(events[i].request)
    && events[i].now != CLOCK_FAILED
    && After(events[..i]).state.AwaitingOpen?
  }

  /** An open ceremony was opened by an event, whose time and secrets it carries. */
  lemma {:induction false} OpenedBySomeone(events: seq<Event>) returns (i: nat)
    requires After(events).state.AwaitingWallet?
    ensures Opens(events, i) && After(events) == Ceremony(AwaitingWallet(events[i].now + WINDOW), Some(events[i].secrets))
  {
    var n := |events| - 1;
    var before := After(events[..n]);
    if before.state.AwaitingOpen? {
      i := n;
    } else {
      i := OpenedBySomeone(events[..n]);
      assert events[..n][..i] == events[..i];
    }
  }

  /**
   A submission comes after a valid opening, within its minute on a readable clock, in a well-formed post that
   carries the token drawn then.
   */
  lemma SubmissionNeedsOpening(events: seq<Event>, j: nat) returns (i: nat)
    requires j < |events| && SubmittedAt(events, j)
    ensures i < j && Opens(events, i)
    ensures events[j].now < events[i].now + WINDOW && events[j].now != CLOCK_FAILED
    ensures RouteOf(events[j].request).Present? && WalletPost(events[j].request)
    ensures Says(events[j].request, CSRF, events[i].secrets.csrf)
  {
    i := OpenedBySomeone(events[..j]);
    assert events[..j][..i] == events[..i];
  }

  /** And its header block named the token exactly once, with that value. */
  lemma SubmissionNamesTokenOnce(events: seq<Event>, j: nat, lines: seq<string>) returns (i: nat)
    requires j < |events| && SubmittedAt(events, j)
    requires Pairs(lines).Some? && Describes(Pairs(lines).value, events[j].request.headers, CSRF)
    ensures i < j && Opens(events, i) && Count(Pairs(lines).value, CSRF) == 1
    ensures First(Pairs(lines).value, CSRF) == Some(events[i].secrets.csrf)
  {
    i := SubmissionNeedsOpening(events, j);
    TokenNamedOnce(lines, Block(events[j].request.headers, true));
  }

  /** An opened ceremony changes exactly when a post to one of its two paths carries the token. */
  lemma ChangesExactlyOnToken(c: Ceremony, r: HttpRequest, now: instant, secrets: Secrets)
    requires c.state.AwaitingWallet?
    ensures Handled(c, r, now, secrets).0 != c <==> (RouteOf(r).Present? || RouteOf(r).Cancel?) && Carries(c, r)
  {
  }

  /** Once finished, always finished, and with nothing more submitted. */
  lemma FinishedForGood(events: seq<Event>, i: nat, j: nat)
    requires i <= j < |events| && After(events[..i]).state.Finished?
    ensures After(events[..j]).state.Finished? && !SubmittedAt(events, j)
  {
    NeverBack(events, i, j);
  }
}
