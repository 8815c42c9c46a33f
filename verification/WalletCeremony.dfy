/** The one-shot wallet ceremony: open once, submit once, within a minute, with the token of the opened page. */
module WalletCeremony {
  import opened Bytes
  import opened Text
  import opened Wrappers
  import opened WorkValues
  import opened HttpHeaders

  const BIND := "127.0.0.1:9045"
  const ORIGIN := "http://127.0.0.1:9045"
  const WINDOW := 60
  const MAX_BODY := 16_384
  const CLOCK_FAILED := TWO_64 - 1

  type instant = x: int | 0 <= x < TWO_64

  datatype HttpRequest = HttpRequest(verb: string, path: string, headers: map<string, string>, body: bytes, valid: bool)

  datatype State = AwaitingOpen | AwaitingWallet(expires: nat) | Consuming | Finished

  /** The page's secrets, drawn when it is opened. */
  datatype Secrets = Secrets(csrf: string, nonce: string, session: string)

  datatype Failure = ClockUnavailable | WindowExpired | CeremonyConsumed | Cancelled

  /** A response by its status, a submission, or a response that ends the ceremony. */
  datatype Outcome = Respond(status: nat) | Submission(body: bytes) | Consumed(status: nat, failure: Failure)

  // ------------------------------------------------------------- request shape

  predicate Says(r: HttpRequest, name: string, value: string) { Get(r.headers, name) == Some(value) }

  predicate TopLevelGet(r: HttpRequest) {
    && r.valid && r.body == []
    && Says(r, "host", BIND) && Says(r, "sec-fetch-site", "none") && Says(r, "sec-fetch-mode", "navigate")
    && Says(r, "sec-fetch-user", "?1") && Says(r, "sec-fetch-dest", "document")
    && "origin" !in r.headers && "content-length" !in r.headers && "transfer-encoding" !in r.headers
  }

  function ContentLength(s: string): Option<nat> {
    if s == "" || exists i | 0 <= i < |s| :: !IsDigit(s[i]) then None
    else if DecimalValue(s) < TWO_64 then Some(DecimalValue(s)) else None
  }

  predicate WalletPost(r: HttpRequest) {
    && r.valid && 0 < |r.body| <= MAX_BODY
    && Says(r, "host", BIND) && Says(r, "origin", ORIGIN) && Says(r, "sec-fetch-site", "same-origin")
    && Says(r, "sec-fetch-mode", "cors") && Says(r, "sec-fetch-dest", "empty") && Says(r, "content-type", "application/json")
    && "content-length" in r.headers && ContentLength(r.headers["content-length"]) == Some(|r.body|)
    && "transfer-encoding" !in r.headers
  }

  // ------------------------------------------------------------------ one step

  /** The ceremony as a value. */
  datatype Ceremony = Ceremony(state: State, secrets: Option<Secrets>)

  const START := Ceremony(AwaitingOpen, None)

  datatype Route = Open | Present | Cancel | NotAllowed | NotFound

  function RouteOf(r: HttpRequest): Route {
    if r.verb == "GET" && r.path == "/" then Open
    else if r.verb == "POST" && r.path == "/presentation" then Present
    else if r.verb == "POST" && r.path == "/cancel" then Cancel
    else if (r.verb == "GET" && (r.path == "/presentation" || r.path == "/cancel")) || (r.verb == "POST" && r.path == "/")
    then NotAllowed else NotFound
  }

  function Opened(c: Ceremony, r: HttpRequest, now: instant, secrets: Secrets): (Ceremony, Outcome) {
    if !c.state.AwaitingOpen? then (c, Respond(410))
    else if !TopLevelGet(r) then (c, Respond(400))
    else if now == CLOCK_FAILED || now + WINDOW >= TWO_64 then (c.(state := Finished), Consumed(410, ClockUnavailable))
    else (Ceremony(AwaitingWallet(now + WINDOW), Some(secrets)), Respond(200))
  }

  /** Whether a request carries the token of the opened page. */
  predicate Carries(c: Ceremony, r: HttpRequest) { c.secrets.Some? && Says(r, CSRF, c.secrets.value.csrf) }

  function Posted(c: Ceremony, r: HttpRequest, now: instant, cancel: bool): (Ceremony, Outcome) {
    if !Carries(c, r) then (c, Respond(404))
    else if !c.state.AwaitingWallet? then (c, Respond(410))
    else if now == CLOCK_FAILED || now >= c.state.expires then (c.(state := Finished), Consumed(410, WindowExpired))
    else if !WalletPost(r) || (cancel && r.body != Utf8("{}")) then (c.(state := Finished), Consumed(400, CeremonyConsumed))
    else if cancel then (c.(state := Finished), Consumed(200, Cancelled))
    else (c.(state := Consuming), Submission(r.body))
  }

  function Handled(c: Ceremony, r: HttpRequest, now: instant, secrets: Secrets): (Ceremony, Outcome) {
    match RouteOf(r)
    case Open => Opened(c, r, now, secrets)
    case Present => Posted(c, r, now, false)
    case Cancel => Posted(c, r, now, true)
    case NotAllowed => (c, Respond(405))
    case NotFound => (c, Respond(404))
  }

  class Wallet {
    var csrf: Option<string>
    var nonce: Option<string>
    var session: Option<string>
    var state: State

    /** The secrets are drawn together or not at all. */
    ghost predicate Valid()
      reads this
    {
      csrf.Some? == nonce.Some? == session.Some?
    }

    ghost function View(): Ceremony
      reads this
      requires Valid()
    {
      Ceremony(state, if csrf.Some? then Some(Secrets(csrf.value, nonce.value, session.value)) else None)
    }

    constructor ()
      ensures Valid() && View() == START
    {
      csrf, nonce, session, state := None, None, None, AwaitingOpen;
    }

    method Handle(r: HttpRequest, now: instant, secrets: Secrets) returns (o: Outcome)
      requires Valid()
      modifies this
      ensures Valid() && (View(), o) == Handled(old(View()), r, now, secrets)
    {
      match RouteOf(r)
      case Open => o := HandleGet(r, now, secrets);
      case Present => o := HandlePost(r, now, false);
      case Cancel => o := HandlePost(r, now, true);
      case NotAllowed => o := Respond(405);
      case NotFound => o := Respond(404);
    }

    method HandleGet(r: HttpRequest, now: instant, secrets: Secrets) returns (o: Outcome)
      requires Valid()
      modifies this
      ensures Valid() && (View(), o) == Opened(old(View()), r, now, secrets)
    {
      if state != AwaitingOpen { return Respond(410); }
      if !TopLevelGet(r) { return Respond(400); }
      if now == CLOCK_FAILED || now + WINDOW >= TWO_64 {
        state := Finished;
        return Consumed(410, ClockUnavailable);
      }
      csrf, nonce, session := Some(secrets.csrf), Some(secrets.nonce), Some(secrets.session);
      state := AwaitingWallet(now + WINDOW);
      return Respond(200);
    }

    method HandlePost(r: HttpRequest, now: instant, cancel: bool) returns (o: Outcome)
      requires Valid()
      modifies this
      ensures Valid() && (View(), o) == Posted(old(View()), r, now, cancel)
    {
      if csrf.None? || Get(r.headers, CSRF) != csrf { return Respond(404); }
      if !state.AwaitingWallet? { return Respond(410); }
      if now == CLOCK_FAILED || now >= state.expires {
        state := Finished;
        return Consumed(410, WindowExpired);
      }
      state := Consuming;
      if !WalletPost(r) || (cancel && r.body != Utf8("{}")) {
        state := Finished;
        return Consumed(400, CeremonyConsumed);
      }
      if cancel {
        state := Finished;
        return Consumed(200, Cancelled);
      }
      return Submission(r.body);
    }

    method Finish()
      requires Valid()
      modifies this
      ensures Valid() && View() == old(View()).(state := Finished)
    {
      state := Finished;
    }
  }
}
