/** The live authority source: response checks, the one-entry file cache, and lookups that retry timeouts. */
module LiveSource {
  import opened Bytes
  import opened Text
  import opened Wrappers

  const VERSION := "secs-dregg-live-source-client-v1"

  datatype Request = Request(
    version: string, audience: string, entity: string, resource: string, operation: string, opcode: nat,
    subject: string, issuer: Option<string>, root: Option<string>, time: nat, nonce: string)

  datatype Status = Active | Degraded | Unavailable | Revoked | Inactive

  datatype Response = Response(
    version: string, sourceId: string, sourceKeyId: string, source: Status, entity: string, resource: string,
    issuer: string, issuerStatus: Status, root: string, fingerprint: string, rootStatus: Status,
    namespaceStatus: Status, resourceStatus: Status, observed: nat, from: nat, until: nat,
    generation: string, unique: bool, summary: string, signature: bytes)

  /** A trusted source key; checking a signature over a request and response is done outside. */
  datatype TrustedKey = TrustedKey(sourceId: string, keyId: string, active: bool, signed: (Request, Response) -> bool)

  datatype Error =
    | TransportDisabled | MissingAuth | MissingTrust | UnsupportedVersion | Malformed | UnredactedSummary
    | UnauthorizedSource | SourceUnavailable | WrongBinding | WrongRoot | DuplicateConflict
    | FutureStatus | StaleStatus | RevokedOrInactive | TransportTimeout

  // --------------------------------------------------------------- validation

  predicate Contains(s: string, word: string) { exists i | 0 <= i <= |s| :: word <= s[i..] }

  predicate Redacted(summary: string) {
    var s := Lower(summary);
    && !Contains(s, "bearer ") && !Contains(s, "authorization:") && !Contains(s, "token=") && !Contains(s, "access_token")
    && !Contains(s, "private_key") && !Contains(s, "secret") && !Contains(s, "raw_proof") && !Contains(s, "signature:")
  }

  predicate Filled(r: Response) {
    && !Blank(r.sourceId) && !Blank(r.sourceKeyId) && !Blank(r.entity) && !Blank(r.resource) && !Blank(r.issuer)
    && !Blank(r.root) && !Blank(r.fingerprint) && !Blank(r.generation) && !Blank(r.summary) && r.from < r.until
  }

  predicate AllActive(r: Response) {
    r.issuerStatus.Active? && r.rootStatus.Active? && r.namespaceStatus.Active? && r.resourceStatus.Active?
  }

  predicate Trusted(q: Request, r: Response, key: TrustedKey) {
    key.active && key.sourceId == r.sourceId && key.keyId == r.sourceKeyId && |r.signature| == 64 && key.signed(q, r)
  }

  /** Observed before the instant, not too long ago, and inside its validity. */
  function Window(time: nat, r: Response, maxAge: Option<nat>): Result<(), Error> {
    if r.observed > time then Err(FutureStatus)
    else if maxAge.Some? && time - r.observed > maxAge.value then Err(StaleStatus)
    else if time < r.from || time > r.until then Err(StaleStatus)
    else Ok(())
  }

  /** The response is about what was asked. */
  function Binding(q: Request, r: Response): Result<(), Error> {
    if !r.source.Active? then Err(SourceUnavailable)
    else if r.entity != q.entity || r.resource != q.resource then Err(WrongBinding)
    else if q.issuer.Some? && r.issuer != q.issuer.value then Err(WrongBinding)
    else if q.root.Some? && r.root != q.root.value then Err(WrongRoot)
    else if !r.unique then Err(DuplicateConflict)
    else Ok(())
  }

  function Semantics(q: Request, r: Response, maxAge: Option<nat>): Result<(), Error> {
    var _ :- Binding(q, r);
    var _ :- Window(q.time, r, maxAge);
    if AllActive(r) then Ok(()) else Err(RevokedOrInactive)
  }

  /** A full check; no maximum age stands for the largest integer. */
  function Validate(q: Request, r: Response, maxAge: Option<nat>, key: TrustedKey): Result<(), Error> {
    if q.version != VERSION || r.version != VERSION then Err(UnsupportedVersion)
    else if !Filled(r) then Err(Malformed)
    else if !Redacted(r.summary) then Err(UnredactedSummary)
    else if !Trusted(q, r, key) then Err(UnauthorizedSource)
    else Semantics(q, r, maxAge)
  }

  // ------------------------------------------------------------------ mapping

  /** Who the receiver holds the authority for. */
  datatype Holder = Holder(publicKeyHex: string, federation: string, namespace: string)

  /** What a snapshot and its one entry say, each value once. */
  datatype Authority = Authority(
    holder: Holder, generation: string, sourceId: string, entity: string, resource: string, observed: nat,
    from: nat, until: nat, issuer: string, root: string, fingerprint: string, audience: string, operation: string,
    summary: string, rootActive: bool, issuerActive: bool)

  function Mapped(q: Request, r: Response, h: Holder): Result<Authority, Error> {
    if q.version != VERSION || r.version != VERSION then Err(UnsupportedVersion)
    else if r.entity != q.entity || r.resource != q.resource then Err(WrongBinding)
    else if !AllActive(r) then Err(RevokedOrInactive)
    else if !r.unique then Err(DuplicateConflict)
    else Ok(Authority(h, r.generation, r.sourceId, r.entity, r.resource, r.observed, r.from, r.until, r.issuer, r.root,
                      r.fingerprint, q.audience, q.operation, r.summary, r.rootStatus.Active?, r.issuerStatus.Active?))
  }

  // -------------------------------------------------------------------- cache

  datatype Entry = Entry(request: Request, response: Response, cachedAt: nat)

  /** The cache file: missing, unreadable, or holding one entry. */
  datatype Slot = Absent | Corrupt | Present(entry: Entry)

  /** Everything about a request but its time and nonce. */
  function KeyOf(q: Request): Request { q.(time := 0, nonce := "") }

  predicate Fresh(e: Entry, now: nat, ttl: nat) { e.cachedAt <= now && now - e.cachedAt <= ttl }

  datatype Policy = Policy(retryMax: nat, staleMax: nat, ttl: nat)

  function FreshEntry(slot: Slot, q: Request, now: nat, policy: Policy, key: TrustedKey): Result<Option<Entry>, Error> {
    if slot.Corrupt? then Err(Malformed)
    else if slot.Absent? || KeyOf(slot.entry.request) != KeyOf(q) then Ok(None)
    else if !Fresh(slot.entry, now, policy.ttl) then Err(StaleStatus)
    else
      var _ :- Validate(slot.entry.request, slot.entry.response, Some(policy.staleMax), key);
      var _ :- Window(q.time, slot.entry.response, Some(policy.staleMax));
      Ok(Some(slot.entry))
  }

  /** Observed later, or at the same time in a later generation. */
  predicate Newer(a: Response, b: Response) {
    a.observed > b.observed || (a.observed == b.observed && TextLess(b.generation, a.generation))
  }

  /** The slot after an attempt to keep a response; an unwritable file keeps what it has. */
  function Stored(slot: Slot, q: Request, r: Response, now: nat, key: TrustedKey, writable: bool): Slot {
    if Validate(q, r, None, key).Err? || slot.Corrupt? || !writable then slot
    else if slot.Absent? || (KeyOf(slot.entry.request) == KeyOf(q) && Newer(r, slot.entry.response))
    then Present(Entry(q, r, now)) else slot
  }

  class FileCache {
    var slot: Slot

    constructor (slot: Slot)
      ensures this.slot == slot
    {
      this.slot := slot;
    }

    method StoreIfNewer(q: Request, r: Response, now: nat, key: TrustedKey, writable: bool) returns (stored: Result<bool, Error>)
      modifies this
      ensures slot == Stored(old(slot), q, r, now, key, writable)
      ensures stored == Ok(true) ==> slot == Present(Entry(q, r, now))
      ensures stored != Ok(true) ==> slot == old(slot)
    {
      var valid := Validate(q, r, None, key);
      if valid.Err? { return Err(valid.error); }
      if slot.Corrupt? { return Err(Malformed); }
      if slot.Present? {
        if KeyOf(slot.entry.request) != KeyOf(q) || !Newer(r, slot.entry.response) { return Ok(false); }
      }
      if !writable { return Err(Malformed); }
      slot := Present(Entry(q, r, now));
      return Ok(true);
    }
  }

  // ---------------------------------------------------------------- transport

  datatype TransportError = Timeout | Down | Refused | Garbled

  type Script = (nat, Request) -> Result<Response, TransportError>

  class Transport {
    const script: Script
    var calls: nat

    constructor (script: Script)
      ensures this.script == script && calls == 0
    {
      this.script := script;
      calls := 0;
    }

    method Fetch(q: Request) returns (r: Result<Response, TransportError>)
      modifies this`calls
      ensures calls == old(calls) + 1 && r == script(old(calls), q)
    {
      r := script(calls, q);
      calls := calls + 1;
    }
  }

  function ErrorOf(e: TransportError): Error {
    match e
    case Timeout => TransportTimeout
    case Down => SourceUnavailable
    case Refused => UnauthorizedSource
    case Garbled => Malformed
  }

  /** The first answer that is not a timeout, counted from a call number with so many tries left after it. */
  function Answer(script: Script, q: Request, call: nat, left: nat): (Result<Response, TransportError>, nat)
    decreases left
  {
    if script(call, q) == Err(Timeout) && left > 0 then Answer(script, q, call + 1, left - 1) else (script(call, q), call + 1)
  }

  /** What a lookup gets from the source, and the calls made by then. */
  function Called(script: Script, q: Request, call: nat, policy: Policy, key: TrustedKey): (Result<Response, Error>, nat) {
    var (answer, calls) := Answer(script, q, call, policy.retryMax);
    (match answer
     case Err(e) => Err(ErrorOf(e))
     case Ok(r) =>
       var valid := Validate(q, r, Some(policy.staleMax), key);
       if valid.Err? then Err(valid.error) else Ok(r), calls)
  }

  method CallWithRetry(t: Transport, q: Request, policy: Policy, key: TrustedKey) returns (r: Result<Response, Error>)
    modifies t`calls
    ensures (r, t.calls) == Called(t.script, q, old(t.calls), policy, key)
  {
    var attempts: nat := 0;
    while true
      invariant attempts <= policy.retryMax
      invariant Answer(t.script, q, old(t.calls), policy.retryMax) == Answer(t.script, q, t.calls, policy.retryMax - attempts)
      decreases policy.retryMax - attempts
    {
      attempts := attempts + 1;
      var answer := t.Fetch(q);
      match answer
      case Ok(response) =>
        var valid := Validate(q, response, Some(policy.staleMax), key);
        if valid.Err? { return Err(valid.error); }
        return Ok(response);
      case Err(Timeout) =>
        if attempts > policy.retryMax { return Err(TransportTimeout); }
      case Err(e) => return Err(ErrorOf(e));
    }
  }

  // ------------------------------------------------------------------- lookup

  /** The receiver's side of a lookup. */
  datatype Context = Context(policy: Policy, key: TrustedKey, holder: Holder, now: nat, writable: bool)

  /** What the cache alone settles: an authority, an error, or nothing. */
  function FromCache(slot: Slot, q: Request, c: Context): Option<Result<Authority, Error>> {
    match FreshEntry(slot, q, c.now, c.policy, c.key)
    case Ok(Some(e)) => Some(Mapped(e.request, e.response, c.holder))
    case Ok(None) => None
    case Err(e) => if e == StaleStatus then None else Some(Err(e))
  }

  datatype Outcome = Outcome(result: Result<Authority, Error>, slot: Slot, calls: nat)

  /** A lookup with transport, credentials and trust in place. */
  function LookedUp(slot: Slot, script: Script, call: nat, q: Request, c: Context): Outcome {
    var hit := FromCache(slot, q, c);
    if hit.Some? then Outcome(hit.value, slot, call)
    else
      var (answer, calls) := Called(script, q, call, c.policy, c.key);
      if answer.Err? then Outcome(Err(answer.error), slot, calls)
      else
        var authority := Mapped(q, answer.value, c.holder);
        Outcome(authority, if authority.Ok? then Stored(slot, q, answer.value, c.now, c.key, c.writable) else slot, calls)
  }

  /** No cache reads as an empty one. */
  function SlotOf(cache: Option<FileCache>): Slot
    reads if cache.Some? then {cache.value} else {}
  {
    if cache.Some? then cache.value.slot else Absent
  }

  method Lookup(cache: Option<FileCache>, transport: Option<Transport>, auth: bool, trusted: bool, q: Request, c: Context)
    returns (r: Result<Authority, Error>)
    modifies if cache.Some? then {cache.value} else {}, if transport.Some? then {transport.value} else {}
    ensures transport.None? ==> r == Err(TransportDisabled)
    ensures transport.Some? && !auth ==> r == Err(MissingAuth)
    ensures transport.Some? && auth && !trusted ==> r == Err(MissingTrust)
    ensures transport.None? || !auth || !trusted ==> SlotOf(cache) == old(SlotOf(cache))
    ensures transport.Some? && (!auth || !trusted) ==> transport.value.calls == old(transport.value.calls)
    ensures transport.Some? && auth && trusted ==>
      var o := LookedUp(old(SlotOf(cache)), transport.value.script, old(transport.value.calls), q, c);
      r == o.result && transport.value.calls == o.calls && (cache.Some? ==> cache.value.slot == o.slot)
  {
    if transport.None? { return Err(TransportDisabled); }
    if !auth { return Err(MissingAuth); }
    if !trusted { return Err(MissingTrust); }
    var t := transport.value;
    if cache.Some? {
      var found := FreshEntry(cache.value.slot, q, c.now, c.policy, c.key);
      match found {
        case Ok(Some(e)) => return Mapped(e.request, e.response, c.holder);
        case Ok(None) =>
        case Err(StaleStatus) =>
        case Err(other) => return Err(other);
      }
    }
    var response :- CallWithRetry(t, q, c.policy, c.key);
    var authority :- Mapped(q, response, c.holder);
    if cache.Some? {
      var _ := cache.value.StoreIfNewer(q, response, c.now, c.key, c.writable);
    }
    return Ok(authority);
  }
}
