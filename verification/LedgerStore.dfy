/** The exchange: one private transaction, a persisted clock floor and a post-commit export loop. */
module LedgerStore {
  import opened Bytes
  import opened Text
  import opened Wrappers
  import opened Chains
  import opened LedgerModel
  import opened LedgerAudit
  import opened LedgerTables

  datatype Mode = Attest | Resume | Renew

  datatype Request = Request(mode: Mode, selector: bytes, capture: CaptureRow, parent: string)

  /**
   What an exchange meets outside: the n-th clock reading, whether the n-th file or database operation
   works, the envelope made at a time and the n-th verdict of the owner's guard on an output.
   */
  datatype World = World(
    clock: nat -> u64,
    up: nat -> bool,
    make: u64 -> Option<Output>,
    guard: (nat, Output) -> bool)

  /** No database yet, one left half made that no connection accepts, or the committed tables. */
  datatype Database = Absent | Broken | Present(ledger: Ledger)

  const Blank := Ledger(0, [], [], [])

  function Later(a: u64, b: u64): u64 { if a < b then b else a }

  function LedgerOf(db: Database): Ledger {
    if db.Present? then db.ledger else Blank
  }

  // ------------------------------------------------------------------- clock

  class Clock {
    var floor: u64
    var failed: bool

    constructor (floor: u64)
      ensures this.floor == floor && !failed
    {
      this.floor := floor;
      failed := false;
    }

    /** A reading is accepted when it is readable, in range and not behind; one refusal is final. */
    method Sample(n: u64) returns (r: Option<u64>)
      modifies this
      ensures r.Some? <==> !old(failed) && 0 < n <= MAX_TIME && old(floor) <= n
      ensures r.Some? ==> r.value == floor == n && !failed
      ensures r.None? ==> floor == old(floor) && failed
    {
      if failed || n == 0 || n > MAX_TIME || n < floor {
        failed := true;
        return None;
      }
      floor := n;
      return Some(n);
    }
  }

  // ---------------------------------------------------------------- requests

  /** What the caller has established about a request before the exchange. */
  predicate Admissible(a: Issuer, req: Request) {
    && CaptureOk(req.capture)
    && (req.parent != "" ==> IsDigest(req.parent))
    && a.selectorOk(req.selector, req.capture.id, req.parent)
  }

  /** Made outputs carry a readable time, and the guard implies the per-record checks of the audit. */
  ghost predicate Authentic(a: Issuer, req: Request, w: World) {
    && (forall n, o :: w.make(n) == Some(o) ==> o.issued <= MAX_TIME)
    && (forall k, o :: w.guard(k, o) ==>
          |a.encode(o)| <= MAX_RECORD && a.recordOk(o, req.capture.id, req.capture.effect, req.capture.original))
  }

  predicate Names(req: Request, r: AttestationRow) {
    r.selector == req.selector && r.capture == req.capture.id && r.parent == req.parent
  }

  function FindEffect(cs: seq<CaptureRow>, effect: string): (r: Option<CaptureRow>)
    ensures r.Some? ==> r.value in cs && r.value.effect == effect
    ensures r.None? ==> forall c | c in cs :: c.effect != effect
  {
    if cs == [] then None
    else if cs[0].effect == effect then Some(cs[0])
    else FindEffect(cs[1..], effect)
  }

  function FindNamed(rs: seq<AttestationRow>, req: Request): (r: Option<AttestationRow>)
    ensures r.Some? ==> r.value in rs && Names(req, r.value)
    ensures r.None? ==> forall s | s in rs :: !Names(req, s)
  {
    if rs == [] then None
    else if Names(req, rs[0]) then Some(rs[0])
    else FindNamed(rs[1..], req)
  }

  function FindPrior(rs: seq<AttestationRow>, req: Request): (r: Option<AttestationRow>)
    ensures r.Some? ==> r.value in rs && r.value.capture == req.capture.id && r.value.hash == req.parent
    ensures r.None? ==> forall s | s in rs :: s.capture != req.capture.id || s.hash != req.parent
  {
    if rs == [] then None
    else if rs[0].capture == req.capture.id && rs[0].hash == req.parent then Some(rs[0])
    else FindPrior(rs[1..], req)
  }

  function NewRow(a: Issuer, req: Request, o: Output, replay: string): AttestationRow {
    Row(req.selector, req.capture.id, req.parent, a.EnvelopeHash(o), a.encode(o), replay)
  }

  function Charge(req: Request, r: AttestationRow): nat {
    RecordCharge(r) + if req.mode.Attest? then CaptureCharge(req.capture) else 0
  }

  /** Whether the mode has a place for a new record, before one is made. */
  predicate Allowed(l: Ledger, req: Request) {
    var retained := FindEffect(l.captures, req.capture.effect);
    && FindNamed(l.records, req).None?
    && |l.records| < MAX_ROWS
    && match req.mode
       case Attest => req.parent == "" && retained.None?
       case Renew =>
         && retained.Some? && req.parent != ""
         && CountOf(l.records, req.capture.id) < MAX_CHAIN
         && FindPrior(l.records, req).Some?
         && !exists s | s in l.records :: s.capture == req.capture.id && s.parent == req.parent
       case Resume => false
  }

  /** One attestation more, placed as the mode demands, and charged to the byte. */
  ghost predicate Appended(a: Issuer, l: Ledger, req: Request, o: Output, cs: seq<CaptureRow>, rs: seq<AttestationRow>) {
    && Allowed(l, req)
    && a.replay(o).Some?
    && var row := NewRow(a, req, o, a.replay(o).value);
    && InsertRecord(l.records, row) == Some(rs)
    && CapturesSize(cs) + RecordsSize(rs) == Size(l) + Charge(req, row) <= MAX_LOGICAL
    && (if req.mode.Attest? then InsertCapture(l.captures, req.capture) == Some(cs)
        else cs == l.captures && req.capture in l.captures)
  }

  /** The tables with the new rows, if the byte limit and the key constraints admit them. */
  function Place(a: Issuer, l: Ledger, req: Request, o: Output): (r: Option<Ledger>)
    requires Allowed(l, req) && Size(l) <= MAX_LOGICAL
    requires FindEffect(l.captures, req.capture.effect) in {None, Some(req.capture)}
    ensures r.Some? ==> Appended(a, l, req, o, r.value.captures, r.value.records) && r.value.floor == l.floor
  {
    var replay :- a.replay(o);
    var row := NewRow(a, req, o, replay);
    if Charge(req, row) > MAX_LOGICAL - Size(l) then None
    else
      var cs :- if req.mode.Attest? then InsertCapture(l.captures, req.capture) else Some(l.captures);
      var rs :- InsertRecord(l.records, row);
      var t := Ledger(l.floor, l.seal, cs, rs);
      AppendedSize(l, req, row, t);
      Some(t)
  }

  lemma AppendedSize(l: Ledger, req: Request, row: AttestationRow, t: Ledger)
    requires InsertRecord(l.records, row) == Some(t.records)
    requires if req.mode.Attest? then InsertCapture(l.captures, req.capture) == Some(t.captures)
             else t.captures == l.captures
    ensures Size(t) == Size(l) + Charge(req, row)
  {
    var k :| 0 <= k <= |l.records| && t.records == InsertAt(l.records, k, row);
    InsertedRecordSize(l.records, k, row);
    if req.mode.Attest? {
      var j :| 0 <= j <= |l.captures| && t.captures == InsertAt(l.captures, j, req.capture);
      InsertedCaptureSize(l.captures, j, req.capture);
    }
  }

  lemma AppendedKeepsRows(a: Issuer, l: Ledger, req: Request, o: Output, cs: seq<CaptureRow>, rs: seq<AttestationRow>)
    requires Appended(a, l, req, o, cs, rs)
    ensures forall c | c in l.captures :: c in cs
    ensures forall r | r in l.records :: r in rs
  {
  }

  lemma NewRowOk(a: Issuer, floor: nat, cs: seq<CaptureRow>, req: Request, o: Output)
    requires a.Sound() && Admissible(a, req) && a.replay(o).Some? && o.issued <= floor
    requires |a.encode(o)| <= MAX_RECORD
    requires a.recordOk(o, req.capture.id, req.capture.effect, req.capture.original)
    requires FindCapture(cs, req.capture.id) == Some(req.capture)
    ensures RecordOk(a, floor, cs, NewRow(a, req, o, a.replay(o).value))
  {
  }

  /** An appended ledger passes the audit again under any floor that covers the new record. */
  lemma AppendedChained(a: Issuer, l: Ledger, req: Request, o: Output, t: Ledger, floor: nat)
    requires a.Sound() && Admissible(a, req) && Appended(a, l, req, o, t.captures, t.records)
    requires Chained(a, l.floor, l.captures, l.records) && l.floor <= floor && o.issued <= floor
    requires |a.encode(o)| <= MAX_RECORD
    requires a.recordOk(o, req.capture.id, req.capture.effect, req.capture.original)
    ensures Chained(a, floor, t.captures, t.records) && |t.captures| <= |t.records| <= MAX_ROWS
  {
    var row := NewRow(a, req, o, a.replay(o).value);
    RaisedFloor(a, l.floor, floor, l.captures, l.records);
    if req.mode.Attest? {
      AttestedChained(a, l, req, o, t, row, floor);
    } else {
      OnlyCapture(l.captures, req.capture);
      NewRowOk(a, floor, l.captures, req, o);
      var k :| 0 <= k <= |l.records| && t.records == InsertAt(l.records, k, row);
      RenewedTables(a, floor, l.captures, l.records, k, row, FindPrior(l.records, req).value);
    }
    CapturesWithinRecords(a, floor, t.captures, t.records);
  }

  lemma AttestedChained(a: Issuer, l: Ledger, req: Request, o: Output, t: Ledger, row: AttestationRow, floor: nat)
    requires a.Sound() && Admissible(a, req) && Appended(a, l, req, o, t.captures, t.records) && req.mode.Attest?
    requires row == NewRow(a, req, o, a.replay(o).value) && o.issued <= floor
    requires Chained(a, floor, l.captures, l.records)
    requires |a.encode(o)| <= MAX_RECORD
    requires a.recordOk(o, req.capture.id, req.capture.effect, req.capture.original)
    ensures Chained(a, floor, t.captures, t.records)
  {
    var k :| 0 <= k <= |l.records| && t.records == InsertAt(l.records, k, row);
    var j :| 0 <= j <= |l.captures| && t.captures == InsertAt(l.captures, j, req.capture);
    FindInserted(l.captures, j, req.capture, req.capture.id);
    NewRowOk(a, floor, t.captures, req, o);
    AttestedTables(a, floor, l.captures, l.records, j, req.capture, k, row);
  }

  lemma OnlyCapture(cs: seq<CaptureRow>, c: CaptureRow)
    requires CapturesOk(cs) && c in cs
    ensures FindCapture(cs, c.id) == Some(c)
  {
    var d := FindCapture(cs, c.id).value;
    var i :| 0 <= i < |cs| && cs[i] == c;
    var j :| 0 <= j < |cs| && cs[j] == d;
  }
}
