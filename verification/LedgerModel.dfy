/** Rows, stored outputs and the signed message of the private result ledger. */
module LedgerModel {
  import opened Bytes
  import opened Text
  import opened Wrappers
  import opened Chains
  import opened Limits

  type u64 = x: nat | x < TWO_64

  const MAX_ROWS := 32
  const MAX_LOGICAL := 32 * 1024 * 1024
  const MAX_RECORD := 2 * 1024 * 1024
  const MAX_TIME := MAX_SAFE

  datatype CaptureRow = CaptureRow(effect: string, id: string, original: bytes)

  type AttestationRow = Row<string, bytes>

  datatype Ledger = Ledger(
    floor: u64, seal: bytes, captures: seq<CaptureRow>, records: seq<AttestationRow>)

  /** A signed envelope with what it was made from: its packet and its context. */
  datatype Output = Output(envelope: bytes, packet: bytes, context: bytes, issued: u64, expires: u64) {

    /** The half-open interval in which the envelope may leave the store. */
    predicate InWindow(now: nat) {
      0 < issued < expires && issued <= now < expires && expires - issued <= 60
    }
  }

  /** The issuer: hashing, the record codec, the sealed message, the signing key and the record checks made outside the store. */
  datatype Issuer = Issuer(
    hash: bytes -> bytes,
    encode: Output -> bytes,
    decode: bytes -> Option<Output>,
    message: (u64, seq<CaptureRow>, seq<AttestationRow>) -> bytes,
    sign: bytes -> bytes,
    verify: (bytes, bytes) -> bool,
    replay: Output -> Option<string>,
    selectorOk: (bytes, string, string) -> bool,
    recordOk: (Output, string, string, bytes) -> bool)
  {
    /**
     Hashes have 32 bytes, signatures have 64 and verify, replay identities are digests, a record within its size limit
     reads back as the output it was made from, and nothing else reads as that output.
     */
    ghost predicate Sound() {
      && (forall o :: |encode(o)| <= MAX_RECORD ==> decode(encode(o)) == Some(o))
      && (forall b :: decode(b).Some? ==> |b| <= MAX_RECORD && encode(decode(b).value) == b)
      && (forall b :: |hash(b)| == 32)
      && (forall m :: |sign(m)| == 64 && verify(m, sign(m)))
      && (forall o :: replay(o).Some? ==> IsDigest(replay(o).value))
    }

    function EnvelopeHash(o: Output): (h: string)
      ensures Sound() ==> IsDigest(h)
    {
      Hex(hash(o.envelope))
    }

    /** The seal is a valid signature over everything in the ledger but itself. */
    predicate Sealed(l: Ledger) {
      |l.seal| == 64 && verify(message(l.floor, l.captures, l.records), l.seal)
    }

    /** The ledger with a new floor and a fresh seal. */
    function Reseal(l: Ledger, floor: u64): (r: Ledger)
      ensures r.floor == floor && r.captures == l.captures && r.records == l.records
      ensures Sound() ==> Sealed(r)
    {
      Ledger(floor, sign(message(floor, l.captures, l.records)), l.captures, l.records)
    }
  }

  /** The bytes a capture row and an attestation row are charged for. */
  function CaptureCharge(c: CaptureRow): nat {
    Utf8Len(c.effect) + Utf8Len(c.id) + |c.original|
  }

  function RecordCharge(r: AttestationRow): nat {
    |r.selector| + Utf8Len(r.capture) + Utf8Len(r.parent) + Utf8Len(r.hash) + |r.record| + Utf8Len(r.replay)
  }

  function CapturesSize(cs: seq<CaptureRow>): nat {
    if cs == [] then 0 else CaptureCharge(cs[0]) + CapturesSize(cs[1..])
  }

  function RecordsSize(rs: seq<AttestationRow>): nat {
    if rs == [] then 0 else RecordCharge(rs[0]) + RecordsSize(rs[1..])
  }

  function Size(l: Ledger): nat { CapturesSize(l.captures) + RecordsSize(l.records) }
}
