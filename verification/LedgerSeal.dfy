/** The wire forms behind the ledger: stored records, and the message its seal signs. */
module LedgerSeal {
  import opened Bytes
  import opened Text
  import opened Wrappers
  import opened LedgerModel

  // ----------------------------------------------------------------- records

  function Encode(o: Output): (r: bytes)
    ensures |r| == 40 + |o.envelope| + |o.packet| + |o.context|
  {
    Prefixed(o.envelope, 8) + (Prefixed(o.packet, 8) + (Prefixed(o.context, 8) + EncodeTimes(o)))
  }

  function EncodeTimes(o: Output): (r: bytes)
    ensures |r| == 16
  {
    LittleEndian(o.issued, 8) + LittleEndian(o.expires, 8)
  }

  /** The fields in order, no trailing bytes, and the bytes must be what re-encoding gives. */
  function Decode(b: bytes): (r: Option<Output>)
    ensures r.Some? ==> Encode(r.value) == b && |b| <= MAX_RECORD
  {
    if |b| > MAX_RECORD then None
    else
      var o :- Parse(b);
      if Encode(o) == b then Some(o) else None
  }

  function Parse(b: bytes): (r: Option<Output>)
  {
    var envelope :- ReadPrefixed(b, 8);
    var packet :- ReadPrefixed(envelope.rest, 8);
    var context :- ReadPrefixed(packet.rest, 8);
    var times :- ParseTimes(context.rest);
    Some(Output(envelope.value, packet.value, context.value, times.0, times.1))
  }

  function ParseTimes(b: bytes): (r: Option<(u64, u64)>)
  {
    var issued :- ReadNat(b, 8);
    var expires :- ReadNat(issued.rest, 8);
    Widths();
    if expires.rest != [] then None else Some((issued.value, expires.value))
  }

  lemma ParseTimesOfEncode(o: Output)
    ensures ParseTimes(EncodeTimes(o)) == Some((o.issued, o.expires))
  {
    Widths();
    var e := LittleEndian(o.expires, 8);
    ReadNatOfLittleEndian(o.issued, 8, e);
    assert e == e + [];
    ReadNatOfLittleEndian(o.expires, 8, []);
  }

  /** A stored record reads back as the output it was made from. */
  lemma DecodeOfEncode(o: Output)
    requires |Encode(o)| <= MAX_RECORD
    ensures Decode(Encode(o)) == Some(o)
  {
    Widths();
    ParseTimesOfEncode(o);
    var c := Prefixed(o.context, 8) + EncodeTimes(o);
    ReadPrefixedOfPrefixed(o.context, 8, EncodeTimes(o));
    ReadPrefixedOfPrefixed(o.packet, 8, c);
    ReadPrefixedOfPrefixed(o.envelope, 8, Prefixed(o.packet, 8) + c);
  }

  /** Reading already fixes every byte: the comparison with the re-encoding never refuses. */
  lemma ReencodingIsRedundant(b: bytes)
    ensures Parse(b).Some? ==> Encode(Parse(b).value) == b
  {
    if Parse(b).Some? {
      var envelope := ReadPrefixed(b, 8).value;
      var packet := ReadPrefixed(envelope.rest, 8).value;
      var context := ReadPrefixed(packet.rest, 8).value;
      var issued := ReadNat(context.rest, 8).value;
      var expires := ReadNat(issued.rest, 8).value;
      assert LittleEndian(expires.value, 8) == issued.rest;
      assert EncodeTimes(Parse(b).value) == context.rest;
    }
  }

  // -------------------------------------------------------------------- seal

  const SEAL_DOMAIN := "frank.result.private-ledger.v1\0"

  /** A row is written field by field, each behind its length. */
  function CaptureFields(c: CaptureRow): (r: seq<bytes>)
    ensures |r| == 3
  {
    [Utf8(c.effect), Utf8(c.id), c.original]
  }

  function RecordFields(r: AttestationRow): (f: seq<bytes>)
    ensures |f| == 6
  {
    [r.selector, Utf8(r.capture), Utf8(r.parent), Utf8(r.hash), r.record, Utf8(r.replay)]
  }

  function AllCaptureFields(cs: seq<CaptureRow>): (r: seq<bytes>)
    ensures |r| == 3 * |cs|
  {
    if cs == [] then [] else CaptureFields(cs[0]) + AllCaptureFields(cs[1..])
  }

  function AllRecordFields(rs: seq<AttestationRow>): (r: seq<bytes>)
    ensures |r| == 6 * |rs|
  {
    if rs == [] then [] else RecordFields(rs[0]) + AllRecordFields(rs[1..])
  }

  function SerializeFields(fs: seq<bytes>): bytes {
    if fs == [] then [] else Prefixed(fs[0], 8) + SerializeFields(fs[1..])
  }

  function Serialize(floor: u64, cs: seq<CaptureRow>, rs: seq<AttestationRow>): bytes {
    [1] + (LittleEndian(floor, 8)
    + (LittleEndian(|cs|, 8) + (SerializeFields(AllCaptureFields(cs))
    + (LittleEndian(|rs|, 8) + SerializeFields(AllRecordFields(rs))))))
  }

  function Message(hash: bytes -> bytes, configuration: bytes,
                   floor: u64, cs: seq<CaptureRow>, rs: seq<AttestationRow>): bytes {
    Utf8(SEAL_DOMAIN) + configuration + hash(Serialize(floor, cs, rs))
  }

  predicate Short(fs: seq<bytes>) { forall f | f in fs :: |f| < TWO_64 }

  /** Lengths fit the eight bytes they are written in. */
  predicate Writable(l: Ledger) {
    && |l.captures| < TWO_64 && |l.records| < TWO_64
    && Short(AllCaptureFields(l.captures)) && Short(AllRecordFields(l.records))
  }

  lemma PeelNat(m: nat, x: bytes, n: nat, y: bytes)
    requires m < TWO_64 && n < TWO_64 && LittleEndian(m, 8) + x == LittleEndian(n, 8) + y
    ensures m == n && x == y
  {
    Widths();
    ReadNatOfLittleEndian(m, 8, x);
    ReadNatOfLittleEndian(n, 8, y);
  }

  lemma Peel(a: bytes, x: bytes, b: bytes, y: bytes)
    requires |a| < TWO_64 && |b| < TWO_64 && Prefixed(a, 8) + x == Prefixed(b, 8) + y
    ensures a == b && x == y
  {
    Widths();
    ReadPrefixedOfPrefixed(a, 8, x);
    ReadPrefixedOfPrefixed(b, 8, y);
  }

  lemma FirstField(fs: seq<bytes>, x: bytes)
    requires fs != []
    ensures SerializeFields(fs) + x == Prefixed(fs[0], 8) + (SerializeFields(fs[1..]) + x)
  {
  }

  lemma {:induction false} PeelFields(fs: seq<bytes>, x: bytes, gs: seq<bytes>, y: bytes)
    requires |fs| == |gs| && Short(fs) && Short(gs)
    requires SerializeFields(fs) + x == SerializeFields(gs) + y
    ensures fs == gs && x == y
  {
    if fs == [] {
      assert SerializeFields(fs) + x == x && SerializeFields(gs) + y == y;
    } else {
      FirstField(fs, x);
      FirstField(gs, y);
      Peel(fs[0], SerializeFields(fs[1..]) + x, gs[0], SerializeFields(gs[1..]) + y);
      PeelFields(fs[1..], x, gs[1..], y);
      assert fs == [fs[0]] + fs[1..] && gs == [gs[0]] + gs[1..];
    }
  }

  lemma {:induction false} CapturesFromFields(cs: seq<CaptureRow>, ds: seq<CaptureRow>)
    requires AllCaptureFields(cs) == AllCaptureFields(ds)
    ensures cs == ds
  {
    assert |AllCaptureFields(cs)| == |AllCaptureFields(ds)|;
    if cs != [] {
      var c, d := cs[0], ds[0];
      assert CaptureFields(c) == AllCaptureFields(cs)[..3] == CaptureFields(d);
      assert CaptureFields(c)[0] == CaptureFields(d)[0] && CaptureFields(c)[1] == CaptureFields(d)[1];
      Utf8Injective(c.effect, d.effect);
      Utf8Injective(c.id, d.id);
      assert c.original == CaptureFields(c)[2] == CaptureFields(d)[2] == d.original;
      assert AllCaptureFields(cs[1..]) == AllCaptureFields(cs)[3..] == AllCaptureFields(ds[1..]);
      CapturesFromFields(cs[1..], ds[1..]);
      assert cs == [c] + cs[1..] && ds == [d] + ds[1..];
    }
  }

  lemma RecordFromFields(r: AttestationRow, s: AttestationRow)
    requires RecordFields(r) == RecordFields(s)
    ensures r == s
  {
    var f, g := RecordFields(r), RecordFields(s);
    assert f[0] == g[0] && f[1] == g[1] && f[2] == g[2] && f[3] == g[3] && f[4] == g[4] && f[5] == g[5];
    Utf8Injective(r.capture, s.capture);
    Utf8Injective(r.parent, s.parent);
    Utf8Injective(r.hash, s.hash);
    Utf8Injective(r.replay, s.replay);
  }

  lemma {:induction false} RecordsFromFields(rs: seq<AttestationRow>, ss: seq<AttestationRow>)
    requires AllRecordFields(rs) == AllRecordFields(ss)
    ensures rs == ss
  {
    assert |AllRecordFields(rs)| == |AllRecordFields(ss)|;
    if rs != [] {
      assert RecordFields(rs[0]) == AllRecordFields(rs)[..6] == RecordFields(ss[0]);
      RecordFromFields(rs[0], ss[0]);
      assert AllRecordFields(rs[1..]) == AllRecordFields(rs)[6..] == AllRecordFields(ss[1..]);
      RecordsFromFields(rs[1..], ss[1..]);
      assert rs == [rs[0]] + rs[1..] && ss == [ss[0]] + ss[1..];
    }
  }

  /** What the seal covers determines the clock floor and every stored row. */
  lemma SealCoversEverything(l: Ledger, m: Ledger)
    requires Writable(l) && Writable(m)
    requires Serialize(l.floor, l.captures, l.records) == Serialize(m.floor, m.captures, m.records)
    ensures l.floor == m.floor && l.captures == m.captures && l.records == m.records
  {
    var lc, lr := AllCaptureFields(l.captures), AllRecordFields(l.records);
    var mc, mr := AllCaptureFields(m.captures), AllRecordFields(m.records);
    var l2, m2 := LittleEndian(|l.records|, 8) + SerializeFields(lr), LittleEndian(|m.records|, 8) + SerializeFields(mr);
    var l1, m1 := SerializeFields(lc) + l2, SerializeFields(mc) + m2;
    var l0, m0 := LittleEndian(|l.captures|, 8) + l1, LittleEndian(|m.captures|, 8) + m1;
    assert Serialize(l.floor, l.captures, l.records)[1..] == LittleEndian(l.floor, 8) + l0;
    assert Serialize(m.floor, m.captures, m.records)[1..] == LittleEndian(m.floor, 8) + m0;
    PeelNat(l.floor, l0, m.floor, m0);
    PeelNat(|l.captures|, l1, |m.captures|, m1);
    PeelFields(lc, l2, mc, m2);
    PeelNat(|l.records|, SerializeFields(lr), |m.records|, SerializeFields(mr));
    assert SerializeFields(lr) + [] == SerializeFields(lr) && SerializeFields(mr) + [] == SerializeFields(mr);
    PeelFields(lr, [], mr, []);
    CapturesFromFields(l.captures, m.captures);
    RecordsFromFields(l.records, m.records);
  }

  /** Two ledgers with the same message are the same ledger, unless the hash collides on them. */
  lemma MessageBindsLedger(hash: bytes -> bytes, configuration: bytes, l: Ledger, m: Ledger)
    requires Writable(l) && Writable(m)
    requires Message(hash, configuration, l.floor, l.captures, l.records)
          == Message(hash, configuration, m.floor, m.captures, m.records)
    ensures || (&& hash(Serialize(l.floor, l.captures, l.records)) == hash(Serialize(m.floor, m.captures, m.records))
                && Serialize(l.floor, l.captures, l.records) != Serialize(m.floor, m.captures, m.records))
            || (l.floor == m.floor && l.captures == m.captures && l.records == m.records)
  {
    var n := |Utf8(SEAL_DOMAIN) + configuration|;
    var a, b := Serialize(l.floor, l.captures, l.records), Serialize(m.floor, m.captures, m.records);
    assert hash(a) == Message(hash, configuration, l.floor, l.captures, l.records)[n..];
    assert hash(b) == Message(hash, configuration, m.floor, m.captures, m.records)[n..];
    if a == b {
      SealCoversEverything(l, m);
    }
  }

  /** The issuer with the wire forms of this module. */
  function FrankIssuer(configuration: bytes, hash: bytes -> bytes, sign: bytes -> bytes, verify: (bytes, bytes) -> bool,
                       replay: Output -> Option<string>, selectorOk: (bytes, string, string) -> bool,
                       recordOk: (Output, string, string, bytes) -> bool): (a: Issuer)
  {
    Issuer(hash, Encode, Decode,
           (floor: u64, cs: seq<CaptureRow>, rs: seq<AttestationRow>) => Message(hash, configuration, floor, cs, rs),
           sign, verify, replay, selectorOk, recordOk)
  }

  /** Those wire forms are all a sound issuer needs beside its hash and its key. */
  lemma FrankIssuerSound(configuration: bytes, hash: bytes -> bytes, sign: bytes -> bytes,
                         verify: (bytes, bytes) -> bool, replay: Output -> Option<string>,
                         selectorOk: (bytes, string, string) -> bool, recordOk: (Output, string, string, bytes) -> bool)
    requires forall b :: |hash(b)| == 32
    requires forall m :: |sign(m)| == 64 && verify(m, sign(m))
    requires forall o :: replay(o).Some? ==> IsDigest(replay(o).value)
    ensures FrankIssuer(configuration, hash, sign, verify, replay, selectorOk, recordOk).Sound()
  {
    forall o | |Encode(o)| <= MAX_RECORD
      ensures Decode(Encode(o)) == Some(o)
    {
      DecodeOfEncode(o);
    }
  }
}
