/** Unpadded base64url (section 5 of RFC 4648), encoding and two decoders. */
module Base64Url {
  import opened Bytes
  import opened Wrappers
  import opened Seqs

  // ----------------------------------------------------------------- symbols

  type sextet = x: int | 0 <= x < 64

  function Symbol(n: sextet): (c: byte)
  {
    if n < 26 then 0x41 + n
    else if n < 52 then 0x61 + (n - 26)
    else if n < 62 then 0x30 + (n - 52)
    else if n == 62 then 0x2D
    else 0x5F
  }

  function SymbolValue(c: byte): (r: Option<sextet>)
    ensures r.Some? ==> Symbol(r.value) == c
  {
    if 0x41 <= c <= 0x5A then Some(c - 0x41)
    else if 0x61 <= c <= 0x7A then Some(c - 0x61 + 26)
    else if 0x30 <= c <= 0x39 then Some(c - 0x30 + 52)
    else if c == 0x2D then Some(62)
    else if c == 0x5F then Some(63)
    else None
  }

  lemma SymbolRoundTrip(n: sextet)
    ensures SymbolValue(Symbol(n)) == Some(n)
  {
  }

  // ------------------------------------------------------------------ groups

  /** One to three bytes as two to four sextets, missing bytes read as zero. */
  function Sextets(g: bytes): (r: seq<sextet>)
    requires 1 <= |g| <= 3
    ensures |r| == |g| + 1
  {
    var first := g[0] as int;
    var second := if |g| > 1 then g[1] as int else 0;
    var third := if |g| > 2 then g[2] as int else 0;
    [first / 4, first % 4 * 16 + second / 16]
    + (if |g| >= 2 then [second % 16 * 4 + third / 64] else [])
    + (if |g| == 3 then [third % 64] else [])
  }

  /** The bytes of two to four sextets; unused low bits must be zero. */
  function FromSextets(s: seq<sextet>): (r: Option<bytes>)
    requires 2 <= |s| <= 4
    ensures r.Some? ==> |r.value| == |s| - 1
  {
    var b0 := s[0] as int * 4 + s[1] as int / 16;
    if |s| == 2 then if s[1] % 16 != 0 then None else Some([b0])
    else
      var b1 := s[1] as int % 16 * 16 + s[2] as int / 4;
      if |s| == 3 then if s[2] % 4 != 0 then None else Some([b0, b1])
      else Some([b0, b1, s[2] as int % 4 * 64 + s[3] as int])
  }

  lemma Joined4(a: int, b: int)
    requires 0 <= b < 4
    ensures (a * 4 + b) / 4 == a && (a * 4 + b) % 4 == b
  {
  }

  lemma Joined16(a: int, b: int)
    requires 0 <= b < 16
    ensures (a * 16 + b) / 16 == a && (a * 16 + b) % 16 == b
  {
  }

  lemma Joined64(a: int, b: int)
    requires 0 <= b < 64
    ensures (a * 64 + b) / 64 == a && (a * 64 + b) % 64 == b
  {
  }

  lemma SextetRoundTrip(g: bytes)
    requires 1 <= |g| <= 3
    ensures FromSextets(Sextets(g)) == Some(g)
  {
    var s := Sextets(g);
    var first := g[0] as int;
    var second := if |g| > 1 then g[1] as int else 0;
    var third := if |g| > 2 then g[2] as int else 0;
    Joined16(first % 4, second / 16);
    Joined4(second % 16, third / 64);
    assert first / 4 * 4 + first % 4 == first && second / 16 * 16 + second % 16 == second;
    assert third / 64 * 64 + third % 64 == third;
    assert FromSextets(s).Some? && FromSextets(s).value == g;
  }

  lemma ByteRoundTrip(s: seq<sextet>)
    requires 2 <= |s| <= 4 && FromSextets(s).Some?
    ensures Sextets(FromSextets(s).value) == s
  {
    Joined4(s[0], s[1] as int / 16);
    if |s| > 2 {
      Joined16(s[1] as int % 16, s[2] as int / 4);
    }
    if |s| == 4 {
      Joined64(s[2] as int % 4, s[3]);
    }
  }

  function Symbols(s: seq<sextet>): (r: bytes)
    ensures |r| == |s|
  {
    seq(|s|, i requires 0 <= i < |s| => Symbol(s[i]))
  }

  /** The first symbol without a value spoils the group. */
  function SymbolValues(g: bytes): (r: Option<seq<sextet>>)
    ensures r.Some? ==> |r.value| == |g| && Symbols(r.value) == g
  {
    if g == [] then Some([])
    else
      var n :- SymbolValue(g[0]);
      var rest :- SymbolValues(g[1..]);
      assert Symbols([n] + rest) == [g[0]] + Symbols(rest);
      Some([n] + rest)
  }

  lemma {:induction false} SymbolsRoundTrip(s: seq<sextet>)
    ensures SymbolValues(Symbols(s)) == Some(s)
  {
    if s != [] {
      SymbolRoundTrip(s[0]);
      SymbolsRoundTrip(s[1..]);
      assert Symbols(s)[1..] == Symbols(s[1..]);
      Uncons(s);
    }
  }

  function EncodeGroup(g: bytes): (r: bytes)
    requires 1 <= |g| <= 3
    ensures |r| == |g| + 1
  {
    Symbols(Sextets(g))
  }

  function DecodeGroup(g: bytes): (r: Option<bytes>)
    requires 1 <= |g| <= 4
    ensures r.Some? ==> |g| > 1 && |r.value| == |g| - 1
  {
    if |g| == 1 then None
    else
      var s :- SymbolValues(g);
      FromSextets(s)
  }

  lemma DecodeEncodedGroup(g: bytes)
    requires 1 <= |g| <= 3
    ensures DecodeGroup(EncodeGroup(g)) == Some(g)
  {
    SymbolsRoundTrip(Sextets(g));
    SextetRoundTrip(g);
  }

  lemma EncodeDecodedGroup(g: bytes)
    requires 1 <= |g| <= 4 && DecodeGroup(g).Some?
    ensures EncodeGroup(DecodeGroup(g).value) == g
  {
    ByteRoundTrip(SymbolValues(g).value);
  }

  // --------------------------------------------------------------- sequences

  function Encode(b: bytes): (r: bytes)
  {
    if b == [] then []
    else if |b| <= 3 then EncodeGroup(b)
    else EncodeGroup(b[..3]) + Encode(b[3..])
  }

  function Decode(s: bytes): (r: Option<bytes>)
  {
    if s == [] then Some([])
    else if |s| <= 4 then DecodeGroup(s)
    else
      var first :- DecodeGroup(s[..4]);
      var rest :- Decode(s[4..]);
      Some(first + rest)
  }

  /** How many symbols so many bytes take. */
  function EncodedLength(n: nat): nat { (n + 2) / 3 * 4 - (3 - n % 3) % 3 }

  lemma LengthStep(n: nat)
    ensures EncodedLength(n + 3) == EncodedLength(n) + 4
  {
    var q, r := n / 3, n % 3;
    assert n == 3 * q + r;
    assert (n + 3) / 3 == q + 1 && (n + 3) % 3 == r;
    assert (n + 2) / 3 == (if r == 0 then q else q + 1);
    assert (n + 5) / 3 == (if r == 0 then q + 1 else q + 2);
  }

  lemma {:induction false} EncodeLength(b: bytes)
    ensures |Encode(b)| == EncodedLength(|b|)
  {
    if |b| > 3 {
      EncodeLength(b[3..]);
      LengthStep(|b| - 3);
    }
  }

  lemma {:induction false} DecodeOfEncode(b: bytes)
    ensures Decode(Encode(b)) == Some(b)
  {
    if 0 < |b| <= 3 {
      DecodeEncodedGroup(b);
    } else if |b| > 3 {
      DecodeEncodedGroup(b[..3]);
      DecodeOfEncode(b[3..]);
      DropHead(EncodeGroup(b[..3]), Encode(b[3..]));
      assert |Encode(b[3..])| > 0;
      assert b == b[..3] + b[3..];
    }
  }

  /** Whatever decodes is the encoding of what it decodes to. */
  lemma {:induction false} EncodeOfDecode(s: bytes)
    requires Decode(s).Some?
    ensures Encode(Decode(s).value) == s
  {
    if 0 < |s| <= 4 {
      EncodeDecodedGroup(s);
    } else if |s| > 4 {
      EncodeDecodedGroup(s[..4]);
      EncodeOfDecode(s[4..]);
      var first, rest := DecodeGroup(s[..4]).value, Decode(s[4..]).value;
      assert rest != [];
      DropHead(first, rest);
      assert s == s[..4] + s[4..];
    }
  }

  // ----------------------------------------------------------- exact decoding

  /** The text of exactly so many bytes. */
  function Exactly(s: bytes, n: nat): Option<bytes> { if |s| == EncodedLength(n) then Decode(s) else None }

  lemma EncodedLengthGrows(m: nat, n: nat)
    requires m < n
    ensures EncodedLength(m) < EncodedLength(n)
  {
    var q, r := m / 3, m % 3;
    var p, t := n / 3, n % 3;
    assert m == 3 * q + r && n == 3 * p + t;
    assert (m + 2) / 3 == (if r == 0 then q else q + 1);
    assert (n + 2) / 3 == (if t == 0 then p else p + 1);
  }

  /** A text is accepted for a length exactly when it is the encoding of that many bytes. */
  lemma ExactlyIsTheInverse(s: bytes, n: nat, b: bytes)
    ensures Exactly(s, n) == Some(b) <==> |b| == n && s == Encode(b)
  {
    EncodeLength(b);
    if Exactly(s, n) == Some(b) {
      EncodeOfDecode(s);
      if |b| < n {
        EncodedLengthGrows(|b|, n);
      } else if n < |b| {
        EncodedLengthGrows(n, |b|);
      }
    } else if |b| == n && s == Encode(b) {
      DecodeOfEncode(b);
    }
  }

  lemma {:induction false} NoPadding(b: bytes)
    ensures 0x3D !in Encode(b)
  {
    if |b| > 3 {
      NoPadding(b[3..]);
    }
  }

  lemma PaddingNeverDecodes(s: bytes)
    requires 0x3D in s
    ensures Decode(s).None?
  {
    if Decode(s).Some? {
      EncodeOfDecode(s);
      NoPadding(Decode(s).value);
    }
  }

  // ------------------------------------------------------------------- loops

  function Smaller(a: nat, b: nat): nat { if a < b then a else b }

  function Then(prefix: bytes, r: Option<bytes>): Option<bytes> {
    if r.Some? then Some(prefix + r.value) else None
  }

  lemma ThenThen(a: bytes, b: bytes, r: Option<bytes>)
    ensures Then(a, Then(b, r)) == Then(a + b, r)
  {
    if r.Some? {
      Assoc(a, b, r.value);
    }
  }

  lemma ThenEmpty(a: bytes, r: Option<bytes>)
    ensures Then([], r) == r && Then(a, Some([])) == Some(a)
  {
    assert r.Some? ==> [] + r.value == r.value;
    assert a + [] == a;
  }

  lemma EncodeStep(b: bytes, i: nat, j: nat)
    requires i < |b| && j == Smaller(i + 3, |b|)
    ensures Encode(b[i..]) == EncodeGroup(b[i..j]) + Encode(b[j..])
  {
    var rest := b[i..];
    if |rest| <= 3 {
      assert b[i..j] == rest && b[j..] == [];
    } else {
      assert b[i..j] == rest[..3] && b[j..] == rest[3..];
    }
  }

  lemma DecodeStep(s: bytes, i: nat, j: nat)
    requires i < |s| && j == Smaller(i + 4, |s|)
    ensures DecodeGroup(s[i..j]).None? ==> Decode(s[i..]).None?
    ensures DecodeGroup(s[i..j]).Some? ==> Decode(s[i..]) == Then(DecodeGroup(s[i..j]).value, Decode(s[j..]))
  {
    var rest := s[i..];
    if |rest| <= 4 {
      assert s[i..j] == rest && s[j..] == [];
      ThenEmpty(if DecodeGroup(rest).Some? then DecodeGroup(rest).value else [], None);
    } else {
      assert s[i..j] == rest[..4] && s[j..] == rest[4..];
    }
  }

  /** Everything before a position is decoded, and the rest is still to come. */
  predicate DecodedUpTo(s: bytes, i: nat, done: bytes) {
    i <= |s| && Decode(s) == Then(done, Decode(s[i..]))
  }

  lemma DecodedNothing(s: bytes)
    ensures DecodedUpTo(s, 0, [])
  {
    assert s[0..] == s;
    ThenEmpty([], Decode(s));
  }

  /** One more group: it spoils the whole text, or it is decoded with what came before. */
  lemma DecodedOneMore(s: bytes, i: nat, done: bytes, j: nat)
    requires DecodedUpTo(s, i, done) && i < |s| && j == Smaller(i + 4, |s|)
    ensures DecodeGroup(s[i..j]).None? ==> Decode(s).None?
    ensures DecodeGroup(s[i..j]).Some? ==> DecodedUpTo(s, j, done + DecodeGroup(s[i..j]).value)
  {
    DecodeStep(s, i, j);
    if DecodeGroup(s[i..j]).Some? {
      ThenThen(done, DecodeGroup(s[i..j]).value, Decode(s[j..]));
    }
  }

  lemma DecodedAll(s: bytes, done: bytes)
    requires DecodedUpTo(s, |s|, done)
    ensures Decode(s) == Some(done)
  {
    ThenEmpty(done, None);
  }

  method EncodeBytes(b: bytes) returns (out: bytes)
    ensures out == Encode(b)
  {
    out := [];
    var i := 0;
    assert b[0..] == b;
    while i < |b|
      invariant i <= |b| && out + Encode(b[i..]) == Encode(b)
    {
      var j := Smaller(i + 3, |b|);
      EncodeStep(b, i, j);
      Assoc(out, EncodeGroup(b[i..j]), Encode(b[j..]));
      out := out + EncodeGroup(b[i..j]);
      i := j;
    }
  }

  /** Decoding that checks the length and re-encodes what it found. */
  method DecodeExact(value: bytes, n: nat) returns (r: Option<bytes>)
    ensures r == Exactly(value, n)
  {
    if |value| != EncodedLength(n) { return None; }
    if 0x3D in value {
      PaddingNeverDecodes(value);
      return None;
    }
    var decoded: bytes, i := [], 0;
    DecodedNothing(value);
    while i < |value|
      invariant DecodedUpTo(value, i, decoded)
    {
      var j := Smaller(i + 4, |value|);
      DecodedOneMore(value, i, decoded, j);
      var d := DecodeGroup(value[i..j]);
      if d.None? { return None; }
      decoded := decoded + d.value;
      i := j;
    }
    DecodedAll(value, decoded);
    var again := EncodeBytes(decoded);
    ExactlyIsTheInverse(value, n, decoded);
    return if |decoded| != n || again != value then None else Some(decoded);
  }

  method CopyInto(out: array<byte>, k: nat, d: bytes)
    requires k + |d| <= out.Length
    modifies out
    ensures out[..k + |d|] == old(out[..k]) + d
  {
    forall x | 0 <= x < |d| {
      out[k + x] := d[x];
    }
  }

  /** The fixed-size decoder of the command line, filling its buffer in place and not re-encoding. */
  method Decode32(value: bytes) returns (r: Option<bytes>)
    ensures r == Exactly(value, 32)
  {
    if |value| != 43 { return None; }
    if 0x3D in value {
      PaddingNeverDecodes(value);
      return None;
    }
    var out := new byte[32](_ => 0);
    var k: nat, i: nat := 0, 0;
    ghost var done: bytes := [];
    DecodedNothing(value);
    while i < 43
      invariant DecodedUpTo(value, i, done)
      invariant out.Length == 32 && 3 * i - 1 <= 4 * k <= 3 * i
      invariant k <= 32 && out[..k] == done
    {
      var j := Smaller(i + 4, 43);
      DecodedOneMore(value, i, done, j);
      var d := DecodeGroup(value[i..j]);
      if d.None? || k + |d.value| > 32 { return None; }
      done := done + d.value;
      CopyInto(out, k, d.value);
      k := k + |d.value|;
      i := j;
    }
    DecodedAll(value, done);
    assert out[..k] == out[..];
    return if k == 32 then Some(out[..]) else None;
  }
}
