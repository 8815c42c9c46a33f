/** Text: UTF-8 (section 3 of RFC 3629), code-point order, lower-case hex digests and trimming. */
module Text {
  import opened Bytes
  import opened Wrappers
  import opened Seqs

  /** The UTF-8 width of a character. */
  function Width(c: char): (n: nat)
    ensures 1 <= n <= 4
  {
    var x := c as int;
    if x < 0x80 then 1 else if x < 0x800 then 2 else if x < 0x1_0000 then 3 else 4
  }

  function Utf8Char(c: char): (r: bytes)
    ensures |r| == Width(c)
    ensures r[0] < 0x80 <==> c as int < 0x80
    ensures c as int < 0x80 ==> r == [c as int]
  {
    var x := c as int;
    if x < 0x80 then [x]
    else if x < 0x800 then [0xC0 + x / 0x40, 0x80 + x % 0x40]
    else if x < 0x1_0000 then [0xE0 + x / 0x1000, 0x80 + x / 0x40 % 0x40, 0x80 + x % 0x40]
    else
      [0xF0 + x / 0x4_0000, 0x80 + x / 0x1000 % 0x40, 0x80 + x / 0x40 % 0x40, 0x80 + x % 0x40]
  }

  function Utf8(s: string): (r: bytes)
    ensures |r| == Utf8Len(s)
  {
    if s == [] then [] else Utf8Char(s[0]) + Utf8(s[1..])
  }

  /** The length Rust reports for a string. */
  function Utf8Len(s: string): nat {
    if s == [] then 0 else Width(s[0]) + Utf8Len(s[1..])
  }

  lemma {:induction false} Utf8Concat(a: string, b: string)
    ensures Utf8(a + b) == Utf8(a) + Utf8(b)
  {
    if a == [] {
      assert a + b == b;
    } else {
      Utf8Concat(a[1..], b);
      assert (a + b)[1..] == a[1..] + b && (a + b)[0] == a[0];
      Assoc(Utf8Char(a[0]), Utf8(a[1..]), Utf8(b));
    }
  }

  lemma {:induction false} Utf8LenBounds(s: string)
    ensures |s| <= Utf8Len(s) <= 4 * |s|
  {
    if s != [] {
      Utf8LenBounds(s[1..]);
    }
  }

  /** A Unicode scalar value: a code point that is not a surrogate. */
  predicate Scalar(x: int) {
    0 <= x < 0xD800 || 0xE000 <= x < 0x11_0000
  }

  datatype Decoded = Decoded(c: char, width: nat)

  predicate Continuations(b: bytes, n: nat) {
    n <= |b| && forall i | 1 <= i < n :: 0x80 <= b[i] < 0xC0
  }

  /** The first character of a byte string, if a valid UTF-8 sequence starts there. */
  function DecodeChar(b: bytes): (r: Option<Decoded>)
    ensures r.Some? ==> 1 <= r.value.width <= |b|
  {
    if |b| == 0 then None
    else if b[0] < 0x80 then Some(Decoded(b[0] as char, 1))
    else if b[0] < 0xE0 then
      if Continuations(b, 2) then Checked(Code2(b[0], b[1]), 0x80, 0x800, 2) else None
    else if b[0] < 0xF0 then
      if Continuations(b, 3) then Checked(Code3(b[0], b[1], b[2]), 0x800, 0x1_0000, 3) else None
    else if Continuations(b, 4) then
      Checked(Code4(b[0], b[1], b[2], b[3]), 0x1_0000, 0x11_0000, 4)
    else None
  }

  function Code2(b0: int, b1: int): int { (b0 - 0xC0) * 0x40 + (b1 - 0x80) }

  function Code3(b0: int, b1: int, b2: int): int {
    (b0 - 0xE0) * 0x1000 + (b1 - 0x80) * 0x40 + (b2 - 0x80)
  }

  function Code4(b0: int, b1: int, b2: int, b3: int): int {
    (b0 - 0xF0) * 0x4_0000 + (b1 - 0x80) * 0x1000 + (b2 - 0x80) * 0x40 + (b3 - 0x80)
  }

  /** Over-long forms and surrogates are refused. */
  function Checked(x: int, low: nat, high: nat, width: nat): (r: Option<Decoded>)
    requires high <= 0x11_0000
    ensures r.Some? ==> low <= x < high && r.value.c as int == x && r.value.width == width
  {
    if low <= x < high && Scalar(x) then Some(Decoded(x as char, width)) else None
  }

  lemma DecodeCharOfUtf8(c: char, rest: bytes)
    ensures DecodeChar(Utf8Char(c) + rest) == Some(Decoded(c, Width(c)))
  {
    var x := c as int;
    var b := Utf8Char(c) + rest;
    if x < 0x80 {
    } else if x < 0x800 {
      assert b[0] == 0xC0 + x / 0x40 && b[1] == 0x80 + x % 0x40;
      assert Code2(b[0], b[1]) == x;
    } else if x < 0x1_0000 {
      assert b[0] == 0xE0 + x / 0x1000 && b[1] == 0x80 + x / 0x40 % 0x40 && b[2] == 0x80 + x % 0x40;
      CodeOfParts(x);
    } else {
      assert b[0] == 0xF0 + x / 0x4_0000 && b[1] == 0x80 + x / 0x1000 % 0x40;
      assert b[2] == 0x80 + x / 0x40 % 0x40 && b[3] == 0x80 + x % 0x40;
      CodeOfParts(x);
    }
  }

  /** Dividing by sixty-four step by step. */
  lemma CodeOfParts(x: nat)
    ensures Code3(0xE0 + x / 0x1000, 0x80 + x / 0x40 % 0x40, 0x80 + x % 0x40) == x
    ensures Code4(0xF0 + x / 0x4_0000, 0x80 + x / 0x1000 % 0x40, 0x80 + x / 0x40 % 0x40, 0x80 + x % 0x40) == x
  {
    var y := x / 0x40;
    var z := y / 0x40;
    assert z == x / 0x1000;
    assert z / 0x40 == x / 0x4_0000;
    assert x == y * 0x40 + x % 0x40 && y == z * 0x40 + y % 0x40 && z == z / 0x40 * 0x40 + z % 0x40;
  }

  lemma PartsOfCode(a: nat, b: nat, c: nat, d: nat)
    requires b < 0x40 && c < 0x40 && d < 0x40
    ensures var x := a * 0x4_0000 + b * 0x1000 + c * 0x40 + d;
            x / 0x4_0000 == a && x / 0x1000 % 0x40 == b && x / 0x40 % 0x40 == c && x % 0x40 == d
  {
    var x := a * 0x4_0000 + b * 0x1000 + c * 0x40 + d;
    assert x / 0x40 == a * 0x1000 + b * 0x40 + c;
    assert x / 0x1000 == a * 0x40 + b;
  }

  /** What decodes is the UTF-8 form of the character it decodes to. */
  lemma DecodeCharSound(b: bytes)
    requires DecodeChar(b).Some?
    ensures var d := DecodeChar(b).value; b[..d.width] == Utf8Char(d.c)
  {
    var d := DecodeChar(b).value;
    if b[0] < 0x80 {
    } else if b[0] < 0xE0 {
      PartsOfCode(0, 0, b[0] - 0xC0, b[1] - 0x80);
    } else if b[0] < 0xF0 {
      PartsOfCode(0, b[0] - 0xE0, b[1] - 0x80, b[2] - 0x80);
      assert d.c as int / 0x1000 == b[0] - 0xE0;
    } else {
      PartsOfCode(b[0] - 0xF0, b[1] - 0x80, b[2] - 0x80, b[3] - 0x80);
    }
  }

  /** UTF-8 loses nothing. */
  lemma {:induction false} Utf8Injective(a: string, b: string)
    requires Utf8(a) == Utf8(b)
    ensures a == b
  {
    if a == [] || b == [] {
    } else {
      DecodeCharOfUtf8(a[0], Utf8(a[1..]));
      DecodeCharOfUtf8(b[0], Utf8(b[1..]));
      assert Utf8(a)[Width(a[0])..] == Utf8(a[1..]);
      assert Utf8(b)[Width(b[0])..] == Utf8(b[1..]);
      Utf8Injective(a[1..], b[1..]);
    }
  }

  /** The text a byte string encodes, if it is valid UTF-8. */
  function FromUtf8(b: bytes): (r: Option<string>)
    ensures r.Some? ==> Utf8(r.value) == b
    decreases |b|
  {
    if b == [] then Some([])
    else
      var d :- DecodeChar(b);
      var rest :- FromUtf8(b[d.width..]);
      DecodeCharSound(b);
      assert b == b[..d.width] + b[d.width..];
      assert Utf8([d.c] + rest) == Utf8Char(d.c) + Utf8(rest);
      Some([d.c] + rest)
  }

  lemma {:induction false} FromUtf8OfUtf8(s: string)
    ensures FromUtf8(Utf8(s)) == Some(s)
  {
    if s != [] {
      DecodeCharOfUtf8(s[0], Utf8(s[1..]));
      assert Utf8(s)[Width(s[0])..] == Utf8(s[1..]);
      FromUtf8OfUtf8(s[1..]);
      assert [s[0]] + s[1..] == s;
    }
  }

  /** Lexicographic order. On code points it is also the byte order of the UTF-8 texts. */
  predicate Less(a: seq<int>, b: seq<int>) {
    if b == [] then false
    else if a == [] then true
    else a[0] < b[0] || (a[0] == b[0] && Less(a[1..], b[1..]))
  }

  function Codes(s: string): (r: seq<int>)
    ensures |r| == |s|
  {
    seq(|s|, i requires 0 <= i < |s| => s[i] as int)
  }

  predicate TextLess(a: string, b: string) { Less(Codes(a), Codes(b)) }

  lemma {:induction false} LessTotal(a: seq<int>, b: seq<int>)
    ensures a == b || Less(a, b) || Less(b, a)
    ensures !(Less(a, b) && Less(b, a)) && !Less(a, a)
  {
    if a != [] && b != [] {
      LessTotal(a[1..], b[1..]);
      LessTotal(a[1..], a[1..]);
      if a[0] == b[0] && a[1..] == b[1..] {
        assert a == [a[0]] + a[1..] && b == [b[0]] + b[1..];
      }
    } else if a != [] {
      LessTotal(a[1..], a[1..]);
    }
  }

  lemma {:induction false} LessTransitive(a: seq<int>, b: seq<int>, c: seq<int>)
    requires Less(a, b) && Less(b, c)
    ensures Less(a, c)
  {
    if a != [] && a[0] == b[0] == c[0] {
      LessTransitive(a[1..], b[1..], c[1..]);
    }
  }

  lemma CodesInjective(a: string, b: string)
    requires Codes(a) == Codes(b)
    ensures a == b
  {
    forall i | 0 <= i < |a|
      ensures a[i] == b[i]
    {
      assert Codes(a)[i] == Codes(b)[i];
    }
  }

  lemma TextLessTotal(a: string, b: string)
    ensures a == b || TextLess(a, b) || TextLess(b, a)
    ensures !(TextLess(a, b) && TextLess(b, a)) && !TextLess(a, a)
  {
    LessTotal(Codes(a), Codes(b));
    LessTotal(Codes(a), Codes(a));
    if Codes(a) == Codes(b) {
      CodesInjective(a, b);
    }
  }

  predicate IsDigit(c: char) { '0' <= c <= '9' }
  predicate IsLower(c: char) { 'a' <= c <= 'z' }
  predicate IsUpper(c: char) { 'A' <= c <= 'Z' }
  predicate IsAlphanumeric(c: char) { IsDigit(c) || IsLower(c) || IsUpper(c) }
  predicate IsHex(c: char) { IsDigit(c) || 'a' <= c <= 'f' }

  /** Sixty-four lower-case hexadecimal digits. */
  predicate IsDigest(s: string) {
    |s| == 64 && forall c | c in s :: IsHex(c)
  }

  function HexDigit(n: nat): (c: char)
    requires n < 16
    ensures IsHex(c)
  {
    if n < 10 then '0' + n as char else 'a' + (n - 10) as char
  }

  function Hex(b: bytes): (s: string)
    ensures |s| == 2 * |b| && forall c | c in s :: IsHex(c)
  {
    if b == [] then [] else [HexDigit(b[0] / 16), HexDigit(b[0] % 16)] + Hex(b[1..])
  }

  /** The Unicode White_Space property. */
  predicate IsWhitespace(c: char) {
    var x := c as int;
    || 0x09 <= x <= 0x0D || x == 0x20 || x == 0x85 || x == 0xA0 || x == 0x1680
    || 0x2000 <= x <= 0x200A || x == 0x2028 || x == 0x2029 || x == 0x202F || x == 0x205F || x == 0x3000
  }

  /** Whether trimming leaves nothing. */
  predicate Blank(s: string) { forall c | c in s :: IsWhitespace(c) }

  /** The parts before and after the first such character. */
  function SplitOnce(s: string, c: char): (r: Option<(string, string)>)
    ensures r.Some? <==> c in s
    ensures r.Some? ==> s == r.value.0 + [c] + r.value.1 && c !in r.value.0
  {
    if s == "" then None
    else if s[0] == c then Some(("", s[1..]))
    else
      var rest :- SplitOnce(s[1..], c);
      Some(([s[0]] + rest.0, rest.1))
  }

  function Lower(s: string): string {
    seq(|s|, i requires 0 <= i < |s| => if IsUpper(s[i]) then (s[i] as int + 32) as char else s[i])
  }
}
