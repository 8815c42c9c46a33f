/** JSON string literals and white space, as read from bytes (sections 2 and 7 of RFC 8259). */
module JsonText {
  import opened Bytes
  import opened Text
  import opened Wrappers
  import opened Seqs
  import opened JsonValue

  predicate IsSpace(b: byte) { b == 0x20 || b == 0x0D || b == 0x0A || b == 0x09 }

  function SkipSpace(s: bytes): (r: bytes)
    ensures |r| <= |s|
    ensures r != [] ==> !IsSpace(r[0])
  {
    if s != [] && IsSpace(s[0]) then SkipSpace(s[1..]) else s
  }

  function HexValue(b: byte): (r: Option<nat>)
    ensures r.Some? ==> r.value < 16
  {
    if 0x30 <= b <= 0x39 then Some(b - 0x30)
    else if 0x61 <= b <= 0x66 then Some(b - 0x61 + 10)
    else if 0x41 <= b <= 0x46 then Some(b - 0x41 + 10)
    else None
  }

  /** Four hexadecimal digits. */
  function Hex4(s: bytes): (r: Option<nat>)
    ensures r.Some? ==> |s| >= 4 && r.value < 0x1_0000
  {
    if |s| < 4 then None
    else
      var a :- HexValue(s[0]);
      var b :- HexValue(s[1]);
      var c :- HexValue(s[2]);
      var d :- HexValue(s[3]);
      Some(a * 0x1000 + b * 0x100 + c * 0x10 + d)
  }

  /** The character behind a one-letter escape. */
  function ShortEscape(b: byte): Option<char> {
    if b == 0x22 || b == 0x5C || b == 0x2F then Some(b as char)
    else if b == 0x62 then Some(0x08 as char)
    else if b == 0x66 then Some(0x0C as char)
    else if b == 0x6E then Some(0x0A as char)
    else if b == 0x72 then Some(0x0D as char)
    else if b == 0x74 then Some(0x09 as char)
    else None
  }

  /** A character and the number of bytes that spell it. */
  datatype Unit = Unit(c: char, width: nat)

  /** The `\u` escapes: one for a scalar value, two for a surrogate pair. */
  function LongEscape(s: bytes): (r: Option<Unit>)
    requires |s| >= 2 && s[0] == 0x5C && s[1] == 0x75
    ensures r.Some? ==> 6 <= r.value.width <= |s|
  {
    var x :- Hex4(s[2..]);
    if Scalar(x) then Some(Unit(x as char, 6))
    else if 0xD800 <= x < 0xDC00 && |s| >= 12 && s[6] == 0x5C && s[7] == 0x75 then
      var y :- Hex4(s[8..]);
      if 0xDC00 <= y < 0xE000 then Some(Unit((0x1_0000 + (x - 0xD800) * 0x400 + (y - 0xDC00)) as char, 12))
      else None
    else None
  }

  /** One character of a string literal. */
  function ReadUnit(s: bytes): (r: Option<Unit>)
    ensures r.Some? ==> 1 <= r.value.width <= |s|
  {
    if s == [] || s[0] < 0x20 || s[0] == 0x22 then None
    else if s[0] == 0x5C then
      if |s| < 2 then None
      else if s[1] == 0x75 then LongEscape(s)
      else
        var c :- ShortEscape(s[1]);
        Some(Unit(c, 2))
    else
      var d :- DecodeChar(s);
      Some(Unit(d.c, d.width))
  }

  /** The rest of a string literal after its opening quote, up to and over the closing one. */
  function ReadString(s: bytes): (r: Option<(string, bytes)>)
    ensures r.Some? ==> |r.value.1| < |s|
    decreases |s|
  {
    if s != [] && s[0] == 0x22 then Some(("", s[1..]))
    else
      var u :- ReadUnit(s);
      var rest :- ReadString(s[u.width..]);
      Some(([u.c] + rest.0, rest.1))
  }

  lemma ReadUnitOfEscape(c: char, rest: bytes)
    ensures ReadUnit(Escape(c) + rest) == Some(Unit(c, |Escape(c)|))
  {
    var x := c as int;
    var s := Escape(c) + rest;
    if 0x20 <= x && x != 0x22 && x != 0x5C {
      DecodeCharOfUtf8(c, rest);
      assert s[0] == Utf8Char(c)[0];
    } else if x < 0x20 && x !in {0x08, 0x09, 0x0A, 0x0C, 0x0D} {
      assert s[2..][0] == 0x30 && s[2..][1] == 0x30 && s[2..][2] == HexByte(x / 16) && s[2..][3] == HexByte(x % 16);
      assert Hex4(s[2..]) == Some(x);
    } else {
      assert s[0] == 0x5C && s[1] == Escape(c)[1];
    }
  }

  /** What was escaped reads back. */
  lemma {:induction false} ReadStringOfEscaped(t: string, rest: bytes)
    ensures ReadString(Escaped(t) + ([0x22] + rest)) == Some((t, rest))
  {
    var tail := [0x22] + rest;
    if t == [] {
      assert Escaped(t) + tail == tail;
    } else {
      ReadStringOfEscaped(t[1..], rest);
      Assoc(Escape(t[0]), Escaped(t[1..]), tail);
      ReadUnitOfEscape(t[0], Escaped(t[1..]) + tail);
      DropHead(Escape(t[0]), Escaped(t[1..]) + tail);
      NotClosing(t[0], Escaped(t[1..]) + tail);
      Uncons(t);
    }
  }

  lemma NotClosing(c: char, rest: bytes)
    ensures (Escape(c) + rest)[0] != 0x22
  {
  }
}
