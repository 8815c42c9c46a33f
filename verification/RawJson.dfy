/** What the raw scanner accepts, as functions from a text to what follows the value it starts with. */
module RawJson {
  import opened Bytes
  import opened Text
  import opened Wrappers
  import opened JsonValue
  import opened JsonText
  import opened StrictJson

  const MAX_NESTING := 64

  /** A text and what follows the closing quote, for the rest of a literal after its opening quote. */
  type Reader = f: bytes -> Option<(string, bytes)> | forall s :: f(s).Some? ==> |f(s).value.1| < |s|
    witness s => None

  /** How string literals are decoded, and whether the decimal some bytes spell is a finite binary64 number. */
  datatype Lexer = Lexer(read: Reader, finite: bytes -> bool)

  // ----------------------------------------------------------------- numbers

  /** The digits at the start, one at least, and what follows. */
  function SomeDigits(s: bytes): (r: Option<bytes>)
    ensures r.Some? ==> |r.value| < |s| && r.value == s[|LeadingDigits(s)|..]
  {
    var d := LeadingDigits(s);
    if d == [] then None else Some(s[|d|..])
  }

  function WholePart(s: bytes): (r: Option<bytes>)
    ensures r.Some? ==> |r.value| < |s|
  {
    if s != [] && s[0] == 0x30 then Some(s[1..]) else SomeDigits(s)
  }

  function FractionPart(s: bytes): (r: Option<bytes>)
    ensures r.Some? ==> |r.value| <= |s|
  {
    if s != [] && s[0] == 0x2E then SomeDigits(s[1..]) else Some(s)
  }

  predicate Exponent(b: byte) { b == 0x65 || b == 0x45 }

  predicate Signed(b: byte) { b == 0x2B || b == 0x2D }

  function ExponentPart(s: bytes): (r: Option<bytes>)
    ensures r.Some? ==> |r.value| <= |s|
  {
    if s != [] && Exponent(s[0]) then
      if |s| > 1 && Signed(s[1]) then SomeDigits(s[2..]) else SomeDigits(s[1..])
    else Some(s)
  }

  /** What follows the digits, fraction and exponent, and whether there was either of the latter two. */
  function Magnitude(s: bytes): (r: Option<(bytes, bool)>)
    ensures r.Some? ==> |r.value.0| < |s|
  {
    var whole :- WholePart(s);
    var fraction :- FractionPart(whole);
    var rest :- ExponentPart(fraction);
    Some((rest, |rest| < |whole|))
  }

  function AfterSign(s: bytes): (r: bytes)
    ensures |r| <= |s|
  {
    if s != [] && s[0] == 0x2D then s[1..] else s
  }

  /** The part of a text before its rest. */
  function Before(s: bytes, rest: bytes): bytes
    requires |rest| <= |s|
  {
    s[..|s| - |rest|]
  }

  function ScanNumber(s: bytes, x: Lexer): (r: Option<bytes>)
    ensures r.Some? ==> |r.value| < |s|
  {
    var m :- Magnitude(AfterSign(s));
    if m.1 && !x.finite(Before(s, m.0)) then None else Some(m.0)
  }

  // ------------------------------------------------------------------ values

  function ScanString(s: bytes, x: Lexer): (r: Option<(string, bytes)>)
    ensures r.Some? ==> |r.value.1| < |s|
  {
    var t := SkipSpace(s);
    if t == [] || t[0] != 0x22 then None else x.read(t[1..])
  }

  function ScanByte(s: bytes, b: byte): (r: Option<bytes>)
    ensures r.Some? ==> |r.value| < |s|
  {
    var t := SkipSpace(s);
    if t == [] || t[0] != b then None else Some(t[1..])
  }

  function ScanWord(s: bytes, word: bytes): (r: Option<bytes>)
    requires word != []
    ensures r.Some? ==> |r.value| < |s|
  {
    if word <= s then Some(s[|word|..]) else None
  }

  /** A value at a depth, and what follows it. */
  function Scan(s: bytes, depth: nat, x: Lexer): (r: Option<bytes>)
    ensures r.Some? ==> |r.value| < |s|
    decreases |s|, 1
  {
    var t := SkipSpace(s);
    if depth > MAX_NESTING || t == [] then None
    else if t[0] == 0x22 then
      var str :- x.read(t[1..]);
      Some(str.1)
    else if t[0] == 0x7B then ScanObject(t[1..], depth, x)
    else if t[0] == 0x5B then ScanArray(t[1..], depth, x)
    else if t[0] == 0x74 then ScanWord(t, TRUE)
    else if t[0] == 0x66 then ScanWord(t, FALSE)
    else if t[0] == 0x6E then ScanWord(t, NULL)
    else if t[0] == 0x2D || IsDigitByte(t[0]) then ScanNumber(t, x)
    else None
  }

  function ScanObject(s: bytes, depth: nat, x: Lexer): (r: Option<bytes>)
    ensures r.Some? ==> |r.value| < |s|
    decreases |s|, 3
  {
    var t := SkipSpace(s);
    if t != [] && t[0] == 0x7D then Some(t[1..]) else ScanMembers(s, {}, depth, x)
  }

  function ScanArray(s: bytes, depth: nat, x: Lexer): (r: Option<bytes>)
    ensures r.Some? ==> |r.value| < |s|
    decreases |s|, 3
  {
    var t := SkipSpace(s);
    if t != [] && t[0] == 0x5D then Some(t[1..]) else ScanElements(s, depth, x)
  }

  /** A name and its colon. */
  function ScanHead(s: bytes, x: Lexer): (r: Option<(string, bytes)>)
    ensures r.Some? ==> |r.value.1| < |s|
  {
    var name :- ScanString(s, x);
    var rest :- ScanByte(name.1, 0x3A);
    Some((name.0, rest))
  }

  /** After a value: the closing byte, or a comma. */
  function ScanNext(s: bytes, close: byte): (r: Option<(bool, bytes)>)
    ensures r.Some? ==> |r.value.1| < |s|
  {
    var t := SkipSpace(s);
    if t != [] && (t[0] == close || t[0] == 0x2C) then Some((t[0] == close, t[1..])) else None
  }

  /** Members with names not seen before, then the closing brace. */
  function ScanMembers(s: bytes, names: set<string>, depth: nat, x: Lexer): (r: Option<bytes>)
    ensures r.Some? ==> |r.value| < |s|
    decreases |s|, 2
  {
    var head :- ScanHead(s, x);
    if head.0 in names then None
    else
      var value :- Scan(head.1, depth + 1, x);
      var next :- ScanNext(value, 0x7D);
      if next.0 then Some(next.1) else ScanMembers(next.1, names + {head.0}, depth, x)
  }

  /** Elements, then the closing bracket. */
  function ScanElements(s: bytes, depth: nat, x: Lexer): (r: Option<bytes>)
    ensures r.Some? ==> |r.value| < |s|
    decreases |s|, 2
  {
    var value :- Scan(s, depth + 1, x);
    var next :- ScanNext(value, 0x5D);
    if next.0 then Some(next.1) else ScanElements(next.1, depth, x)
  }

  /** One value and nothing after it but space. */
  predicate Complete(b: bytes, x: Lexer) {
    Scan(b, 0, x).Some? && SkipSpace(Scan(b, 0, x).value) == []
  }

  predicate Accepts(b: bytes, maximum: nat, x: Lexer) {
    0 < |b| <= maximum && FromUtf8(b).Some? && Complete(b, x)
  }
}
