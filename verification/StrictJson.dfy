/** Strict reading: no duplicate names, no fractions, no unsafe integers, bounded size and depth. */
module StrictJson {
  import opened Bytes
  import opened Wrappers
  import opened Limits
  import opened JsonValue
  import opened JsonText

  const PRIVATE_NUMBER := "$serde_json::private::Number"
  const NotPrivate: string -> bool := name => name != PRIVATE_NUMBER
  const MAX_DEPTH := 16

  // ----------------------------------------------------------------- numbers

  predicate IsDigitByte(b: byte) { 0x30 <= b <= 0x39 }

  function LeadingDigits(s: bytes): (r: bytes)
    ensures r <= s && forall i | 0 <= i < |r| :: IsDigitByte(r[i])
  {
    if s == [] || !IsDigitByte(s[0]) then [] else [s[0]] + LeadingDigits(s[1..])
  }

  function DigitValue(b: byte): nat
    requires IsDigitByte(b)
  {
    b as int - 0x30
  }

  function DigitsValue(b: bytes): (n: nat)
    requires forall i | 0 <= i < |b| :: IsDigitByte(b[i])
  {
    if b == [] then 0 else DigitsValue(b[..|b| - 1]) * 10 + DigitValue(b[|b| - 1])
  }

  /** Digits without a leading zero, not followed by a fraction or an exponent. */
  function ReadMagnitude(s: bytes): (r: Option<(nat, bytes)>)
    ensures r.Some? ==> |r.value.1| < |s|
  {
    var d := LeadingDigits(s);
    var rest := s[|d|..];
    if d == [] || (d[0] == 0x30 && |d| > 1) then None
    else if rest != [] && (rest[0] == 0x2E || rest[0] == 0x65 || rest[0] == 0x45) then None
    else Some((DigitsValue(d), rest))
  }

  /** A safe JSON integer; minus zero is refused with the fractions. */
  function ReadNumber(s: bytes): (r: Option<(Value, bytes)>)
    ensures r.Some? ==> |r.value.1| < |s| && r.value.0.Num? && Printable(r.value.0)
  {
    if s != [] && s[0] == 0x2D then
      var m :- ReadMagnitude(s[1..]);
      var n: int := m.0;
      if n == 0 || n > MAX_SAFE then None else Some((Num(-n), m.1))
    else
      var m :- ReadMagnitude(s);
      if m.0 > MAX_SAFE then None else Some((Num(m.0), m.1))
  }

  // ------------------------------------------------------------------ values

  function ReadWord(s: bytes, word: bytes, v: Value): Option<(Value, bytes)> {
    if word <= s then Some((v, s[|word|..])) else None
  }

  /** A value and what follows it; member names must be allowed. */
  function ReadValue(text: bytes, allowed: string -> bool): (r: Option<(Value, bytes)>)
    ensures r.Some? ==> |r.value.1| < |text|
    decreases |text|, 1
  {
    var s := SkipSpace(text);
    if s == [] then None
    else if s[0] == 0x22 then
      var str :- ReadString(s[1..]);
      Some((Str(str.0), str.1))
    else if s[0] == 0x5B then ReadArray(s, allowed)
    else if s[0] == 0x7B then ReadObject(s, allowed)
    else if s[0] == 0x6E then ReadWord(s, NULL, Null)
    else if s[0] == 0x74 then ReadWord(s, TRUE, Bool(true))
    else if s[0] == 0x66 then ReadWord(s, FALSE, Bool(false))
    else ReadNumber(s)
  }

  function ReadArray(s: bytes, allowed: string -> bool): (r: Option<(Value, bytes)>)
    requires s != []
    ensures r.Some? ==> |r.value.1| < |s|
    decreases |s|, 0
  {
    var t := SkipSpace(s[1..]);
    if t != [] && t[0] == 0x5D then Some((Arr([]), t[1..]))
    else
      var items :- ReadElements(s[1..], allowed);
      Some((Arr(items.0), items.1))
  }

  function ReadObject(s: bytes, allowed: string -> bool): (r: Option<(Value, bytes)>)
    requires s != []
    ensures r.Some? ==> |r.value.1| < |s|
    decreases |s|, 0
  {
    var t := SkipSpace(s[1..]);
    if t != [] && t[0] == 0x7D then Some((Obj(map[]), t[1..]))
    else
      var fields :- ReadMembers(s[1..], map[], allowed);
      Some((Obj(fields.0), fields.1))
  }

  /** One or more elements, then the closing bracket. */
  function ReadElements(text: bytes, allowed: string -> bool): (r: Option<(seq<Value>, bytes)>)
    ensures r.Some? ==> |r.value.1| < |text|
    decreases |text|, 2
  {
    var first :- ReadValue(text, allowed);
    var s := SkipSpace(first.1);
    if s == [] then None
    else if s[0] == 0x5D then Some(([first.0], s[1..]))
    else if s[0] != 0x2C then None
    else
      var rest :- ReadElements(s[1..], allowed);
      Some(([first.0] + rest.0, rest.1))
  }

  /** A quoted name and its colon. */
  function ReadName(text: bytes): (r: Option<(string, bytes)>)
    ensures r.Some? ==> |r.value.1| < |text|
  {
    var s := SkipSpace(text);
    if s == [] || s[0] != 0x22 then None
    else
      var name :- ReadString(s[1..]);
      var t := SkipSpace(name.1);
      if t == [] || t[0] != 0x3A then None else Some((name.0, t[1..]))
  }

  /** One or more members with new names, then the closing brace. */
  function ReadMembers(text: bytes, known: map<string, Value>, allowed: string -> bool): (r: Option<(map<string, Value>, bytes)>)
    ensures r.Some? ==> |r.value.1| < |text|
    decreases |text|, 2
  {
    var name :- ReadName(text);
    var value :- ReadValue(name.1, allowed);
    if !allowed(name.0) || name.0 in known then None
    else
      var fields := known[name.0 := value.0];
      var s := SkipSpace(value.1);
      if s == [] then None
      else if s[0] == 0x7D then Some((fields, s[1..]))
      else if s[0] != 0x2C then None
      else ReadMembers(s[1..], fields, allowed)
  }

  predicate DepthOk(v: Value, n: nat) {
    && n <= MAX_DEPTH
    && match v
       case Arr(items) => forall i | 0 <= i < |items| :: DepthOk(items[i], n + 1)
       case Obj(fields) => forall k | k in fields :: DepthOk(fields[k], n + 1)
       case _ => true
  }

  function Strict(raw: bytes, maximum: nat): (r: Option<Value>)
    ensures r.Some? ==> |raw| <= maximum && DepthOk(r.value, 0)
  {
    if |raw| > maximum then None
    else
      var v :- ReadValue(raw, NotPrivate);
      if SkipSpace(v.1) != [] || !DepthOk(v.0, 0) then None else Some(v.0)
  }
}
