/** The JSON grammar (sections 2 to 7 of RFC 8259) as concrete syntax trees, and the scanner's agreement with it. */
module RawGrammar {
  import opened Bytes
  import opened Wrappers
  import opened Seqs
  import opened JsonValue
  import opened JsonText
  import opened StrictJson
  import opened RawJson
  import opened RawScanner

  /** A value as it is written. Literals keep their closing quote; the opening one is implied. */
  datatype Tree =
    | Text(body: bytes)
    | Word(word: bytes)
    | Number(sign: bytes, whole: bytes, fraction: bytes, power: bytes)
    | EmptyArray(gap: bytes)
    | Array(items: Elements)
    | EmptyObject(gap: bytes)
    | Object(members: Members)

  datatype Elements =
    | Last(before: bytes, value: Tree, after: bytes)
    | More(before: bytes, value: Tree, after: bytes, rest: Elements)

  datatype Name = Name(before: bytes, body: bytes, gap: bytes, between: bytes)

  datatype Members =
    | LastMember(name: Name, value: Tree, after: bytes)
    | MoreMembers(name: Name, value: Tree, after: bytes, rest: Members)

  // ---------------------------------------------------------------- spelling

  /** The tree's own bytes, followed by a tail. */
  function Print(t: Tree, tail: bytes): bytes
    decreases t
  {
    match t
    case Text(body) => [0x22] + (body + tail)
    case Word(word) => word + tail
    case Number(sign, whole, fraction, power) => sign + (whole + (fraction + (power + tail)))
    case EmptyArray(gap) => [0x5B] + (gap + ([0x5D] + tail))
    case Array(items) => [0x5B] + PrintElements(items, tail)
    case EmptyObject(gap) => [0x7B] + (gap + ([0x7D] + tail))
    case Object(members) => [0x7B] + PrintMembers(members, tail)
  }

  function PrintElements(e: Elements, tail: bytes): bytes
    decreases e
  {
    match e
    case Last(before, value, after) => before + Print(value, after + ([0x5D] + tail))
    case More(before, value, after, rest) => before + Print(value, after + ([0x2C] + PrintElements(rest, tail)))
  }

  function PrintName(n: Name, tail: bytes): bytes {
    n.before + ([0x22] + (n.body + (n.gap + ([0x3A] + (n.between + tail)))))
  }

  function PrintMembers(m: Members, tail: bytes): bytes
    decreases m
  {
    match m
    case LastMember(name, value, after) => PrintName(name, Print(value, after + ([0x7D] + tail)))
    case MoreMembers(name, value, after, rest) => PrintName(name, Print(value, after + ([0x2C] + PrintMembers(rest, tail))))
  }

  // ----------------------------------------------------------- well-formedness

  predicate Space(s: bytes) { forall i | 0 <= i < |s| :: IsSpace(s[i]) }

  predicate AllDigits(s: bytes) { s != [] && forall i | 0 <= i < |s| :: IsDigitByte(s[i]) }

  predicate PowerOk(power: bytes) {
    || power == []
    || (Exponent(power[0]) && (AllDigits(power[1..]) || (|power| > 1 && Signed(power[1]) && AllDigits(power[2..]))))
  }

  predicate NumberOk(t: Tree, x: Lexer)
    requires t.Number?
  {
    && (t.sign == [] || t.sign == [0x2D])
    && (t.whole == [0x30] || (AllDigits(t.whole) && t.whole[0] != 0x30))
    && (t.fraction == [] || (t.fraction[0] == 0x2E && AllDigits(t.fraction[1..])))
    && PowerOk(t.power)
    && (t.fraction != [] || t.power != [] ==> x.finite(t.sign + (t.whole + (t.fraction + t.power))))
  }

  /** The whole of a literal. */
  predicate TextOk(x: Lexer, body: bytes) { x.read(body).Some? && x.read(body).value.1 == [] }

  function TextOf(x: Lexer, body: bytes): string
    requires TextOk(x, body)
  {
    x.read(body).value.0
  }

  predicate NameOk(n: Name, x: Lexer) { Space(n.before) && Space(n.gap) && Space(n.between) && TextOk(x, n.body) }

  predicate WellFormed(t: Tree, depth: nat, x: Lexer)
    decreases t
  {
    && depth <= MAX_NESTING
    && match t
       case Text(body) => TextOk(x, body)
       case Word(word) => word == TRUE || word == FALSE || word == NULL
       case Number(_, _, _, _) => NumberOk(t, x)
       case EmptyArray(gap) => Space(gap)
       case Array(items) => ElementsOk(items, depth, x)
       case EmptyObject(gap) => Space(gap)
       case Object(members) => MembersOk(members, {}, depth, x)
  }

  predicate ElementsOk(e: Elements, depth: nat, x: Lexer)
    decreases e
  {
    Space(e.before) && Space(e.after) && WellFormed(e.value, depth + 1, x) && (e.More? ==> ElementsOk(e.rest, depth, x))
  }

  /** No decoded name is among those given, or used twice. */
  predicate MembersOk(m: Members, names: set<string>, depth: nat, x: Lexer)
    decreases m
  {
    && NameOk(m.name, x) && TextOf(x, m.name.body) !in names
    && Space(m.after) && WellFormed(m.value, depth + 1, x)
    && (m.MoreMembers? ==> MembersOk(m.rest, names + {TextOf(x, m.name.body)}, depth, x))
  }

  // ------------------------------------------------------------------- spaces

  /** What may follow a value: nothing, a space, or a byte that ends it. */
  predicate Follows(s: bytes) {
    s == [] || IsSpace(s[0]) || s[0] == 0x2C || s[0] == 0x5D || s[0] == 0x7D
  }

  lemma {:induction false} SkipGap(gap: bytes, s: bytes)
    requires Space(gap) && (s == [] || !IsSpace(s[0]))
    ensures SkipSpace(gap + s) == s
  {
    if gap == [] {
      assert gap + s == s;
    } else {
      SkipGap(gap[1..], s);
      assert (gap + s)[1..] == gap[1..] + s;
    }
  }

  lemma {:induction false} GapBefore(s: bytes)
    ensures Space(Before(s, SkipSpace(s))) && s == Before(s, SkipSpace(s)) + SkipSpace(s)
  {
    if s != [] && IsSpace(s[0]) {
      GapBefore(s[1..]);
      assert Before(s, SkipSpace(s)) == [s[0]] + Before(s[1..], SkipSpace(s));
    }
  }

  lemma GapFollows(gap: bytes, c: byte, tail: bytes)
    requires Space(gap) && (c == 0x2C || c == 0x5D || c == 0x7D)
    ensures Follows(gap + ([c] + tail))
  {
  }

  lemma PrintStart(t: Tree, depth: nat, x: Lexer, tail: bytes)
    requires WellFormed(t, depth, x)
    ensures Print(t, tail) != [] && !IsSpace(Print(t, tail)[0]) && Print(t, tail)[0] != 0x5D
  {
  }

  // ----------------------------------------------------------------- literals

  lemma {:induction false} CloseBeyond(s: bytes, escaped: bool, tail: bytes)
    requires Close(s, escaped).Some?
    ensures Close(s + tail, escaped) == Close(s, escaped)
  {
    if escaped || s[0] != 0x22 {
      CloseBeyond(s[1..], !escaped && s[0] == 0x5C, tail);
      assert (s + tail)[1..] == s[1..] + tail;
    }
  }

  lemma ReadBeyond(x: Lexer, body: bytes, tail: bytes)
    requires Local(x) && TextOk(x, body)
    ensures x.read(body + tail) == Some((TextOf(x, body), tail))
  {
    assert Close(body, false).Some?;
    var n := Close(body, false).value;
    assert body[n..] == [];
    CloseBeyond(body, false, tail);
    DropHead(body, tail);
    TakeAll(body);
  }

  lemma ReadWithin(x: Lexer, s: bytes) returns (body: bytes)
    requires Local(x) && x.read(s).Some?
    ensures TextOk(x, body) && TextOf(x, body) == x.read(s).value.0 && s == body + x.read(s).value.1
  {
    assert Close(s, false).Some?;
    var n := Close(s, false).value;
    body := s[..n];
    DropHead([0x22], body);
    assert s == s[..n] + s[n..];
  }

  // ------------------------------------------------------------------ numbers

  predicate NoDigit(s: bytes) { s == [] || !IsDigitByte(s[0]) }

  lemma {:induction false} DigitsThen(d: bytes, tail: bytes)
    requires (forall i | 0 <= i < |d| :: IsDigitByte(d[i])) && NoDigit(tail)
    ensures LeadingDigits(d + tail) == d
  {
    if d == [] {
      assert d + tail == tail;
    } else {
      assert (d + tail)[1..] == d[1..] + tail;
      DigitsThen(d[1..], tail);
    }
  }

  lemma SomeDigitsThen(d: bytes, tail: bytes)
    requires AllDigits(d) && NoDigit(tail)
    ensures SomeDigits(d + tail) == Some(tail)
  {
    DigitsThen(d, tail);
    DropHead(d, tail);
  }

  lemma WholeThen(t: Tree, x: Lexer, tail: bytes)
    requires t.Number? && NumberOk(t, x) && NoDigit(tail)
    ensures WholePart(t.whole + tail) == Some(tail)
  {
    DropHead(t.whole, tail);
    if t.whole != [0x30] {
      SomeDigitsThen(t.whole, tail);
    }
  }

  lemma FractionThen(t: Tree, x: Lexer, tail: bytes)
    requires t.Number? && NumberOk(t, x) && NoDigit(tail) && (tail == [] || tail[0] != 0x2E)
    ensures FractionPart(t.fraction + tail) == Some(tail)
  {
    if t.fraction == [] {
      assert t.fraction + tail == tail;
    } else {
      assert (t.fraction + tail)[1..] == t.fraction[1..] + tail;
      SomeDigitsThen(t.fraction[1..], tail);
    }
  }

  lemma PowerThen(power: bytes, tail: bytes)
    requires PowerOk(power) && Follows(tail)
    ensures ExponentPart(power + tail) == Some(tail)
  {
    var s := power + tail;
    if power == [] {
      assert s == tail;
    } else if AllDigits(power[1..]) {
      assert s[1..] == power[1..] + tail && s[1] == power[1];
      SomeDigitsThen(power[1..], tail);
    } else {
      assert s[2..] == power[2..] + tail && s[1] == power[1];
      SomeDigitsThen(power[2..], tail);
    }
  }

  lemma MagnitudeThen(t: Tree, x: Lexer, tail: bytes)
    requires t.Number? && NumberOk(t, x) && Follows(tail)
    ensures Magnitude(t.whole + (t.fraction + (t.power + tail))) == Some((tail, t.fraction != [] || t.power != []))
  {
    var w := t.power + tail;
    var v := t.fraction + w;
    WholeThen(t, x, v);
    FractionThen(t, x, w);
    PowerThen(t.power, tail);
  }

  lemma BeforeTail(a: bytes, b: bytes, c: bytes, d: bytes, tail: bytes)
    ensures Before(a + (b + (c + (d + tail))), tail) == a + (b + (c + d))
  {
  }

  lemma NumberStarts(t: Tree, x: Lexer, tail: bytes)
    requires t.Number? && NumberOk(t, x)
    ensures Print(t, tail) != [] && (Print(t, tail)[0] == 0x2D || IsDigitByte(Print(t, tail)[0]))
  {
  }

  lemma NumberScans(t: Tree, x: Lexer, tail: bytes)
    requires t.Number? && NumberOk(t, x) && Follows(tail)
    ensures ScanNumber(Print(t, tail), x) == Some(tail)
    ensures Print(t, tail)[0] == 0x2D || IsDigitByte(Print(t, tail)[0])
  {
    var u := t.whole + (t.fraction + (t.power + tail));
    NumberStarts(t, x, tail);
    MagnitudeThen(t, x, tail);
    BeforeTail(t.sign, t.whole, t.fraction, t.power, tail);
    assert t.sign == [] ==> t.sign + u == u;
    assert t.sign != [] ==> (t.sign + u)[1..] == u;
  }

  // ------------------------------------------------- what is spelled is scanned

  lemma StartsHere(c: byte, s: bytes)
    requires !IsSpace(c)
    ensures SkipSpace([c] + s) == [c] + s && ([c] + s)[1..] == s
  {
  }

  lemma TextScans(body: bytes, depth: nat, x: Lexer, tail: bytes)
    requires Local(x) && TextOk(x, body) && depth <= MAX_NESTING
    ensures Scan([0x22] + (body + tail), depth, x) == Some(tail)
  {
    StartsHere(0x22, body + tail);
    ReadBeyond(x, body, tail);
  }

  lemma WordScans(word: bytes, depth: nat, x: Lexer, tail: bytes)
    requires (word == TRUE || word == FALSE || word == NULL) && depth <= MAX_NESTING
    ensures Scan(word + tail, depth, x) == Some(tail)
  {
    DropHead(word, tail);
    assert SkipSpace(word + tail) == word + tail;
  }

  lemma EmptyScans(gap: bytes, depth: nat, x: Lexer, tail: bytes)
    requires Space(gap) && depth <= MAX_NESTING
    ensures Scan([0x5B] + (gap + ([0x5D] + tail)), depth, x) == Some(tail)
    ensures Scan([0x7B] + (gap + ([0x7D] + tail)), depth, x) == Some(tail)
  {
    StartsHere(0x5B, gap + ([0x5D] + tail));
    SkipGap(gap, [0x5D] + tail);
    StartsHere(0x7B, gap + ([0x7D] + tail));
    SkipGap(gap, [0x7D] + tail);
  }

  lemma NumberValueScans(t: Tree, depth: nat, x: Lexer, tail: bytes)
    requires t.Number? && NumberOk(t, x) && Follows(tail) && depth <= MAX_NESTING
    ensures Scan(Print(t, tail), depth, x) == Some(tail)
  {
    NumberScans(t, x, tail);
    var s := Print(t, tail);
    assert SkipSpace(s) == s;
  }

  lemma ArrayOpens(s: bytes, depth: nat, x: Lexer)
    requires depth <= MAX_NESTING && SkipSpace(s) != [] && SkipSpace(s)[0] != 0x5D
    ensures Scan([0x5B] + s, depth, x) == ScanElements(s, depth, x)
  {
    StartsHere(0x5B, s);
  }

  lemma ObjectOpens(s: bytes, depth: nat, x: Lexer)
    requires depth <= MAX_NESTING && SkipSpace(s) != [] && SkipSpace(s)[0] != 0x7D
    ensures Scan([0x7B] + s, depth, x) == ScanMembers(s, {}, depth, x)
  {
    StartsHere(0x7B, s);
  }

  lemma {:induction false} SpelledScans(t: Tree, depth: nat, x: Lexer, tail: bytes)
    requires Local(x) && WellFormed(t, depth, x) && Follows(tail)
    ensures Scan(Print(t, tail), depth, x) == Some(tail)
    decreases t
  {
    match t
    case Text(body) => TextScans(body, depth, x, tail);
    case Word(word) => WordScans(word, depth, x, tail);
    case Number(_, _, _, _) => NumberValueScans(t, depth, x, tail);
    case EmptyArray(gap) => EmptyScans(gap, depth, x, tail);
    case EmptyObject(gap) => EmptyScans(gap, depth, x, tail);
    case Array(items) =>
      ElementsScan(items, depth, x, tail);
      ElementsStart(items, depth, x, tail);
      ArrayOpens(PrintElements(items, tail), depth, x);
    case Object(members) =>
      MembersScan(members, {}, depth, x, tail);
      ObjectOpens(PrintMembers(members, tail), depth, x);
  }

  lemma NextScans(gap: bytes, c: byte, close: byte, tail: bytes)
    requires Space(gap) && (c == 0x2C || c == close) && !IsSpace(c)
    ensures ScanNext(gap + ([c] + tail), close) == Some((c == close, tail))
  {
    SkipGap(gap, [c] + tail);
  }

  lemma GapScan(gap: bytes, t: Tree, depth: nat, x: Lexer, tail: bytes)
    requires Space(gap) && WellFormed(t, depth, x)
    ensures SkipSpace(gap + Print(t, tail)) == Print(t, tail)
    ensures Scan(gap + Print(t, tail), depth, x) == Scan(Print(t, tail), depth, x)
  {
    PrintStart(t, depth, x, tail);
    SkipGap(gap, Print(t, tail));
    assert SkipSpace(Print(t, tail)) == Print(t, tail);
  }

  lemma ElementsStart(e: Elements, depth: nat, x: Lexer, tail: bytes)
    requires ElementsOk(e, depth, x)
    ensures SkipSpace(PrintElements(e, tail)) != [] && SkipSpace(PrintElements(e, tail))[0] != 0x5D
  {
    var after := e.after + (if e.More? then [0x2C] + PrintElements(e.rest, tail) else [0x5D] + tail);
    PrintStart(e.value, depth + 1, x, after);
    SkipGap(e.before, Print(e.value, after));
  }

  lemma {:induction false} ElementsScan(e: Elements, depth: nat, x: Lexer, tail: bytes)
    requires Local(x) && ElementsOk(e, depth, x)
    ensures ScanElements(PrintElements(e, tail), depth, x) == Some(tail)
    decreases e
  {
    var more := if e.More? then PrintElements(e.rest, tail) else tail;
    var c := if e.More? then 0x2C else 0x5D;
    var after := e.after + ([c] + more);
    GapFollows(e.after, c, more);
    GapScan(e.before, e.value, depth + 1, x, after);
    SpelledScans(e.value, depth + 1, x, after);
    NextScans(e.after, c, 0x5D, more);
    if e.More? {
      ElementsScan(e.rest, depth, x, tail);
    }
  }

  lemma NameScans(n: Name, x: Lexer, tail: bytes)
    requires Local(x) && NameOk(n, x)
    ensures ScanHead(PrintName(n, tail), x) == Some((TextOf(x, n.body), n.between + tail))
    ensures SkipSpace(PrintName(n, tail)) != [] && SkipSpace(PrintName(n, tail))[0] == 0x22
  {
    var after := n.gap + ([0x3A] + (n.between + tail));
    SkipGap(n.before, [0x22] + (n.body + after));
    DropHead([0x22], n.body + after);
    ReadBeyond(x, n.body, after);
    SkipGap(n.gap, [0x3A] + (n.between + tail));
    DropHead([0x3A], n.between + tail);
  }

  lemma {:induction false} MembersScan(m: Members, names: set<string>, depth: nat, x: Lexer, tail: bytes)
    requires Local(x) && MembersOk(m, names, depth, x)
    ensures ScanMembers(PrintMembers(m, tail), names, depth, x) == Some(tail)
    ensures SkipSpace(PrintMembers(m, tail)) != [] && SkipSpace(PrintMembers(m, tail))[0] == 0x22
    decreases m
  {
    var more := if m.MoreMembers? then PrintMembers(m.rest, tail) else tail;
    var c := if m.MoreMembers? then 0x2C else 0x7D;
    var after := m.after + ([c] + more);
    GapFollows(m.after, c, more);
    NameScans(m.name, x, Print(m.value, after));
    GapScan(m.name.between, m.value, depth + 1, x, after);
    SpelledScans(m.value, depth + 1, x, after);
    NextScans(m.after, c, 0x7D, more);
    if m.MoreMembers? {
      MembersScan(m.rest, names + {TextOf(x, m.name.body)}, depth, x, tail);
    }
  }

  // ------------------------------------------------- what is scanned is spelled

  lemma {:induction false} LeadingAreDigits(s: bytes)
    requires SomeDigits(s).Some?
    ensures AllDigits(Before(s, SomeDigits(s).value)) && s == Before(s, SomeDigits(s).value) + SomeDigits(s).value
  {
    assert Before(s, SomeDigits(s).value) == LeadingDigits(s);
  }

  lemma WholeSpelled(s: bytes) returns (whole: bytes)
    requires WholePart(s).Some?
    ensures (whole == [0x30] || (AllDigits(whole) && whole[0] != 0x30)) && s == whole + WholePart(s).value
  {
    if s != [] && s[0] == 0x30 {
      whole := [0x30];
      Uncons(s);
    } else {
      LeadingAreDigits(s);
      whole := Before(s, SomeDigits(s).value);
    }
  }

  lemma FractionSpelled(s: bytes) returns (fraction: bytes)
    requires FractionPart(s).Some?
    ensures fraction == [] || (fraction[0] == 0x2E && AllDigits(fraction[1..]))
    ensures s == fraction + FractionPart(s).value
  {
    if s != [] && s[0] == 0x2E {
      LeadingAreDigits(s[1..]);
      var d := Before(s[1..], SomeDigits(s[1..]).value);
      fraction := [0x2E] + d;
      Uncons(s);
      Assoc([0x2E], d, SomeDigits(s[1..]).value);
    } else {
      fraction := [];
    }
  }

  lemma PowerSpelled(s: bytes) returns (power: bytes)
    requires ExponentPart(s).Some?
    ensures PowerOk(power) && s == power + ExponentPart(s).value
  {
    if s == [] || !Exponent(s[0]) {
      power := [];
    } else {
      var k := if |s| > 1 && Signed(s[1]) then 2 else 1;
      LeadingAreDigits(s[k..]);
      var d := Before(s[k..], SomeDigits(s[k..]).value);
      power := s[..k] + d;
      DropHead(s[..k], d);
      assert s == s[..k] + s[k..];
      Assoc(s[..k], d, SomeDigits(s[k..]).value);
    }
  }

  lemma MagnitudeSpelled(s: bytes) returns (whole: bytes, fraction: bytes, power: bytes)
    requires Magnitude(s).Some?
    ensures whole == [0x30] || (AllDigits(whole) && whole[0] != 0x30)
    ensures fraction == [] || (fraction[0] == 0x2E && AllDigits(fraction[1..]))
    ensures PowerOk(power) && Magnitude(s).value.1 == (fraction != [] || power != [])
    ensures s == whole + (fraction + (power + Magnitude(s).value.0))
  {
    whole := WholeSpelled(s);
    var v := WholePart(s).value;
    fraction := FractionSpelled(v);
    power := PowerSpelled(FractionPart(v).value);
  }

  lemma NumberSpelled(s: bytes, x: Lexer) returns (t: Tree)
    requires ScanNumber(s, x).Some?
    ensures t.Number? && NumberOk(t, x) && s == Print(t, ScanNumber(s, x).value)
  {
    var u, rest := AfterSign(s), ScanNumber(s, x).value;
    var whole, fraction, power := MagnitudeSpelled(u);
    var sign: bytes := if s != [] && s[0] == 0x2D then [0x2D] else [];
    assert s == sign + u;
    BeforeTail(sign, whole, fraction, power, rest);
    t := Number(sign, whole, fraction, power);
  }

  lemma {:induction false} ScannedIsSpelled(s: bytes, depth: nat, x: Lexer) returns (gap: bytes, t: Tree)
    requires Local(x) && Scan(s, depth, x).Some?
    ensures Space(gap) && WellFormed(t, depth, x) && s == gap + Print(t, Scan(s, depth, x).value)
    decreases |s|, 1
  {
    var u, rest := SkipSpace(s), Scan(s, depth, x).value;
    GapBefore(s);
    gap := Before(s, u);
    Uncons(u);
    if u[0] == 0x22 {
      var body := ReadWithin(x, u[1..]);
      t := Text(body);
    } else if u[0] == 0x7B {
      t := ObjectSpelled(u[1..], depth, x);
    } else if u[0] == 0x5B {
      t := ArraySpelled(u[1..], depth, x);
    } else if u[0] == 0x2D || IsDigitByte(u[0]) {
      t := NumberSpelled(u, x);
    } else {
      t := WordSpelled(u, depth, x);
    }
  }

  lemma WordSpelled(s: bytes, depth: nat, x: Lexer) returns (t: Tree)
    requires Scan(s, depth, x).Some? && s != [] && (s[0] == 0x74 || s[0] == 0x66 || s[0] == 0x6E)
    ensures WellFormed(t, depth, x) && s == Print(t, Scan(s, depth, x).value)
  {
    t := Word(if s[0] == 0x74 then TRUE else if s[0] == 0x66 then FALSE else NULL);
  }

  lemma {:induction false} ObjectSpelled(s: bytes, depth: nat, x: Lexer) returns (t: Tree)
    requires Local(x) && depth <= MAX_NESTING && ScanObject(s, depth, x).Some?
    ensures WellFormed(t, depth, x) && [0x7B] + s == Print(t, ScanObject(s, depth, x).value)
    decreases |s|, 3
  {
    var u := SkipSpace(s);
    if u != [] && u[0] == 0x7D {
      GapBefore(s);
      Uncons(u);
      t := EmptyObject(Before(s, u));
    } else {
      var m := MembersSpelled(s, {}, depth, x);
      t := Object(m);
    }
  }

  lemma {:induction false} ArraySpelled(s: bytes, depth: nat, x: Lexer) returns (t: Tree)
    requires Local(x) && depth <= MAX_NESTING && ScanArray(s, depth, x).Some?
    ensures WellFormed(t, depth, x) && [0x5B] + s == Print(t, ScanArray(s, depth, x).value)
    decreases |s|, 3
  {
    var u := SkipSpace(s);
    if u != [] && u[0] == 0x5D {
      GapBefore(s);
      Uncons(u);
      t := EmptyArray(Before(s, u));
    } else {
      var e := ElementsSpelled(s, depth, x);
      t := Array(e);
    }
  }

  lemma NextSpelled(s: bytes, close: byte) returns (gap: bytes, c: byte)
    requires ScanNext(s, close).Some?
    ensures Space(gap) && s == gap + ([c] + ScanNext(s, close).value.1)
    ensures c == if ScanNext(s, close).value.0 then close else 0x2C
  {
    var u := SkipSpace(s);
    GapBefore(s);
    Uncons(u);
    gap, c := Before(s, u), u[0];
  }

  lemma {:induction false} ElementsSpelled(s: bytes, depth: nat, x: Lexer) returns (e: Elements)
    requires Local(x) && ScanElements(s, depth, x).Some?
    ensures ElementsOk(e, depth, x) && s == PrintElements(e, ScanElements(s, depth, x).value)
    decreases |s|, 2
  {
    var value := Scan(s, depth + 1, x).value;
    var before, v := ScannedIsSpelled(s, depth + 1, x);
    var after, c := NextSpelled(value, 0x5D);
    var next := ScanNext(value, 0x5D).value;
    if next.0 {
      e := Last(before, v, after);
    } else {
      var rest := ElementsSpelled(next.1, depth, x);
      e := More(before, v, after, rest);
    }
  }

  lemma HeadSpelled(s: bytes, x: Lexer) returns (before: bytes, body: bytes, gap: bytes)
    requires Local(x) && ScanHead(s, x).Some?
    ensures Space(before) && Space(gap) && TextOk(x, body) && TextOf(x, body) == ScanHead(s, x).value.0
    ensures s == before + ([0x22] + (body + (gap + ([0x3A] + ScanHead(s, x).value.1))))
  {
    var u := SkipSpace(s);
    GapBefore(s);
    Uncons(u);
    before := Before(s, u);
    body := ReadWithin(x, u[1..]);
    var after := x.read(u[1..]).value.1;
    GapBefore(after);
    Uncons(SkipSpace(after));
    gap := Before(after, SkipSpace(after));
  }

  lemma {:induction false} MembersSpelled(s: bytes, names: set<string>, depth: nat, x: Lexer) returns (m: Members)
    requires Local(x) && ScanMembers(s, names, depth, x).Some?
    ensures MembersOk(m, names, depth, x) && s == PrintMembers(m, ScanMembers(s, names, depth, x).value)
    decreases |s|, 2
  {
    var head := ScanHead(s, x).value;
    var before, body, gap := HeadSpelled(s, x);
    var value := Scan(head.1, depth + 1, x).value;
    var between, v := ScannedIsSpelled(head.1, depth + 1, x);
    var after, c := NextSpelled(value, 0x7D);
    var next := ScanNext(value, 0x7D).value;
    var name := Name(before, body, gap, between);
    if next.0 {
      m := LastMember(name, v, after);
    } else {
      var rest := MembersSpelled(next.1, names + {head.0}, depth, x);
      m := MoreMembers(name, v, after, rest);
    }
  }
}
