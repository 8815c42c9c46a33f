/** The raw check accepts exactly the bounded JSON texts, and its encoding check is implied by the rest. */
module RawAcceptance {
  import opened Bytes
  import opened Text
  import opened Seqs
  import opened JsonValue
  import opened JsonText
  import opened StrictJson
  import opened CanonicalText
  import opened RawJson
  import opened RawScanner
  import opened RawGrammar

  // -------------------------------------------------------- finite binary64s

  const TWO_256 := TWO_64 * TWO_64 * TWO_64 * TWO_64
  const TWO_970 := TWO_256 * TWO_256 * TWO_256 * TWO_64 * TWO_64 * TWO_64 * 0x400

  /** From here on a decimal rounds to infinity: halfway between the largest binary64 and the next power of two. */
  const TOO_LARGE := 0x3F_FFFF_FFFF_FFFF * TWO_970

  function Pow10(n: nat): nat { if n == 0 then 1 else 10 * Pow10(n - 1) }

  function Exponent10(s: bytes): int {
    if s == [] || !Exponent(s[0]) then 0
    else if |s| > 1 && Signed(s[1]) then
      (if s[1] == 0x2D then -1 else 1) * DigitsValue(LeadingDigits(s[2..]))
    else DigitsValue(LeadingDigits(s[1..]))
  }

  /** Whether the decimal spelled by these bytes rounds to a finite binary64 (section 7.4 of IEEE 754-2019). */
  predicate FiniteDecimal(text: bytes) {
    var s := AfterSign(text);
    var whole := LeadingDigits(s);
    var t := s[|whole|..];
    var fraction := if t != [] && t[0] == 0x2E then LeadingDigits(t[1..]) else [];
    var power := if t != [] && t[0] == 0x2E then t[1 + |fraction|..] else t;
    var mantissa := DigitsValue(whole + fraction);
    var scale := Exponent10(power) - |fraction|;
    if scale >= 0 then mantissa * Pow10(scale) < TOO_LARGE else mantissa < TOO_LARGE * Pow10(-scale)
  }

  // ----------------------------------------------------------------- grammar

  /** Space, one well-formed value, space. */
  predicate Sentence(b: bytes, before: bytes, t: Tree, after: bytes, x: Lexer) {
    Space(before) && Space(after) && WellFormed(t, 0, x) && b == before + Print(t, after)
  }

  lemma CompleteIsSentence(b: bytes, x: Lexer) returns (before: bytes, t: Tree, after: bytes)
    requires Local(x) && Complete(b, x)
    ensures Sentence(b, before, t, after, x)
  {
    before, t := ScannedIsSpelled(b, 0, x);
    after := Scan(b, 0, x).value;
    GapBefore(after);
    assert Before(after, []) == after;
  }

  lemma SentenceIsComplete(b: bytes, before: bytes, t: Tree, after: bytes, x: Lexer)
    requires Local(x) && Sentence(b, before, t, after, x)
    ensures Complete(b, x)
  {
    GapScan(before, t, 0, x, after);
    SpelledScans(t, 0, x, after);
    SkipGap(after, []);
    assert after + [] == after;
  }

  // ---------------------------------------------------------------- encoding

  lemma HexAscii(s: bytes, k: nat)
    requires k <= |s| && Hex4(s[k..]).Some?
    ensures forall i | k <= i < k + 4 :: s[i] < 0x80
  {
    var h := s[k..];
    assert h[0] == s[k] && h[1] == s[k + 1] && h[2] == s[k + 2] && h[3] == s[k + 3];
  }

  lemma UnitText(s: bytes)
    requires ReadUnit(s).Some?
    ensures IsText(s[..ReadUnit(s).value.width])
  {
    var n := ReadUnit(s).value.width;
    if s[0] != 0x5C {
      DecodeCharSound(s);
      var c := ReadUnit(s).value.c;
      assert Utf8([c]) == Utf8Char(c) + Utf8("") == s[..n];
    } else {
      if s[1] == 0x75 {
        HexAscii(s, 2);
        if n == 12 {
          HexAscii(s, 8);
        }
      }
      AsciiText(s[..n]);
    }
  }

  lemma SplitText(s: bytes, n: nat)
    requires n <= |s| && IsText(s[..n]) && IsText(s[n..])
    ensures IsText(s)
  {
    TextConcat(s[..n], s[n..]);
    assert s == s[..n] + s[n..];
  }

  lemma {:induction false} LiteralText(s: bytes)
    requires ReadString(s).Some? && IsText(ReadString(s).value.1)
    ensures IsText(s)
    decreases |s|
  {
    if s[0] == 0x22 {
      ByteText(0x22, s[1..]);
      Uncons(s);
    } else {
      var n := ReadUnit(s).value.width;
      UnitText(s);
      LiteralText(s[n..]);
      SplitText(s, n);
    }
  }

  lemma SpaceText(gap: bytes, tail: bytes)
    requires Space(gap) && IsText(tail)
    ensures IsText(gap + tail)
  {
    AsciiText(gap);
    TextConcat(gap, tail);
  }

  lemma ByteText(c: byte, tail: bytes)
    requires c < 0x80 && IsText(tail)
    ensures IsText([c] + tail)
  {
    AsciiText([c]);
    TextConcat([c], tail);
  }

  lemma BodyText(finite: bytes -> bool, body: bytes, tail: bytes)
    requires TextOk(JsonLexer(finite), body) && IsText(tail)
    ensures IsText(body + tail)
  {
    AsciiText([]);
    LiteralText(body);
    TextConcat(body, tail);
  }

  lemma NumberAscii(t: Tree, x: Lexer)
    requires t.Number? && NumberOk(t, x)
    ensures forall i | 0 <= i < |t.sign| :: t.sign[i] < 0x80
    ensures forall i | 0 <= i < |t.whole| :: t.whole[i] < 0x80
    ensures forall i | 0 <= i < |t.fraction| :: t.fraction[i] < 0x80
    ensures forall i | 0 <= i < |t.power| :: t.power[i] < 0x80
  {
    assert t.fraction != [] ==> forall i | 1 <= i < |t.fraction| :: t.fraction[i] == t.fraction[1..][i - 1];
    if t.power != [] {
      if AllDigits(t.power[1..]) {
        assert forall i | 1 <= i < |t.power| :: t.power[i] == t.power[1..][i - 1];
      } else {
        assert forall i | 2 <= i < |t.power| :: t.power[i] == t.power[2..][i - 2];
      }
    }
  }

  lemma AsciiThen(a: bytes, tail: bytes)
    requires (forall i | 0 <= i < |a| :: a[i] < 0x80) && IsText(tail)
    ensures IsText(a + tail)
  {
    AsciiText(a);
    TextConcat(a, tail);
  }

  lemma NumberText(t: Tree, x: Lexer, tail: bytes)
    requires t.Number? && NumberOk(t, x) && IsText(tail)
    ensures IsText(Print(t, tail))
  {
    NumberAscii(t, x);
    AsciiThen(t.power, tail);
    AsciiThen(t.fraction, t.power + tail);
    AsciiThen(t.whole, t.fraction + (t.power + tail));
    AsciiThen(t.sign, t.whole + (t.fraction + (t.power + tail)));
  }

  lemma QuotedText(finite: bytes -> bool, body: bytes, tail: bytes)
    requires TextOk(JsonLexer(finite), body) && IsText(tail)
    ensures IsText([0x22] + (body + tail))
  {
    BodyText(finite, body, tail);
    ByteText(0x22, body + tail);
  }

  lemma WordText(word: bytes, tail: bytes)
    requires (word == TRUE || word == FALSE || word == NULL) && IsText(tail)
    ensures IsText(word + tail)
  {
    AsciiThen(word, tail);
  }

  lemma EmptyText(open: byte, gap: bytes, close: byte, tail: bytes)
    requires open < 0x80 && close < 0x80 && Space(gap) && IsText(tail)
    ensures IsText([open] + (gap + ([close] + tail)))
  {
    ByteText(close, tail);
    SpaceText(gap, [close] + tail);
    ByteText(open, gap + ([close] + tail));
  }

  lemma {:induction false} TreeText(t: Tree, depth: nat, finite: bytes -> bool, tail: bytes)
    requires WellFormed(t, depth, JsonLexer(finite)) && IsText(tail)
    ensures IsText(Print(t, tail))
    decreases t
  {
    match t
    case Text(body) => QuotedText(finite, body, tail);
    case Word(word) => WordText(word, tail);
    case Number(_, _, _, _) => NumberText(t, JsonLexer(finite), tail);
    case EmptyArray(gap) => EmptyText(0x5B, gap, 0x5D, tail);
    case Array(items) =>
      ElementsText(items, depth, finite, tail);
      ByteText(0x5B, PrintElements(items, tail));
    case EmptyObject(gap) => EmptyText(0x7B, gap, 0x7D, tail);
    case Object(members) =>
      MembersText(members, {}, depth, finite, tail);
      ByteText(0x7B, PrintMembers(members, tail));
  }

  lemma {:induction false} ElementsText(e: Elements, depth: nat, finite: bytes -> bool, tail: bytes)
    requires ElementsOk(e, depth, JsonLexer(finite)) && IsText(tail)
    ensures IsText(PrintElements(e, tail))
    decreases e
  {
    if e.More? {
      ElementsText(e.rest, depth, finite, tail);
    }
    var more := if e.More? then PrintElements(e.rest, tail) else tail;
    var c := if e.More? then 0x2C else 0x5D;
    ByteText(c, more);
    SpaceText(e.after, [c] + more);
    TreeText(e.value, depth + 1, finite, e.after + ([c] + more));
    SpaceText(e.before, Print(e.value, e.after + ([c] + more)));
  }

  lemma NameText(n: Name, finite: bytes -> bool, tail: bytes)
    requires NameOk(n, JsonLexer(finite)) && IsText(tail)
    ensures IsText(PrintName(n, tail))
  {
    SpaceText(n.between, tail);
    ByteText(0x3A, n.between + tail);
    SpaceText(n.gap, [0x3A] + (n.between + tail));
    BodyText(finite, n.body, n.gap + ([0x3A] + (n.between + tail)));
    ByteText(0x22, n.body + (n.gap + ([0x3A] + (n.between + tail))));
    SpaceText(n.before, [0x22] + (n.body + (n.gap + ([0x3A] + (n.between + tail)))));
  }

  lemma {:induction false} MembersText(m: Members, names: set<string>, depth: nat, finite: bytes -> bool, tail: bytes)
    requires MembersOk(m, names, depth, JsonLexer(finite)) && IsText(tail)
    ensures IsText(PrintMembers(m, tail))
    decreases m
  {
    if m.MoreMembers? {
      MembersText(m.rest, names + {TextOf(JsonLexer(finite), m.name.body)}, depth, finite, tail);
    }
    var more := if m.MoreMembers? then PrintMembers(m.rest, tail) else tail;
    var c := if m.MoreMembers? then 0x2C else 0x7D;
    ByteText(c, more);
    SpaceText(m.after, [c] + more);
    TreeText(m.value, depth + 1, finite, m.after + ([c] + more));
    NameText(m.name, finite, Print(m.value, m.after + ([c] + more)));
  }

  // ----------------------------------------------------------------- theorem

  const RAW_LEXER := JsonLexer(text => FiniteDecimal(text))

  /** The raw check accepts a text exactly when its size is in range and it is a sentence of the grammar. */
  lemma AcceptsExactlySentences(b: bytes, maximum: nat)
    ensures Accepts(b, maximum, RAW_LEXER) <==>
      0 < |b| <= maximum && exists before, t, after :: Sentence(b, before, t, after, RAW_LEXER)
  {
    JsonLexerLocal(text => FiniteDecimal(text));
    if Complete(b, RAW_LEXER) {
      var before, t, after := CompleteIsSentence(b, RAW_LEXER);
    }
    if exists before, t, after :: Sentence(b, before, t, after, RAW_LEXER) {
      var before, t, after :| Sentence(b, before, t, after, RAW_LEXER);
      SentenceIsComplete(b, before, t, after, RAW_LEXER);
      SentenceDecodes(b, before, t, after, text => FiniteDecimal(text));
    }
  }

  /** A sentence is valid UTF-8 as it stands. */
  lemma SentenceDecodes(b: bytes, before: bytes, t: Tree, after: bytes, finite: bytes -> bool)
    requires Sentence(b, before, t, after, JsonLexer(finite))
    ensures FromUtf8(b).Some?
  {
    AsciiText(after);
    TreeText(t, 0, finite, after);
    SpaceText(before, Print(t, after));
    var s :| Utf8(s) == b;
    FromUtf8OfUtf8(s);
  }
}
