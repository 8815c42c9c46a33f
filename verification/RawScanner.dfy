/** The scanner itself: a position moved over the bytes, never out of range, and always forward. */
module RawScanner {
  import opened Bytes
  import opened Text
  import opened Wrappers
  import opened Seqs
  import opened JsonValue
  import opened JsonText
  import opened StrictJson
  import opened RawJson

  lemma Tail(b: bytes, p: nat)
    requires p < |b|
    ensures b[p..] != [] && b[p..][0] == b[p] && b[p..][1..] == b[p + 1..]
  {
  }

  // ------------------------------------------------------------------ strings

  /** How many bytes up to and over the closing quote, by escapes alone. */
  function Close(s: bytes, escaped: bool): (r: Option<nat>)
    ensures r.Some? ==> 0 < r.value <= |s|
  {
    if s == [] || s[0] < 0x20 then None
    else if !escaped && s[0] == 0x22 then Some(1)
    else
      var rest :- Close(s[1..], !escaped && s[0] == 0x5C);
      Some(rest + 1)
  }

  function Plus(k: nat, r: Option<nat>): Option<nat> { if r.Some? then Some(k + r.value) else None }

  predicate PlainByte(b: byte) { b >= 0x20 && b != 0x22 && b != 0x5C }

  lemma {:induction false} ClosePlain(s: bytes, k: nat)
    requires k <= |s| && forall i | 0 <= i < k :: PlainByte(s[i])
    ensures Close(s, false) == Plus(k, Close(s[k..], false))
  {
    if k == 0 {
      assert s[0..] == s;
    } else {
      ClosePlain(s[1..], k - 1);
      assert s[1..][k - 1..] == s[k..];
    }
  }

  lemma CloseEscape(s: bytes)
    requires |s| >= 2 && s[0] == 0x5C && s[1] >= 0x20
    ensures Close(s, false) == Plus(2, Close(s[2..], false))
  {
    assert s[1..][1..] == s[2..];
  }

  lemma CloseLong(s: bytes)
    requires |s| >= 2 && s[0] == 0x5C && s[1] == 0x75 && Hex4(s[2..]).Some?
    ensures Close(s, false) == Plus(6, Close(s[6..], false))
  {
    CloseEscape(s);
    ClosePlain(s[2..], 4);
    assert s[2..][4..] == s[6..];
  }

  /** A character of a literal is passed over whole. */
  lemma CloseUnit(s: bytes)
    requires ReadUnit(s).Some?
    ensures Close(s, false) == Plus(ReadUnit(s).value.width, Close(s[ReadUnit(s).value.width..], false))
  {
    var u := ReadUnit(s).value;
    if s[0] != 0x5C {
      ClosePlain(s, u.width);
    } else if s[1] != 0x75 {
      CloseEscape(s);
    } else {
      CloseLong(s);
      if u.width == 12 {
        var t := s[6..];
        assert t[2..] == s[8..] && t[6..] == s[12..];
        CloseLong(t);
      }
    }
  }

  lemma DecodeWithin(s: bytes, n: nat)
    requires n <= |s|
    ensures DecodeChar(s[..n]).Some? ==> DecodeChar(s) == DecodeChar(s[..n])
    ensures DecodeChar(s).Some? && DecodeChar(s).value.width <= n ==> DecodeChar(s[..n]) == DecodeChar(s)
  {
    assert forall i | 0 <= i < n :: s[..n][i] == s[i];
  }

  lemma HexWithin(s: bytes, k: nat, n: nat)
    requires k + 4 <= n <= |s|
    ensures Hex4(s[..n][k..]) == Hex4(s[k..])
  {
    assert forall i | 0 <= i < 4 :: s[..n][k..][i] == s[k..][i];
  }

  /** A character is read from its own bytes, whatever follows them. */
  lemma UnitWithin(s: bytes, n: nat)
    requires n <= |s|
    ensures ReadUnit(s[..n]).Some? ==> ReadUnit(s) == ReadUnit(s[..n])
    ensures ReadUnit(s).Some? && ReadUnit(s).value.width <= n ==> ReadUnit(s[..n]) == ReadUnit(s)
  {
    if n > 0 && s[0] != 0x5C {
      DecodeWithin(s, n);
    } else if n >= 6 && s[1] == 0x75 {
      HexWithin(s, 2, n);
      if n >= 12 {
        HexWithin(s, 8, n);
      }
    }
  }

  lemma {:induction false} StringFound(s: bytes)
    requires ReadString(s).Some?
    ensures var rest := ReadString(s).value.1; Close(s, false) == Some(|s| - |rest|) && s[|s| - |rest|..] == rest
    decreases |s|
  {
    if s[0] != 0x22 {
      var u := ReadUnit(s).value;
      var rest := ReadString(s).value.1;
      StringFound(s[u.width..]);
      CloseUnit(s);
      DropTwice(s, u.width, |s| - u.width - |rest|);
    }
  }

  lemma {:induction false} StringWithin(s: bytes, n: nat)
    requires ReadString(s).Some? && n == |s| - |ReadString(s).value.1|
    ensures ReadString(s[..n]) == Some((ReadString(s).value.0, []))
    decreases |s|
  {
    if s[0] != 0x22 {
      var u := ReadUnit(s).value;
      UnitWithin(s, n);
      StringWithin(s[u.width..], n - u.width);
      assert s[..n][u.width..] == s[u.width..][..n - u.width];
    }
  }

  lemma {:induction false} StringBeyond(s: bytes, n: nat)
    requires n <= |s| && ReadString(s[..n]).Some? && ReadString(s[..n]).value.1 == []
    ensures ReadString(s) == Some((ReadString(s[..n]).value.0, s[n..]))
    decreases |s|
  {
    if s[0] != 0x22 {
      var u := ReadUnit(s[..n]).value;
      UnitWithin(s, n);
      assert s[..n][u.width..] == s[u.width..][..n - u.width];
      StringBeyond(s[u.width..], n - u.width);
      assert s[u.width..][n - u.width..] == s[n..];
    } else {
      assert s[..n][1..] == s[1..n];
    }
  }

  /** A whole string literal, decoded. */
  function Literal(x: Lexer, s: bytes): Option<string> {
    if s == [] || s[0] != 0x22 then None
    else
      var r :- x.read(s[1..]);
      if r.1 == [] then Some(r.0) else None
  }

  function Pair(t: Option<string>, rest: bytes): Option<(string, bytes)> {
    if t.Some? then Some((t.value, rest)) else None
  }

  /** Finding the end of a literal first and decoding the slice is the same as decoding in place. */
  ghost predicate Local(x: Lexer) {
    && (forall s {:trigger Close(s, false)} :: Close(s, false).None? ==> x.read(s).None?)
    && (forall s {:trigger Close(s, false)} :: Close(s, false).Some? ==>
          var n := Close(s, false).value; x.read(s) == Pair(Literal(x, [0x22] + s[..n]), s[n..]))
  }

  /** Literals read the way JSON spells them. */
  function JsonLexer(finite: bytes -> bool): Lexer { Lexer(s => ReadString(s), finite) }

  lemma ReadingIsLocal(s: bytes, n: nat)
    requires Close(s, false) == Some(n)
    ensures ReadString(s) == Pair(if ReadString(s[..n]).Some? && ReadString(s[..n]).value.1 == []
                                  then Some(ReadString(s[..n]).value.0) else None, s[n..])
  {
    if ReadString(s).Some? {
      StringFound(s);
      StringWithin(s, n);
    } else if ReadString(s[..n]).Some? && ReadString(s[..n]).value.1 == [] {
      StringBeyond(s, n);
    }
  }

  lemma JsonLexerLocal(finite: bytes -> bool)
    ensures Local(JsonLexer(finite))
  {
    var x := JsonLexer(finite);
    forall s | Close(s, false).None? ensures x.read(s).None? {
      if ReadString(s).Some? {
        StringFound(s);
      }
    }
    forall s | Close(s, false).Some?
      ensures var n := Close(s, false).value; x.read(s) == Pair(Literal(x, [0x22] + s[..n]), s[n..])
    {
      var n := Close(s, false).value;
      DropHead([0x22], s[..n]);
      ReadingIsLocal(s, n);
    }
  }

  // ------------------------------------------------------------------ scanner

  /** Where a rest starts. */
  predicate At(b: bytes, p: nat, rest: bytes) { p <= |b| && b[p..] == rest }

  class Scanner {
    const b: bytes
    const x: Lexer
    var p: nat

    ghost predicate Valid() reads this { p <= |b| }

    constructor (b: bytes, x: Lexer)
      ensures this.b == b && this.x == x && p == 0 && Valid()
    {
      this.b := b;
      this.x := x;
      p := 0;
    }

    method Space()
      requires Valid()
      modifies this`p
      ensures Valid() && p >= old(p) && At(b, p, SkipSpace(b[old(p)..]))
    {
      while p < |b| && IsSpace(b[p])
        invariant Valid() && p >= old(p) && SkipSpace(b[p..]) == SkipSpace(b[old(p)..])
        decreases |b| - p
      {
        Tail(b, p);
        p := p + 1;
      }
      if p < |b| { Tail(b, p); }
    }

    method Take(c: byte) returns (ok: bool)
      requires Valid()
      modifies this`p
      ensures Valid() && p >= old(p) && ok == ScanByte(b[old(p)..], c).Some?
      ensures ok ==> p > old(p) && At(b, p, ScanByte(b[old(p)..], c).value)
    {
      Space();
      if p == |b| || b[p] != c { return false; }
      Tail(b, p);
      p := p + 1;
      return true;
    }

    method Digits() returns (found: bool)
      requires Valid()
      modifies this`p
      ensures Valid() && p >= old(p) && found == SomeDigits(b[old(p)..]).Some?
      ensures found ==> p > old(p) && At(b, p, SomeDigits(b[old(p)..]).value)
    {
      var start := p;
      while p < |b| && IsDigitByte(b[p])
        invariant Valid() && p >= start && |LeadingDigits(b[start..])| == p - start + |LeadingDigits(b[p..])|
        decreases |b| - p
      {
        Tail(b, p);
        p := p + 1;
      }
      if p < |b| { Tail(b, p); }
      DropTwice(b, start, p - start);
      return p > start;
    }

    /** Move over the closing quote, looking at nothing but escapes. */
    method FindClose() returns (found: bool)
      requires Valid()
      modifies this`p
      ensures Valid() && p >= old(p) && found == Close(b[old(p)..], false).Some?
      ensures found ==> p == old(p) + Close(b[old(p)..], false).value
    {
      var start, escaped := p, false;
      while true
        invariant start <= p <= |b| && Close(b[start..], false) == Plus(p - start, Close(b[p..], escaped))
        decreases |b| - p
      {
        if p == |b| { return false; }
        Tail(b, p);
        var c := b[p];
        p := p + 1;
        if c < 0x20 { return false; }
        if escaped {
          escaped := false;
        } else if c == 0x5C {
          escaped := true;
        } else if c == 0x22 {
          return true;
        }
      }
    }

    /** A string literal: find its end, then decode the slice. */
    method String() returns (r: Option<string>)
      requires Valid() && Local(x)
      modifies this`p
      ensures Valid() && p >= old(p) && ScanString(b[old(p)..], x) == Pair(r, b[p..])
      ensures r.Some? ==> p > old(p)
    {
      Space();
      if p == |b| || b[p] != 0x22 { return None; }
      Tail(b, p);
      r := Quoted();
    }

    method Quoted() returns (r: Option<string>)
      requires Valid() && p < |b| && b[p] == 0x22 && Local(x)
      modifies this`p
      ensures Valid() && p > old(p) && x.read(b[old(p) + 1..]) == Pair(r, b[p..])
    {
      var start := p;
      p := p + 1;
      var found := FindClose();
      if !found { return None; }
      Slice(b, start, p);
      return Literal(x, b[start..p]);
    }

    method Whole() returns (ok: bool)
      requires Valid()
      modifies this`p
      ensures Valid() && p >= old(p) && WholePart(b[old(p)..]) == Left(ok, b[p..])
    {
      if p < |b| { Tail(b, p); }
      if p < |b| && b[p] == 0x30 {
        p := p + 1;
        return true;
      }
      ok := Digits();
    }

    method Fraction() returns (ok: bool)
      requires Valid()
      modifies this`p
      ensures Valid() && p >= old(p) && FractionPart(b[old(p)..]) == Left(ok, b[p..])
    {
      if p == |b| || b[p] != 0x2E { return true; }
      Tail(b, p);
      p := p + 1;
      ok := Digits();
    }

    method Power() returns (ok: bool)
      requires Valid()
      modifies this`p
      ensures Valid() && p >= old(p) && ExponentPart(b[old(p)..]) == Left(ok, b[p..])
    {
      if p == |b| || !Exponent(b[p]) { return true; }
      Tail(b, p);
      p := p + 1;
      if p < |b| && Signed(b[p]) {
        DropTwice(b, p - 1, 2);
        p := p + 1;
      }
      ok := Digits();
    }

    method Unsigned() returns (ok: bool, decimal: bool)
      requires Valid()
      modifies this`p
      ensures Valid() && p >= old(p)
      ensures Magnitude(b[old(p)..]) == if ok then Some((b[p..], decimal)) else None
    {
      decimal := false;
      ok := Whole();
      if !ok { return; }
      var whole := p;
      ok := Fraction();
      if !ok { return; }
      ok := Power();
      decimal := p > whole;
    }

    method Sign()
      requires Valid()
      modifies this`p
      ensures Valid() && p >= old(p) && b[p..] == AfterSign(b[old(p)..])
    {
      if p < |b| && b[p] == 0x2D {
        Tail(b, p);
        p := p + 1;
      }
    }

    method Number() returns (ok: bool)
      requires Valid()
      modifies this`p
      ensures Valid() && p >= old(p) && ScanNumber(b[old(p)..], x) == Left(ok, b[p..])
    {
      var start := p;
      Sign();
      var decimal;
      ok, decimal := Unsigned();
      if !ok || !decimal { return; }
      TakeBack(b, start, p);
      ok := x.finite(b[start..p]);
    }

    method Word(word: bytes) returns (ok: bool)
      requires Valid() && word != []
      modifies this`p
      ensures Valid() && p >= old(p) && ScanWord(b[old(p)..], word) == Left(ok, b[p..])
    {
      if p + |word| > |b| || b[p..p + |word|] != word { return false; }
      DropTwice(b, p, |word|);
      p := p + |word|;
      return true;
    }

    method Value(depth: nat) returns (ok: bool)
      requires Valid() && Local(x)
      modifies this`p
      ensures Valid() && p >= old(p) && Scan(b[old(p)..], depth, x) == Left(ok, b[p..])
      decreases |b| - p, 1
    {
      if depth > MAX_NESTING { return false; }
      Space();
      if p == |b| { return false; }
      Tail(b, p);
      var c := b[p];
      if c == 0x22 {
        var t := Quoted();
        ok := t.Some?;
      } else if c == 0x7B {
        p := p + 1;
        ok := Object(depth);
      } else if c == 0x5B {
        p := p + 1;
        ok := Array(depth);
      } else if c == 0x74 {
        ok := Word(TRUE);
      } else if c == 0x66 {
        ok := Word(FALSE);
      } else if c == 0x6E {
        ok := Word(NULL);
      } else if c == 0x2D || IsDigitByte(c) {
        ok := Number();
      } else {
        ok := false;
      }
    }

    method Head() returns (r: Option<string>)
      requires Valid() && Local(x)
      modifies this`p
      ensures Valid() && p >= old(p) && ScanHead(b[old(p)..], x) == Pair(r, b[p..])
    {
      r := String();
      if r.None? { return; }
      var colon := Take(0x3A);
      if !colon { return None; }
    }

    method Next(close: byte) returns (r: Option<bool>)
      requires Valid()
      modifies this`p
      ensures Valid() && p >= old(p)
      ensures ScanNext(b[old(p)..], close) == if r.Some? then Some((r.value, b[p..])) else None
    {
      Space();
      if p == |b| { return None; }
      Tail(b, p);
      p := p + 1;
      return if b[p - 1] == close then Some(true) else if b[p - 1] == 0x2C then Some(false) else None;
    }

    /** Members after an opening brace, each under a name not seen before. */
    method Object(depth: nat) returns (ok: bool)
      requires Valid() && Local(x)
      modifies this`p
      ensures Valid() && p >= old(p) && ScanObject(b[old(p)..], depth, x) == Left(ok, b[p..])
      decreases |b| - p, 3
    {
      ghost var start := p;
      Space();
      if p < |b| { Tail(b, p); }
      if p < |b| && b[p] == 0x7D {
        p := p + 1;
        return true;
      }
      MembersSkip(b[start..], {}, depth, x);
      ok := Members(depth);
    }

    method Members(depth: nat) returns (ok: bool)
      requires Valid() && Local(x)
      modifies this`p
      ensures Valid() && p >= old(p) && ScanMembers(b[old(p)..], {}, depth, x) == Left(ok, b[p..])
      decreases |b| - p, 2
    {
      ghost var start, want := p, ScanMembers(b[p..], {}, depth, x);
      var names: set<string> := {};
      while true
        invariant Valid() && p >= start && want == ScanMembers(b[p..], names, depth, x)
        decreases |b| - p
      {
        var name := Head();
        if name.None? || name.value in names { return false; }
        names := names + {name.value};
        ok := Value(depth + 1);
        if !ok { return false; }
        var closed := Next(0x7D);
        if closed.None? { return false; }
        if closed.value { return true; }
      }
    }

    /** Elements after an opening bracket. */
    method Array(depth: nat) returns (ok: bool)
      requires Valid() && Local(x)
      modifies this`p
      ensures Valid() && p >= old(p) && ScanArray(b[old(p)..], depth, x) == Left(ok, b[p..])
      decreases |b| - p, 3
    {
      ghost var start := p;
      Space();
      if p < |b| { Tail(b, p); }
      if p < |b| && b[p] == 0x5D {
        p := p + 1;
        return true;
      }
      ElementsSkip(b[start..], depth, x);
      ok := Elements(depth);
    }

    method Elements(depth: nat) returns (ok: bool)
      requires Valid() && Local(x)
      modifies this`p
      ensures Valid() && p >= old(p) && ScanElements(b[old(p)..], depth, x) == Left(ok, b[p..])
      decreases |b| - p, 2
    {
      ghost var start, want := p, ScanElements(b[p..], depth, x);
      while true
        invariant Valid() && p >= start && want == ScanElements(b[p..], depth, x)
        decreases |b| - p
      {
        ok := Value(depth + 1);
        if !ok { return false; }
        var closed := Next(0x5D);
        if closed.None? { return false; }
        if closed.value { return true; }
      }
    }
  }

  lemma {:induction false} SkipTwice(s: bytes)
    ensures SkipSpace(SkipSpace(s)) == SkipSpace(s)
  {
    if s != [] && IsSpace(s[0]) {
      SkipTwice(s[1..]);
    }
  }

  lemma ScanSkip(s: bytes, depth: nat, x: Lexer)
    ensures Scan(SkipSpace(s), depth, x) == Scan(s, depth, x)
  {
    SkipTwice(s);
  }

  lemma HeadSkip(s: bytes, x: Lexer)
    ensures ScanHead(SkipSpace(s), x) == ScanHead(s, x)
  {
    SkipTwice(s);
  }

  lemma MembersSkip(s: bytes, names: set<string>, depth: nat, x: Lexer)
    ensures ScanMembers(SkipSpace(s), names, depth, x) == ScanMembers(s, names, depth, x)
  {
    HeadSkip(s, x);
  }

  lemma ElementsSkip(s: bytes, depth: nat, x: Lexer)
    ensures ScanElements(SkipSpace(s), depth, x) == ScanElements(s, depth, x)
  {
    ScanSkip(s, depth + 1, x);
  }

  lemma TakeBack(b: bytes, i: nat, j: nat)
    requires i <= j <= |b|
    ensures Before(b[i..], b[j..]) == b[i..j]
  {
  }

  function Left(ok: bool, rest: bytes): Option<bytes> { if ok then Some(rest) else None }

  lemma Slice(b: bytes, i: nat, j: nat)
    requires i < j <= |b| && b[i] == 0x22
    ensures b[i..j] == [0x22] + b[i + 1..][..j - i - 1] && b[i + 1..][j - i - 1..] == b[j..]
  {
  }

  /** The whole check: size, encoding, one value, nothing left over. */
  method CheckRaw(b: bytes, maximum: nat, x: Lexer) returns (ok: bool)
    requires Local(x)
    ensures ok == Accepts(b, maximum, x)
  {
    if b == [] || |b| > maximum { return false; }
    if FromUtf8(b).None? { return false; }
    var s := new Scanner(b, x);
    assert b[0..] == b;
    ok := s.Value(0);
    if !ok { return false; }
    s.Space();
    return s.p == |b|;
  }
}
