/** The strict reader undoes the canonical printer, so canonical bytes determine the value. */
module CanonicalRoundTrip {
  import opened Bytes
  import opened Text
  import opened Wrappers
  import opened Seqs
  import opened Limits
  import opened JsonValue
  import opened JsonText
  import opened StrictJson

  /** Printable, with member names the reader allows. */
  predicate Readable(v: Value, allowed: string -> bool) {
    match v
    case Num(n) => -MAX_SAFE <= n <= MAX_SAFE
    case Arr(items) => forall i | 0 <= i < |items| :: Readable(items[i], allowed)
    case Obj(fields) => forall k | k in fields :: Ascii(k) && allowed(k) && Readable(fields[k], allowed)
    case _ => true
  }

  const AnyName: string -> bool := name => true

  /** Nothing, or a byte that ends a value. */
  predicate Delimited(rest: bytes) {
    rest == [] || rest[0] == 0x2C || rest[0] == 0x5D || rest[0] == 0x7D
  }

  // ----------------------------------------------------------------- numbers

  lemma {:induction false} LeadingDigitsOf(d: bytes, rest: bytes)
    requires forall i | 0 <= i < |d| :: IsDigitByte(d[i])
    requires rest == [] || !IsDigitByte(rest[0])
    ensures LeadingDigits(d + rest) == d
  {
    if d == [] {
      assert d + rest == rest;
    } else {
      LeadingDigitsOf(d[1..], rest);
      assert (d + rest)[1..] == d[1..] + rest;
    }
  }

  lemma {:induction false} DigitsValueOf(n: nat)
    ensures forall i | 0 <= i < |Digits(n)| :: IsDigitByte(Digits(n)[i])
    ensures DigitsValue(Digits(n)) == n
  {
    if n >= 10 {
      DigitsValueOf(n / 10);
      var d := Digits(n);
      assert d[..|d| - 1] == Digits(n / 10) && d[|d| - 1] == 0x30 + n % 10;
    } else {
      assert Digits(n)[..0] == [];
    }
  }

  lemma ReadMagnitudeOf(n: nat, rest: bytes)
    requires Delimited(rest)
    ensures ReadMagnitude(Digits(n) + rest) == Some((n, rest))
  {
    DigitsValueOf(n);
    LeadingDigitsOf(Digits(n), rest);
    DropHead(Digits(n), rest);
  }

  lemma ReadNegative(m: int, rest: bytes)
    requires 0 < m <= MAX_SAFE && Delimited(rest)
    ensures ReadNumber([0x2D] + Digits(m) + rest) == Some((Num(-m), rest))
  {
    ReadMagnitudeOf(m, rest);
    Assoc([0x2D], Digits(m), rest);
    DropHead([0x2D], Digits(m) + rest);
  }

  lemma ReadNumberOf(n: int, rest: bytes)
    requires -MAX_SAFE <= n <= MAX_SAFE && Delimited(rest)
    ensures ReadNumber(Decimal(n) + rest) == Some((Num(n), rest))
  {
    if n < 0 {
      ReadNegative(-n, rest);
    } else {
      ReadMagnitudeOf(n, rest);
      assert Digits(n)[0] in Digits(n);
      assert (Decimal(n) + rest)[0] == Digits(n)[0];
    }
  }

  // ----------------------------------------------------------------- framing

  /** A canonical text starts with a byte that is neither white space nor a closing bracket. */
  lemma CanonStart(v: Value)
    ensures Canon(v) != [] && !IsSpace(Canon(v)[0]) && Canon(v)[0] != 0x5D && Canon(v)[0] != 0x7D
    ensures v.Num? ==> Canon(v)[0] == 0x2D || IsDigitByte(Canon(v)[0])
  {
    match v
    case Num(n) =>
      var d := Digits(if n < 0 then -n else n);
      assert d[0] in d;
    case _ =>
  }

  lemma SkipNothing(s: bytes)
    requires s != [] && !IsSpace(s[0])
    ensures SkipSpace(s) == s
  {
  }

  lemma JoinFrom(parts: seq<bytes>, i: nat, tail: bytes)
    requires i < |parts|
    ensures i + 1 == |parts| ==> Join(parts[i..]) + tail == parts[i] + tail
    ensures i + 1 < |parts| ==> Join(parts[i..]) + tail == parts[i] + ([0x2C] + (Join(parts[i + 1..]) + tail))
  {
    var p := parts[i..];
    DropDrop(parts, i);
    if i + 1 < |parts| {
      assert Join(p) == p[0] + [0x2C] + Join(p[1..]);
      Assoc4(p[0], [0x2C], Join(p[1..]), tail);
    }
  }

  lemma DropDrop<T>(s: seq<T>, i: nat)
    requires i < |s|
    ensures s[i..] != [] && s[i..][0] == s[i] && s[i..][1..] == s[i + 1..]
  {
  }

  // ------------------------------------------------------------------ values

  /** Reading the canonical text of a readable value gives the value back and stops where the text ends. */
  lemma {:induction false} ReadCanon(v: Value, rest: bytes, allowed: string -> bool)
    requires Readable(v, allowed) && Delimited(rest)
    ensures ReadValue(Canon(v) + rest, allowed) == Some((v, rest))
    decreases v, 1
  {
    var s := Canon(v) + rest;
    CanonStart(v);
    assert s[0] == Canon(v)[0];
    SkipNothing(s);
    match v
    case Null => DropHead(NULL, rest);
    case Bool(b) => DropHead(Canon(v), rest);
    case Num(n) => ReadNumberOf(n, rest);
    case Str(str) =>
      Assoc4([0x22], Escaped(str), [0x22], rest);
      ReadStringOfEscaped(str, rest);
      DropHead([0x22], Escaped(str) + ([0x22] + rest));
    case Arr(items) => ReadCanonArray(v, rest, allowed);
    case Obj(fields) => ReadCanonObject(v, rest, allowed);
  }

  lemma ReadCanonArray(v: Value, rest: bytes, allowed: string -> bool)
    requires v.Arr? && Readable(v, allowed) && Delimited(rest)
    ensures ReadArray(Canon(v) + rest, allowed) == Some((v, rest))
    decreases v, 0, |v.items| + 1
  {
    var s, parts, tail := Canon(v) + rest, Elements(v), [0x5D] + rest;
    Assoc4([0x5B], Join(parts), [0x5D], rest);
    DropHead([0x5B], Join(parts) + tail);
    if v.items == [] {
      assert Join(parts) + tail == tail;
      SkipNothing(tail);
      assert v == Arr([]);
    } else {
      ReadCanonElements(v, 0, rest, allowed);
      DropNone(parts);
      DropNone(v.items);
      JoinFrom(parts, 0, tail);
      CanonStart(v.items[0]);
      SkipNothing(Join(parts) + tail);
    }
  }

  lemma DropNone<T>(s: seq<T>)
    ensures s[0..] == s
  {
  }

  lemma ReadCanonElements(v: Value, i: nat, rest: bytes, allowed: string -> bool)
    requires v.Arr? && Readable(v, allowed) && i < |v.items|
    ensures ReadElements(Join(Elements(v)[i..]) + ([0x5D] + rest), allowed) == Some((v.items[i..], rest))
    decreases v, 0, |v.items| - i
  {
    var parts, tail := Elements(v), [0x5D] + rest;
    JoinFrom(parts, i, tail);
    DropDrop(v.items, i);
    if i + 1 == |v.items| {
      ReadCanon(v.items[i], tail, allowed);
      SkipNothing(tail);
      assert v.items[i..] == [v.items[i]];
    } else {
      var more := Join(parts[i + 1..]) + tail;
      ReadCanon(v.items[i], [0x2C] + more, allowed);
      SkipNothing([0x2C] + more);
      ReadCanonElements(v, i + 1, rest, allowed);
      Uncons(v.items[i..]);
    }
  }

  lemma ReadCanonObject(v: Value, rest: bytes, allowed: string -> bool)
    requires v.Obj? && Readable(v, allowed) && Delimited(rest)
    ensures ReadObject(Canon(v) + rest, allowed) == Some((v, rest))
    decreases v, 0, |v.fields| + 3
  {
    var ks := Names(v.fields.Keys);
    var body := Join(Members(v, ks)) + ([0x7D] + rest);
    Assoc4([0x7B], Join(Members(v, ks)), [0x7D], rest);
    if ks == [] {
      EmptyObject(v, [0x7D] + rest);
      DropHead([0x7B], body);
    } else {
      ReadFilledObject(v, ks, body, rest, allowed);
    }
  }

  lemma ReadFilledObject(v: Value, ks: seq<string>, body: bytes, rest: bytes, allowed: string -> bool)
    requires v.Obj? && Readable(v, allowed) && ks == Names(v.fields.Keys) && ks != []
    requires body == Join(Members(v, ks)) + ([0x7D] + rest)
    ensures ReadObject([0x7B] + body, allowed) == Some((v, rest))
    decreases v, 0, |v.fields| + 2
  {
    NamesCount(v.fields.Keys);
    DropHead([0x7B], body);
    ReadCanonMembers(v, ks, 0, rest, allowed);
    AmongAll(v, ks);
    DropNone(Members(v, ks));
    ObjectStart(v, ks, [0x7D] + rest);
  }

  lemma EmptyObject(v: Value, tail: bytes)
    requires v.Obj? && Names(v.fields.Keys) == [] && tail != [] && tail[0] == 0x7D
    ensures v == Obj(map[]) && SkipSpace(Join(Members(v, [])) + tail) == tail
  {
    assert v.fields == map[];
    assert Join(Members(v, [])) + tail == tail;
    SkipNothing(tail);
  }

  lemma ObjectStart(v: Value, ks: seq<string>, tail: bytes)
    requires v.Obj? && Covers(v, ks) && ks != []
    ensures var s := Join(Members(v, ks)) + tail; SkipSpace(s) == s && s != [] && s[0] == 0x22
  {
    var parts := Members(v, ks);
    DropNone(parts);
    JoinFrom(parts, 0, tail);
    assert Member(v, ks[0])[0] == 0x22;
    SkipNothing(Join(parts) + tail);
  }

  /** The members under the first `i` names. */
  ghost function Among(v: Value, ks: seq<string>, i: nat): map<string, Value>
    requires v.Obj? && i <= |ks| && Covers(v, ks)
  {
    map k | k in ks[..i] && k in v.fields :: v.fields[k]
  }

  lemma AmongAll(v: Value, ks: seq<string>)
    requires v.Obj? && Lists(ks, v.fields.Keys)
    ensures Among(v, ks, 0) == map[] && Among(v, ks, |ks|) == v.fields
  {
    TakeAll(ks);
  }

  lemma AmongNext(v: Value, ks: seq<string>, i: nat)
    requires v.Obj? && i < |ks| && Covers(v, ks) && Sorted(ks)
    ensures ks[i] !in Among(v, ks, i)
    ensures Among(v, ks, i + 1) == Among(v, ks, i)[ks[i] := v.fields[ks[i]]]
  {
    TakeNext(ks, i);
    forall j | 0 <= j < i
      ensures ks[j] != ks[i]
    {
      TextLessTotal(ks[j], ks[j]);
    }
  }

  lemma NamesCount(names: set<string>)
    ensures |Names(names)| <= |names|
  {
    var ks := Names(names);
    forall i, j | 0 <= i < j < |ks|
      ensures ks[i] != ks[j]
    {
      TextLessTotal(ks[i], ks[i]);
    }
    DistinctCount(ks, names);
  }

  lemma {:induction false} DistinctCount<T>(s: seq<T>, names: set<T>)
    requires forall i, j | 0 <= i < j < |s| :: s[i] != s[j]
    requires forall i | 0 <= i < |s| :: s[i] in names
    ensures |s| <= |names|
  {
    if s != [] {
      var n := |s| - 1;
      DistinctCount(s[..n], names - {s[n]});
    }
  }

  lemma ReadMember(v: Value, k: string, more: bytes, allowed: string -> bool)
    requires v.Obj? && k in v.fields && Readable(v, allowed) && Delimited(more)
    ensures ReadName(Member(v, k) + more).Some?
    ensures ReadName(Member(v, k) + more).value.0 == k
    ensures ReadValue(ReadName(Member(v, k) + more).value.1, allowed) == Some((v.fields[k], more))
    decreases v, 0, 0
  {
    var s := Member(v, k) + more;
    var value := Canon(v.fields[k]);
    MemberBytes(k, value, more);
    SkipNothing(s);
    var after := [0x3A] + (value + more);
    DropHead([0x22], Escaped(k) + ([0x22] + after));
    ReadStringOfEscaped(k, after);
    SkipNothing(after);
    DropHead([0x3A], value + more);
    ReadCanon(v.fields[k], more, allowed);
  }

  lemma MemberBytes(k: string, value: bytes, more: bytes)
    ensures Quoted(k) + [0x3A] + value + more == [0x22] + (Escaped(k) + ([0x22] + ([0x3A] + (value + more))))
  {
    Assoc4(Quoted(k), [0x3A], value, more);
    Assoc4([0x22], Escaped(k), [0x22], [0x3A] + (value + more));
  }

  lemma ReadCanonMembers(v: Value, ks: seq<string>, i: nat, rest: bytes, allowed: string -> bool)
    requires v.Obj? && Readable(v, allowed) && Sorted(ks) && Covers(v, ks) && i < |ks| <= |v.fields|
    ensures ReadMembers(Join(Members(v, ks)[i..]) + ([0x7D] + rest), Among(v, ks, i), allowed)
         == Some((Among(v, ks, |ks|), rest))
    decreases v, 0, |v.fields| - i + 1
  {
    var parts, tail := Members(v, ks), [0x7D] + rest;
    JoinFrom(parts, i, tail);
    AmongNext(v, ks, i);
    if i + 1 == |ks| {
      ReadMember(v, ks[i], tail, allowed);
      SkipNothing(tail);
    } else {
      var more := Join(parts[i + 1..]) + tail;
      ReadMember(v, ks[i], [0x2C] + more, allowed);
      SkipNothing([0x2C] + more);
      ReadCanonMembers(v, ks, i + 1, rest, allowed);
    }
  }

  /** Canonical bytes within the size and depth limits read back as the value they print. */
  lemma StrictOfCanon(v: Value, maximum: nat)
    requires Readable(v, NotPrivate) && DepthOk(v, 0) && |Canon(v)| <= maximum
    ensures Strict(Canon(v), maximum) == Some(v)
  {
    assert Canon(v) + [] == Canon(v);
    ReadCanon(v, [], NotPrivate);
  }

  lemma {:induction false} PrintableIsReadable(v: Value)
    requires Printable(v)
    ensures Readable(v, AnyName)
  {
    match v
    case Arr(items) =>
      forall i | 0 <= i < |items|
        ensures Readable(items[i], AnyName)
      {
        PrintableIsReadable(items[i]);
      }
    case Obj(fields) =>
      forall k | k in fields
        ensures Readable(fields[k], AnyName)
      {
        PrintableIsReadable(fields[k]);
      }
    case _ =>
  }

  /** Two printable values with the same canonical bytes are the same value. */
  lemma CanonInjective(v: Value, w: Value)
    requires Printable(v) && Printable(w) && Canon(v) == Canon(w)
    ensures v == w
  {
    PrintableIsReadable(v);
    PrintableIsReadable(w);
    ReadCanon(v, [], AnyName);
    ReadCanon(w, [], AnyName);
  }
}
