/** JSON values and their canonical text: sorted member names, integers only, minimal escapes. */
module JsonValue {
  import opened Bytes
  import opened Text
  import opened Wrappers
  import opened Seqs
  import opened Limits

  datatype Value =
    | Null
    | Bool(b: bool)
    | Num(n: int)
    | Str(s: string)
    | Arr(items: seq<Value>)
    | Obj(fields: map<string, Value>)

  predicate Ascii(s: string) { forall c | c in s :: c as int < 0x80 }

  /** What has a canonical text: safe integers and ASCII member names, at every depth. */
  predicate Printable(v: Value) {
    match v
    case Num(n) => -MAX_SAFE <= n <= MAX_SAFE
    case Arr(items) => forall i | 0 <= i < |items| :: Printable(items[i])
    case Obj(fields) => forall k | k in fields :: Ascii(k) && Printable(fields[k])
    case _ => true
  }

  // ----------------------------------------------------------------- numbers

  function Digits(n: nat): (r: bytes)
    ensures |r| > 0 && forall d | d in r :: 0x30 <= d <= 0x39
    ensures r[0] == 0x30 ==> n == 0 && r == [0x30]
  {
    if n < 10 then [0x30 + n] else Digits(n / 10) + [0x30 + n % 10]
  }

  function Decimal(n: int): bytes {
    if n < 0 then [0x2D] + Digits(-n) else Digits(n)
  }

  // ----------------------------------------------------------------- strings

  /** The short form of an escaped character, or its four-digit form for the other control characters. */
  function Escape(c: char): (r: bytes)
  {
    var x := c as int;
    if x == 0x22 || x == 0x5C then [0x5C, x]
    else if x == 0x08 then [0x5C, 0x62]
    else if x == 0x09 then [0x5C, 0x74]
    else if x == 0x0A then [0x5C, 0x6E]
    else if x == 0x0C then [0x5C, 0x66]
    else if x == 0x0D then [0x5C, 0x72]
    else if x < 0x20 then [0x5C, 0x75, 0x30, 0x30, HexByte(x / 16), HexByte(x % 16)]
    else Utf8Char(c)
  }

  function HexByte(n: nat): (r: byte)
    requires n < 16
  {
    if n < 10 then 0x30 + n else 0x61 + (n - 10)
  }

  function Escaped(s: string): bytes {
    if s == [] then [] else Escape(s[0]) + Escaped(s[1..])
  }

  function Quoted(s: string): bytes { [0x22] + Escaped(s) + [0x22] }

  // ----------------------------------------------------------- sorted members

  predicate Sorted(ks: seq<string>) {
    forall i, j | 0 <= i < j < |ks| :: TextLess(ks[i], ks[j])
  }

  predicate Lists(ks: seq<string>, names: set<string>) {
    (forall k | k in ks :: k in names) && (forall k | k in names :: k in ks)
  }

  /** One set of names has one sorted listing. */
  lemma {:induction false} SortedUnique(a: seq<string>, b: seq<string>)
    requires Sorted(a) && Sorted(b) && forall k :: k in a <==> k in b
    ensures a == b
  {
    assert a != [] ==> a[0] in b;
    assert b != [] ==> b[0] in a;
    if a != [] && b != [] {
      SameLeast(a, b);
      SameRest(a, b);
      SortedUnique(a[1..], b[1..]);
      assert a == [a[0]] + a[1..] && b == [b[0]] + b[1..];
    }
  }

  lemma SameLeast(a: seq<string>, b: seq<string>)
    requires a != [] && b != [] && Sorted(a) && Sorted(b) && forall k :: k in a <==> k in b
    ensures a[0] == b[0]
  {
    TextLessTotal(a[0], b[0]);
    assert a[0] in b && b[0] in a;
  }

  lemma SameRest(a: seq<string>, b: seq<string>)
    requires a != [] && b != [] && a[0] == b[0] && Sorted(a) && Sorted(b) && forall k :: k in a <==> k in b
    ensures forall k :: k in a[1..] <==> k in b[1..]
  {
    TextLessTotal(a[0], a[0]);
    assert a == [a[0]] + a[1..] && b == [b[0]] + b[1..];
    forall k
      ensures k in a[1..] <==> k in b[1..]
    {
      assert k in a[1..] <==> k in a && k != a[0];
      assert k in b[1..] <==> k in b && k != b[0];
    }
  }

  /** A name placed among sorted names. */
  function InsertName(k: string, ks: seq<string>): (r: seq<string>)
    ensures forall x :: x in r <==> x == k || x in ks
  {
    if ks == [] || TextLess(k, ks[0]) then [k] + ks else [ks[0]] + InsertName(k, ks[1..])
  }

  lemma {:induction false} InsertNameSorted(k: string, ks: seq<string>)
    requires Sorted(ks) && k !in ks
    ensures Sorted(InsertName(k, ks))
  {
    if ks == [] {
    } else if TextLess(k, ks[0]) {
      forall j | 0 <= j < |ks|
        ensures TextLess(k, ks[j])
      {
        if j > 0 {
          LessTransitive(Codes(k), Codes(ks[0]), Codes(ks[j]));
        }
      }
    } else {
      InsertNameSorted(k, ks[1..]);
      TextLessTotal(k, ks[0]);
      var r := InsertName(k, ks[1..]);
      forall j | 0 <= j < |r|
        ensures TextLess(ks[0], r[j])
      {
        assert r[j] in r;
      }
    }
  }

  /** The sorted listing of a set of names. */
  ghost function Names(names: set<string>): (ks: seq<string>)
    ensures Sorted(ks) && Lists(ks, names)
  {
    if names == {} then []
    else
      var k :| k in names;
      var rest := Names(names - {k});
      InsertNameSorted(k, rest);
      InsertName(k, rest)
  }

  // --------------------------------------------------------- canonical bytes

  const NULL: bytes := [0x6E, 0x75, 0x6C, 0x6C]
  const TRUE: bytes := [0x74, 0x72, 0x75, 0x65]
  const FALSE: bytes := [0x66, 0x61, 0x6C, 0x73, 0x65]

  function Join(parts: seq<bytes>): bytes {
    if parts == [] then []
    else if |parts| == 1 then parts[0]
    else parts[0] + [0x2C] + Join(parts[1..])
  }

  ghost function Canon(v: Value): bytes
    decreases v, 1
  {
    match v
    case Null => NULL
    case Bool(b) => if b then TRUE else FALSE
    case Num(n) => Decimal(n)
    case Str(s) => Quoted(s)
    case Arr(items) => [0x5B] + Join(Elements(v)) + [0x5D]
    case Obj(fields) => [0x7B] + Join(Members(v, Names(fields.Keys))) + [0x7D]
  }

  predicate Covers(v: Value, ks: seq<string>)
    requires v.Obj?
  {
    forall i | 0 <= i < |ks| :: ks[i] in v.fields
  }

  ghost function Elements(v: Value): (r: seq<bytes>)
    requires v.Arr?
    ensures |r| == |v.items| && forall i | 0 <= i < |r| :: r[i] == Canon(v.items[i])
    decreases v, 0
  {
    seq(|v.items|, i requires 0 <= i < |v.items| => Canon(v.items[i]))
  }

  /** The named members, each as its quoted name, a colon and its value. */
  ghost function Members(v: Value, ks: seq<string>): (r: seq<bytes>)
    requires v.Obj? && Covers(v, ks)
    ensures |r| == |ks| && forall i | 0 <= i < |r| :: r[i] == Member(v, ks[i])
    decreases v, 0, 1
  {
    seq(|ks|, i requires 0 <= i < |ks| => Member(v, ks[i]))
  }

  ghost function Member(v: Value, k: string): bytes
    requires v.Obj? && k in v.fields
    decreases v, 0, 0
  {
    Quoted(k) + [0x3A] + Canon(v.fields[k])
  }

  // ------------------------------------------------------------- the printer

  /** Canonical bytes, or nothing when a member name is not ASCII or a number is not a safe integer. */
  method Canonical(v: Value) returns (r: Option<bytes>)
    ensures r == if Printable(v) then Some(Canon(v)) else None
  {
    var ok, out := Append(v, []);
    assert [] + Canon(v) == Canon(v);
    return if ok then Some(out) else None;
  }

  /** Member names in whatever order the map yields them, sorted one by one. */
  method SortNames(names: set<string>) returns (ks: seq<string>)
    ensures ks == Names(names)
  {
    ks := [];
    var todo := names;
    while todo != {}
      invariant todo <= names && Sorted(ks) && Lists(ks, names - todo)
      decreases todo
    {
      var k :| k in todo;
      InsertNameSorted(k, ks);
      ks := InsertName(k, ks);
      todo := todo - {k};
    }
    SortedUnique(ks, Names(names));
  }

  method Append(v: Value, out: bytes) returns (ok: bool, r: bytes)
    ensures ok <==> Printable(v)
    ensures ok ==> r == out + Canon(v)
    decreases v, 1
  {
    match v
    case Null => return true, out + NULL;
    case Bool(b) => return true, out + if b then TRUE else FALSE;
    case Num(n) => return -MAX_SAFE <= n <= MAX_SAFE, out + Decimal(n);
    case Str(s) => return true, out + Quoted(s);
    case Arr(items) =>
      ok, r := AppendElements(v, out);
      if ok { ElementsDone(v, out); }
    case Obj(fields) =>
      var ks := SortNames(fields.Keys);
      ok, r := AppendMembers(v, ks, out);
      if ok { MembersDone(v, ks, out); }
  }

  function Comma(i: nat): bytes { if i == 0 then [] else [0x2C] }

  lemma {:induction false} JoinNext(parts: seq<bytes>, i: nat)
    requires i < |parts|
    ensures Join(parts[..i + 1]) == Join(parts[..i]) + Comma(i) + parts[i]
  {
    if i > 0 {
      JoinNext(parts[1..], i - 1);
      assert parts[..i + 1][1..] == parts[1..][..i];
      assert parts[..i][1..] == parts[1..][..i - 1];
      if i > 1 {
        assert Join(parts[..i]) == parts[0] + [0x2C] + Join(parts[1..][..i - 1]);
      } else {
        assert parts[1..][..0] == [];
      }
    }
  }

  /** The buffer after the first `i` parts. */
  ghost function Written(out: bytes, parts: seq<bytes>, i: nat): bytes
    requires i <= |parts|
  {
    if i == 0 then out else Written(out, parts, i - 1) + Comma(i - 1) + parts[i - 1]
  }

  lemma {:induction false} WrittenJoin(out: bytes, parts: seq<bytes>, i: nat)
    requires i <= |parts|
    ensures Written(out, parts, i) == out + Join(parts[..i])
  {
    if i > 0 {
      WrittenJoin(out, parts, i - 1);
      JoinNext(parts, i - 1);
      Assoc4(out, Join(parts[..i - 1]), Comma(i - 1), parts[i - 1]);
    }
  }

  lemma WriteAll(out: bytes, left: byte, parts: seq<bytes>, right: byte)
    ensures Written(out + [left], parts, |parts|) + [right] == out + ([left] + Join(parts) + [right])
  {
    WrittenJoin(out + [left], parts, |parts|);
    TakeAll(parts);
    Assoc4(out, [left], Join(parts), [right]);
  }

  method AppendElements(v: Value, out: bytes) returns (ok: bool, r: bytes)
    requires v.Arr?
    ensures ok ==> ElementsPrintable(v, |v.items|) && r == Written(out + [0x5B], Elements(v), |v.items|) + [0x5D]
    ensures !ok ==> exists i :: 0 <= i < |v.items| && !Printable(v.items[i])
    decreases v, 0
  {
    r := out + [0x5B];
    for i := 0 to |v.items|
      invariant ElementsPrintable(v, i)
      invariant r == Written(out + [0x5B], Elements(v), i)
    {
      ok, r := Append(v.items[i], r + Comma(i));
      if !ok { return; }
    }
    return true, r + [0x5D];
  }

  method AppendMembers(v: Value, ks: seq<string>, out: bytes) returns (ok: bool, r: bytes)
    requires v.Obj? && Covers(v, ks)
    ensures ok ==> MembersPrintable(v, ks, |ks|) && r == Written(out + [0x7B], Members(v, ks), |ks|) + [0x7D]
    ensures !ok ==> exists i :: 0 <= i < |ks| && !(Ascii(ks[i]) && Printable(v.fields[ks[i]]))
    decreases v, 0, 1
  {
    r := out + [0x7B];
    for i := 0 to |ks|
      invariant MembersPrintable(v, ks, i)
      invariant r == Written(out + [0x7B], Members(v, ks), i)
    {
      ok, r := AppendMember(v, ks[i], r + Comma(i));
      if !ok { return; }
    }
    return true, r + [0x7D];
  }

  method AppendMember(v: Value, k: string, out: bytes) returns (ok: bool, r: bytes)
    requires v.Obj? && k in v.fields
    ensures ok <==> Ascii(k) && Printable(v.fields[k])
    ensures ok ==> r == out + Member(v, k)
    decreases v, 0, 0
  {
    if !Ascii(k) { return false, out; }
    ok, r := Append(v.fields[k], out + (Quoted(k) + [0x3A]));
    WriteName(out, Quoted(k), Canon(v.fields[k]));
  }

  lemma ElementsDone(v: Value, out: bytes)
    requires v.Arr? && ElementsPrintable(v, |v.items|)
    ensures Printable(v) && Written(out + [0x5B], Elements(v), |v.items|) + [0x5D] == out + Canon(v)
  {
    AllElementsPrintable(v, |v.items|);
    WriteAll(out, 0x5B, Elements(v), 0x5D);
  }

  lemma MembersDone(v: Value, ks: seq<string>, out: bytes)
    requires v.Obj? && ks == Names(v.fields.Keys) && MembersPrintable(v, ks, |ks|)
    ensures Printable(v) && Written(out + [0x7B], Members(v, ks), |ks|) + [0x7D] == out + Canon(v)
  {
    AllMembersPrintable(v, ks, |ks|);
    TakeAll(ks);
    WriteAll(out, 0x7B, Members(v, ks), 0x7D);
  }

  ghost predicate ElementsPrintable(v: Value, i: nat)
    requires v.Arr? && i <= |v.items|
  {
    i == 0 || (ElementsPrintable(v, i - 1) && Printable(v.items[i - 1]))
  }

  lemma {:induction false} AllElementsPrintable(v: Value, i: nat)
    requires v.Arr? && i <= |v.items| && ElementsPrintable(v, i)
    ensures forall j | 0 <= j < i :: Printable(v.items[j])
  {
    if i > 0 {
      AllElementsPrintable(v, i - 1);
    }
  }

  ghost predicate MembersPrintable(v: Value, ks: seq<string>, i: nat)
    requires v.Obj? && i <= |ks| && Covers(v, ks)
  {
    i == 0 || (MembersPrintable(v, ks, i - 1) && Ascii(ks[i - 1]) && Printable(v.fields[ks[i - 1]]))
  }

  lemma {:induction false} AllMembersPrintable(v: Value, ks: seq<string>, i: nat)
    requires v.Obj? && i <= |ks| && Covers(v, ks)
    requires MembersPrintable(v, ks, i)
    ensures forall k | k in ks[..i] :: Ascii(k) && Printable(v.fields[k])
  {
    if i > 0 {
      AllMembersPrintable(v, ks, i - 1);
      TakeNext(ks, i - 1);
    }
  }

  lemma WriteName(r: bytes, name: bytes, value: bytes)
    ensures r + (name + [0x3A]) + value == r + (name + [0x3A] + value)
  {
    Assoc(r, name + [0x3A], value);
  }
}
