/** Canonical bytes are always valid UTF-8 text. */
module CanonicalText {
  import opened Bytes
  import opened Text
  import opened JsonValue

  ghost predicate IsText(b: bytes) { exists s :: Utf8(s) == b }

  lemma TextConcat(a: bytes, b: bytes)
    requires IsText(a) && IsText(b)
    ensures IsText(a + b)
  {
    var s :| Utf8(s) == a;
    var t :| Utf8(t) == b;
    Utf8Concat(s, t);
  }

  lemma {:induction false} AsciiText(b: bytes)
    requires forall i | 0 <= i < |b| :: b[i] < 0x80
    ensures IsText(b)
  {
    if b == [] {
      assert Utf8("") == b;
    } else {
      var c := b[0] as char;
      assert Utf8([c]) == Utf8Char(c) + Utf8("") == [b[0]];
      AsciiText(b[1..]);
      TextConcat([b[0]], b[1..]);
      assert b == [b[0]] + b[1..];
    }
  }

  lemma {:induction false} EscapedText(s: string)
    ensures IsText(Escaped(s))
  {
    if s == "" {
      AsciiText([]);
    } else {
      if s[0] as int < 0x80 {
        AsciiText(Escape(s[0]));
      } else {
        assert Utf8([s[0]]) == Utf8Char(s[0]) + Utf8("") == Escape(s[0]);
      }
      EscapedText(s[1..]);
      TextConcat(Escape(s[0]), Escaped(s[1..]));
    }
  }

  lemma Wrapped(open: byte, b: bytes, close: byte)
    requires IsText(b) && open < 0x80 && close < 0x80
    ensures IsText([open] + b + [close])
  {
    AsciiText([open]);
    AsciiText([close]);
    TextConcat([open], b);
    TextConcat([open] + b, [close]);
  }

  lemma {:induction false} JoinText(parts: seq<bytes>)
    requires forall i | 0 <= i < |parts| :: IsText(parts[i])
    ensures IsText(Join(parts))
  {
    if parts == [] {
      AsciiText([]);
    } else if |parts| > 1 {
      JoinText(parts[1..]);
      AsciiText([0x2C]);
      TextConcat(parts[0], [0x2C]);
      TextConcat(parts[0] + [0x2C], Join(parts[1..]));
    }
  }

  lemma MemberText(v: Value, k: string)
    requires v.Obj? && k in v.fields && IsText(Canon(v.fields[k]))
    ensures IsText(Member(v, k))
  {
    EscapedText(k);
    Wrapped(0x22, Escaped(k), 0x22);
    AsciiText([0x3A]);
    TextConcat(Quoted(k), [0x3A]);
    TextConcat(Quoted(k) + [0x3A], Canon(v.fields[k]));
  }

  lemma DecimalText(n: int)
    ensures IsText(Decimal(n))
  {
    var m: int := if n < 0 then -n else n;
    var d := Digits(m);
    forall i | 0 <= i < |d| ensures d[i] < 0x80 {
      assert d[i] in d;
    }
    AsciiText(d);
    AsciiText([0x2D]);
    TextConcat([0x2D], d);
  }

  lemma {:induction false} CanonIsText(v: Value)
    ensures IsText(Canon(v))
  {
    match v
    case Null => AsciiText(NULL);
    case Bool(b) => AsciiText(if b then TRUE else FALSE);
    case Num(n) => DecimalText(n);
    case Str(s) =>
      EscapedText(s);
      Wrapped(0x22, Escaped(s), 0x22);
    case Arr(items) =>
      forall i | 0 <= i < |items| ensures IsText(Elements(v)[i]) {
        CanonIsText(items[i]);
      }
      JoinText(Elements(v));
      Wrapped(0x5B, Join(Elements(v)), 0x5D);
    case Obj(fields) =>
      var ks := Names(fields.Keys);
      forall i | 0 <= i < |ks| ensures IsText(Members(v, ks)[i]) {
        assert ks[i] in fields;
        CanonIsText(fields[ks[i]]);
        MemberText(v, ks[i]);
      }
      JoinText(Members(v, ks));
      Wrapped(0x7B, Join(Members(v, ks)), 0x7D);
  }

  /** Reading canonical bytes as text never fails, and the text has as many bytes. */
  lemma CanonicalDecodes(v: Value)
    ensures FromUtf8(Canon(v)).Some? && Utf8Len(FromUtf8(Canon(v)).value) == |Canon(v)|
  {
    CanonIsText(v);
    var s :| Utf8(s) == Canon(v);
    FromUtf8OfUtf8(s);
  }
}
