/** Bounds on the length of canonical texts. */
module CanonicalSize {
  import opened Bytes
  import opened Text
  import opened JsonValue

  lemma {:induction false} EscapedLength(s: string)
    ensures |Escaped(s)| <= 6 * |s|
  {
    if s != "" {
      assert |Escape(s[0])| <= 6;
      EscapedLength(s[1..]);
    }
  }

  lemma TextLength(s: string)
    ensures |Canon(Str(s))| <= 6 * |s| + 2
  {
    EscapedLength(s);
  }

  lemma {:induction false} JoinLength(parts: seq<bytes>, most: nat)
    requires forall i | 0 <= i < |parts| :: |parts[i]| <= most
    ensures |Join(parts)| <= |parts| * (most + 1)
  {
    if |parts| > 1 {
      JoinLength(parts[1..], most);
      assert |parts| * (most + 1) == (|parts| - 1) * (most + 1) + most + 1;
    }
  }

  lemma ListLength(v: Value, count: nat, most: nat)
    requires v.Arr? && |v.items| == count && forall i | 0 <= i < |v.items| :: |Canon(v.items[i])| <= most
    ensures |Canon(v)| <= count * (most + 1) + 2
  {
    JoinLength(Elements(v), most);
  }

  lemma {:induction false} DistinctLength(ks: seq<string>, names: set<string>)
    requires Sorted(ks) && Lists(ks, names)
    ensures |ks| == |names|
    decreases |ks|
  {
    if ks == [] {
      assert names == {};
    } else {
      var rest := names - {ks[0]};
      TextLessTotal(ks[0], ks[0]);
      assert ks == [ks[0]] + ks[1..];
      assert Lists(ks[1..], rest);
      DistinctLength(ks[1..], rest);
      assert names == rest + {ks[0]};
    }
  }

  lemma MemberLength(v: Value, k: string, most: nat)
    requires v.Obj? && k in v.fields && |Canon(v.fields[k])| <= most
    ensures |Member(v, k)| <= 6 * |k| + 3 + most
  {
    EscapedLength(k);
  }

  lemma ObjectLength(v: Value, count: nat, most: nat)
    requires v.Obj? && |v.fields.Keys| == count && forall k | k in v.fields :: |Member(v, k)| <= most
    ensures |Canon(v)| <= count * (most + 1) + 2
  {
    var ks := Names(v.fields.Keys);
    DistinctLength(ks, v.fields.Keys);
    forall i | 0 <= i < |ks| ensures |Members(v, ks)[i]| <= most {
      assert ks[i] in v.fields;
    }
    JoinLength(Members(v, ks), most);
  }
}
