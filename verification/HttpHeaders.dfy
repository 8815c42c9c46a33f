/** The header block of a loopback request: first values win, repeats spoil it, and an ambiguous token disappears. */
module HttpHeaders {
  import opened Text
  import opened Wrappers
  import opened Seqs

  const CSRF := "x-secs-csrf"

  type Pair = (string, string)

  /** What a header block leaves behind. */
  datatype Block = Block(headers: map<string, string>, valid: bool)

  predicate Edge(c: char) { c == ' ' || c == '\t' }

  function Trim(s: string): string {
    if s != "" && Edge(s[0]) then Trim(s[1..])
    else if s != "" && Edge(s[|s| - 1]) then Trim(s[..|s| - 1])
    else s
  }

  predicate NameOk(s: string) {
    s != "" && forall i | 0 <= i < |s| :: IsAlphanumeric(s[i]) || s[i] == '-'
  }

  predicate ValueOk(s: string) {
    forall i | 0 <= i < |s| :: (s[i] >= ' ' && s[i] as int != 0x7F) || s[i] == '\t'
  }

  /** A name and its value, or nothing when the line is malformed. */
  function HeaderLine(line: string): Option<Pair> {
    var parts :- SplitOnce(line, ':');
    if NameOk(parts.0) && ValueOk(parts.1) then Some((Lower(parts.0), Trim(parts.1))) else None
  }

  function Pairs(lines: seq<string>): Option<seq<Pair>> {
    if lines == [] then Some([])
    else
      var before :- Pairs(lines[..|lines| - 1]);
      var last :- HeaderLine(lines[|lines| - 1]);
      Some(before + [last])
  }

  // -------------------------------------------------------------- what it says

  function Count<K(==), V>(pairs: seq<(K, V)>, name: K): nat {
    if pairs == [] then 0
    else Count(pairs[..|pairs| - 1], name) + if pairs[|pairs| - 1].0 == name then 1 else 0
  }

  /** The value of the first line under a name. */
  function First<K(==), V>(pairs: seq<(K, V)>, name: K): (r: Option<V>)
    ensures r.Some? <==> Count(pairs, name) > 0
  {
    if pairs == [] then None
    else
      var before := First(pairs[..|pairs| - 1], name);
      if before.Some? then before
      else if pairs[|pairs| - 1].0 == name then Some(pairs[|pairs| - 1].1)
      else None
  }

  /** The first value under each name; the token only if it is named exactly once. */
  function Expected<K(==), V>(pairs: seq<(K, V)>, name: K, token: K): Option<V> {
    if name == token && Count(pairs, name) != 1 then None else First(pairs, name)
  }

  function Get<K(==), V>(headers: map<K, V>, name: K): Option<V> {
    if name in headers then Some(headers[name]) else None
  }

  ghost predicate NoRepeats<K(!new), V>(pairs: seq<(K, V)>) { forall name :: Count(pairs, name) <= 1 }

  ghost predicate Describes<K(!new), V>(pairs: seq<(K, V)>, headers: map<K, V>, token: K) {
    forall name :: Get(headers, name) == Expected(pairs, name, token)
  }

  // ------------------------------------------------------------------ the loop

  /** The variables of the loop. */
  datatype Seen<K, V> = Seen(headers: map<K, V>, valid: bool, seen: bool, ambiguous: bool)

  /** One line added. */
  function Add<K(==), V>(s: Seen<K, V>, p: (K, V), token: K): Seen<K, V> {
    if p.0 == token && s.ambiguous then s.(valid := false)
    else if p.0 == token && s.seen then s.(ambiguous := true, valid := false, headers := s.headers - {token})
    else
      var t := if p.0 == token then s.(seen := true) else s;
      if p.0 in t.headers then t.(valid := false) else t.(headers := t.headers[p.0 := p.1])
  }

  /** The variables say what the lines so far say. */
  ghost predicate Agrees<K(!new), V>(s: Seen<K, V>, pairs: seq<(K, V)>, token: K) {
    && Describes(pairs, s.headers, token)
    && (s.valid <==> NoRepeats(pairs))
    && s.seen == (Count(pairs, token) >= 1) && s.ambiguous == (Count(pairs, token) >= 2)
  }

  lemma CountNext<K, V>(pairs: seq<(K, V)>, p: (K, V), name: K)
    ensures Count(pairs + [p], name) == Count(pairs, name) + if p.0 == name then 1 else 0
    ensures First(pairs + [p], name) == if First(pairs, name).Some? then First(pairs, name)
                                        else if p.0 == name then Some(p.1) else None
  {
    DropHead(pairs, [p]);
  }

  lemma RepeatsNext<K(!new), V>(pairs: seq<(K, V)>, p: (K, V))
    ensures NoRepeats(pairs + [p]) <==> NoRepeats(pairs) && Count(pairs, p.0) == 0
  {
    forall name ensures Count(pairs + [p], name) == Count(pairs, name) + if p.0 == name then 1 else 0 {
      CountNext(pairs, p, name);
    }
    assert Count(pairs + [p], p.0) == Count(pairs, p.0) + 1;
    if NoRepeats(pairs + [p]) {
      forall name ensures Count(pairs, name) <= 1 {
        assert Count(pairs + [p], name) <= 1;
      }
    }
  }

  lemma AddAgrees<K(!new), V>(s: Seen<K, V>, pairs: seq<(K, V)>, p: (K, V), token: K)
    requires Agrees(s, pairs, token)
    ensures Agrees(Add(s, p, token), pairs + [p], token)
  {
    RepeatsNext(pairs, p);
    CountNext(pairs, p, token);
    assert Get(s.headers, p.0) == Expected(pairs, p.0, token);
    forall name ensures Get(Add(s, p, token).headers, name) == Expected(pairs + [p], name, token) {
      CountNext(pairs, p, name);
      assert Get(s.headers, name) == Expected(pairs, name, token);
    }
  }

  lemma {:induction false} PairsStop(lines: seq<string>, i: nat)
    requires i < |lines| && HeaderLine(lines[i]).None?
    ensures Pairs(lines).None?
    decreases |lines|
  {
    if i < |lines| - 1 {
      PairsStop(lines[..|lines| - 1], i);
    }
  }

  lemma PairsNext(lines: seq<string>, i: nat)
    requires i < |lines| && Pairs(lines[..i]).Some? && HeaderLine(lines[i]).Some?
    ensures Pairs(lines[..i + 1]) == Some(Pairs(lines[..i]).value + [HeaderLine(lines[i]).value])
  {
    assert lines[..i + 1][..i] == lines[..i];
  }

  method ReadHeaders(lines: seq<string>) returns (r: Option<Block>)
    ensures r.Some? <==> Pairs(lines).Some?
    ensures r.Some? ==> Describes(Pairs(lines).value, r.value.headers, CSRF) && (r.value.valid <==> NoRepeats(Pairs(lines).value))
  {
    var s: Seen<string, string> := Seen(map[], true, false, false);
    ghost var pairs: seq<Pair> := [];
    for i := 0 to |lines|
      invariant Pairs(lines[..i]) == Some(pairs) && Agrees(s, pairs, CSRF)
    {
      var line := HeaderLine(lines[i]);
      if line.None? {
        PairsStop(lines, i);
        return None;
      }
      PairsNext(lines, i);
      AddAgrees(s, pairs, line.value, CSRF);
      s := Add(s, line.value, CSRF);
      pairs := pairs + [line.value];
    }
    TakeAll(lines);
    return Some(Block(s.headers, s.valid));
  }

  /** The token is present exactly when one line names it, and then with that line's value. */
  lemma TokenNamedOnce(lines: seq<string>, block: Block)
    requires Pairs(lines).Some? && Describes(Pairs(lines).value, block.headers, CSRF)
    ensures CSRF in block.headers <==> Count(Pairs(lines).value, CSRF) == 1
    ensures CSRF in block.headers ==> First(Pairs(lines).value, CSRF) == Some(block.headers[CSRF])
  {
    assert Get(block.headers, CSRF) == Expected(Pairs(lines).value, CSRF, CSRF);
  }
}
