/**
 Renewal chains. A table of rows, each belonging to a capture and naming the row it renews by hash,
 is a set of chains when the rows of every capture form one path from the empty parent.
 The text and blob types are left open: only their equality matters here.
 */
module Chains {

  const MAX_CHAIN := 16

  datatype Row<+T, +B> = Row(selector: B, capture: T, parent: T, hash: T, record: B, replay: T)

  /** The four key constraints of the table. */
  predicate Disjoint<T(==), B(==)>(r: Row<T, B>, s: Row<T, B>) {
    && r.selector != s.selector && r.replay != s.replay && r.hash != s.hash
    && (r.capture != s.capture || r.parent != s.parent)
  }

  predicate DistinctRows<T(==), B(==)>(rs: seq<Row<T, B>>) {
    forall i, j | 0 <= i < j < |rs| :: Disjoint(rs[i], rs[j])
  }

  /** Consecutive rows, each naming the one before it, from the empty parent. */
  predicate Linked<T(==), B>(path: seq<Row<T, B>>, empty: T) {
    && |path| > 0
    && path[0].parent == empty
    && forall i | 0 < i < |path| :: path[i].parent == path[i - 1].hash
  }

  /** The rows of one capture are exactly the rows of one path of 1 to 16 rows. */
  ghost predicate IsChain<T, B>(rs: seq<Row<T, B>>, id: T, empty: T, path: seq<Row<T, B>>) {
    && Linked(path, empty)
    && |path| <= MAX_CHAIN
    && (forall i, j | 0 <= i < j < |path| :: path[i] != path[j])
    && (forall r | r in path :: r in rs && r.capture == id)
    && (forall r | r in rs && r.capture == id :: r in path)
  }

  ghost predicate HasChain<T(!new), B(!new)>(rs: seq<Row<T, B>>, id: T, empty: T) {
    exists path :: IsChain(rs, id, empty, path)
  }

  // ---------------------------------------------------------------- the walk

  /** What the map from (capture, parent) to hash must hold. */
  ghost predicate Children<T(!new), B>(rs: seq<Row<T, B>>, children: map<(T, T), T>) {
    && (forall r | r in rs :: (r.capture, r.parent) in children && children[(r.capture, r.parent)] == r.hash)
    && (forall id, p | (id, p) in children :: exists r :: r in rs && r.capture == id && r.parent == p)
  }

  function CountOf<T(==), B>(rs: seq<Row<T, B>>, id: T): nat {
    if rs == [] then 0 else (if rs[0].capture == id then 1 else 0) + CountOf(rs[1..], id)
  }

  /**
   One capture's walk from the empty parent. It stops on a repeated hash, after more than 16 rows, or
   at a row nobody renews, and accepts when it has seen as many rows as the capture has.
   */
  method Walk<T(==, !new), B(==, !new)>(rs: seq<Row<T, B>>, id: T, empty: T, children: map<(T, T), T>)
    returns (ok: bool)
    requires DistinctRows(rs) && Children(rs, children)
    requires forall r | r in rs :: r.hash != empty
    ensures ok <==> HasChain(rs, id, empty)
  {
    if (id, empty) !in children {
      NoRoot(rs, id, empty, children);
      return false;
    }
    var current := children[(id, empty)];
    var visited: set<T> := {};
    ghost var path: seq<Row<T, B>> := [];
    ghost var next := Child(rs, id, empty, children);
    while true
      invariant |path| <= MAX_CHAIN
      invariant Prefix(rs, id, empty, path + [next]) && next.hash == current
      invariant visited == Hashes(path) && |visited| == |path|
      decreases MAX_CHAIN - |path|
    {
      NewHash(rs, id, empty, path, next);
      if current in visited { return false; }
      visited := visited + {current};
      path := path + [next];
      if |visited| > MAX_CHAIN {
        PrefixNotLonger(rs, id, empty, path);
        return false;
      }
      if (id, current) !in children { break; }
      PrefixGrows(rs, id, empty, children, path);
      next := Child(rs, id, current, children);
      current := children[(id, current)];
    }
    ok := |visited| == CountOf(rs, id);
    NobodyRenews(rs, id, empty, children, path);
  }

  /** Every capture's walk. */
  method WalkAll<T(==, !new), B(==, !new)>(rs: seq<Row<T, B>>, ids: set<T>, empty: T, children: map<(T, T), T>)
    returns (ok: bool)
    requires DistinctRows(rs) && Children(rs, children)
    requires forall r | r in rs :: r.hash != empty
    ensures ok <==> forall id | id in ids :: HasChain(rs, id, empty)
  {
    var todo := ids;
    while todo != {}
      invariant todo <= ids
      invariant forall id | id in ids && id !in todo :: HasChain(rs, id, empty)
      decreases todo
    {
      var id :| id in todo;
      ok := Walk(rs, id, empty, children);
      if !ok { return; }
      todo := todo - {id};
    }
    ok := true;
  }

  /** The keys met so far in the row loop. */
  datatype Index<T, B> = Index(
    selectors: set<B>, replays: set<T>, edges: map<T, (T, T)>, children: map<(T, T), T>)
  {
    predicate Clashes(r: Row<T, B>) {
      || r.selector in selectors || r.replay in replays
      || r.hash in edges || (r.capture, r.parent) in children
    }

    function Add(r: Row<T, B>): Index<T, B> {
      Index(selectors + {r.selector}, replays + {r.replay},
            edges[r.hash := (r.capture, r.parent)], children[(r.capture, r.parent) := r.hash])
    }
  }

  /** A row clashes with the index exactly when it shares a key with some row already met. */
  ghost predicate Indexes<T(!new), B(!new)>(index: Index<T, B>, rs: seq<Row<T, B>>) {
    && (forall r :: index.Clashes(r) <==> exists s :: s in rs && !Disjoint(s, r))
    && Children(rs, index.children)
  }

  /** The row loop: each row must be good on its own, and no two may share a key. */
  method CheckRows<T(==, !new), B(==, !new)>(rs: seq<Row<T, B>>, good: Row<T, B> -> bool)
    returns (ok: bool, children: map<(T, T), T>)
    ensures ok <==> DistinctRows(rs) && forall r | r in rs :: good(r)
    ensures ok ==> Children(rs, children)
  {
    var index: Index<T, B> := Index({}, {}, map[], map[]);
    for i := 0 to |rs|
      invariant forall j | 0 <= j < i :: good(rs[j])
      invariant Indexes(index, rs[..i])
      invariant DistinctRows(rs[..i])
    {
      var r := rs[i];
      IndexStep(rs, i, index);
      if !good(r) || index.Clashes(r) {
        return false, index.children;
      }
      index := index.Add(r);
    }
    assert rs[..|rs|] == rs;
    return true, index.children;
  }

  lemma IndexStep<T(!new), B(!new)>(rs: seq<Row<T, B>>, i: nat, index: Index<T, B>)
    requires i < |rs| && Indexes(index, rs[..i]) && DistinctRows(rs[..i])
    ensures index.Clashes(rs[i]) ==> !DistinctRows(rs)
    ensures !index.Clashes(rs[i]) ==> DistinctRows(rs[..i + 1]) && Indexes(index.Add(rs[i]), rs[..i + 1])
  {
    if index.Clashes(rs[i]) {
      var s :| s in rs[..i] && !Disjoint(s, rs[i]);
      var j :| 0 <= j < i && rs[j] == s;
    } else {
      forall j | 0 <= j < i
        ensures Disjoint(rs[j], rs[i])
      {
        assert rs[j] in rs[..i];
      }
      assert rs[..i + 1] == rs[..i] + [rs[i]];
      AddIndexes(rs[..i], rs[i], index);
    }
  }

  lemma AddIndexes<T(!new), B(!new)>(rs: seq<Row<T, B>>, r: Row<T, B>, index: Index<T, B>)
    requires Indexes(index, rs) && !index.Clashes(r)
    ensures Indexes(index.Add(r), rs + [r])
  {
    var more := index.Add(r);
    forall q
      ensures more.Clashes(q) <==> exists s :: s in rs + [r] && !Disjoint(s, q)
    {
      assert more.Clashes(q) <==> index.Clashes(q) || !Disjoint(r, q);
      if !Disjoint(r, q) {
        assert r in rs + [r];
      }
      if index.Clashes(q) {
        var s :| s in rs && !Disjoint(s, q);
        assert s in rs + [r];
      }
    }
  }

  // ------------------------------------------------------------- its reasons

  ghost function Hashes<T, B>(path: seq<Row<T, B>>): set<T> {
    set i | 0 <= i < |path| :: path[i].hash
  }

  /** A linked run of one capture's rows. */
  ghost predicate Prefix<T, B>(rs: seq<Row<T, B>>, id: T, empty: T, path: seq<Row<T, B>>) {
    Linked(path, empty) && forall i | 0 <= i < |path| :: path[i] in rs && path[i].capture == id
  }

  ghost function Child<T(!new), B(!new)>(rs: seq<Row<T, B>>, id: T, parent: T, children: map<(T, T), T>)
    : (r: Row<T, B>)
    requires Children(rs, children) && (id, parent) in children
    ensures r in rs && r.capture == id && r.parent == parent && r.hash == children[(id, parent)]
  {
    var r :| r in rs && r.capture == id && r.parent == parent;
    r
  }

  lemma SameRow<T, B>(rs: seq<Row<T, B>>, r: Row<T, B>, s: Row<T, B>)
    requires DistinctRows(rs) && r in rs && s in rs && !Disjoint(r, s)
    ensures r == s
  {
    var i :| 0 <= i < |rs| && rs[i] == r;
    var j :| 0 <= j < |rs| && rs[j] == s;
  }

  lemma NoRoot<T(!new), B(!new)>(rs: seq<Row<T, B>>, id: T, empty: T, children: map<(T, T), T>)
    requires Children(rs, children) && (id, empty) !in children
    ensures !HasChain(rs, id, empty)
  {
    forall path: seq<Row<T, B>>
      ensures !IsChain(rs, id, empty, path)
    {
      if |path| > 0 {
        assert path[0] in path;
      }
    }
  }

  /** A linked run never returns to a row: its hashes are all different. */
  lemma {:induction false} PrefixHashesDiffer<T, B>(rs: seq<Row<T, B>>, id: T, empty: T, path: seq<Row<T, B>>)
    requires DistinctRows(rs) && Prefix(rs, id, empty, path)
    requires forall r | r in rs :: r.hash != empty
    ensures forall i, j | 0 <= i < j < |path| :: path[i].hash != path[j].hash
    decreases |path|
  {
    if |path| > 1 {
      var n := |path| - 1;
      PrefixHashesDiffer(rs, id, empty, path[..n]);
      assert forall i, j | 0 <= i < j < n :: path[..n][i].hash != path[..n][j].hash;
      forall i | 0 <= i < n
        ensures path[i].hash != path[n].hash
      {
        assert path[n].parent == path[n - 1].hash != empty;
        assert i > 0 ==> path[i].parent == path[i - 1].hash != path[n - 1].hash;
        if path[i].hash == path[n].hash {
          SameRow(rs, path[i], path[n]);
        }
      }
    }
  }

  lemma NewHash<T, B>(rs: seq<Row<T, B>>, id: T, empty: T, path: seq<Row<T, B>>, next: Row<T, B>)
    requires DistinctRows(rs) && Prefix(rs, id, empty, path + [next])
    requires forall r | r in rs :: r.hash != empty
    ensures next.hash !in Hashes(path)
    ensures Hashes(path + [next]) == Hashes(path) + {next.hash}
  {
    var all := path + [next];
    PrefixHashesDiffer(rs, id, empty, all);
    forall i | 0 <= i < |path|
      ensures path[i].hash != next.hash
    {
      assert all[i].hash != all[|path|].hash;
    }
    forall h
      ensures h in Hashes(all) <==> h in Hashes(path) || h == next.hash
    {
      assert next.hash == all[|path|].hash;
      assert forall i | 0 <= i < |path| :: path[i].hash == all[i].hash;
    }
  }

  lemma PrefixGrows<T(!new), B(!new)>(rs: seq<Row<T, B>>, id: T, empty: T, children: map<(T, T), T>, path: seq<Row<T, B>>)
    requires Prefix(rs, id, empty, path) && Children(rs, children) && (id, path[|path| - 1].hash) in children
    ensures Prefix(rs, id, empty, path + [Child(rs, id, path[|path| - 1].hash, children)])
  {
  }

  lemma NobodyRenews<T(!new), B(!new)>(rs: seq<Row<T, B>>, id: T, empty: T, children: map<(T, T), T>, path: seq<Row<T, B>>)
    requires DistinctRows(rs) && Children(rs, children) && Prefix(rs, id, empty, path) && |path| <= MAX_CHAIN
    requires forall r | r in rs :: r.hash != empty
    requires (id, path[|path| - 1].hash) !in children
    ensures |path| == CountOf(rs, id) <==> HasChain(rs, id, empty)
  {
    MaximalPrefix(rs, id, empty, path);
  }

  /** Two linked runs of the same capture agree wherever both are defined. */
  lemma {:induction false} PrefixAgree<T, B>(
      rs: seq<Row<T, B>>, id: T, empty: T, p: seq<Row<T, B>>, q: seq<Row<T, B>>, i: nat)
    requires DistinctRows(rs) && Prefix(rs, id, empty, p) && Prefix(rs, id, empty, q) && i < |p| && i < |q|
    ensures p[i] == q[i]
  {
    if i > 0 {
      PrefixAgree(rs, id, empty, p, q, i - 1);
    }
    SameRow(rs, p[i], q[i]);
  }

  lemma ChainIsPrefix<T, B>(rs: seq<Row<T, B>>, id: T, empty: T, path: seq<Row<T, B>>)
    requires IsChain(rs, id, empty, path)
    ensures Prefix(rs, id, empty, path)
  {
  }

  /** No linked run outgrows the chain. */
  lemma PrefixWithinChain<T, B>(
      rs: seq<Row<T, B>>, id: T, empty: T, p: seq<Row<T, B>>, chain: seq<Row<T, B>>)
    requires DistinctRows(rs) && Prefix(rs, id, empty, p) && IsChain(rs, id, empty, chain)
    requires forall r | r in rs :: r.hash != empty
    ensures |p| <= |chain|
  {
    ChainIsPrefix(rs, id, empty, chain);
    PrefixHashesDiffer(rs, id, empty, p);
    if |p| > |chain| {
      var n := |chain|;
      assert p[n] in chain;
      var j :| 0 <= j < n && chain[j] == p[n];
      PrefixAgree(rs, id, empty, p, chain, j);
    }
  }

  lemma PrefixNotLonger<T(!new), B(!new)>(rs: seq<Row<T, B>>, id: T, empty: T, p: seq<Row<T, B>>)
    requires DistinctRows(rs) && Prefix(rs, id, empty, p) && |p| > MAX_CHAIN
    requires forall r | r in rs :: r.hash != empty
    ensures !HasChain(rs, id, empty)
  {
    forall chain: seq<Row<T, B>>
      ensures !IsChain(rs, id, empty, chain)
    {
      if IsChain(rs, id, empty, chain) {
        PrefixWithinChain(rs, id, empty, p, chain);
      }
    }
  }

  ghost function RowsOf<T, B>(rs: seq<Row<T, B>>, id: T): set<Row<T, B>> {
    set r | r in rs && r.capture == id
  }

  lemma HeadIsNew<T, B>(rs: seq<Row<T, B>>)
    requires DistinctRows(rs) && rs != []
    ensures rs[0] !in rs[1..]
  {
    assert forall j | 0 < j < |rs| :: Disjoint(rs[0], rs[j]);
  }

  lemma RowsOfNext<T, B>(rs: seq<Row<T, B>>, id: T)
    requires rs != []
    ensures RowsOf(rs, id) == (if rs[0].capture == id then {rs[0]} else {}) + RowsOf(rs[1..], id)
  {
    assert rs == [rs[0]] + rs[1..];
  }

  lemma {:induction false} CountIsCardinality<T, B>(rs: seq<Row<T, B>>, id: T)
    requires DistinctRows(rs)
    ensures CountOf(rs, id) == |RowsOf(rs, id)|
  {
    if rs != [] {
      var rest := rs[1..];
      CountIsCardinality(rest, id);
      HeadIsNew(rs);
      RowsOfNext(rs, id);
    }
  }

  lemma {:induction false} DistinctCardinality<T>(path: seq<T>)
    requires forall i, j | 0 <= i < j < |path| :: path[i] != path[j]
    ensures |set r | r in path| == |path|
  {
    if path != [] {
      var n := |path| - 1;
      DistinctCardinality(path[..n]);
      assert path == path[..n] + [path[n]];
      assert (set r | r in path) == (set r | r in path[..n]) + {path[n]};
    }
  }

  lemma SubsetOfEqualSize<T>(a: set<T>, b: set<T>)
    requires a <= b && |a| == |b|
    ensures a == b
  {
    assert b == a + (b - a);
    assert |b| == |a| + |b - a|;
  }

  /** A run nobody renews is the chain exactly when it counts every row of the capture. */
  lemma MaximalPrefix<T(!new), B(!new)>(rs: seq<Row<T, B>>, id: T, empty: T, path: seq<Row<T, B>>)
    requires DistinctRows(rs) && Prefix(rs, id, empty, path) && |path| <= MAX_CHAIN
    requires forall r | r in rs :: r.hash != empty
    requires forall r | r in rs && r.capture == id :: r.parent != path[|path| - 1].hash
    ensures |path| == CountOf(rs, id) <==> HasChain(rs, id, empty)
  {
    PrefixHashesDiffer(rs, id, empty, path);
    DistinctCardinality(path);
    CountIsCardinality(rs, id);
    var rows := set r | r in path;
    if |path| == CountOf(rs, id) {
      assert rows <= RowsOf(rs, id);
      SubsetOfEqualSize(rows, RowsOf(rs, id));
      assert forall r | r in rs && r.capture == id :: r in RowsOf(rs, id);
      assert IsChain(rs, id, empty, path);
    }
    forall chain: seq<Row<T, B>> | IsChain(rs, id, empty, chain)
      ensures |path| == CountOf(rs, id)
    {
      ChainLength(rs, id, empty, chain);
      PrefixWithinChain(rs, id, empty, path, chain);
      ChainIsPrefix(rs, id, empty, chain);
      assert |path| < |chain| ==>
          chain[|path|] in rs && chain[|path|].capture == id && chain[|path|].parent == chain[|path| - 1].hash;
      PrefixAgree(rs, id, empty, path, chain, |path| - 1);
    }
  }

  lemma ChainLength<T, B>(rs: seq<Row<T, B>>, id: T, empty: T, chain: seq<Row<T, B>>)
    requires DistinctRows(rs) && IsChain(rs, id, empty, chain)
    ensures |chain| == CountOf(rs, id)
  {
    CountIsCardinality(rs, id);
    DistinctCardinality(chain);
    assert (set r | r in chain) == RowsOf(rs, id);
  }

  // -------------------------------------------------------------- insertion

  function InsertAt<X(!new)>(s: seq<X>, k: nat, x: X): (r: seq<X>)
    requires k <= |s|
    ensures |r| == |s| + 1
    ensures forall y :: y in r <==> y in s || y == x
  {
    s[..k] + [x] + s[k..]
  }

  lemma InsertTail<X(!new)>(s: seq<X>, k: nat, x: X)
    requires k <= |s|
    ensures k == 0 ==> InsertAt(s, k, x)[0] == x && InsertAt(s, k, x)[1..] == s
    ensures k > 0 ==> InsertAt(s, k, x)[0] == s[0] && InsertAt(s, k, x)[1..] == InsertAt(s[1..], k - 1, x)
  {
  }

  lemma InsertKeepsDistinct<T(!new), B(!new)>(rs: seq<Row<T, B>>, k: nat, r: Row<T, B>)
    requires k <= |rs| && DistinctRows(rs) && forall s | s in rs :: Disjoint(s, r)
    ensures DistinctRows(InsertAt(rs, k, r))
  {
    var all := InsertAt(rs, k, r);
    forall i, j | 0 <= i < j < |all|
      ensures Disjoint(all[i], all[j])
    {
      var i' := if i < k then i else i - 1;
      var j' := if j < k then j else j - 1;
      if i != k && j != k {
        assert all[i] == rs[i'] && all[j] == rs[j'];
      } else if i == k {
        assert all[j] == rs[j'] && rs[j'] in rs;
      } else {
        assert all[i] == rs[i'] && rs[i'] in rs;
      }
    }
  }

  /** A new row leaves every other capture's chain alone. */
  lemma OtherChains<T(!new), B(!new)>(rs: seq<Row<T, B>>, k: nat, r: Row<T, B>, id: T, empty: T)
    requires k <= |rs| && HasChain(rs, id, empty) && r.capture != id
    ensures HasChain(InsertAt(rs, k, r), id, empty)
  {
    var path: seq<Row<T, B>> :| IsChain(rs, id, empty, path);
    assert IsChain(InsertAt(rs, k, r), id, empty, path);
  }

  /** The first row of a new capture is a chain of one. */
  lemma FirstRow<T(!new), B(!new)>(rs: seq<Row<T, B>>, k: nat, r: Row<T, B>, empty: T)
    requires k <= |rs| && r.parent == empty && forall s | s in rs :: s.capture != r.capture
    ensures HasChain(InsertAt(rs, k, r), r.capture, empty)
  {
    assert IsChain(InsertAt(rs, k, r), r.capture, empty, [r]);
  }

  ghost predicate Renewed<T(!new), B(!new)>(rs: seq<Row<T, B>>, r: Row<T, B>) {
    exists s :: s in rs && s.capture == r.capture && s.parent == r.hash
  }

  /** The one row of a chain nobody has renewed is its last. */
  lemma LastOfChain<T(!new), B(!new)>(rs: seq<Row<T, B>>, id: T, empty: T, path: seq<Row<T, B>>, prior: Row<T, B>)
    requires IsChain(rs, id, empty, path) && prior in path && !Renewed(rs, prior)
    ensures path[|path| - 1] == prior
  {
    var n := |path| - 1;
    forall j | 0 <= j < n
      ensures Renewed(rs, path[j])
    {
      assert path[j + 1] in path && path[j + 1].parent == path[j].hash;
    }
  }

  lemma LongerChain<T(!new), B(!new)>(rs: seq<Row<T, B>>, k: nat, r: Row<T, B>, empty: T, path: seq<Row<T, B>>)
    requires k <= |rs| && r !in rs && IsChain(rs, r.capture, empty, path) && |path| < MAX_CHAIN
    requires path[|path| - 1].hash == r.parent
    ensures IsChain(InsertAt(rs, k, r), r.capture, empty, path + [r])
  {
    assert forall i | 0 <= i < |path| :: path[i] in path;
  }

  /** A row that renews the one row of its capture nobody has renewed extends the chain at its end. */
  lemma NextRow<T(!new), B(!new)>(rs: seq<Row<T, B>>, k: nat, r: Row<T, B>, prior: Row<T, B>, empty: T)
    requires k <= |rs| && DistinctRows(rs) && HasChain(rs, r.capture, empty)
    requires forall s | s in rs :: Disjoint(s, r)
    requires prior in rs && prior.capture == r.capture && prior.hash == r.parent
    requires CountOf(rs, r.capture) < MAX_CHAIN
    ensures HasChain(InsertAt(rs, k, r), r.capture, empty)
  {
    var path: seq<Row<T, B>> :| IsChain(rs, r.capture, empty, path);
    ChainLength(rs, r.capture, empty, path);
    LastOfChain(rs, r.capture, empty, path, prior);
    LongerChain(rs, k, r, empty, path);
  }

  /** Captures never outnumber rows: each owns at least one. */
  lemma {:induction false} ChainsNeedRows<T(!new), B(!new)>(rs: seq<Row<T, B>>, ids: set<T>, empty: T)
    requires forall id | id in ids :: HasChain(rs, id, empty)
    ensures |ids| <= |rs|
    decreases |ids|
  {
    if ids != {} {
      var id :| id in ids;
      var path: seq<Row<T, B>> :| IsChain(rs, id, empty, path);
      var k :| 0 <= k < |rs| && rs[k] == path[0];
      var rest := rs[..k] + rs[k + 1..];
      forall other | other in ids - {id}
        ensures HasChain(rest, other, empty)
      {
        var q: seq<Row<T, B>> :| IsChain(rs, other, empty, q);
        assert IsChain(rest, other, empty, q);
      }
      ChainsNeedRows(rest, ids - {id}, empty);
    }
  }
}
