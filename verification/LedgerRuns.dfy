/** What holds over every run of exchanges, failed or successful. */
module LedgerRuns {
  import opened Bytes
  import opened Wrappers
  import opened Seqs
  import opened Chains
  import opened LedgerModel
  import opened LedgerAudit
  import opened LedgerStore
  import opened LedgerExchange

  datatype Call = Call(request: Request, world: World, before: Database, after: Database, result: Option<bytes>)

  /** What `Store.Exchange` guarantees of one call. */
  ghost predicate Guaranteed(a: Issuer, c: Call) {
    && Kept(a, c.after)
    && Exchanged(a, c.before, c.request, c.after, c.result)
    && Settled(a, c.before, c.request, c.world, c.after, c.result)
  }

  ghost function GuaranteedBy(a: Issuer): Call -> bool { c => Guaranteed(a, c) }

  const Follows: (Call, Call) -> bool := (c: Call, d: Call) => d.before == c.after

  /** Consecutive exchanges of one store. */
  ghost predicate Run(a: Issuer, calls: seq<Call>) {
    a.Sound() && Train(calls, GuaranteedBy(a), Follows)
  }

  method Record(store: Store, req: Request, w: World) returns (r: Option<bytes>, ghost call: Call)
    requires store.Valid() && Admissible(store.issuer, req) && Authentic(store.issuer, req, w)
    modifies store
    ensures store.Valid() && Guaranteed(store.issuer, call)
    ensures call == Call(req, w, old(store.db), store.db, r)
  {
    ghost var before := store.db;
    r := store.Exchange(req, w);
    call := Call(req, w, before, store.db, r);
  }

  /** One more exchange makes a longer run. */
  method Extend(store: Store, req: Request, w: World, ghost calls: seq<Call>) returns (r: Option<bytes>, ghost longer: seq<Call>)
    requires store.Valid() && Admissible(store.issuer, req) && Authentic(store.issuer, req, w)
    requires Run(store.issuer, calls) && (calls != [] ==> calls[|calls| - 1].after == store.db)
    modifies store
    ensures store.Valid() && Run(store.issuer, longer)
    ensures longer == calls + [Call(req, w, old(store.db), store.db, r)]
  {
    ghost var call;
    r, call := Record(store, req, w);
    LongerTrain(calls, call, GuaranteedBy(store.issuer), Follows);
    longer := calls + [call];
  }

  function End(calls: seq<Call>, i: nat): Ledger
    requires i < |calls|
  {
    LedgerOf(calls[i].after)
  }

  /** The stored high-water time never falls. */
  lemma {:induction false} FloorNeverFalls(a: Issuer, calls: seq<Call>, i: nat, j: nat)
    requires Run(a, calls) && i <= j < |calls|
    ensures LedgerOf(calls[i].before).floor <= End(calls, i).floor <= End(calls, j).floor
    decreases j
  {
    assert Guaranteed(a, calls[j]);
    if i < j {
      FloorNeverFalls(a, calls, i, j - 1);
    }
  }

  lemma OneCallKeepsRows(a: Issuer, call: Call)
    requires Guaranteed(a, call)
    ensures forall c | c in LedgerOf(call.before).captures :: c in LedgerOf(call.after).captures
    ensures forall r | r in LedgerOf(call.before).records :: r in LedgerOf(call.after).records
  {
    var l, m := LedgerOf(call.before), LedgerOf(call.after);
    if !SameTables(l, m) {
      var o :| Appended(a, l, call.request, o, m.captures, m.records) && Audited(a, m);
      AppendedKeepsRows(a, l, call.request, o, m.captures, m.records);
    }
  }

  /** History is append-only: a stored capture or record is stored for good. */
  lemma {:induction false} RowsPersist(a: Issuer, calls: seq<Call>, i: nat, j: nat)
    requires Run(a, calls) && i <= j < |calls|
    ensures forall c | c in End(calls, i).captures :: c in End(calls, j).captures
    ensures forall r | r in End(calls, i).records :: r in End(calls, j).records
    decreases j
  {
    if i < j {
      RowsPersist(a, calls, i, j - 1);
      OneCallKeepsRows(a, calls[j]);
    }
  }

  /** A capture's original bytes never change: one effect, one identity, one original, for the whole run. */
  lemma OriginalsNeverChange(a: Issuer, calls: seq<Call>, i: nat, j: nat, c: CaptureRow, d: CaptureRow)
    requires Run(a, calls) && i <= j < |calls|
    requires c in End(calls, i).captures && d in End(calls, j).captures
    requires c.effect == d.effect || c.id == d.id
    ensures c == d
  {
    RowsPersist(a, calls, i, j);
    var cs := End(calls, j).captures;
    assert CapturesOk(cs);
    var p :| 0 <= p < |cs| && cs[p] == c;
    var q :| 0 <= q < |cs| && cs[q] == d;
  }

  /** In a kept ledger a selector names one output. */
  lemma OneOutput(a: Issuer, rs: seq<AttestationRow>, r: Request, s: Request, o: Output, p: Output)
    requires DistinctRows(rs) && r.selector == s.selector && Holds(a, rs, r, o) && Holds(a, rs, s, p)
    ensures o == p
  {
    var x :| x in rs && Names(r, x) && a.decode(x.record) == Some(o);
    var y :| y in rs && Names(s, y) && a.decode(y.record) == Some(p);
    SameRow(rs, x, y);
  }

  lemma HoldsLater(a: Issuer, calls: seq<Call>, i: nat, j: nat, req: Request, o: Output)
    requires Run(a, calls) && i <= j < |calls| && Holds(a, End(calls, i).records, req, o)
    ensures Holds(a, End(calls, j).records, req, o) && DistinctRows(End(calls, j).records)
  {
    RowsPersist(a, calls, i, j);
    var x :| x in End(calls, i).records && Names(req, x) && a.decode(x.record) == Some(o);
    assert x in End(calls, j).records;
    assert Kept(a, calls[j].after);
  }

  /** All exports for one selector return the same envelope bytes. */
  lemma SameEnvelope(a: Issuer, calls: seq<Call>, i: nat, j: nat)
    requires Run(a, calls) && i <= j < |calls|
    requires calls[i].result.Some? && calls[j].result.Some?
    requires calls[i].request.selector == calls[j].request.selector
    ensures calls[i].result == calls[j].result
  {
    var l, m := End(calls, i), End(calls, j);
    assert Exports(a, l, calls[i].request, calls[i].result.value);
    assert Exports(a, m, calls[j].request, calls[j].result.value);
    var o :| Holds(a, l.records, calls[i].request, o) && calls[i].result.value == o.envelope && o.InWindow(l.floor);
    var p :| Holds(a, m.records, calls[j].request, p) && calls[j].result.value == p.envelope && p.InWindow(m.floor);
    HoldsLater(a, calls, i, j, calls[i].request, o);
    OneOutput(a, m.records, calls[i].request, calls[j].request, o, p);
  }

  /** What a call committed is what any later export of its selector returns, even if its own export failed. */
  lemma CommittedIsRecovered(a: Issuer, calls: seq<Call>, i: nat, j: nat, o: Output)
    requires Run(a, calls) && i <= j < |calls|
    requires Appended(a, LedgerOf(calls[i].before), calls[i].request, o, End(calls, i).captures, End(calls, i).records)
    requires Audited(a, End(calls, i))
    requires calls[j].result.Some? && calls[j].request.selector == calls[i].request.selector
    ensures calls[j].result == Some(o.envelope)
  {
    var l, m, req := End(calls, i), End(calls, j), calls[i].request;
    var row := NewRow(a, req, o, a.replay(o).value);
    assert row in l.records && RecordOk(a, l.floor, l.captures, row);
    assert Holds(a, l.records, req, o);
    HoldsLater(a, calls, i, j, req, o);
    assert Exports(a, m, calls[j].request, calls[j].result.value);
    var p :| Holds(a, m.records, calls[j].request, p) && calls[j].result.value == p.envelope && p.InWindow(m.floor);
    OneOutput(a, m.records, req, calls[j].request, o, p);
  }

  /** The request that asks again for what an earlier one committed. */
  function Again(req: Request): Request { req.(mode := Resume) }

  lemma OnlyNamed(rs: seq<AttestationRow>, req: Request, row: AttestationRow)
    requires DistinctRows(rs) && row in rs && Names(req, row)
    ensures FindNamed(rs, req) == Some(row)
  {
    SameRow(rs, row, FindNamed(rs, req).value);
  }

  lemma OnlyEffect(cs: seq<CaptureRow>, c: CaptureRow)
    requires CapturesOk(cs) && c in cs
    ensures FindEffect(cs, c.effect) == Some(c)
  {
    var d := FindEffect(cs, c.effect).value;
    var i :| 0 <= i < |cs| && cs[i] == c;
    var j :| 0 <= j < |cs| && cs[j] == d;
  }

  lemma FoundAgain(a: Issuer, m: Ledger, req: Request, o: Output, row: AttestationRow)
    requires CapturesOk(m.captures) && DistinctRows(m.records) && req.capture in m.captures
    requires row in m.records && Names(req, row) && a.decode(row.record) == Some(o)
    ensures Stored(a, m, Again(req)) == Some((o, m))
  {
    OnlyNamed(m.records, Again(req), row);
    OnlyEffect(m.captures, req.capture);
  }

  lemma CommittedRow(a: Issuer, l: Ledger, req: Request, o: Output, m: Ledger) returns (row: AttestationRow)
    requires a.Sound() && Appended(a, l, req, o, m.captures, m.records) && Audited(a, m)
    ensures row in m.records && Names(req, row) && a.decode(row.record) == Some(o) && req.capture in m.captures
  {
    row := NewRow(a, req, o, a.replay(o).value);
    assert row in m.records && RecordOk(a, m.floor, m.captures, row);
  }

  lemma StaysAudited(a: Issuer, calls: seq<Call>, i: nat, j: nat)
    requires Run(a, calls) && i <= j < |calls| && Audited(a, End(calls, i))
    ensures calls[j].after.Present? && Audited(a, End(calls, j))
  {
    FloorNeverFalls(a, calls, i, j);
    assert Guaranteed(a, calls[j]);
  }

  /** What a call committed stays stored: a resumption would find it at any later point. */
  lemma CommittedStaysStored(a: Issuer, calls: seq<Call>, i: nat, j: nat, o: Output)
    requires Run(a, calls) && i <= j < |calls|
    requires Appended(a, LedgerOf(calls[i].before), calls[i].request, o, End(calls, i).captures, End(calls, i).records)
    requires Audited(a, End(calls, i))
    ensures calls[j].after.Present? && Audited(a, End(calls, j))
    ensures Stored(a, End(calls, j), Again(calls[i].request)) == Some((o, End(calls, j)))
  {
    var row := CommittedRow(a, LedgerOf(calls[i].before), calls[i].request, o, End(calls, i));
    RowsPersist(a, calls, i, j);
    StaysAudited(a, calls, i, j);
    FoundAgain(a, End(calls, j), calls[i].request, o, row);
  }

  /**
   And in a calm world a resumption inside the window gets it: whatever became of the export of the call that committed
   it, and whatever happened in between.
   */
  lemma CommittedCanBeResumed(a: Issuer, calls: seq<Call>, i: nat, j: nat, o: Output)
    requires Run(a, calls) && i < j < |calls|
    requires Appended(a, LedgerOf(calls[i].before), calls[i].request, o, End(calls, i).captures, End(calls, i).records)
    requires Audited(a, End(calls, i)) && calls[j].request == Again(calls[i].request)
    requires Calm(calls[j].world, calls[j].world.clock(0)) && Welcomes(calls[j].world, o)
    requires End(calls, j - 1).floor <= calls[j].world.clock(0) && o.InWindow(calls[j].world.clock(0))
    ensures calls[j].result == Some(o.envelope)
  {
    CommittedStaysStored(a, calls, i, j - 1, o);
    assert Guaranteed(a, calls[j]);
    Recovered(a, calls[j].before, calls[j].request, calls[j].world, calls[j].after, calls[j].result);
  }

  /** A world in which storage works, the clock stands still and the guard knows one output. */
  function Peace(t: u64, o: Output): World { World(_ => t, _ => true, _ => None, (_, p) => p == o) }

  /** Such worlds are possible for whatever is stored and still inside its window. */
  lemma PeaceIsPossible(a: Issuer, l: Ledger, req: Request, t: u64)
    requires a.Sound() && Audited(a, l) && l.floor <= t <= MAX_TIME && Stored(a, l, req).Some?
    requires Stored(a, l, req).value.0.InWindow(t)
    ensures var w := Peace(t, Stored(a, l, req).value.0); Ready(a, l, req, w) && Authentic(a, req, w)
  {
    var o := Stored(a, l, req).value.0;
    var r := FindNamed(l.records, req).value;
    assert RecordOk(a, l.floor, l.captures, r);
    OnlyCapture(l.captures, req.capture);
  }

  /** Once the durable floor has reached an envelope's expiry, no later call exports it. */
  lemma ExpiredIsNeverExported(a: Issuer, calls: seq<Call>, i: nat, j: nat, req: Request, o: Output)
    requires Run(a, calls) && i <= j < |calls|
    requires Holds(a, End(calls, i).records, req, o) && o.expires <= End(calls, i).floor
    requires calls[j].request.selector == req.selector
    ensures calls[j].result.None?
  {
    FloorNeverFalls(a, calls, i, j);
    HoldsLater(a, calls, i, j, req, o);
    var m := End(calls, j);
    if calls[j].result.Some? {
      assert Exports(a, m, calls[j].request, calls[j].result.value);
      var p :| Holds(a, m.records, calls[j].request, p) && calls[j].result.value == p.envelope && p.InWindow(m.floor);
      OneOutput(a, m.records, req, calls[j].request, o, p);
    }
  }

  /** A database that does not pass the audit is never changed and never exports. */
  lemma {:induction false} RefusedForGood(a: Issuer, calls: seq<Call>, i: nat, j: nat)
    requires Run(a, calls) && i < j < |calls|
    requires calls[i].after.Present? && !Audited(a, End(calls, i))
    ensures calls[j].after == calls[i].after && calls[j].result.None?
    decreases j
  {
    if i + 1 < j {
      RefusedForGood(a, calls, i, j - 1);
    }
    assert Guaranteed(a, calls[j]);
  }

  /** Storage works, but the clock cannot be read. */
  const UNREADABLE := World(_ => 0, _ => true, _ => None, (_, _) => false)

  /** A ledger created while the clock cannot be read answers no later exchange, in whatever world. */
  method CreatedWithoutAClock(issuer: Issuer, first: Request, again: Request, w: World)
    returns (store: Store, r: Option<bytes>, s: Option<bytes>)
    requires issuer.Sound() && Admissible(issuer, first) && first.mode.Attest?
    requires Admissible(issuer, again) && Authentic(issuer, again, w)
    ensures fresh(store) && store.db.Present? && store.db.ledger.floor == 0 && !Audited(issuer, store.db.ledger)
    ensures r.None? && s.None?
  {
    store := new Store(issuer);
    r := store.Exchange(first, UNREADABLE);
    s := store.Exchange(again, w);
  }
}
