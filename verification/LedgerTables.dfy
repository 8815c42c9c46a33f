/** The two tables under their key constraints, and what an insertion does to the audit. */
module LedgerTables {
  import opened Text
  import opened Wrappers
  import opened Chains
  import opened LedgerModel
  import opened LedgerAudit

  /** How many rows a listing in key order puts before a new key. */
  function Position(keys: seq<seq<int>>, key: seq<int>): (k: nat)
    ensures k <= |keys|
    ensures forall i | 0 <= i < k :: Less(keys[i], key)
    ensures k < |keys| ==> !Less(keys[k], key)
  {
    if keys == [] || !Less(keys[0], key) then 0 else 1 + Position(keys[1..], key)
  }

  function EffectKeys(cs: seq<CaptureRow>): (r: seq<seq<int>>)
    ensures |r| == |cs|
  {
    seq(|cs|, i requires 0 <= i < |cs| => Codes(cs[i].effect))
  }

  function SelectorKeys(rs: seq<AttestationRow>): (r: seq<seq<int>>)
    ensures |r| == |rs|
  {
    seq(|rs|, i requires 0 <= i < |rs| => rs[i].selector)
  }

  /** Captures: effect is the primary key and the identity is unique. */
  function InsertCapture(cs: seq<CaptureRow>, c: CaptureRow): (r: Option<seq<CaptureRow>>)
    ensures r.Some? <==> forall d | d in cs :: d.effect != c.effect && d.id != c.id
    ensures r.Some? ==> exists k :: 0 <= k <= |cs| && r.value == InsertAt(cs, k, c)
  {
    if exists d | d in cs :: d.effect == c.effect || d.id == c.id then None
    else Some(InsertAt(cs, Position(EffectKeys(cs), Codes(c.effect)), c))
  }

  /** Attestations: selector, replay, hash and (capture, parent) are unique. */
  function InsertRecord(rs: seq<AttestationRow>, r: AttestationRow): (t: Option<seq<AttestationRow>>)
    ensures t.Some? <==> forall s | s in rs :: Disjoint(s, r)
    ensures t.Some? ==> exists k :: 0 <= k <= |rs| && t.value == InsertAt(rs, k, r)
  {
    if exists s | s in rs :: !Disjoint(s, r) then None
    else Some(InsertAt(rs, Position(SelectorKeys(rs), r.selector), r))
  }

  /** What reading the tables back asks of their sizes. */
  predicate Bounded(l: Ledger) {
    && |l.captures| <= MAX_ROWS && |l.records| <= MAX_ROWS
    && l.floor <= MAX_TIME
    && Size(l) <= MAX_LOGICAL
  }

  lemma {:induction false} InsertedCaptureSize(cs: seq<CaptureRow>, k: nat, c: CaptureRow)
    requires k <= |cs|
    ensures CapturesSize(InsertAt(cs, k, c)) == CapturesSize(cs) + CaptureCharge(c)
  {
    var all := InsertAt(cs, k, c);
    if k == 0 {
      assert all[1..] == cs;
    } else {
      InsertedCaptureSize(cs[1..], k - 1, c);
      assert all[1..] == InsertAt(cs[1..], k - 1, c);
    }
  }

  lemma {:induction false} InsertedRecordSize(rs: seq<AttestationRow>, k: nat, r: AttestationRow)
    requires k <= |rs|
    ensures RecordsSize(InsertAt(rs, k, r)) == RecordsSize(rs) + RecordCharge(r)
  {
    var all := InsertAt(rs, k, r);
    if k == 0 {
      assert all[1..] == rs;
    } else {
      InsertedRecordSize(rs[1..], k - 1, r);
      assert all[1..] == InsertAt(rs[1..], k - 1, r);
    }
  }

  lemma InsertedCaptureOk(cs: seq<CaptureRow>, k: nat, c: CaptureRow)
    requires k <= |cs| && CapturesOk(cs) && CaptureOk(c)
    requires forall d | d in cs :: d.effect != c.effect && d.id != c.id
    ensures CapturesOk(InsertAt(cs, k, c))
  {
    var all := InsertAt(cs, k, c);
    forall i, j | 0 <= i < j < |all|
      ensures all[i].effect != all[j].effect && all[i].id != all[j].id
    {
      var i' := if i < k then i else i - 1;
      var j' := if j < k then j else j - 1;
      if i != k && j != k {
        assert all[i] == cs[i'] && all[j] == cs[j'];
      } else if i == k {
        assert all[j] == cs[j'] && cs[j'] in cs;
      } else {
        assert all[i] == cs[i'] && cs[i'] in cs;
      }
    }
  }

  /** A new capture hides no other. */
  lemma {:induction false} FindInserted(cs: seq<CaptureRow>, k: nat, c: CaptureRow, id: string)
    requires k <= |cs| && forall d | d in cs :: d.id != c.id
    ensures FindCapture(InsertAt(cs, k, c), id) == (if id == c.id then Some(c) else FindCapture(cs, id))
  {
    InsertTail(cs, k, c);
    if k > 0 {
      FindInserted(cs[1..], k - 1, c, id);
      assert cs[0] in cs;
    }
  }

  /** Raising the floor keeps every record good. */
  lemma RaisedFloor(a: Issuer, floor: nat, higher: nat, cs: seq<CaptureRow>, rs: seq<AttestationRow>)
    requires floor <= higher && Chained(a, floor, cs, rs)
    ensures Chained(a, higher, cs, rs)
  {
    forall r | r in rs
      ensures RecordOk(a, higher, cs, r)
    {
      assert RecordOk(a, floor, cs, r);
    }
  }

  /** A new capture with its first record. */
  lemma AttestedTables(a: Issuer, floor: nat, cs: seq<CaptureRow>, rs: seq<AttestationRow>,
                       j: nat, c: CaptureRow, k: nat, r: AttestationRow)
    requires Chained(a, floor, cs, rs) && j <= |cs| && k <= |rs|
    requires CaptureOk(c) && forall d | d in cs :: d.effect != c.effect && d.id != c.id
    requires forall s | s in rs :: Disjoint(s, r)
    requires r.capture == c.id && r.parent == "" && RecordOk(a, floor, InsertAt(cs, j, c), r)
    ensures Chained(a, floor, InsertAt(cs, j, c), InsertAt(rs, k, r))
  {
    var cs', rs' := InsertAt(cs, j, c), InsertAt(rs, k, r);
    InsertedCaptureOk(cs, j, c);
    InsertKeepsDistinct(rs, k, r);
    forall s | s in rs
      ensures RecordOk(a, floor, cs', s) && s.capture != c.id
    {
      assert RecordOk(a, floor, cs, s);
      FindInserted(cs, j, c, s.capture);
    }
    FirstRow(rs, k, r, "");
    forall d | d in cs'
      ensures HasChain(rs', d.id, "")
    {
      if d != c {
        OtherChains(rs, k, r, d.id, "");
      }
    }
  }

  /** One more record at the end of a chain. */
  lemma RenewedTables(a: Issuer, floor: nat, cs: seq<CaptureRow>, rs: seq<AttestationRow>,
                      k: nat, r: AttestationRow, prior: AttestationRow)
    requires Chained(a, floor, cs, rs) && k <= |rs|
    requires forall s | s in rs :: Disjoint(s, r)
    requires prior in rs && prior.capture == r.capture && prior.hash == r.parent
    requires CountOf(rs, r.capture) < MAX_CHAIN && RecordOk(a, floor, cs, r)
    ensures Chained(a, floor, cs, InsertAt(rs, k, r))
  {
    InsertKeepsDistinct(rs, k, r);
    forall d | d in cs
      ensures HasChain(InsertAt(rs, k, r), d.id, "")
    {
      if d.id == r.capture {
        NextRow(rs, k, r, prior, "");
      } else {
        OtherChains(rs, k, r, d.id, "");
      }
    }
  }

  /** Every capture owns a record, so a ledger within its record limit is within its capture limit. */
  lemma CapturesWithinRecords(a: Issuer, floor: nat, cs: seq<CaptureRow>, rs: seq<AttestationRow>)
    requires Chained(a, floor, cs, rs)
    ensures |cs| <= |rs|
  {
    var ids := seq(|cs|, i requires 0 <= i < |cs| => cs[i].id);
    DistinctCardinality(ids);
    forall id | id in ids
      ensures HasChain(rs, id, "")
    {
      var i :| 0 <= i < |ids| && ids[i] == id;
      assert cs[i] in cs;
    }
    ChainsNeedRows(rs, set id | id in ids, "");
  }
}
