/** The ledger audit: what it accepts, stated as paths, and the map-based walk that decides it. */
module LedgerAudit {
  import opened Text
  import opened Wrappers
  import opened Chains
  import opened LedgerModel

  predicate DistinctCaptures(cs: seq<CaptureRow>) {
    forall i, j | 0 <= i < j < |cs| :: cs[i].effect != cs[j].effect && cs[i].id != cs[j].id
  }

  predicate CaptureOk(c: CaptureRow) { IsDigest(c.effect) && IsDigest(c.id) }

  predicate CapturesOk(cs: seq<CaptureRow>) {
    DistinctCaptures(cs) && forall c | c in cs :: CaptureOk(c)
  }

  /** The first capture with this identity. */
  function FindCapture(cs: seq<CaptureRow>, id: string): (r: Option<CaptureRow>)
    ensures r.Some? ==> r.value in cs && r.value.id == id
    ensures r.None? ==> forall c | c in cs :: c.id != id
  {
    if cs == [] then None
    else if cs[0].id == id then Some(cs[0])
    else FindCapture(cs[1..], id)
  }

  predicate OutputOk(a: Issuer, floor: nat, c: CaptureRow, r: AttestationRow, o: Output) {
    && a.recordOk(o, c.id, c.effect, c.original)
    && a.EnvelopeHash(o) == r.hash
    && a.replay(o) == Some(r.replay)
    && o.issued <= floor
  }

  /** Everything the audit asks of one record on its own. */
  predicate RecordOk(a: Issuer, floor: nat, cs: seq<CaptureRow>, r: AttestationRow) {
    && a.selectorOk(r.selector, r.capture, r.parent)
    && IsDigest(r.hash) && IsDigest(r.replay)
    && (r.parent != "" ==> IsDigest(r.parent))
    && FindCapture(cs, r.capture).Some?
    && a.decode(r.record).Some?
    && OutputOk(a, floor, FindCapture(cs, r.capture).value, r, a.decode(r.record).value)
  }

  predicate RecordsOk(a: Issuer, floor: nat, cs: seq<CaptureRow>, rs: seq<AttestationRow>) {
    DistinctRows(rs) && forall r | r in rs :: RecordOk(a, floor, cs, r)
  }

  /** What the audit asks of the tables under a given floor. */
  ghost predicate Chained(a: Issuer, floor: nat, cs: seq<CaptureRow>, rs: seq<AttestationRow>) {
    && CapturesOk(cs)
    && RecordsOk(a, floor, cs, rs)
    && forall c | c in cs :: HasChain(rs, c.id, "")
  }

  ghost predicate Audited(a: Issuer, l: Ledger) {
    a.Sealed(l) && l.floor != 0 && Chained(a, l.floor, l.captures, l.records)
  }

  predicate Untouched(l: Ledger) {
    l.floor == 0 && l.seal == [] && l.captures == [] && l.records == []
  }

  ghost predicate Passes(a: Issuer, l: Ledger, created: bool) {
    (created && Untouched(l)) || Audited(a, l)
  }

  // ---------------------------------------------------------------- the audit

  /** The audit accepts exactly the ledgers whose captures each own one path of records. */
  method Check(a: Issuer, l: Ledger, created: bool) returns (ok: bool)
    ensures ok <==> Passes(a, l, created)
  {
    if created && l.floor == 0 && l.seal == [] && l.captures == [] && l.records == [] {
      return true;
    }
    if !a.Sealed(l) || l.floor == 0 {
      return false;
    }
    ok := CheckTables(a, l.floor, l.captures, l.records);
  }

  method CheckTables(a: Issuer, floor: nat, cs: seq<CaptureRow>, rs: seq<AttestationRow>) returns (ok: bool)
    ensures ok <==> Chained(a, floor, cs, rs)
  {
    ok := CheckCaptures(cs);
    if !ok { return; }
    var children;
    ok, children := CheckRows(rs, r => RecordOk(a, floor, cs, r));
    if !ok { return; }
    ok := WalkAll(rs, set c | c in cs :: c.id, "", children);
  }

  method CheckCaptures(cs: seq<CaptureRow>) returns (ok: bool)
    ensures ok <==> CapturesOk(cs)
  {
    var effects: set<string>, ids: set<string> := {}, {};
    for i := 0 to |cs|
      invariant CapturesOk(cs[..i])
      invariant effects == set c | c in cs[..i] :: c.effect
      invariant ids == set c | c in cs[..i] :: c.id
    {
      var c := cs[i];
      assert cs[..i + 1] == cs[..i] + [c];
      if !IsDigest(c.effect) || !IsDigest(c.id) {
        assert c in cs;
        return false;
      }
      if c.effect in effects || c.id in ids {
        var j :| 0 <= j < i && (cs[j].effect == c.effect || cs[j].id == c.id);
        return false;
      }
      effects, ids := effects + {c.effect}, ids + {c.id};
    }
    assert cs[..|cs|] == cs;
    ok := true;
  }
}
