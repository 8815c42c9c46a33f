/** The store object: every exchange keeps the ledger auditable, its clock monotone and its history intact. */
module LedgerExchange {
  import opened Bytes
  import opened Wrappers
  import opened LedgerModel
  import opened LedgerAudit
  import opened LedgerTables
  import opened LedgerStore

  /**
   What every reachable database satisfies: its tables pass the audit, or it holds no rows and no floor
   (created but never sealed at a readable time), and then no later exchange accepts it.
   */
  ghost predicate Kept(a: Issuer, db: Database) {
    db.Present? ==>
      && Bounded(db.ledger)
      && (Audited(a, db.ledger) || (db.ledger.floor == 0 && db.ledger.captures == [] && db.ledger.records == []))
  }

  /** The envelope of the stored record the request names, inside its window at the sealed floor. */
  ghost predicate Exports(a: Issuer, l: Ledger, req: Request, envelope: bytes) {
    exists o :: Holds(a, l.records, req, o) && envelope == o.envelope && o.InWindow(l.floor)
  }

  ghost predicate SameTables(l: Ledger, m: Ledger) {
    l.captures == m.captures && l.records == m.records
  }

  ghost predicate Grown(a: Issuer, l: Ledger, req: Request, m: Ledger) {
    exists o :: Appended(a, l, req, o, m.captures, m.records) && Audited(a, m)
  }

  /** The outcome of one exchange, failed or not. */
  ghost predicate Exchanged(a: Issuer, before: Database, req: Request, after: Database, r: Option<bytes>) {
    var l, m := LedgerOf(before), LedgerOf(after);
    && l.floor <= m.floor
    && (SameTables(l, m) || Grown(a, l, req, m))
    && (req.mode.Resume? ==> SameTables(l, m))
    && (r.Some? ==> after.Present? && Audited(a, m) && Exports(a, m, req, r.value))
    && (r.Some? && !req.mode.Resume? ==> Grown(a, l, req, m))
    && (before.Present? && !Audited(a, l) ==> after == before && r.None?)
    && (before.Broken? ==> after == before && r.None?)
  }

  /** A world in which storage works and the clock stands still. */
  ghost predicate Calm(w: World, t: u64) {
    && 0 < t <= MAX_TIME
    && (forall k :: w.up(k))
    && (forall k :: w.clock(k) == t)
  }

  /** The owner's guard lets this output through, every time. */
  ghost predicate Welcomes(w: World, o: Output) { forall k :: w.guard(k, o) }

  // ------------------------------------------------------------- what is committed

  /** A reading the clock accepts at this floor. */
  predicate Advances(t: u64, floor: nat) { 0 < t <= MAX_TIME && floor <= t }

  /** The record to renew is stored, reads back, and the guard knows it. */
  predicate Renewable(a: Issuer, l: Ledger, req: Request, w: World) {
    var prior := FindPrior(l.records, req);
    prior.Some? && a.decode(prior.value.record).Some? && w.guard(0, a.decode(prior.value.record).value)
  }

  /** The request fits what is stored, and so does the record it renews. */
  predicate Drafts(a: Issuer, l: Ledger, req: Request, w: World) {
    && Size(l) <= MAX_LOGICAL && FindEffect(l.captures, req.capture.effect) in {None, Some(req.capture)}
    && Allowed(l, req) && (req.mode.Renew? ==> Renewable(a, l, req, w))
  }

  /** The output an attestation or renewal makes, with the tables that would hold it. */
  function Drafted(a: Issuer, l: Ledger, req: Request, w: World): Option<(Output, Ledger)> {
    if !Drafts(a, l, req, w) then None
    else
      var o :- w.make(w.clock(1));
      if !w.guard(1, o) then None
      else
        var t :- Place(a, l, req, o);
        Some((o, t))
  }

  function Chosen(a: Issuer, l: Ledger, req: Request, w: World): Option<(Output, Ledger)> {
    if req.mode.Resume? then Stored(a, l, req)
    else if Advances(w.clock(1), w.clock(0)) && w.up(3) then Drafted(a, l, req, w)
    else None
  }

  /** The clock once an output has been chosen. */
  function Reached(req: Request, w: World, o: Output): u64 {
    if req.mode.Resume? then w.clock(0) else Later(w.clock(1), o.issued)
  }

  /** The output and the sealed ledger a transaction over audited tables commits, if it commits. */
  function Committed(a: Issuer, l: Ledger, req: Request, w: World): Option<(Output, Ledger)> {
    if !Advances(w.clock(0), l.floor) then None
    else
      var chosen :- Chosen(a, l, req, w);
      if w.guard(2, chosen.0) && Advances(w.clock(2), Reached(req, w, chosen.0)) && chosen.0.InWindow(w.clock(2)) && w.up(4)
      then Some((chosen.0, a.Reseal(chosen.1, w.clock(2)))) else None
  }

  /** Whether the transaction gets to see tables that pass the audit. */
  ghost predicate Begins(a: Issuer, before: Database, req: Request, w: World) {
    && w.up(5) && w.up(0) && w.up(2)
    && if before.Present? then Audited(a, before.ledger) else before.Absent? && req.mode.Attest?
  }

  ghost function Done(a: Issuer, before: Database, req: Request, w: World): Option<(Output, Ledger)> {
    if Begins(a, before, req, w) then Committed(a, LedgerOf(before), req, w) else None
  }

  /** The tables afterwards are those committed; only what was committed leaves, and in a calm world it does. */
  ghost predicate SettledAs(done: Option<(Output, Ledger)>, before: Database, w: World, after: Database, r: Option<bytes>) {
    && SameTables(LedgerOf(after), if done.Some? then done.value.1 else LedgerOf(before))
    && (r.Some? ==> done.Some? && r.value == done.value.0.envelope)
    && (done.Some? && Calm(w, w.clock(0)) && Welcomes(w, done.value.0) ==> r.Some?)
  }

  ghost predicate Settled(a: Issuer, before: Database, req: Request, w: World, after: Database, r: Option<bytes>) {
    SettledAs(Done(a, before, req, w), before, w, after, r)
  }

  /** A name for what a request commits over each ledger. */
  ghost predicate Means(a: Issuer, req: Request, w: World, commits: Ledger -> Option<(Output, Ledger)>) {
    forall l {:trigger Committed(a, l, req, w)} :: commits(l) == Committed(a, l, req, w)
  }

  /** A database just created passes a later audit: something was committed, or a readable time was sealed on its own. */
  predicate Founded(w: World, committed: bool) {
    w.up(2) && 0 < w.clock(0) <= MAX_TIME && (committed || (w.up(6) && w.up(7) && w.up(8)))
  }

  /** One of the three readings an export makes. */
  predicate ReadLast(w: World, t: nat) { t == w.clock(3) || t == w.clock(4) || t == w.clock(5) }

  lemma OneOfThree(w: World, i: nat, t: nat)
    requires i < 3 && t == w.clock(3 + i)
    ensures ReadLast(w, t)
  {
  }

  class Store {
    const issuer: Issuer
    var db: Database

    ghost predicate Valid()
      reads this
    {
      issuer.Sound() && Kept(issuer, db)
    }

    constructor (issuer: Issuer)
      requires issuer.Sound()
      ensures Valid() && this.issuer == issuer && db == Absent
    {
      this.issuer := issuer;
      db := Absent;
    }

    /** Opens the database; only an attestation may create it, and a creation that fails may spoil it. */
    method Connect(create: bool, w: World, k: nat) returns (connected: bool, created: bool)
      requires Valid()
      modifies this
      ensures Valid() && LedgerOf(db) == LedgerOf(old(db))
      ensures connected ==> db.Present? && (created <==> old(db).Absent?)
      ensures !old(db).Absent? ==> db == old(db)
      ensures !connected ==> !db.Present? || db == old(db)
      ensures connected <==> w.up(k) && !old(db).Broken? && (old(db).Absent? ==> create)
    {
      if db.Broken? || (db.Absent? && !create) { return false, false; }
      if db.Present? { return w.up(k), false; }
      if !w.up(k) {
        db := if w.up(k + 1) then Absent else Broken;
        return false, false;
      }
      db := Present(LedgerStore.Blank);
      return true, true;
    }

    /** Reads the tables, audits them, and seals them at a new floor. */
    method Seal(floor: u64, created: bool, expected: Option<u64>, w: World, k: nat) returns (ok: bool)
      requires Valid() && db.Present? && floor <= MAX_TIME
      modifies this
      ensures Valid() && db.Present? && SameTables(db.ledger, old(db).ledger)
      ensures !ok ==> db == old(db)
      ensures ok ==> db.ledger.floor == floor >= old(db).ledger.floor
      ensures ok ==> Passes(issuer, old(db).ledger, created)
      ensures ok ==> db == Present(issuer.Reseal(old(db).ledger, floor))
      ensures ok && floor > 0 ==> Audited(issuer, db.ledger)
      ensures ok <==> w.up(k) && w.up(k + 1) && Passes(issuer, old(db).ledger, created)
                      && (expected.Some? ==> expected.value == old(db).ledger.floor)
                      && old(db).ledger.floor <= floor
    {
      var l := db.ledger;
      if !w.up(k) || !Bounded(l) { return false; }
      ok := Check(issuer, l, created);
      if !ok { return; }
      if expected.Some? && l.floor != expected.value { return false; }
      var saved := SaveFloor(l, floor);
      if saved.None? || !w.up(k + 1) { return false; }
      PassesChained(issuer, l, created);
      Resealed(issuer, l, floor);
      db := Present(saved.value);
    }

    /** The sealed tables at a floor that may not fall. */
    function SaveFloor(l: Ledger, floor: u64): (r: Option<Ledger>)
      ensures r.Some? <==> Bounded(l) && l.floor <= floor
      ensures r.Some? ==> r.value == issuer.Reseal(l, floor)
    {
      if !Bounded(l) || floor < l.floor then None else Some(issuer.Reseal(l, floor))
    }

    /** A new record for an attestation or a renewal, placed in the tables but not yet committed. */
    method Append(req: Request, l: Ledger, clock: Clock, w: World) returns (r: Option<(Output, Ledger)>)
      requires Valid() && Admissible(issuer, req) && Authentic(issuer, req, w)
      requires Bounded(l) && l.floor <= clock.floor <= MAX_TIME
      requires FindEffect(l.captures, req.capture.effect) in {None, Some(req.capture)}
      modifies clock
      ensures old(clock.floor) <= clock.floor <= MAX_TIME
      ensures r == if !old(clock.failed) && Advances(w.clock(1), old(clock.floor)) && w.up(3) then Drafted(issuer, l, req, w) else None
      ensures r.Some? ==> clock.floor == Later(w.clock(1), r.value.0.issued) && !clock.failed
    {
      if !Drafts(issuer, l, req, w) { return None; }
      var t := clock.Sample(w.clock(1));
      if t.None? { return None; }
      var made := w.make(t.value);
      if made.None? { return None; }
      var o := made.value;
      clock.floor := Later(clock.floor, o.issued);
      if !w.guard(1, o) { return None; }
      var tables := Place(issuer, l, req, o);
      if tables.None? || !w.up(3) { return None; }
      return Some((o, tables.value));
    }

    /** The output to export: the stored one for a resumption, else a new one with the tables that hold it. */
    method Select(req: Request, l: Ledger, clock: Clock, w: World) returns (r: Option<(Output, Ledger)>)
      requires Valid() && Admissible(issuer, req) && Authentic(issuer, req, w)
      requires Bounded(l) && l.floor <= clock.floor == w.clock(0) <= MAX_TIME && !clock.failed
      modifies clock
      ensures old(clock.floor) <= clock.floor <= MAX_TIME
      ensures r == Chosen(issuer, l, req, w)
      ensures r.Some? ==> clock.floor == Reached(req, w, r.value.0) && !clock.failed
    {
      var retained := FindEffect(l.captures, req.capture.effect);
      if retained.Some? && retained.value != req.capture { return None; }
      if !req.mode.Resume? {
        r := Append(req, l, clock, w);
        return;
      }
      var existing := FindNamed(l.records, req);
      if retained.None? || existing.None? { return None; }
      var decoded := issuer.decode(existing.value.record);
      if decoded.None? { return None; }
      return Some((decoded.value, l));
    }

    /** The transaction over tables that passed the audit: all of it is committed, at the clock's own sealed floor, or nothing. */
    method Transact(req: Request, clock: Clock, w: World) returns (r: Option<Output>)
      requires Valid() && db.Present? && Admissible(issuer, req) && Authentic(issuer, req, w)
      requires Bounded(db.ledger) && Chained(issuer, db.ledger.floor, db.ledger.captures, db.ledger.records)
      requires clock.floor == db.ledger.floor && !clock.failed
      modifies this, clock
      ensures Valid() && db.Present? && old(clock.floor) <= clock.floor <= MAX_TIME
      ensures r.None? ==> db == old(db)
      ensures r.Some? ==> Operated(issuer, old(db).ledger, req, r.value, db.ledger)
      ensures r.Some? ==> db.ledger.floor == clock.floor && r.value.InWindow(clock.floor) && !clock.failed
      ensures Noted(w, old(db).ledger, clock.floor)
      ensures r.Some? ==> 0 < w.clock(0) <= clock.floor
      ensures r.Some? <==> Committed(issuer, old(db).ledger, req, w).Some?
      ensures r.Some? ==> Committed(issuer, old(db).ledger, req, w) == Some((r.value, db.ledger)) && clock.floor == w.clock(2)
    {
      r := None;
      var first := clock.Sample(w.clock(0));
      if first.None? { return; }
      var l := db.ledger;
      var chosen := Select(req, l, clock, w);
      if chosen.None? { return; }
      ChosenFits(issuer, l, req, w);
      var done := Commit(req, l, chosen.value.0, chosen.value.1, clock, w);
      if done { r := Some(chosen.value.0); }
    }

    /** The audit and the transaction; `audited` tells whether the tables it read passed the audit. */
    method Operate(req: Request, clock: Clock, created: bool, w: World, ghost commits: Ledger -> Option<(Output, Ledger)>)
      returns (r: Option<Output>, audited: bool)
      requires Valid() && db.Present? && Admissible(issuer, req) && Authentic(issuer, req, w)
      requires clock.floor == 0 && !clock.failed && Means(issuer, req, w, commits)
      modifies this, clock
      ensures Valid() && db.Present? && clock.floor <= MAX_TIME
      ensures r.None? ==> db == old(db)
      ensures audited <==> w.up(2) && Passes(issuer, old(db).ledger, created)
      ensures audited ==> old(db).ledger.floor <= clock.floor
      ensures r.Some? ==> audited && Operated(issuer, old(db).ledger, req, r.value, db.ledger)
      ensures r.Some? ==> db.ledger.floor == clock.floor && r.value.InWindow(clock.floor) && !clock.failed
      ensures audited ==> Noted(w, old(db).ledger, clock.floor)
      ensures r.Some? ==> 0 < w.clock(0) <= clock.floor
      ensures audited ==> (r.Some? <==> commits(old(db).ledger).Some?)
      ensures r.Some? ==> commits(old(db).ledger) == Some((r.value, db.ledger)) && clock.floor == w.clock(2)
    {
      var l := db.ledger;
      if !w.up(2) || !Bounded(l) { return None, false; }
      audited := Check(issuer, l, created);
      if !audited { return None, false; }
      PassesChained(issuer, l, created);
      clock.floor := l.floor;
      r := Transact(req, clock, w);
    }

    /** The last guard, the last reading, and the commit at that reading. */
    method Commit(req: Request, l: Ledger, o: Output, t: Ledger, clock: Clock, w: World) returns (ok: bool)
      requires Valid() && db == Present(l) && Admissible(issuer, req) && Authentic(issuer, req, w)
      requires Bounded(l) && Chained(issuer, l.floor, l.captures, l.records) && l.floor <= clock.floor <= MAX_TIME
      requires if req.mode.Resume? then Stored(issuer, l, req) == Some((o, t))
               else Appended(issuer, l, req, o, t.captures, t.records) && t.floor == l.floor
      modifies this, clock
      ensures Valid() && old(clock.floor) <= clock.floor <= MAX_TIME
      ensures !ok ==> db == old(db)
      ensures ok ==> db.Present? && Operated(issuer, l, req, o, db.ledger) && db.ledger.floor == clock.floor
      ensures ok ==> o.InWindow(clock.floor) && !clock.failed
      ensures ok <==> w.guard(2, o) && !old(clock.failed) && Advances(w.clock(2), old(clock.floor)) && o.InWindow(w.clock(2)) && w.up(4)
      ensures ok ==> db == Present(issuer.Reseal(t, w.clock(2)))
    {
      if !w.guard(2, o) { return false; }
      var final := clock.Sample(w.clock(2));
      if final.None? || !o.InWindow(final.value) { return false; }
      if req.mode.Resume? {
        CommittedResume(issuer, l, req, o, final.value);
      } else {
        CommittedAppend(issuer, l, req, o, t, final.value);
        AppendBounded(issuer, l, req, o, t, final.value);
      }
      var saved := SaveFloor(t, final.value);
      if saved.None? || !w.up(4) { return false; }
      db := Present(saved.value);
      ok := true;
    }

    /** Each advancing reading is sealed before the next look; the envelope leaves only at the sealed floor. */
    method Export(req: Request, o: Output, clock: Clock, w: World) returns (r: Option<bytes>)
      requires Valid() && db.Present? && Audited(issuer, db.ledger) && clock.floor == db.ledger.floor
      modifies this, clock
      ensures Valid() && db.Present? && Audited(issuer, db.ledger) && SameTables(old(db).ledger, db.ledger)
      ensures old(db).ledger.floor <= db.ledger.floor
      ensures r.Some? ==> r.value == o.envelope && o.InWindow(db.ledger.floor)
      ensures r.Some? ==> ReadLast(w, db.ledger.floor)
      ensures Calm(w, old(clock.floor)) && Welcomes(w, o) && !old(clock.failed) && o.InWindow(old(clock.floor)) ==>
                r == Some(o.envelope)
    {
      var persisted := clock.floor;
      ghost var calm := Calm(w, clock.floor) && Welcomes(w, o) && !clock.failed && o.InWindow(clock.floor);
      for i := 0 to 3
        invariant Valid() && db.Present? && Audited(issuer, db.ledger) && SameTables(old(db).ledger, db.ledger)
        invariant old(db).ledger.floor <= db.ledger.floor == persisted == clock.floor
        invariant i == 0 ==> clock.failed == old(clock.failed) && clock.floor == old(clock.floor)
        invariant i > 0 ==> !calm
      {
        if !w.up(10 + 4 * i) || !w.guard(3 + i, o) { return None; }
        var now := clock.Sample(w.clock(3 + i));
        if now.None? { return None; }
        if now.value == persisted {
          if !o.InWindow(now.value) { return None; }
          OneOfThree(w, i, now.value);
          return Some(o.envelope);
        }
        var connected, _ := Connect(false, w, 11 + 4 * i);
        if !connected { return None; }
        var ok := Seal(now.value, false, Some(persisted), w, 12 + 4 * i);
        if !ok || !w.up(13 + 4 * i) { return None; }
        persisted := now.value;
        if !o.InWindow(now.value) { return None; }
      }
      return None;
    }

    /** After a failed transaction the observed time alone is sealed, if the tables can be read and pass the audit again. */
    method KeepTime(req: Request, clock: Clock, audited: bool, created: bool, w: World, ghost before: Database, ghost c: Option<(Output, Ledger)>)
      requires Valid() && db == Present(LedgerOf(before)) && !before.Broken? && (created <==> before.Absent?)
      requires audited ==> LedgerOf(before).floor <= clock.floor <= MAX_TIME && c.None?
      requires audited <==> w.up(2) && Accepted(issuer, before)
      requires audited ==> Noted(w, LedgerOf(before), clock.floor)
      modifies this
      ensures Valid() && Exchanged(issuer, before, req, db, None) && Performed(issuer, before, w, c, db, None)
    {
      var sealed := false;
      if audited && w.up(6) {
        sealed := Seal(Later(clock.floor, db.ledger.floor), created, None, w, 7);
      }
      Failed(issuer, before, req, w, c, clock.floor, audited, sealed, db);
    }

    /** After a committed transaction the envelope is exported. */
    method Release(req: Request, o: Output, clock: Clock, w: World, ghost before: Database) returns (r: Option<bytes>)
      requires Valid() && db.Present? && !before.Broken? && w.up(2) && Accepted(issuer, before)
      requires Operated(issuer, LedgerOf(before), req, o, db.ledger)
      requires 0 < w.clock(0) <= clock.floor == db.ledger.floor == w.clock(2) && o.InWindow(clock.floor) && !clock.failed
      modifies this, clock
      ensures Valid() && Exchanged(issuer, before, req, db, r) && Performed(issuer, before, w, Some((o, old(db).ledger)), db, r)
    {
      ghost var m := db.ledger;
      r := None;
      if w.up(9) {
        r := Export(req, o, clock, w);
      }
      Outcome(issuer, before, req, o, m, db, r);
      Succeeded(issuer, before, w, o, m, db, r);
    }

    /** The transaction and the export over an open database, or the observed time alone when there is nothing to export. */
    method Perform(req: Request, created: bool, w: World, ghost before: Database,
                   ghost commits: Ledger -> Option<(Output, Ledger)>) returns (r: Option<bytes>)
      requires Valid() && Admissible(issuer, req) && Authentic(issuer, req, w)
      requires db == Present(LedgerOf(before)) && !before.Broken? && (created <==> before.Absent?)
      requires Means(issuer, req, w, commits)
      modifies this
      ensures Valid() && Exchanged(issuer, before, req, db, r) && Performed(issuer, before, w, commits(LedgerOf(before)), db, r)
    {
      var clock := new Clock(0);
      var out, audited := Operate(req, clock, created, w, commits);
      if out.None? {
        KeepTime(req, clock, audited, created, w, before, commits(LedgerOf(before)));
        return None;
      }
      r := Release(req, out.value, clock, w, before);
    }

    /** One exchange under any clock and any pattern of failures. */
    method Exchange(req: Request, w: World) returns (r: Option<bytes>)
      requires Valid() && Admissible(issuer, req) && Authentic(issuer, req, w)
      modifies this
      ensures Valid()
      ensures Exchanged(issuer, old(db), req, db, r)
      // An envelope leaves at a time read for it, which is the sealed floor.
      ensures r.Some? ==> db.Present? && ReadLast(w, db.ledger.floor)
      ensures old(db).Present? && Audited(issuer, old(db).ledger) && req.mode.Resume? && Ready(issuer, old(db).ledger, req, w) ==>
                r == Some(Stored(issuer, old(db).ledger, req).value.0.envelope)
      // Observed time is kept, whatever becomes of the request.
      ensures (forall k :: w.up(k)) && old(db).Present? && Audited(issuer, old(db).ledger) ==>
                old(db).ledger.floor <= w.clock(0) <= MAX_TIME ==> w.clock(0) <= db.ledger.floor
      // What is committed and what leaves, exactly.
      ensures Settled(issuer, old(db), req, w, db, r)
      // A database that an attestation creates is usable from then on exactly if it was founded.
      ensures old(db).Absent? ==> (db.Present? <==> req.mode.Attest? && w.up(5) && w.up(0))
      ensures old(db).Absent? && db.Present? ==>
                (Audited(issuer, db.ledger) <==> Founded(w, Committed(issuer, LedgerStore.Blank, req, w).Some?))
    {
      if !w.up(5) {
        Shut(issuer, old(db), req, w, db);
        return None;
      }
      var connected, created := Connect(req.mode.Attest?, w, 0);
      if !connected {
        Shut(issuer, old(db), req, w, db);
        return None;
      }
      r := Perform(req, created, w, old(db), l => Committed(issuer, l, req, w));
      Open(issuer, old(db), req, w, db, r);
      if old(db).Present? && Audited(issuer, old(db).ledger) && req.mode.Resume? && Ready(issuer, old(db).ledger, req, w) {
        Recovered(issuer, old(db), req, w, db, r);
      }
    }
  }

  // ----------------------------------------------------------------- calm worlds

  /** When all goes well, a request is committed exactly if it is allowed, guarded and inside its window. */
  lemma CommittedWhenCalm(a: Issuer, l: Ledger, req: Request, w: World, t: u64)
    requires Calm(w, t) && l.floor <= t
    ensures var c := if req.mode.Resume? then Stored(a, l, req) else Drafted(a, l, req, w);
      Committed(a, l, req, w) == if c.Some? && w.guard(2, c.value.0) && c.value.0.InWindow(t)
                                 then Some((c.value.0, a.Reseal(c.value.1, t))) else None
  {
  }

  lemma Recovered(a: Issuer, before: Database, req: Request, w: World, after: Database, r: Option<bytes>)
    requires Settled(a, before, req, w, after, r) && before.Present? && Audited(a, before.ledger)
    requires req.mode.Resume? && Ready(a, before.ledger, req, w)
    ensures r == Some(Stored(a, before.ledger, req).value.0.envelope)
  {
    CommittedWhenCalm(a, before.ledger, req, w, w.clock(0));
  }

  /** The stored output a resumption recovers: the capture exactly as presented, the record it names, decoded. */
  function Stored(a: Issuer, l: Ledger, req: Request): (r: Option<(Output, Ledger)>)
    ensures r.Some? ==> r.value.1 == l && req.capture in l.captures
    ensures r.Some? ==> Holds(a, l.records, req, r.value.0)
  {
    var row :- FindNamed(l.records, req);
    if FindEffect(l.captures, req.capture.effect) != Some(req.capture) then None
    else
      var o :- a.decode(row.record);
      Some((o, l))
  }

  /** A calm world at a time the stored output is still valid and not behind the ledger. */
  ghost predicate Ready(a: Issuer, l: Ledger, req: Request, w: World) {
    && Calm(w, w.clock(0))
    && l.floor <= w.clock(0)
    && Stored(a, l, req).Some?
    && Stored(a, l, req).value.0.InWindow(w.clock(0))
    && Welcomes(w, Stored(a, l, req).value.0)
  }

  /** The record the request names is stored and decodes to this output. */
  ghost predicate Holds(a: Issuer, rs: seq<AttestationRow>, req: Request, o: Output) {
    exists r :: r in rs && Names(req, r) && a.decode(r.record) == Some(o)
  }

  /** What a committed transaction did. */
  ghost predicate Operated(a: Issuer, l: Ledger, req: Request, o: Output, m: Ledger) {
    && Audited(a, m) && l.floor <= m.floor
    && Holds(a, m.records, req, o)
    && (if req.mode.Resume? then SameTables(l, m) else Appended(a, l, req, o, m.captures, m.records))
  }

  lemma ChosenFits(a: Issuer, l: Ledger, req: Request, w: World)
    requires Chosen(a, l, req, w).Some?
    ensures var (o, t) := Chosen(a, l, req, w).value;
      if req.mode.Resume? then Stored(a, l, req) == Some((o, t))
      else Appended(a, l, req, o, t.captures, t.records) && t.floor == l.floor
  {
  }

  lemma PassesChained(a: Issuer, l: Ledger, created: bool)
    requires Passes(a, l, created)
    ensures Chained(a, l.floor, l.captures, l.records)
  {
  }

  /** Sealing good tables at a higher floor gives a ledger the audit accepts, unless the floor is still zero. */
  lemma Resealed(a: Issuer, l: Ledger, floor: u64)
    requires a.Sound() && Bounded(l) && l.floor <= floor <= MAX_TIME
    requires Chained(a, l.floor, l.captures, l.records)
    requires l.floor > 0 || (l.captures == [] && l.records == [])
    ensures Bounded(a.Reseal(l, floor)) && Kept(a, Present(a.Reseal(l, floor)))
    ensures floor > 0 ==> Audited(a, a.Reseal(l, floor))
  {
    RaisedFloor(a, l.floor, floor, l.captures, l.records);
  }

  lemma CommittedResume(a: Issuer, l: Ledger, req: Request, o: Output, floor: u64)
    requires a.Sound() && Bounded(l) && l.floor <= floor <= MAX_TIME && 0 < floor && req.mode.Resume?
    requires Chained(a, l.floor, l.captures, l.records)
    requires Stored(a, l, req) == Some((o, l))
    ensures Bounded(a.Reseal(l, floor)) && Operated(a, l, req, o, a.Reseal(l, floor))
  {
    RaisedFloor(a, l.floor, floor, l.captures, l.records);
  }

  lemma CommittedAppend(a: Issuer, l: Ledger, req: Request, o: Output, t: Ledger, floor: u64)
    requires a.Sound() && Admissible(a, req) && l.floor == t.floor <= floor <= MAX_TIME && 0 < floor
    requires Chained(a, l.floor, l.captures, l.records) && o.issued <= floor && !req.mode.Resume?
    requires Appended(a, l, req, o, t.captures, t.records)
    requires |a.encode(o)| <= MAX_RECORD && a.recordOk(o, req.capture.id, req.capture.effect, req.capture.original)
    ensures Operated(a, l, req, o, a.Reseal(t, floor))
    ensures |t.captures| <= |t.records| <= MAX_ROWS
  {
    AppendedChained(a, l, req, o, t, floor);
    StoredRow(a, l, req, o, t.captures, t.records);
    assert Audited(a, a.Reseal(t, floor));
  }

  lemma AppendBounded(a: Issuer, l: Ledger, req: Request, o: Output, t: Ledger, floor: u64)
    requires Appended(a, l, req, o, t.captures, t.records) && |t.captures| <= |t.records| <= MAX_ROWS
    requires t.floor <= floor <= MAX_TIME
    ensures Bounded(t) && Bounded(a.Reseal(t, floor))
  {
  }

  lemma StoredRow(a: Issuer, l: Ledger, req: Request, o: Output, cs: seq<CaptureRow>, rs: seq<AttestationRow>)
    requires a.Sound() && Appended(a, l, req, o, cs, rs) && |a.encode(o)| <= MAX_RECORD
    ensures Holds(a, rs, req, o)
  {
    var row := NewRow(a, req, o, a.replay(o).value);
    assert row in rs && Names(req, row) && a.decode(row.record) == Some(o);
  }

  // ------------------------------------------------------------- an open database

  /** Whether the audit accepts what is there, or what was just created. */
  ghost predicate Accepted(a: Issuer, before: Database) { Passes(a, LedgerOf(before), before.Absent?) }

  lemma Open(a: Issuer, before: Database, req: Request, w: World, after: Database, r: Option<bytes>)
    requires w.up(5) && w.up(0) && !before.Broken? && (before.Absent? ==> req.mode.Attest?)
    requires Performed(a, before, w, Committed(a, LedgerOf(before), req, w), after, r)
    ensures Settled(a, before, req, w, after, r)
  {
  }

  lemma Shut(a: Issuer, before: Database, req: Request, w: World, after: Database)
    requires !w.up(5) || !w.up(0) || before.Broken? || (before.Absent? && !req.mode.Attest?)
    requires SameTables(LedgerOf(before), LedgerOf(after))
    ensures Settled(a, before, req, w, after, None)
  {
  }

  /** The clock stands at the first reading, or has not moved because that was refused. */
  predicate Noted(w: World, l: Ledger, observed: nat) {
    if Advances(w.clock(0), l.floor) then w.clock(0) <= observed else observed == l.floor
  }

  /** What became of an open database; `c` is what its tables would have the request commit. */
  ghost predicate Performed(a: Issuer, before: Database, w: World, c: Option<(Output, Ledger)>, after: Database, r: Option<bytes>) {
    && after.Present?
    && (r.Some? ==> ReadLast(w, after.ledger.floor))
    && SettledAs((if w.up(2) && Accepted(a, before) then c else None), before, w, after, r)
    && ((forall k :: w.up(k)) && Accepted(a, before) && LedgerOf(before).floor <= w.clock(0) <= MAX_TIME ==>
          w.clock(0) <= after.ledger.floor)
    && (before.Absent? ==> (Audited(a, after.ledger) <==> Founded(w, c.Some?)))
  }

  /** Nothing was committed, and the observed time was sealed or not. */
  lemma Failed(a: Issuer, before: Database, req: Request, w: World, c: Option<(Output, Ledger)>,
               observed: u64, audited: bool, sealed: bool, after: Database)
    requires a.Sound() && !before.Broken? && Bounded(LedgerOf(before))
    requires audited ==> LedgerOf(before).floor <= observed <= MAX_TIME && c.None? && Noted(w, LedgerOf(before), observed)
    requires audited <==> w.up(2) && Accepted(a, before)
    requires sealed <==> audited && w.up(6) && w.up(7) && w.up(8)
    requires after == Present(if sealed then a.Reseal(LedgerOf(before), Later(observed, LedgerOf(before).floor)) else LedgerOf(before))
    ensures Exchanged(a, before, req, after, None)
    ensures Performed(a, before, w, c, after, None)
  {
    if sealed {
      PassesChained(a, LedgerOf(before), before.Absent?);
      Resealed(a, LedgerOf(before), Later(observed, LedgerOf(before).floor));
    }
  }

  /** It was committed, and the envelope left or not. */
  lemma Succeeded(a: Issuer, before: Database, w: World, o: Output, m: Ledger, after: Database, r: Option<bytes>)
    requires !before.Broken? && w.up(2) && Accepted(a, before)
    requires after.Present? && Audited(a, after.ledger) && SameTables(m, after.ledger) && m.floor <= after.ledger.floor
    requires r.Some? ==> r.value == o.envelope && ReadLast(w, after.ledger.floor)
    requires 0 < w.clock(0) <= m.floor <= MAX_TIME
    requires Calm(w, w.clock(0)) && Welcomes(w, o) ==> r.Some?
    ensures Performed(a, before, w, Some((o, m)), after, r)
  {
  }

  /** A committed transaction, however its export ended. */
  lemma Outcome(a: Issuer, before: Database, req: Request, o: Output, m: Ledger, after: Database, r: Option<bytes>)
    requires Operated(a, LedgerOf(before), req, o, m)
    requires after.Present? && Audited(a, after.ledger) && SameTables(m, after.ledger) && m.floor <= after.ledger.floor
    requires r.Some? ==> r.value == o.envelope && o.InWindow(after.ledger.floor)
    requires before.Present? ==> Audited(a, before.ledger)
    requires !before.Broken?
    ensures Exchanged(a, before, req, after, r)
  {
    Regrown(a, LedgerOf(before), req, o, m, after.ledger);
  }

  lemma Regrown(a: Issuer, l: Ledger, req: Request, o: Output, m: Ledger, n: Ledger)
    requires Operated(a, l, req, o, m) && SameTables(m, n) && Audited(a, n)
    ensures !req.mode.Resume? ==> Grown(a, l, req, n)
    ensures o.InWindow(n.floor) ==> Exports(a, n, req, o.envelope)
  {
  }
}
