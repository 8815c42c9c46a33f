/** The replay table of the credential-bound authority: one live projection per session, operation and nonce. */
module ReplayTable {
  import opened Bytes
  import opened Wrappers
  import opened Seqs

  datatype Key = Key(sessionId: string, operation: string, nonce: string)

  datatype Held = Held(expires: nat, projection: bytes)

  datatype ReplayError = StorageFailed | Conflict

  /** One reservation: what is to be held, when, and whether storage fails under it. */
  datatype Attempt = Attempt(key: Key, held: Held, now: nat, fault: bool)

  type Rows = map<Key, Held>

  predicate Storable(k: Key) { |k.sessionId| == 32 && |k.nonce| == 32 }

  function Live(rows: Rows, now: nat): Rows {
    map k | k in rows && rows[k].expires > now :: rows[k]
  }

  /** The table after an attempt, and its answer. */
  function Reserved(rows: Rows, a: Attempt): (Rows, Result<(), ReplayError>) {
    var live := Live(rows, a.now);
    if a.fault then (rows, Err(StorageFailed))
    else if a.key in live then
      if live[a.key].projection == a.held.projection then (live, Ok(())) else (rows, Err(Conflict))
    else if Storable(a.key) then (live[a.key := a.held], Ok(()))
    else (rows, Err(StorageFailed))
  }

  class Table {
    var rows: Rows

    constructor ()
      ensures rows == map[]
    {
      rows := map[];
    }

    /** Drop what has expired, insert unless the key is taken, and keep neither change on any error. */
    method Reserve(a: Attempt) returns (r: Result<(), ReplayError>)
      modifies this
      ensures (rows, r) == Reserved(old(rows), a)
      ensures r.Err? ==> rows == old(rows)
    {
      if a.fault { return Err(StorageFailed); }
      var pending := Live(rows, a.now);
      if a.key !in pending && Storable(a.key) {
        pending := pending[a.key := a.held];
      } else {
        if a.key !in pending { return Err(StorageFailed); }
        if pending[a.key].projection != a.held.projection { return Err(Conflict); }
      }
      rows := pending;
      return Ok(());
    }
  }

  // -------------------------------------------------------------------- runs

  function After(rows: Rows, attempts: seq<Attempt>): Rows {
    if attempts == [] then rows
    else Reserved(After(rows, attempts[..|attempts| - 1]), attempts[|attempts| - 1]).0
  }

  function Answer(rows: Rows, attempts: seq<Attempt>, i: nat): Result<(), ReplayError>
    requires i < |attempts|
  {
    Reserved(After(rows, attempts[..i]), attempts[i]).1
  }

  predicate Ordered(attempts: seq<Attempt>) {
    forall i, j | 0 <= i < j < |attempts| :: attempts[i].now <= attempts[j].now
  }

  /** Every projection carries its own deadline. */
  predicate Dated(deadline: bytes -> nat, h: Held) { h.expires == deadline(h.projection) }

  predicate AllDated(deadline: bytes -> nat, rows: Rows) { forall k | k in rows :: Dated(deadline, rows[k]) }

  predicate AttemptsDated(deadline: bytes -> nat, attempts: seq<Attempt>) {
    forall i | 0 <= i < |attempts| :: Dated(deadline, attempts[i].held)
  }

  lemma {:induction false} StaysDated(deadline: bytes -> nat, rows: Rows, attempts: seq<Attempt>)
    requires AllDated(deadline, rows) && AttemptsDated(deadline, attempts)
    ensures AllDated(deadline, After(rows, attempts))
  {
    if attempts != [] {
      StaysDated(deadline, rows, attempts[..|attempts| - 1]);
    }
  }

  lemma NextRows(rows: Rows, attempts: seq<Attempt>, x: nat)
    requires x < |attempts|
    ensures After(rows, attempts[..x + 1]) == Reserved(After(rows, attempts[..x]), attempts[x]).0
  {
    TakeNext(attempts, x);
    DropHead(attempts[..x], [attempts[x]]);
  }

  /** A successful attempt is in the table right after it. */
  lemma HeldAtOnce(deadline: bytes -> nat, rows: Rows, attempts: seq<Attempt>, i: nat)
    requires AllDated(deadline, rows) && AttemptsDated(deadline, attempts)
    requires i < |attempts| && Answer(rows, attempts, i).Ok?
    ensures attempts[i].key in After(rows, attempts[..i + 1])
    ensures After(rows, attempts[..i + 1])[attempts[i].key] == attempts[i].held
  {
    NextRows(rows, attempts, i);
    StaysDated(deadline, rows, attempts[..i]);
  }

  /** Some attempt between succeeds at or after the deadline of the first, and so removes what has expired by then. */
  predicate Purged(rows: Rows, attempts: seq<Attempt>, i: nat, m: nat)
    requires i < m <= |attempts|
  {
    exists x | i < x < m :: Answer(rows, attempts, x).Ok? && attempts[i].held.expires <= attempts[x].now
  }

  /** Attempts are made in the order of their clocks: nothing live has been purged. */
  lemma OrderedNeverPurged(rows: Rows, attempts: seq<Attempt>, i: nat, j: nat)
    requires Ordered(attempts) && i < j < |attempts| && attempts[j].now < attempts[i].held.expires
    ensures !Purged(rows, attempts, i, j)
  {
  }

  /** A successful attempt is held for as long as it is not purged. */
  lemma {:induction false} HeldUnlessPurged(deadline: bytes -> nat, rows: Rows, attempts: seq<Attempt>, i: nat, m: nat)
    requires AllDated(deadline, rows) && AttemptsDated(deadline, attempts)
    requires i < m <= |attempts| && Answer(rows, attempts, i).Ok? && !Purged(rows, attempts, i, m)
    ensures attempts[i].key in After(rows, attempts[..m])
    ensures After(rows, attempts[..m])[attempts[i].key] == attempts[i].held
    decreases m
  {
    if m == i + 1 {
      HeldAtOnce(deadline, rows, attempts, i);
    } else {
      HeldUnlessPurged(deadline, rows, attempts, i, m - 1);
      NextRows(rows, attempts, m - 1);
    }
  }

  /** Two successes under one key are the same bytes, unless the first had expired or was purged when the second came. */
  lemma OneLiveProjection(deadline: bytes -> nat, rows: Rows, attempts: seq<Attempt>, i: nat, j: nat)
    requires AllDated(deadline, rows) && AttemptsDated(deadline, attempts)
    requires i < j < |attempts| && attempts[i].key == attempts[j].key
    requires Answer(rows, attempts, i).Ok? && Answer(rows, attempts, j).Ok?
    ensures attempts[i].held == attempts[j].held || attempts[i].held.expires <= attempts[j].now
            || Purged(rows, attempts, i, j)
  {
    if attempts[j].now < attempts[i].held.expires && !Purged(rows, attempts, i, j) {
      HeldUnlessPurged(deadline, rows, attempts, i, j);
    }
  }

  /** With clocks in order, only an expired projection can be followed by another. */
  lemma OneLiveProjectionInOrder(deadline: bytes -> nat, rows: Rows, attempts: seq<Attempt>, i: nat, j: nat)
    requires AllDated(deadline, rows) && AttemptsDated(deadline, attempts) && Ordered(attempts)
    requires i < j < |attempts| && attempts[i].key == attempts[j].key
    requires Answer(rows, attempts, i).Ok? && Answer(rows, attempts, j).Ok?
    ensures attempts[i].held == attempts[j].held || attempts[i].held.expires <= attempts[j].now
  {
    OneLiveProjection(deadline, rows, attempts, i, j);
    if attempts[j].now < attempts[i].held.expires {
      OrderedNeverPurged(rows, attempts, i, j);
    }
  }

  /** The attempts between two fail, or are made under other keys. */
  predicate Undisturbed(rows: Rows, attempts: seq<Attempt>, i: nat, m: nat)
    requires i < m <= |attempts|
  {
    forall x | i < x < m :: attempts[x].key == attempts[i].key ==> Answer(rows, attempts, x).Err?
  }

  lemma StaysGone(rows: Rows, a: Attempt, key: Key)
    requires key !in rows && (a.key == key ==> Reserved(rows, a).1.Err?)
    ensures key !in Reserved(rows, a).0
  {
  }

  lemma DropsExpired(rows: Rows, a: Attempt, key: Key)
    requires key in rows && rows[key].expires <= a.now && a.key != key && Reserved(rows, a).1.Ok?
    ensures key !in Reserved(rows, a).0
  {
  }

  /** Purged by the last attempt, or before it. */
  lemma PurgedNow(rows: Rows, attempts: seq<Attempt>, i: nat, last: nat, m: nat)
    requires i < last < m <= |attempts| && m == last + 1 && Purged(rows, attempts, i, m)
    ensures Purged(rows, attempts, i, last)
            || (Answer(rows, attempts, last).Ok? && attempts[i].held.expires <= attempts[last].now)
  {
  }

  /** Under other keys, a success at or after the deadline drops the row for good. */
  lemma {:induction false} GoneOncePurged(deadline: bytes -> nat, rows: Rows, attempts: seq<Attempt>, i: nat, m: nat)
    requires AllDated(deadline, rows) && AttemptsDated(deadline, attempts)
    requires i < m <= |attempts| && Answer(rows, attempts, i).Ok? && Undisturbed(rows, attempts, i, m)
    requires Purged(rows, attempts, i, m)
    ensures attempts[i].key !in After(rows, attempts[..m])
    decreases m
  {
    var last := m - 1;
    PurgedNow(rows, attempts, i, last, m);
    NextRows(rows, attempts, last);
    if Purged(rows, attempts, i, last) {
      GoneOncePurged(deadline, rows, attempts, i, last);
      StaysGone(After(rows, attempts[..last]), attempts[last], attempts[i].key);
    } else {
      HeldUnlessPurged(deadline, rows, attempts, i, last);
      DropsExpired(After(rows, attempts[..last]), attempts[last], attempts[i].key);
    }
  }

  /**
   The next attempt under a key succeeds exactly when it is the same projection, the first has expired by its clock,
   or the first has been purged by an attempt with a later clock.
   */
  lemma SucceedsExactlyWhen(deadline: bytes -> nat, rows: Rows, attempts: seq<Attempt>, i: nat, j: nat)
    requires AllDated(deadline, rows) && AttemptsDated(deadline, attempts)
    requires i < j < |attempts| && attempts[i].key == attempts[j].key
    requires Answer(rows, attempts, i).Ok? && Undisturbed(rows, attempts, i, j)
    requires !attempts[j].fault && Storable(attempts[j].key)
    ensures Answer(rows, attempts, j).Ok? <==>
      || attempts[i].held == attempts[j].held
      || attempts[i].held.expires <= attempts[j].now
      || Purged(rows, attempts, i, j)
  {
    if Purged(rows, attempts, i, j) {
      GoneOncePurged(deadline, rows, attempts, i, j);
    } else {
      HeldUnlessPurged(deadline, rows, attempts, i, j);
    }
  }

  /** While it is live and not purged, an attempt under the key succeeds exactly when it is the same projection. */
  lemma RetryExactlyWhenSame(deadline: bytes -> nat, rows: Rows, attempts: seq<Attempt>, i: nat, j: nat)
    requires AllDated(deadline, rows) && AttemptsDated(deadline, attempts)
    requires i < j < |attempts| && attempts[i].key == attempts[j].key && !attempts[j].fault
    requires Answer(rows, attempts, i).Ok? && attempts[j].now < attempts[i].held.expires && !Purged(rows, attempts, i, j)
    ensures Answer(rows, attempts, j).Ok? <==> attempts[i].held == attempts[j].held
    ensures Answer(rows, attempts, j).Err? ==> Answer(rows, attempts, j) == Err(Conflict)
  {
    HeldUnlessPurged(deadline, rows, attempts, i, j);
  }

  /**
   The order of the clock matters: a step back after a purge lets two different live projections through, each with its
   own deadline a minute after it was made.
   */
  lemma ClockMustNotStepBack(key: Key, other: Key, p: bytes, q: bytes, s: bytes)
    requires Storable(key) && Storable(other) && key != other && p != q && s != p && s != q
    ensures var attempts := [Attempt(key, Held(60, p), 0, false), Attempt(other, Held(160, s), 100, false),
                             Attempt(key, Held(60, q), 0, false)];
      && AttemptsDated(b => if b == s then 160 else 60, attempts)
      && Answer(map[], attempts, 0).Ok? && Answer(map[], attempts, 1).Ok? && Answer(map[], attempts, 2).Ok?
      && attempts[2].now < attempts[0].held.expires
  {
    var attempts := [Attempt(key, Held(60, p), 0, false), Attempt(other, Held(160, s), 100, false),
                     Attempt(key, Held(60, q), 0, false)];
    assert attempts[..1] == [attempts[0]] && attempts[..2] == [attempts[0], attempts[1]];
    assert attempts[..2][..1] == attempts[..1] && attempts[..1][..0] == [];
    assert After(map[], attempts[..1]) == map[key := attempts[0].held];
    assert key !in After(map[], attempts[..2]);
  }
}
