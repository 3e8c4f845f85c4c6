/** Canonical actions: the four-hour suppression window and expiry by renaming. */
module Canonical {
  import opened Tables

  // Decimal ids

  function Decimal(n: nat): (s: string)
    ensures |s| > 0
  {
    if n < 10 then ["0123456789"[n]] else Decimal(n / 10) + ["0123456789"[n % 10]]
  }

  lemma {:induction false} DecimalInjective(m: nat, n: nat)
    requires Decimal(m) == Decimal(n)
    ensures m == n
  {
    var s, r := Decimal(m), Decimal(n);
    assert s[|s| - 1] == "0123456789"[m % 10] && r[|r| - 1] == "0123456789"[n % 10];
    if m >= 10 && n >= 10 {
      assert Decimal(m / 10) == s[..|s| - 1] && Decimal(n / 10) == r[..|r| - 1];
      DecimalInjective(m / 10, n / 10);
    }
  }

  /** A fingerprint is a lower-case hex digest. */
  predicate Hex(s: string) {
    forall c | c in s :: '0' <= c <= '9' || 'a' <= c <= 'f'
  }

  function ExpiredName(fingerprint: string, id: nat): string {
    fingerprint + (":expired:" + Decimal(id))
  }

  lemma ExpiredNameNotHex(f: string, a: nat)
    ensures !Hex(ExpiredName(f, a))
  {
    assert ExpiredName(f, a)[|f|] == ':' && ':' in ExpiredName(f, a);
  }

  lemma SameSplit(a: string, b: string, c: string, d: string)
    requires a + b == c + d && |a| == |c|
    ensures a == c && b == d
  {
    assert a == (a + b)[..|a|] == (c + d)[..|c|] == c;
    assert b == (a + b)[|a|..] == (c + d)[|c|..] == d;
  }

  lemma ExpiredNameInjective(f: string, a: nat, g: string, b: nat)
    requires Hex(f) && Hex(g) && ExpiredName(f, a) == ExpiredName(g, b)
    ensures f == g && a == b
  {
    var s, r := ExpiredName(f, a), ExpiredName(g, b);
    assert s[|f|] == ':' && r[|g|] == ':';
    assert forall i | 0 <= i < |f| :: s[i] == f[i] && f[i] in f;
    assert forall i | 0 <= i < |g| :: r[i] == g[i] && g[i] in g;
    SameSplit(f, ":expired:" + Decimal(a), g, ":expired:" + Decimal(b));
    SameSplit(":expired:", Decimal(a), ":expired:", Decimal(b));
    DecimalInjective(a, b);
  }

  // The statements

  ghost predicate Holds(t: Tables, a: nat, k: Key) {
    a in t.canon && t.canon[a].key == k
  }

  /** The row the UNIQUE index has for a key. */
  ghost function Holder(t: Tables, k: Key): (h: Option<nat>)
    ensures h.Some? ==> Holds(t, h.value, k)
    ensures h.None? ==> forall a :: !Holds(t, a, k)
  {
    if exists a :: Holds(t, a, k) then
      var a :| Holds(t, a, k);
      Some(a)
    else None
  }

  function Expired(t: Tables, a: nat): Tables
    requires a in t.canon
  {
    var c := t.canon[a];
    t.(canon := t.canon[a := c.(active := false, key := c.key.(fingerprint := ExpiredName(c.key.fingerprint, a)))])
  }

  function Inserted(t: Tables, k: Key, p: Payload, source: int, now: int): Tables {
    var a := t.lastId + 1;
    Tables(t.canon[a := Canon(k, p, Pending, 0, true, now)],
           t.outbox[a := Row(k.chat, k.thread, source, p, Planned, 0, now, 0, 0, None)],
           a)
  }

  /** A row no older than four hours at `now` still suppresses. */
  predicate InWindow(c: Canon, now: int) {
    c.createdAt >= now - WINDOW_SECONDS
  }

  /** CreateCanonical as one transaction; the tables change exactly when it wins. */
  ghost function Created(t: Tables, k: Key, p: Payload, source: int, now: int): Tables {
    match Holder(t, k)
    case None => Inserted(t, k, p, source, now)
    case Some(a) => if InWindow(t.canon[a], now) then t else Inserted(Expired(t, a), k, p, source, now)
  }

  ghost predicate Wins(t: Tables, k: Key, now: int) {
    var h := Holder(t, k);
    h.Some? ==> !InWindow(t.canon[h.value], now)
  }

  ghost predicate Matches(t: Tables, a: nat, k: Key, now: int) {
    Holds(t, a, k) && t.canon[a].active && InWindow(t.canon[a], now)
  }

  /** FindCanonical at one instant. */
  ghost function Find(t: Tables, k: Key, now: int): (f: Option<nat>)
    ensures f.Some? ==> Matches(t, f.value, k, now)
    ensures f.None? ==> forall a :: !Matches(t, a, k, now)
  {
    if exists a :: Matches(t, a, k, now) then
      var a :| Matches(t, a, k, now);
      Some(a)
    else None
  }

  // Runs

  /** What a client of the store may do to the two tables. */
  datatype StoreOp =
    | NewAction(key: Key, payload: Payload, source: int, now: int)
    | Update(id: nat, write: Write, now: int)
    | ClaimDue(token: nat, now: int)

  ghost function Apply(t: Tables, op: StoreOp): Tables {
    match op
    case NewAction(k, p, s, now) => Created(t, k, p, s, now)
    case Update(a, w, now) => Written(t, a, w, now)
    case ClaimDue(token, now) => Claimed(t, token, now)
  }

  ghost function After(ops: seq<StoreOp>): Tables {
    if ops == [] then EMPTY else Apply(After(ops[..|ops| - 1]), ops[|ops| - 1])
  }

  /** Fingerprints reaching the store are hex digests. */
  predicate Digests(ops: seq<StoreOp>) {
    forall i | 0 <= i < |ops| && ops[i].NewAction? :: Hex(ops[i].key.fingerprint)
  }

  /** What every run keeps: the unique index, one outbox row per canonical row with the same chat and
      thread, and the two shapes of a fingerprint. */
  ghost predicate Consistent(t: Tables) {
    && t.canon.Keys == t.outbox.Keys
    && (forall a | a in t.canon :: 0 < a <= t.lastId && Named(t.canon[a], a) && SameTopic(t.canon[a], t.outbox[a]))
    && (forall a, b | a in t.canon && b in t.canon && t.canon[a].key == t.canon[b].key :: a == b)
  }

  lemma IdsBounded(t: Tables)
    requires Consistent(t)
    ensures forall a | a in t.outbox :: 0 < a <= t.lastId
  {}

  predicate SameTopic(c: Canon, r: Row) {
    c.key.chat == r.chat && c.key.thread == r.thread
  }

  ghost predicate Named(c: Canon, a: nat) {
    if c.active then Hex(c.key.fingerprint)
    else exists f :: Hex(f) && c.key.fingerprint == ExpiredName(f, a)
  }

  /** The renaming of an expired row never meets another row of the index, nor any key a client can use. */
  lemma ExpiryNeverCollides(t: Tables, a: nat)
    requires Consistent(t) && a in t.canon && t.canon[a].active
    ensures forall b | b in t.canon && b != a :: t.canon[b].key != Expired(t, a).canon[a].key
    ensures !Hex(Expired(t, a).canon[a].key.fingerprint)
  {
    var f := t.canon[a].key.fingerprint;
    ExpiredNameNotHex(f, a);
    forall b | b in t.canon && b != a && !t.canon[b].active
      ensures t.canon[b].key.fingerprint != ExpiredName(f, a)
    {
      var g :| Hex(g) && t.canon[b].key.fingerprint == ExpiredName(g, b);
      if t.canon[b].key.fingerprint == ExpiredName(f, a) {
        ExpiredNameInjective(g, b, f, a);
      }
    }
  }

  /** A digest is held by an active row only. */
  lemma HolderIsActive(t: Tables, a: nat, k: Key)
    requires Consistent(t) && Holds(t, a, k) && Hex(k.fingerprint)
    ensures t.canon[a].active && Holder(t, k) == Some(a)
  {
    if !t.canon[a].active {
      var f :| Hex(f) && k.fingerprint == ExpiredName(f, a);
      ExpiredNameNotHex(f, a);
    }
    assert exists b :: Holds(t, b, k);
  }

  lemma ExpiredConsistent(t: Tables, a: nat)
    requires Consistent(t) && a in t.canon && t.canon[a].active
    ensures Consistent(Expired(t, a))
  {
    ExpiryNeverCollides(t, a);
    var f := t.canon[a].key.fingerprint;
    assert Hex(f) && Expired(t, a).canon[a].key.fingerprint == ExpiredName(f, a);
  }

  lemma InsertedConsistent(t: Tables, k: Key, p: Payload, source: int, now: int)
    requires Consistent(t) && Holder(t, k).None? && Hex(k.fingerprint)
    ensures Consistent(Inserted(t, k, p, source, now))
  {
    assert forall a :: !Holds(t, a, k);
    assert forall a | a in t.canon :: Holds(t, a, t.canon[a].key);
  }

  lemma ExpiredFreesKey(t: Tables, a: nat, k: Key)
    requires Consistent(t) && Holds(t, a, k) && Hex(k.fingerprint)
    ensures t.canon[a].active && Consistent(Expired(t, a)) && Holder(Expired(t, a), k).None?
  {
    HolderIsActive(t, a, k);
    ExpiredConsistent(t, a);
    ExpiryNeverCollides(t, a);
    assert forall b :: Holds(Expired(t, a), b, k) && b != a ==> Holds(t, b, k);
  }

  lemma CreatedConsistent(t: Tables, k: Key, p: Payload, source: int, now: int)
    requires Consistent(t) && Hex(k.fingerprint)
    ensures Consistent(Created(t, k, p, source, now))
  {
    var h := Holder(t, k);
    if h.None? {
      InsertedConsistent(t, k, p, source, now);
    } else if !InWindow(t.canon[h.value], now) {
      ExpiredFreesKey(t, h.value, k);
      InsertedConsistent(Expired(t, h.value), k, p, source, now);
    }
  }

  lemma WritesKeepKeys(w: Write, now: int)
    ensures forall c :: CanonAfter(c, w).key == c.key && CanonAfter(c, w).active == c.active
    ensures forall r :: RowAfter(r, w, now).chat == r.chat && RowAfter(r, w, now).thread == r.thread
  {}

  lemma WrittenConsistent(t: Tables, a: nat, w: Write, now: int)
    requires Consistent(t)
    ensures Consistent(Written(t, a, w, now))
  {
    hide Hex, ExpiredName, RowAfter, CanonAfter;
    WritesKeepKeys(w, now);
    var u := Written(t, a, w, now);
    forall b | b in u.canon
      ensures b <= u.lastId && Named(u.canon[b], b) && SameTopic(u.canon[b], u.outbox[b])
              && u.canon[b].key == t.canon[b].key
    {
      assert Named(t.canon[b], b);
    }
  }

  lemma ClaimedConsistent(t: Tables, token: nat, now: int)
    requires Consistent(t)
    ensures Consistent(Claimed(t, token, now))
  {}

  lemma ApplyConsistent(t: Tables, op: StoreOp)
    requires Consistent(t) && (op.NewAction? ==> Hex(op.key.fingerprint))
    ensures Consistent(Apply(t, op))
  {
    match op
    case NewAction(k, p, s, now) => CreatedConsistent(t, k, p, s, now);
    case Update(a, w, now) => WrittenConsistent(t, a, w, now);
    case ClaimDue(token, now) => ClaimedConsistent(t, token, now);
  }

  /** Every reachable pair of tables is consistent: at most one row holds a key, so at most one active
      row does, and each canonical row has exactly one outbox row. */
  lemma {:induction false} RunsAreConsistent(ops: seq<StoreOp>)
    requires Digests(ops)
    ensures Consistent(After(ops))
  {
    if ops != [] {
      var init := ops[..|ops| - 1];
      RunsAreConsistent(init);
      assert ops[|ops| - 1].NewAction? ==> Hex(ops[|ops| - 1].key.fingerprint);
      ApplyConsistent(After(init), ops[|ops| - 1]);
    }
  }

  /** At one instant a creation wins exactly when a lookup finds nothing; when it loses, the tables stay
      as they were and the lookup finds the row that beat it. */
  lemma CreationAgreesWithLookup(t: Tables, k: Key, p: Payload, source: int, now: int)
    requires Consistent(t) && Hex(k.fingerprint)
    ensures Wins(t, k, now) <==> Find(t, k, now).None?
    ensures !Wins(t, k, now) ==> Created(t, k, p, source, now) == t && Find(t, k, now) == Holder(t, k)
    ensures Wins(t, k, now) ==>
              var u := Created(t, k, p, source, now);
              u.lastId == t.lastId + 1 && Find(u, k, now) == Some(u.lastId) && u.outbox[u.lastId].phase == Planned
  {
    var h := Holder(t, k);
    if h.Some? {
      HolderIsActive(t, h.value, k);
      ExpiredFreesKey(t, h.value, k);
    }
    var f := Find(t, k, now);
    if f.Some? {
      HolderIsActive(t, f.value, k);
    }
    if h.Some? && InWindow(t.canon[h.value], now) {
      assert Matches(t, h.value, k, now);
    }
    if Wins(t, k, now) {
      WinnerHolds(t, k, p, source, now);
      var u := Created(t, k, p, source, now);
      assert Matches(u, u.lastId, k, now);
      HolderIsActive(u, Find(u, k, now).value, k);
    }
  }

  /** The losing branch looks the winner up again with a later clock. It finds nothing exactly when the holder was
      inside its window at the insert and is outside it at the lookup. */
  lemma LoserFindsNothing(t: Tables, k: Key, now: int, reread: int)
    requires Consistent(t) && Hex(k.fingerprint)
    ensures !Wins(t, k, now) && Find(t, k, reread).None?
            <==> Holder(t, k).Some? && InWindow(t.canon[Holder(t, k).value], now)
                 && !InWindow(t.canon[Holder(t, k).value], reread)
  {
    var h := Holder(t, k);
    if h.Some? {
      HolderIsActive(t, h.value, k);
      if InWindow(t.canon[h.value], reread) {
        assert Matches(t, h.value, k, reread);
      }
    }
    var f := Find(t, k, reread);
    if f.Some? {
      HolderIsActive(t, f.value, k);
    }
  }

  /** The row of a digest key never gets older: each operation keeps the row or replaces it by a younger
      one, and a replacement happens only after the window. */
  lemma HolderOnlyRenewed(t: Tables, op: StoreOp, k: Key)
    requires Consistent(t) && (op.NewAction? ==> Hex(op.key.fingerprint))
    requires Hex(k.fingerprint) && Holder(t, k).Some?
    ensures Holder(Apply(t, op), k).Some?
    ensures var a, b := Holder(t, k).value, Holder(Apply(t, op), k).value;
            var before, after := t.canon[a].createdAt, Apply(t, op).canon[b].createdAt;
            if op.NewAction? && op.key == k && Wins(t, k, op.now) then
              before + WINDOW_SECONDS < op.now && after == op.now
            else a == b && after == before
  {
    var a := Holder(t, k).value;
    if op.NewAction? {
      if op.key == k && Wins(t, k, op.now) {
        WinnerHolds(t, k, op.payload, op.source, op.now);
      } else {
        HolderSurvivesCreation(t, a, k, op.key, op.payload, op.source, op.now);
      }
    } else {
      HolderSurvivesUpdate(t, a, k, op);
    }
  }

  lemma HolderSurvivesUpdate(t: Tables, a: nat, k: Key, op: StoreOp)
    requires Consistent(t) && Hex(k.fingerprint) && Holds(t, a, k) && !op.NewAction?
    ensures var u := Apply(t, op);
            a in u.canon && u.canon[a].createdAt == t.canon[a].createdAt && Holder(u, k) == Some(a)
  {
    hide Consistent, Hex, RowAfter;
    ApplyConsistent(t, op);
    HolderIsActive(Apply(t, op), a, k);
  }

  lemma WinnerHolds(t: Tables, k: Key, p: Payload, source: int, now: int)
    requires Consistent(t) && Hex(k.fingerprint) && Wins(t, k, now)
    ensures var u := Created(t, k, p, source, now);
            u.lastId == t.lastId + 1 && Consistent(u) && Holder(u, k) == Some(u.lastId)
            && u.canon[u.lastId] == Canon(k, p, Pending, 0, true, now) && u.outbox[u.lastId].phase == Planned
  {
    var u := Created(t, k, p, source, now);
    CreatedConsistent(t, k, p, source, now);
    HolderIsActive(u, u.lastId, k);
  }

  lemma HolderSurvivesCreation(t: Tables, a: nat, k: Key, k': Key, p: Payload, source: int, now: int)
    requires Consistent(t) && Hex(k.fingerprint) && Hex(k'.fingerprint) && Holds(t, a, k)
    requires k' == k ==> !Wins(t, k, now)
    ensures var u := Created(t, k', p, source, now);
            a in u.canon && u.canon[a] == t.canon[a] && Holder(u, k) == Some(a)
  {
    var u := Created(t, k', p, source, now);
    CreatedConsistent(t, k', p, source, now);
    HolderIsActive(t, a, k);
    var h := Holder(t, k');
    assert h.Some? && k' != k ==> h.value != a;
    assert u.canon[a] == t.canon[a];
    HolderIsActive(u, a, k);
  }

  /** The i-th operation of the run created a row. */
  ghost predicate CreatedAt(ops: seq<StoreOp>, i: nat) {
    i < |ops| && ops[i].NewAction? && Wins(After(ops[..i]), ops[i].key, ops[i].now)
  }

  lemma CreationHolds(t: Tables, op: StoreOp)
    requires Consistent(t) && op.NewAction? && Hex(op.key.fingerprint) && Wins(t, op.key, op.now)
    ensures Holder(Apply(t, op), op.key) == Some(t.lastId + 1) && t.lastId + 1 in Apply(t, op).canon
    ensures Apply(t, op).canon[t.lastId + 1].createdAt == op.now
  {
    WinnerHolds(t, op.key, op.payload, op.source, op.now);
  }

  /** From a successful creation on, the key is held, by a row at least as young. */
  lemma {:induction false} HeldSince(ops: seq<StoreOp>, i: nat, j: nat)
    requires Digests(ops) && CreatedAt(ops, i) && i < j <= |ops|
    ensures var k := ops[i].key;
            var h := Holder(After(ops[..j]), k);
            h.Some? && After(ops[..j]).canon[h.value].createdAt >= ops[i].now
  {
    hide Consistent, Created, Apply, Wins;
    var k := ops[i].key;
    var pre := ops[..j - 1];
    assert ops[..j][..j - 1] == pre;
    var t, op := After(pre), ops[j - 1];
    assert After(ops[..j]) == Apply(t, op);
    assert Digests(pre);
    RunsAreConsistent(pre);
    if j == i + 1 {
      CreationHolds(t, op);
    } else {
      HeldSince(ops, i, j - 1);
      HolderOnlyRenewed(t, op, k);
    }
  }

  /** In any run, two successful creations for one key are more than four hours apart. No assumption
      on the clock is needed. */
  lemma CreationsAreFarApart(ops: seq<StoreOp>, i: nat, j: nat)
    requires Digests(ops) && i < j && CreatedAt(ops, i) && CreatedAt(ops, j) && ops[i].key == ops[j].key
    ensures ops[i].now + 14400 < ops[j].now
  {
    HeldSince(ops, i, j);
  }

  /** Until a creation's window has passed, every lookup finds that very row, whatever else happens. */
  lemma {:induction false} FoundInsideWindow(ops: seq<StoreOp>, i: nat, j: nat, now: int)
    requires Digests(ops) && CreatedAt(ops, i) && i < j <= |ops|
    requires forall m | i < m < j && ops[m].NewAction? :: ops[m].now <= ops[i].now + WINDOW_SECONDS
    requires now <= ops[i].now + WINDOW_SECONDS
    ensures var a := After(ops[..i]).lastId + 1;
            Find(After(ops[..j]), ops[i].key, now) == Some(a) && Holder(After(ops[..j]), ops[i].key) == Some(a)
            && After(ops[..j]).canon[a].createdAt == ops[i].now
  {
    hide Consistent, Created, Apply, Wins;
    var k, a := ops[i].key, After(ops[..i]).lastId + 1;
    var pre := ops[..j - 1];
    assert ops[..j][..j - 1] == pre;
    var t, op := After(pre), ops[j - 1];
    var u := Apply(t, op);
    assert After(ops[..j]) == u;
    assert Digests(pre);
    RunsAreConsistent(pre);
    ApplyConsistent(t, op);
    if j == i + 1 {
      CreationHolds(t, op);
    } else {
      FoundInsideWindow(ops, i, j - 1, now);
      HolderOnlyRenewed(t, op, k);
    }
    HolderIsActive(u, a, k);
    assert Matches(u, a, k, now);
    HolderIsActive(u, Find(u, k, now).value, k);
  }
}
