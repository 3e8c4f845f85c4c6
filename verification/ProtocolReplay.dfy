/** The tables of a protocol run are those of a run of the store: what Canonical and Leases prove of store operations
    holds of inline paths and workers. */
module ProtocolReplay {
  import opened Tables
  import opened Canonical
  import opened Leases
  import opened Protocol
  import opened ProtocolSafety

  /** What an event does to the store. */
  function OpOf(s: State, e: Event): StoreOp {
    match e
    case Create(k, p, source) => NewAction(k, p, source, s.now)
    case Claim(token) => ClaimDue(token, s.now)
    case Act(id, o) => Update(id.action, if id in s.actors then WriteOf(s.actors[id], o) else Nothing, s.now)
    case _ => Update(0, Nothing, s.now)
  }

  function Ops(b: seq<State>, es: seq<Event>): (ops: seq<StoreOp>)
    requires |es| <= |b|
    ensures |ops| == |es| && forall k | 0 <= k < |es| :: ops[k] == OpOf(b[k], es[k])
  {
    seq(|es|, k requires 0 <= k < |es| => OpOf(b[k], es[k]))
  }

  lemma StepApplies(s: State, e: Event)
    requires Safe(s) && CanHappen(s, e)
    ensures Step(s, e).tables == Apply(s.tables, OpOf(s, e))
  {
    match e
    case Create(k, p, source) => CreationAgreesWithLookup(s.tables, k, p, source, s.now);
    case Act(id, o) =>
    case Claim(token) =>
    case _ => WrittenNothing(s.tables, 0, s.now);
  }

  /** Every state of a run has the tables that its store operations lead to. */
  lemma {:induction false} TablesReplayed(b: seq<State>, es: seq<Event>, k: nat)
    requires Run(b, es) && k < |b|
    ensures b[k].tables == After(Ops(b, es)[..k])
  {
    hide Safe, Apply, Step, CanHappen, OpOf;
    var ops := Ops(b, es);
    if k > 0 {
      TablesReplayed(b, es, k - 1);
      RunSafe(b, es, k - 1);
      StepApplies(b[k - 1], es[k - 1]);
      assert ops[..k][..k - 1] == ops[..k - 1];
    }
  }

  lemma {:induction false} TokensKept(b: seq<State>, es: seq<Event>, i: nat, k: nat)
    requires Run(b, es) && i < k < |b| && es[i].Claim?
    ensures es[i].token in b[k].tokens
  {
    if i < k - 1 {
      TokensKept(b, es, i, k - 1);
    }
  }

  /** The operations of a run store digests only, and claim under fresh tokens. */
  lemma OpsAreLawful(b: seq<State>, es: seq<Event>)
    requires Run(b, es)
    ensures Digests(Ops(b, es)) && FreshTokens(Ops(b, es))
  {
    var ops := Ops(b, es);
    forall k | 0 <= k < |ops| && ops[k].NewAction? ensures Hex(ops[k].key.fingerprint) {
      assert CanHappen(b[k], es[k]);
    }
    forall i, j | 0 <= i < j < |ops| && ops[i].ClaimDue? && ops[j].ClaimDue? ensures ops[i].token != ops[j].token {
      TokensKept(b, es, i, j);
      assert CanHappen(b[j], es[j]);
    }
  }

  lemma {:induction false} TimePasses(b: seq<State>, es: seq<Event>, i: nat, k: nat)
    requires Run(b, es) && i <= k < |b|
    ensures b[i].now <= b[k].now
  {
    if i < k {
      TimePasses(b, es, i, k - 1);
      assert CanHappen(b[k - 1], es[k - 1]);
    }
  }

  lemma CreationReplayed(b: seq<State>, es: seq<Event>, j: nat, n: nat)
    requires Run(b, es) && CreatedBy(b, es, j, n)
    ensures CreatedAt(Ops(b, es), j) && n == b[j].tables.lastId + 1
  {
    TablesReplayed(b, es, j);
    RunSafe(b, es, j);
    assert CanHappen(b[j], es[j]);
    WinnerHolds(b[j].tables, es[j].key, es[j].payload, es[j].source, b[j].now);
  }

  /** In a run of the protocol, two creations of rows for one key are more than four hours apart. */
  lemma RunCreationsFarApart(b: seq<State>, es: seq<Event>, i: nat, j: nat, m: nat, n: nat)
    requires Run(b, es) && i < j && CreatedBy(b, es, i, m) && CreatedBy(b, es, j, n) && es[i].key == es[j].key
    ensures b[i].now + 14400 < b[j].now
  {
    CreationReplayed(b, es, i, m);
    CreationReplayed(b, es, j, n);
    OpsAreLawful(b, es);
    CreationsAreFarApart(Ops(b, es), i, j);
  }

  /** Within the window of a creation, every later state of the run answers a lookup of its key with its row. */
  lemma RunFindsCreation(b: seq<State>, es: seq<Event>, j: nat, n: nat, k: nat, now: int)
    requires Run(b, es) && CreatedBy(b, es, j, n) && j < k < |b|
    requires b[k].now <= b[j].now + 14400 && now <= b[j].now + 14400
    ensures Find(b[k].tables, es[j].key, now) == Some(n)
  {
    var ops := Ops(b, es);
    CreationReplayed(b, es, j, n);
    TablesReplayed(b, es, j);
    TablesReplayed(b, es, k);
    OpsAreLawful(b, es);
    forall m | j < m < k && ops[m].NewAction? ensures ops[m].now <= ops[j].now + WINDOW_SECONDS {
      TimePasses(b, es, m, k);
    }
    FoundInsideWindow(ops, j, k, now);
  }

  /** An actor of row n cleared its lease. */
  predicate ClearsLease(s: State, e: Event, n: nat) {
    Clears(OpOf(s, e), n)
  }

  lemma VisitReplayed(b: seq<State>, es: seq<Event>, i: nat, n: nat)
    requires Run(b, es) && i < |es| && es[i].Claim? && Worker(n, es[i].token) in Visits(b[i + 1].tables, es[i].token)
    ensures Ops(b, es)[i] == ClaimDue(es[i].token, b[i].now) && Returns(Ops(b, es), i, n)
  {
    TablesReplayed(b, es, i + 1);
  }

  /** Two claims of a run that both start a visit of row n are at least a minute apart, or an actor of the row
      cleared its lease in between. */
  lemma RunClaimsApart(b: seq<State>, es: seq<Event>, i: nat, j: nat, n: nat)
    requires Run(b, es) && i < j < |es| && es[i].Claim? && es[j].Claim?
    requires Worker(n, es[i].token) in Visits(b[i + 1].tables, es[i].token)
    requires Worker(n, es[j].token) in Visits(b[j + 1].tables, es[j].token)
    ensures b[i].now + 60 <= b[j].now || (exists m | i < m < j :: ClearsLease(b[m], es[m], n))
  {
    hide After, NewActor, Clears, OpOf;
    var ops := Ops(b, es);
    VisitReplayed(b, es, i, n);
    VisitReplayed(b, es, j, n);
    OpsAreLawful(b, es);
    ClaimsAreApart(ops, i, j, n);
    if m: int :| i < m < j && Clears(ops[m], n) {
      assert ClearsLease(b[m], es[m], n);
    }
  }
}
