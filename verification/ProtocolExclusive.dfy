/** What the leases buy. The code keys its updates on the action alone and gives the inline path no lease,
    so one actor per row is an assumption on timing: a worker acts on a row only before its deadline (the
    lease it read, or the retry time it wrote if that comes first), and a row is not claimed while its
    inline path still runs. Under it one actor at a time holds a row, and responses are counted. */
module ProtocolExclusive {
  import opened Tables
  import opened Canonical
  import opened Protocol
  import opened ProtocolSafety

  ghost predicate Timely(s: State, e: Event) {
    match e
    case Act(id, _) => id.Worker? ==> id in s.actors && s.now < s.actors[id].deadline
    case Claim(_) =>
      forall id | id in s.actors && id.Inline? && id.action in s.tables.outbox ::
        Claimable(s.tables.outbox[id.action], s.now) ==> s.actors[id].pc == Halted
    case _ => true
  }

  ghost predicate TimelyRun(b: seq<State>, es: seq<Event>) {
    Run(b, es) && forall k | 0 <= k < |es| :: Timely(b[k], es[k])
  }

  /** The actor may still act. */
  predicate LiveAt(id: ActorId, a: Actor, now: int) {
    a.pc != Halted && (id.Inline? || now < a.deadline)
  }

  ghost predicate Live(s: State, id: ActorId) {
    id in s.actors && LiveAt(id, s.actors[id], s.now)
  }

  /** Between Telegram's acceptance and the store's record. */
  predicate InFlight(a: Actor) {
    a.accepted && !a.recorded && (a.pc.CopyMade? || a.pc.Finish?)
  }

  /** Telegram accepted a response of this actor, the store never recorded it, and the actor cannot do it
      any more: it was stopped, a write failed, or its deadline passed. */
  ghost predicate Abandoned(s: State, id: ActorId) {
    id in s.actors && s.actors[id].accepted && !s.actors[id].recorded && !(Live(s, id) && InFlight(s.actors[id]))
  }

  // Invariant

  /** What an actor's own history says about its program counter. */
  predicate HistoryOk(a: Actor) {
    && (a.recorded ==> a.accepted && (a.response != 0 || a.pc.Halted?))
    && (a.accepted && !a.recorded ==> a.pc.CopyMade? || a.pc.Finish? || a.pc.Release? || a.pc.Halted?)
    && (a.pc.CopyCall? || a.pc.CopyMade? || a.pc.UseFallback? || a.pc.SendCall? ==> a.response == 0 && !a.recorded)
    && (a.pc.CopyMade? ==> a.accepted)
    && (a.pc.Finish? ==> if a.response == 0 then a.accepted && !a.recorded
                         else a.pc.response == a.response && (a.accepted ==> a.recorded))
  }

  /** A live actor's copy of its row is current, and no claim can take the row from it. */
  predicate InSync(id: ActorId, a: Actor, r: Row) {
    && a.response == r.response
    && a.payload == r.payload
    && (Finished(r.phase) ==> a.pc == Release)
    && (id.Worker? ==> Fenced(a, r))
  }

  predicate Fenced(a: Actor, r: Row) {
    Finished(r.phase) || r.leaseUntil >= a.deadline || (a.pc == Release && r.nextAt >= a.deadline)
  }

  /** The two tables tell the same story. */
  predicate Agree(r: Row, c: Canon) {
    match r.phase
    case Complete => c.state == Sent && c.response == r.response
    case Dead => c.state == DeadLetter
    case _ => c.state == Pending
  }

  ghost predicate ActorHeld(s: State, id: ActorId) {
    && id in s.actors && id.action in s.tables.outbox
    && HistoryOk(s.actors[id])
    && (s.actors[id].recorded ==> s.tables.outbox[id.action].response != 0)
    && (Live(s, id) ==> InSync(id, s.actors[id], s.tables.outbox[id.action]))
    && (id.Worker? ==> id.token in s.tokens)
  }

  ghost predicate RowHeld(s: State, n: nat) {
    && n in s.tables.outbox && n in s.tables.canon
    && Agree(s.tables.outbox[n], s.tables.canon[n])
    && (s.tables.outbox[n].token.Some? ==> s.tables.outbox[n].token.value in s.tokens)
    && Visible(s, n) == |Acceptors(s, n)|
  }

  ghost function Acceptors(s: State, n: nat): set<ActorId> {
    set id | id in s.actors && id.action == n && s.actors[id].accepted
  }

  /** Two actors of one row: at most one is live, and at most one has had its response recorded. */
  ghost predicate Apart(s: State, i: ActorId, j: ActorId) {
    i in s.actors && j in s.actors && i != j && i.action == j.action ==>
      !(Live(s, i) && Live(s, j)) && !(s.actors[i].recorded && s.actors[j].recorded)
  }

  ghost predicate Held(s: State) {
    && Safe(s)
    && (forall id | id in s.actors :: ActorHeld(s, id))
    && (forall n | n in s.tables.outbox :: RowHeld(s, n))
    && (forall i, j :: Apart(s, i, j))
  }

  // One actor, one row

  lemma NewActorHeld(id: ActorId, r: Row)
    requires !Finished(r.phase)
    ensures HistoryOk(NewActor(id, r)) && InSync(id, NewActor(id, r), r)
    ensures !NewActor(id, r).accepted && !NewActor(id, r).recorded
  {}

  /** An actor's step keeps its history; a response becomes recorded only on a row that had none. */
  lemma MoveHistory(id: ActorId, a: Actor, attempts: nat, now: int, o: Answer, gone: set<(int, int)>)
    requires HistoryOk(a) && Possible(a, o, gone) && PcSafe(id, a, gone)
    ensures var b := Moved(id, a, attempts, now, o);
            && HistoryOk(b)
            && (b.accepted <==> a.accepted || Responds(a, o))
            && (a.recorded ==> b.recorded)
            && (Responds(a, o) ==> !a.accepted && a.response == 0)
            && (b.recorded && !a.recorded ==> a.response == 0 && (a.pc.CopyMade? || a.pc.Finish?) && o.Stored?)
  {}

  lemma MoveRecords(a: Actor, r: Row, now: int, o: Answer)
    requires (a.pc.CopyMade? ==> a.pc.copied != 0) && (a.pc.Finish? ==> a.pc.response != 0)
    ensures var r' := RowAfter(r, WriteOf(a, o), now);
            && (r.response != 0 ==> r'.response != 0)
            && ((a.pc.CopyMade? || a.pc.Finish?) && o.Stored? ==> r'.response != 0)
  {}

  /** A live actor's step keeps its grip on the row. */
  lemma MoveInSync(id: ActorId, a: Actor, r: Row, gone: set<(int, int)>, now: int, o: Answer)
    requires PcSafe(id, a, gone) && Possible(a, o, gone) && InSync(id, a, r) && LiveAt(id, a, now)
    ensures LiveAt(id, Moved(id, a, r.attempts, now, o), now) ==>
              InSync(id, Moved(id, a, r.attempts, now, o), RowAfter(r, WriteOf(a, o), now))
  {
    if a.pc.CopyCall? || a.pc.CopyMade? || a.pc.UseFallback? || a.pc.ReadAttempts? || a.pc.RequestDelete? {
      EarlyInSync(id, a, r, gone, now, o);
    } else if a.pc.Failing? || a.pc.Delaying? {
      FailInSync(id, a, r, gone, now, o);
    }
  }

  lemma EarlyInSync(id: ActorId, a: Actor, r: Row, gone: set<(int, int)>, now: int, o: Answer)
    requires PcSafe(id, a, gone) && Possible(a, o, gone) && InSync(id, a, r) && LiveAt(id, a, now)
    requires a.pc.CopyCall? || a.pc.CopyMade? || a.pc.UseFallback? || a.pc.ReadAttempts? || a.pc.RequestDelete?
    ensures InSync(id, Moved(id, a, r.attempts, now, o), RowAfter(r, WriteOf(a, o), now))
  {}

  lemma FailInSync(id: ActorId, a: Actor, r: Row, gone: set<(int, int)>, now: int, o: Answer)
    requires PcSafe(id, a, gone) && Possible(a, o, gone) && InSync(id, a, r) && LiveAt(id, a, now)
    requires a.pc.Failing? || a.pc.Delaying?
    ensures LiveAt(id, Moved(id, a, r.attempts, now, o), now) ==>
              InSync(id, Moved(id, a, r.attempts, now, o), RowAfter(r, WriteOf(a, o), now))
  {
    assert ErrorPhaseSafe(a, a.pc.phase, gone);
  }

  lemma MoveAgrees(id: ActorId, a: Actor, r: Row, c: Canon, gone: set<(int, int)>, now: int, o: Answer)
    requires PcSafe(id, a, gone) && InSync(id, a, r) && Agree(r, c)
    ensures Agree(RowAfter(r, WriteOf(a, o), now), CanonAfter(c, WriteOf(a, o)))
  {}

  // The whole system

  /** What a timely step of an actor may rely on. */
  ghost predicate Acting(s: State, id: ActorId, o: Answer) {
    && SafeActor(s, id) && ActorHeld(s, id) && Live(s, id)
    && Possible(s.actors[id], o, s.gone)
  }

  lemma ActsTimely(s: State, id: ActorId, o: Answer)
    requires Held(s) && CanHappen(s, Act(id, o)) && Timely(s, Act(id, o))
    ensures Acting(s, id, o) && RowHeld(s, id.action)
  {
    hide HistoryOk, InSync, ActorSafe, RowSafe, Agree, Acceptors, Consistent;
    assert SafeActor(s, id) && ActorHeld(s, id);
  }

  lemma ActHeldSelf(s: State, id: ActorId, o: Answer)
    requires Acting(s, id, o)
    ensures ActorHeld(ActStep(s, id, o), id)
  {
    var a, r := s.actors[id], s.tables.outbox[id.action];
    MoveHistory(id, a, r.attempts, s.now, o, s.gone);
    MoveInSync(id, a, r, s.gone, s.now, o);
    MoveRecords(a, r, s.now, o);
  }

  lemma ActHeldOther(s: State, id: ActorId, o: Answer, j: ActorId)
    requires Acting(s, id, o) && ActorHeld(s, j) && Apart(s, id, j) && j != id
    ensures ActorHeld(ActStep(s, id, o), j)
  {
    MoveRecords(s.actors[id], s.tables.outbox[id.action], s.now, o);
    var s' := ActStep(s, id, o);
    assert s'.actors[j] == s.actors[j] && s'.now == s.now && s'.tokens == s.tokens;
    if j.action != id.action {
      assert s'.tables.outbox[j.action] == s.tables.outbox[j.action];
    }
  }

  lemma ActAcceptors(s: State, id: ActorId, o: Answer, n: nat)
    requires Acting(s, id, o)
    ensures Acceptors(ActStep(s, id, o), n)
            == if n == id.action && Responds(s.actors[id], o) then Acceptors(s, n) + {id} else Acceptors(s, n)
    ensures Responds(s.actors[id], o) ==> id !in Acceptors(s, n)
  {
    MoveHistory(id, s.actors[id], s.tables.outbox[id.action].attempts, s.now, o, s.gone);
  }

  lemma ActCounted(s: State, id: ActorId, o: Answer, n: nat)
    requires Acting(s, id, o) && Visible(s, n) == |Acceptors(s, n)|
    ensures Visible(ActStep(s, id, o), n) == |Acceptors(ActStep(s, id, o), n)|
  {
    hide Acting, Acceptors, Moved, WriteOf, Written;
    ActAcceptors(s, id, o, n);
  }

  lemma ActHeldRow(s: State, id: ActorId, o: Answer, n: nat)
    requires Acting(s, id, o) && RowHeld(s, n)
    ensures RowHeld(ActStep(s, id, o), n)
  {
    hide HistoryOk, InSync, ActorSafe, RowSafe, Agree, Acceptors, Moved, WriteOf, Visible, CanonAfter;
    ActCounted(s, id, o, n);
    if n == id.action {
      ActAgrees(s, id, o);
    }
  }

  lemma ActAgrees(s: State, id: ActorId, o: Answer)
    requires Acting(s, id, o) && Agree(s.tables.outbox[id.action], s.tables.canon[id.action])
    ensures Agree(ActStep(s, id, o).tables.outbox[id.action], ActStep(s, id, o).tables.canon[id.action])
  {
    MoveAgrees(id, s.actors[id], s.tables.outbox[id.action], s.tables.canon[id.action], s.gone, s.now, o);
  }

  lemma ActApart(s: State, id: ActorId, o: Answer, i: ActorId, j: ActorId)
    requires Acting(s, id, o) && Apart(s, i, j)
    requires i in s.actors ==> ActorHeld(s, i)
    requires j in s.actors ==> ActorHeld(s, j)
    ensures Apart(ActStep(s, id, o), i, j)
  {
    MoveHistory(id, s.actors[id], s.tables.outbox[id.action].attempts, s.now, o, s.gone);
    var s' := ActStep(s, id, o);
    assert forall m | m in s.actors && m != id :: s'.actors[m] == s.actors[m];
    assert s'.now == s.now;
  }

  lemma ActHeld(s: State, id: ActorId, o: Answer)
    requires Held(s) && CanHappen(s, Act(id, o)) && Timely(s, Act(id, o))
    ensures Held(ActStep(s, id, o))
  {
    var s' := ActStep(s, id, o);
    ActSafe(s, id, o);
    ActsTimely(s, id, o);
    forall j | j in s'.actors ensures ActorHeld(s', j) {
      if j == id { ActHeldSelf(s, id, o); } else { ActHeldOther(s, id, o, j); }
    }
    forall n | n in s'.tables.outbox ensures RowHeld(s', n) { ActHeldRow(s, id, o, n); }
    forall i, j ensures Apart(s', i, j) { ActApart(s, id, o, i, j); }
  }

  /** With a fresh token a claim selects exactly the claimable rows. */
  lemma SelectedIsClaimable(s: State, token: nat, n: nat)
    requires Held(s) && token !in s.tokens
    ensures n in Selected(Claimed(s.tables, token, s.now), token)
            <==> n in s.tables.outbox && Claimable(s.tables.outbox[n], s.now)
  {
    if n in s.tables.outbox {
      assert RowHeld(s, n);
    }
  }

  /** No live actor holds a claimable row when the claim is timely. */
  lemma ClaimableIsFree(s: State, token: nat, j: ActorId)
    requires Held(s) && Timely(s, Claim(token)) && j in s.actors
    requires j.action in s.tables.outbox && Claimable(s.tables.outbox[j.action], s.now)
    ensures !Live(s, j)
  {
    assert ActorHeld(s, j);
  }

  lemma ClaimHeld(s: State, token: nat)
    requires Held(s) && token !in s.tokens && Timely(s, Claim(token))
    ensures Held(ClaimStep(s, token))
  {
    var s' := ClaimStep(s, token);
    ClaimSafe(s, token);
    forall j | j in s'.actors ensures ActorHeld(s', j) { ClaimHeldActor(s, token, j); }
    forall n | n in s'.tables.outbox ensures RowHeld(s', n) { ClaimHeldRow(s, token, n); }
    forall i, j ensures Apart(s', i, j) { ClaimApart(s, token, i, j); }
  }

  lemma ClaimHeldActor(s: State, token: nat, j: ActorId)
    requires Held(s) && token !in s.tokens && Timely(s, Claim(token)) && j in ClaimStep(s, token).actors
    ensures ActorHeld(ClaimStep(s, token), j)
  {
    var s' := ClaimStep(s, token);
    if j in Visits(s'.tables, token) {
      SelectedIsClaimable(s, token, j.action);
      NewActorHeld(j, s'.tables.outbox[j.action]);
    } else {
      assert ActorHeld(s, j);
      if Claimable(s.tables.outbox[j.action], s.now) {
        ClaimableIsFree(s, token, j);
      }
    }
  }

  /** A visit's actor is new, and has done nothing yet. */
  lemma VisitIsNew(s: State, token: nat, j: ActorId)
    requires Held(s) && token !in s.tokens && j in Visits(Claimed(s.tables, token, s.now), token)
    ensures j !in s.actors && !ClaimStep(s, token).actors[j].accepted
  {
    SelectedIsClaimable(s, token, j.action);
    NewActorHeld(j, Claimed(s.tables, token, s.now).outbox[j.action]);
    assert j in s.actors ==> ActorHeld(s, j);
  }

  lemma HeldRow(s: State, n: nat)
    requires Held(s) && n in s.tables.outbox
    ensures RowHeld(s, n)
  {}

  lemma ClaimHeldRow(s: State, token: nat, n: nat)
    requires Held(s) && token !in s.tokens && n in s.tables.outbox
    ensures RowHeld(ClaimStep(s, token), n)
  {
    hide Held, NewActor;
    var s' := ClaimStep(s, token);
    HeldRow(s, n);
    forall j ensures j in Acceptors(s', n) <==> j in Acceptors(s, n) {
      if j in Visits(s'.tables, token) {
        VisitIsNew(s, token, j);
      }
    }
    assert Acceptors(s', n) == Acceptors(s, n);
  }

  lemma ClaimApart(s: State, token: nat, i: ActorId, j: ActorId)
    requires Held(s) && token !in s.tokens && Timely(s, Claim(token))
    ensures Apart(ClaimStep(s, token), i, j)
  {
    hide Held, Timely, NewActor;
    var s' := ClaimStep(s, token);
    HeldApart(s, i, j);
    if i in s'.actors && j in s'.actors && i != j && i.action == j.action {
      ClaimApartOne(s, token, i, j);
      ClaimApartOne(s, token, j, i);
    }
  }

  /** Of two actors of one row, one is older than the claim; a new one finds it not live. */
  lemma ClaimApartOne(s: State, token: nat, i: ActorId, j: ActorId)
    requires Held(s) && token !in s.tokens && Timely(s, Claim(token))
    requires i in Visits(Claimed(s.tables, token, s.now), token) ==> j in ClaimStep(s, token).actors
    requires i != j && i.action == j.action
    ensures i in Visits(Claimed(s.tables, token, s.now), token) ==>
              j in s.actors && ClaimStep(s, token).actors[j] == s.actors[j]
              && !Live(s, j) && !ClaimStep(s, token).actors[i].recorded
  {
    var v := Visits(Claimed(s.tables, token, s.now), token);
    if i in v {
      SelectedIsClaimable(s, token, i.action);
      NewActorHeld(i, Claimed(s.tables, token, s.now).outbox[i.action]);
      assert j !in v;
      ClaimableIsFree(s, token, j);
    }
  }

  /** s' is s with one action more, its row fresh and its inline path at the start. */
  ghost predicate Extends(s: State, s': State) {
    var m := s'.tables.lastId;
    && s'.now == s.now && s'.tokens == s.tokens
    && m in s'.tables.outbox && m in s'.tables.canon && s'.tables.outbox.Keys == s.tables.outbox.Keys + {m}
    && s'.tables.outbox[m].phase == Planned && s'.tables.outbox[m].token == None && s'.tables.canon[m].state == Pending
    && (forall n | n in s.tables.outbox ::
          n != m && n in s.tables.canon && n in s'.tables.canon && s'.tables.outbox[n] == s.tables.outbox[n]
          && s'.tables.canon[n].state == s.tables.canon[n].state
             && s'.tables.canon[n].response == s.tables.canon[n].response)
    && (forall id | id in s.actors :: id.action != m && id.action in s.tables.outbox)
    && s'.actors == s.actors[Inline(m) := NewActor(Inline(m), s'.tables.outbox[m])]
    && s'.visible == s.visible[m := 0]
  }

  lemma CreateExtends(s: State, k: Key, p: Payload, source: int)
    requires Safe(s) && Hex(k.fingerprint) && Wins(s.tables, k, s.now)
    ensures Extends(s, CreateStep(s, k, p, source))
  {
    CreatedKeeps(s.tables, k, p, source, s.now);
    assert forall id | id in s.actors :: SafeActor(s, id);
  }

  lemma ExtendsRow(s: State, s': State, n: nat)
    requires Extends(s, s') && (n != s'.tables.lastId ==> RowHeld(s, n)) && n in s'.tables.outbox
    ensures RowHeld(s', n)
  {
    var m := s'.tables.lastId;
    NewActorHeld(Inline(m), s'.tables.outbox[m]);
    assert Acceptors(s', n) == if n == m then {} else Acceptors(s, n);
  }

  lemma ExtendsActor(s: State, s': State, j: ActorId)
    requires Extends(s, s') && (j != Inline(s'.tables.lastId) ==> ActorHeld(s, j))
    ensures ActorHeld(s', j)
  {
    NewActorHeld(Inline(s'.tables.lastId), s'.tables.outbox[s'.tables.lastId]);
  }

  lemma ExtendsApart(s: State, s': State, i: ActorId, j: ActorId)
    requires Extends(s, s') && Apart(s, i, j)
    ensures Apart(s', i, j)
  {}

  lemma CreateHeld(s: State, k: Key, p: Payload, source: int)
    requires Held(s) && Hex(k.fingerprint)
    ensures Held(CreateStep(s, k, p, source))
  {
    CreateSafe(s, k, p, source);
    if Wins(s.tables, k, s.now) {
      CreateExtends(s, k, p, source);
      var s' := CreateStep(s, k, p, source);
      forall n | n in s'.tables.outbox ensures RowHeld(s', n) { ExtendsRow(s, s', n); }
      forall j | j in s'.actors ensures ActorHeld(s', j) { ExtendsActor(s, s', j); }
      forall i, j ensures Apart(s', i, j) { ExtendsApart(s, s', i, j); }
    }
  }

  /** Time passing and actors stopping: the actors only lose abilities. */
  ghost predicate Quieter(s: State, s': State) {
    && s'.tables == s.tables && s'.tokens == s.tokens && s'.visible == s.visible && s.now <= s'.now
    && s'.actors.Keys == s.actors.Keys
    && forall id | id in s.actors :: s'.actors[id] == s.actors[id] || s'.actors[id] == s.actors[id].(pc := Halted)
  }

  lemma QuietActor(s: State, s': State, j: ActorId)
    requires Quieter(s, s') && ActorHeld(s, j)
    ensures ActorHeld(s', j)
  {}

  lemma QuietRow(s: State, s': State, n: nat)
    requires Quieter(s, s') && RowHeld(s, n)
    ensures RowHeld(s', n)
  {
    assert Acceptors(s', n) == Acceptors(s, n);
  }

  lemma QuietApart(s: State, s': State, i: ActorId, j: ActorId)
    requires Quieter(s, s') && Apart(s, i, j)
    ensures Apart(s', i, j)
  {}

  lemma QuietHeld(s: State, s': State)
    requires Held(s) && Safe(s') && Quieter(s, s')
    ensures Held(s')
  {
    forall j | j in s'.actors ensures ActorHeld(s', j) { QuietActor(s, s', j); }
    forall n | n in s'.tables.outbox ensures RowHeld(s', n) { QuietRow(s, s', n); }
    forall i, j ensures Apart(s', i, j) { QuietApart(s, s', i, j); }
  }

  lemma StepHeldSafe(s: State, e: Event)
    requires Held(s) && CanHappen(s, e)
    ensures Safe(Step(s, e))
  {
    StepSafe(s, e);
  }

  lemma StepHeld(s: State, e: Event)
    requires Held(s) && CanHappen(s, e) && Timely(s, e)
    ensures Held(Step(s, e))
  {
    hide Held, Safe, Timely;
    StepHeldSafe(s, e);
    match e
    case Tick(to) => QuietHeld(s, Step(s, e));
    case Create(k, p, source) => CreateHeld(s, k, p, source);
    case Claim(token) => ClaimHeld(s, token);
    case Act(id, o) => ActHeld(s, id, o);
    case Stop(id) => QuietHeld(s, Step(s, e));
    case Vanish(chat, message) => QuietHeld(s, Step(s, e));
  }

  lemma {:induction false} RunHeld(b: seq<State>, es: seq<Event>, k: nat)
    requires TimelyRun(b, es) && k < |b|
    ensures Held(b[k])
  {
    hide Safe, ActorHeld, RowHeld, Step, Timely, CanHappen;
    if k == 0 {
      RunSafe(b, es, 0);
    } else {
      RunHeld(b, es, k - 1);
      StepHeld(b[k - 1], es[k - 1]);
    }
  }

  // Main results

  /** Leases give mutual exclusion: in a timely run two actors that may still act never share a row, and
      the one that holds it sees the row as it is. */
  lemma OneHolder(b: seq<State>, es: seq<Event>, k: nat, i: ActorId, j: ActorId)
    requires TimelyRun(b, es) && k < |b| && Live(b[k], i) && Live(b[k], j) && i.action == j.action
    ensures i == j && i.action in b[k].tables.outbox
    ensures var a, r := b[k].actors[i], b[k].tables.outbox[i.action];
            a.response == r.response && a.payload == r.payload
  {
    RunHeld(b, es, k);
    assert Apart(b[k], i, j) && ActorHeld(b[k], i);
  }

  lemma AtMostOne<T>(s: set<T>)
    requires forall x, y | x in s && y in s :: x == y
    ensures |s| <= 1
  {
    if x :| x in s {
      assert s == {x};
    }
  }

  ghost function AbandonedOn(s: State, n: nat): set<ActorId> {
    set id | id in s.actors && id.action == n && Abandoned(s, id)
  }

  /** At most one response of an action is neither abandoned nor its only one: the visible responses never
      exceed one plus the responses whose record was lost. */
  lemma ResponsesBounded(b: seq<State>, es: seq<Event>, k: nat, n: nat)
    requires TimelyRun(b, es) && k < |b| && n in b[k].tables.outbox
    ensures Visible(b[k], n) <= 1 + |AbandonedOn(b[k], n)|
  {
    var s := b[k];
    RunHeld(b, es, k);
    assert RowHeld(s, n);
    var all, lost := Acceptors(s, n), AbandonedOn(s, n);
    var kept := all - lost;
    assert lost <= all;
    forall i, j | i in kept && j in kept ensures i == j {
      assert Apart(s, i, j) && ActorHeld(s, i) && ActorHeld(s, j);
    }
    AtMostOne(kept);
    assert all == kept + lost;
  }

  lemma UnrecordedInFlight(s: State, id: ActorId)
    requires Held(s)
    ensures id in s.actors && s.actors[id].accepted && !s.actors[id].recorded && !InFlight(s.actors[id]) ==>
              s.actors[id].pc.Release? || s.actors[id].pc.Halted?
  {
    assert id in s.actors ==> ActorHeld(s, id);
  }

  /** What a lost record is: a response becomes abandoned only when its actor is stopped, when a write of it
      fails, or when the clock passes its deadline; and it stays abandoned. */
  lemma {:induction false} AbandonedHasCause(b: seq<State>, es: seq<Event>, k: nat, id: ActorId)
    requires TimelyRun(b, es) && k < |es|
    ensures Abandoned(b[k], id) ==> Abandoned(b[k + 1], id)
    ensures Abandoned(b[k + 1], id) && !Abandoned(b[k], id) ==> LosesActor(b[k], es[k], id)
  {
    RunHeld(b, es, k);
    StepAbandons(b[k], es[k], id);
  }

  /** The actor is between acceptance and record, and is stopped, fails to write, or runs out of time. */
  ghost predicate LosesActor(s: State, e: Event, id: ActorId) {
    && Live(s, id) && InFlight(s.actors[id])
    && (e == Stop(id) || e == Act(id, NotStored) || (e.Tick? && id.Worker? && s.actors[id].deadline <= e.to))
  }

  lemma StepAbandons(s: State, e: Event, id: ActorId)
    requires Held(s) && CanHappen(s, e) && Timely(s, e)
    ensures Abandoned(s, id) ==> Abandoned(Step(s, e), id)
    ensures Abandoned(Step(s, e), id) && !Abandoned(s, id) ==> LosesActor(s, e, id)
  {
    hide Held, Moved, HistoryOk;
    match e
    case Act(i, o) =>
      ActsTimely(s, i, o);
      ActAbandons(s, i, o, id);
    case Claim(token) => ClaimAbandons(s, token, id);
    case Create(key, p, source) => CreateAbandons(s, key, p, source, id);
    case _ => UnrecordedInFlight(s, id);
  }

  lemma ActAbandons(s: State, i: ActorId, o: Answer, id: ActorId)
    requires Acting(s, i, o)
    ensures Abandoned(s, id) ==> Abandoned(ActStep(s, i, o), id)
    ensures Abandoned(ActStep(s, i, o), id) && !Abandoned(s, id) ==>
              i == id && o == NotStored && Live(s, id) && InFlight(s.actors[id])
  {
    var s', a := ActStep(s, i, o), s.actors[i];
    MoveHistory(i, a, s.tables.outbox[i.action].attempts, s.now, o, s.gone);
    if id != i {
      assert id in s.actors ==> s'.actors[id] == s.actors[id];
    } else {
      MoveAbandons(i, a, s.tables.outbox[i.action].attempts, s.now, o, s.gone);
    }
  }

  lemma MoveAbandons(id: ActorId, a: Actor, attempts: nat, now: int, o: Answer, gone: set<(int, int)>)
    requires HistoryOk(a) && Possible(a, o, gone) && PcSafe(id, a, gone)
    ensures var b := Moved(id, a, attempts, now, o);
            && (InFlight(a) && o == Stored ==> b.recorded)
            && (Responds(a, o) ==> InFlight(b) && b.deadline == a.deadline)
            && (a.accepted && !a.recorded && !InFlight(a) ==> !b.recorded && !InFlight(b))
  {}

  lemma ClaimAbandons(s: State, token: nat, id: ActorId)
    requires Held(s) && token !in s.tokens
    ensures Abandoned(s, id) <==> Abandoned(ClaimStep(s, token), id)
  {
    if id in Visits(Claimed(s.tables, token, s.now), token) {
      VisitIsNew(s, token, id);
    }
  }

  lemma CreateAbandons(s: State, k: Key, p: Payload, source: int, id: ActorId)
    requires Held(s) && Hex(k.fingerprint)
    ensures Abandoned(s, id) <==> Abandoned(CreateStep(s, k, p, source), id)
  {
    hide Consistent, Wins, Created, HistoryOk, InSync;
    if Wins(s.tables, k, s.now) {
      CreateExtends(s, k, p, source);
    }
  }

  /** The losses of an action up to state k: events that hit an actor of it between acceptance and record. */
  ghost function Losses(b: seq<State>, es: seq<Event>, k: nat, n: nat): nat
    requires k <= |es| <= |b|
  {
    if k == 0 then 0 else Losses(b, es, k - 1, n) + if Loses(b[k - 1], es[k - 1], n) then 1 else 0
  }

  ghost predicate Loses(s: State, e: Event, n: nat) {
    exists id: ActorId :: id.action == n && LosesActor(s, e, id)
  }

  /** One event abandons at most one response of an action, and only a loss abandons one. */
  lemma StepAbandonsOne(s: State, e: Event, n: nat)
    requires Held(s) && CanHappen(s, e) && Timely(s, e)
    ensures |AbandonedOn(Step(s, e), n)| <= |AbandonedOn(s, n)| + if Loses(s, e, n) then 1 else 0
  {
    hide Held, Step, CanHappen, Timely, Abandoned, InFlight;
    var before, after := AbandonedOn(s, n), AbandonedOn(Step(s, e), n);
    var lost := after - before;
    forall id | id in lost ensures id.action == n && LosesActor(s, e, id) {
      StepAbandons(s, e, id);
      AbandonedExists(s, id);
    }
    forall i, j | i in lost && j in lost ensures i == j {
      HeldApart(s, i, j);
    }
    AtMostOne(lost);
    assert after <= before + lost;
    Bounded(after, before, lost);
    if x :| x in lost {
      assert Loses(s, e, n);
    }
  }

  lemma AbandonedExists(s: State, id: ActorId)
    ensures Abandoned(s, id) ==> id in s.actors
  {}

  lemma Bounded<T>(a: set<T>, x: set<T>, y: set<T>)
    requires a <= x + y
    ensures |a| <= |x| + |y|
  {
    var rest := (x + y) - a;
    assert a + rest == x + y && a !! rest;
    assert |x + y| == |x| + |y| - |x * y|;
  }

  lemma HeldApart(s: State, i: ActorId, j: ActorId)
    requires Held(s)
    ensures Apart(s, i, j)
  {}

  lemma {:induction false} AbandonedCounted(b: seq<State>, es: seq<Event>, k: nat, n: nat)
    requires TimelyRun(b, es) && k < |b|
    ensures |AbandonedOn(b[k], n)| <= Losses(b, es, k, n)
  {
    hide Held, Step, CanHappen, Timely, Abandoned, Loses;
    if k == 0 {
      assert b[0].actors == map[];
      assert AbandonedOn(b[0], n) == {};
    } else {
      AbandonedCounted(b, es, k - 1, n);
      RunHeld(b, es, k - 1);
      StepAbandonsOne(b[k - 1], es[k - 1], n);
    }
  }

  /** The visible responses of an action never exceed one plus the number of stops, failed writes and passed
      deadlines that hit it between Telegram's acceptance and the store's record; and a complete action has one. */
  lemma ResponsesCounted(b: seq<State>, es: seq<Event>, k: nat, n: nat)
    requires TimelyRun(b, es) && k < |b| && n in b[k].tables.outbox
    ensures Visible(b[k], n) <= 1 + Losses(b, es, k, n)
    ensures b[k].tables.outbox[n].phase == Complete ==> 1 <= Visible(b[k], n)
  {
    RecordedMeansSeen(b, es, k, n);
    ResponsesBounded(b, es, k, n);
    AbandonedCounted(b, es, k, n);
  }

  /** In a timely run the two tables agree in every state: the row is complete exactly when the canonical
      action is sent, with the same response, dead exactly when it is dead, and otherwise it is pending. */
  lemma TablesAgree(b: seq<State>, es: seq<Event>, k: nat, n: nat)
    requires TimelyRun(b, es) && k < |b| && n in b[k].tables.outbox
    ensures n in b[k].tables.canon
    ensures var r, c := b[k].tables.outbox[n], b[k].tables.canon[n];
            && (r.phase == Complete <==> c.state == Sent)
            && (r.phase == Complete ==> c.response == r.response)
            && (r.phase == Dead <==> c.state == DeadLetter)
  {
    RunHeld(b, es, k);
    assert RowHeld(b[k], n);
  }

  /** Everything of a row but its lease, and of its canonical action what the row's completion wrote. */
  function Outcome(t: Tables, n: nat): (Row, ResponseState, int)
    requires n in t.outbox && n in t.canon
  {
    (t.outbox[n].(leaseUntil := 0, token := None), t.canon[n].state, t.canon[n].response)
  }

  /** In a timely run complete and dead are absorbing: nothing of a finished row changes but its lease. */
  lemma {:induction false} FinishedForever(b: seq<State>, es: seq<Event>, i: nat, k: nat, n: nat)
    requires TimelyRun(b, es) && i <= k < |b| && RowHeld(b[i], n) && Finished(b[i].tables.outbox[n].phase)
    ensures RowHeld(b[k], n) && Outcome(b[k].tables, n) == Outcome(b[i].tables, n)
  {
    hide Held, Step, Timely, CanHappen;
    if i < k {
      FinishedForever(b, es, i, k - 1, n);
      RunHeld(b, es, k - 1);
      RunHeld(b, es, k);
      StepKeepsFinished(b[k - 1], es[k - 1], n);
      HeldRow(b[k], n);
    }
  }

  lemma StepKeepsFinished(s: State, e: Event, n: nat)
    requires Held(s) && CanHappen(s, e) && Timely(s, e) && RowHeld(s, n) && Finished(s.tables.outbox[n].phase)
    ensures var t := Step(s, e).tables; n in t.outbox && n in t.canon && Outcome(t, n) == Outcome(s.tables, n)
  {
    match e
    case Create(k, p, source) => if Wins(s.tables, k, s.now) { CreatedKeeps(s.tables, k, p, source, s.now); }
    case Act(id, o) =>
      ActsTimely(s, id, o);
      ActKeepsFinished(s, id, o, n);
    case _ =>
  }

  lemma ActKeepsFinished(s: State, id: ActorId, o: Answer, n: nat)
    requires Acting(s, id, o) && RowHeld(s, n) && Finished(s.tables.outbox[n].phase)
    ensures var t := ActStep(s, id, o).tables; n in t.outbox && n in t.canon && Outcome(t, n) == Outcome(s.tables, n)
  {}
}
