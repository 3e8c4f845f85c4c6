/** What every interleaving keeps, with no assumption on timing: lost leases, several actors on one row,
    stops and failed writes included. */
module ProtocolSafety {
  import opened Tables
  import opened Canonical
  import opened Protocol

  /** A payload is the planned one, or its fallback when the plan was a media copy. */
  predicate FromPlan(p: Payload, plan: Payload) {
    p == plan || (plan.op == CopyMedia && p == FallbackOf(plan))
  }

  predicate HalfDone(p: Phase) {
    p == DeleteRequested || p == SendPending
  }

  predicate RowSafe(r: Row, c: Canon, gone: set<(int, int)>) {
    && SameTopic(c, r)
    && FromPlan(r.payload, c.payload)
    && ((r.phase == SendPending || r.phase == Complete) && r.payload.op != Reply ==> (r.chat, r.source) in gone)
    && (r.payload.op == CopyMedia && HalfDone(r.phase) ==> r.response != 0)
  }

  /** What a row never undoes. */
  predicate Grows(r: Row, r': Row) {
    && r'.chat == r.chat && r'.thread == r.thread && r'.source == r.source
    && (r.response != 0 ==> r'.response != 0)
    && (r.payload.op != CopyMedia ==> r'.payload == r.payload)
  }

  /** What an actor knows of its row, however stale its copy is. */
  predicate ActorSafe(id: ActorId, a: Actor, r: Row, c: Canon, gone: set<(int, int)>) {
    && a.entry.chat == r.chat && a.entry.thread == r.thread && a.entry.source == r.source
    && FromPlan(a.payload, c.payload)
    && (a.payload.op != CopyMedia ==> r.payload == a.payload)
    && (a.response != 0 ==> r.response != 0)
    && (a.entry.phase == SendPending && a.payload.op != Reply ==> Source(a) in gone)
    && (a.payload.op == CopyMedia && HalfDone(a.entry.phase) ==> a.response != 0)
    && !Finished(a.entry.phase)
    && PcSafe(id, a, gone)
  }

  predicate PcSafe(id: ActorId, a: Actor, gone: set<(int, int)>) {
    match a.pc
    case CopyCall => a.payload.op == CopyMedia && a.entry.phase == Planned
    case CopyMade(copied) => copied > 0 && a.payload.op == CopyMedia && a.entry.phase == Planned
    case UseFallback => a.payload.op == CopyMedia && a.entry.phase == Planned
    case ReadAttempts => a.payload.op == Text && id.Inline?
    case RequestDelete(_) => a.payload.op == Text && id.Inline?
    case DeleteCall => a.payload.op != Reply && (a.payload.op == CopyMedia ==> a.response != 0)
    case RequestSend => AnswerReady(a, gone)
    case SendCall => a.payload.op != CopyMedia && (a.payload.op != Reply ==> Source(a) in gone)
    case Finish(response) => response != 0 && (a.payload.op != Reply ==> Source(a) in gone)
    case Failing(p, _) => ErrorPhaseSafe(a, p, gone)
    case Delaying(p, _) => ErrorPhaseSafe(a, p, gone)
    case Release => id.Worker?
    case Halted => true
  }

  /** The source is deleted or stays, and a copied response is known. */
  predicate AnswerReady(a: Actor, gone: set<(int, int)>) {
    && (a.payload.op != Reply ==> Source(a) in gone)
    && (a.payload.op == CopyMedia ==> a.response != 0)
  }

  predicate ErrorPhaseSafe(a: Actor, p: Phase, gone: set<(int, int)>) {
    match p
    case Planned => a.entry.phase == Planned
    case DeleteRequested => a.payload.op != Reply && (a.payload.op == CopyMedia ==> a.response != 0)
    case SendPending => AnswerReady(a, gone)
    case _ => false
  }

  /** One row and what its actors know of it, in s. */
  ghost predicate SafeAt(s: State, n: nat) {
    && n in s.tables.outbox && n in s.tables.canon
    && RowSafe(s.tables.outbox[n], s.tables.canon[n], s.gone)
  }

  ghost predicate SafeActor(s: State, id: ActorId) {
    && id.action in s.tables.outbox && id.action in s.tables.canon && id in s.actors
    && ActorSafe(id, s.actors[id], s.tables.outbox[id.action], s.tables.canon[id.action], s.gone)
  }

  ghost predicate Safe(s: State) {
    && Consistent(s.tables)
    && (forall n | n in s.tables.outbox :: SafeAt(s, n))
    && (forall id | id in s.actors :: SafeActor(s, id))
  }

  // One actor, one row

  lemma NewActorSafe(id: ActorId, r: Row, c: Canon, gone: set<(int, int)>)
    requires RowSafe(r, c, gone) && !Finished(r.phase)
    requires id.Inline? ==> r.phase == Planned && r.response == 0
    ensures ActorSafe(id, NewActor(id, r), r, c, gone)
  {}

  /** An actor's own step leaves its row safe, and the row only grows. */
  predicate RowKept(a: Actor, r: Row, c: Canon, gone: set<(int, int)>, now: int, o: Answer) {
    var r' := RowAfter(r, WriteOf(a, o), now);
    RowSafe(r', CanonAfter(c, WriteOf(a, o)), GoneAfter(a, gone, o)) && Grows(r, r')
  }

  /** The actor stays safe about the new row. */
  predicate ActorKept(id: ActorId, a: Actor, r: Row, c: Canon, gone: set<(int, int)>, now: int, o: Answer) {
    var w := WriteOf(a, o);
    ActorSafe(id, Moved(id, a, r.attempts, now, o), RowAfter(r, w, now), CanonAfter(c, w), GoneAfter(a, gone, o))
  }

  function GoneAfter(a: Actor, gone: set<(int, int)>, o: Answer): set<(int, int)> {
    if Deletes(a, o) then gone + {Source(a)} else gone
  }

  lemma RowMoveSafe(id: ActorId, a: Actor, r: Row, c: Canon, gone: set<(int, int)>, now: int, o: Answer)
    requires RowSafe(r, c, gone) && ActorSafe(id, a, r, c, gone)
    ensures RowKept(a, r, c, gone, now, o)
  {
    match WriteOf(a, o)
    case ReplacePayload(_) =>
    case MarkCopied(_) =>
    case MarkDeleteRequested(_) =>
    case MarkSendPending =>
    case MarkError(p, _) => assert ErrorPhaseSafe(a, p, gone);
    case _ =>
  }

  /** A copy made, and a copy given up. */
  lemma MediaMoveSafe(id: ActorId, a: Actor, r: Row, c: Canon, gone: set<(int, int)>, now: int, o: Answer)
    requires RowSafe(r, c, gone) && ActorSafe(id, a, r, c, gone) && Possible(a, o, gone)
    requires a.pc.CopyMade? || a.pc.UseFallback?
    ensures ActorKept(id, a, r, c, gone, now, o)
  {
    match a.pc
    case CopyMade(_) =>
    case _ =>
  }

  /** The other steps up to the deletion. */
  lemma EarlyMoveSafe(id: ActorId, a: Actor, r: Row, c: Canon, gone: set<(int, int)>, now: int, o: Answer)
    requires RowSafe(r, c, gone) && ActorSafe(id, a, r, c, gone) && Possible(a, o, gone)
    requires a.pc.CopyCall? || a.pc.ReadAttempts? || a.pc.RequestDelete?
    ensures ActorKept(id, a, r, c, gone, now, o)
  {}

  lemma DeletionSafe(id: ActorId, a: Actor, r: Row, c: Canon, gone: set<(int, int)>, now: int, o: Answer)
    requires RowSafe(r, c, gone) && ActorSafe(id, a, r, c, gone) && Possible(a, o, gone) && a.pc.DeleteCall?
    ensures ActorKept(id, a, r, c, gone, now, o)
  {
    hide Moved, ActorSafe, RowSafe, PcSafe;
    var gone' := GoneAfter(a, gone, o);
    OthersSafe(id, a, r, r, c, c, gone, gone');
    DeletedPcSafe(id, a, r, c, now, o, gone);
    SameViewSafe(id, a, Moved(id, a, r.attempts, now, o), r, c, gone');
  }

  lemma DeletedPcSafe(id: ActorId, a: Actor, r: Row, c: Canon, now: int, o: Answer, gone: set<(int, int)>)
    requires ActorSafe(id, a, r, c, gone) && Possible(a, o, gone) && a.pc.DeleteCall?
    ensures var b := Moved(id, a, r.attempts, now, o);
            && b.entry == a.entry && b.payload == a.payload && b.response == a.response
            && PcSafe(id, b, GoneAfter(a, gone, o))
  {}

  /** The steps after the deletion. */
  lemma LateMoveSafe(id: ActorId, a: Actor, r: Row, c: Canon, gone: set<(int, int)>, now: int, o: Answer)
    requires RowSafe(r, c, gone) && ActorSafe(id, a, r, c, gone) && Possible(a, o, gone)
    requires a.pc.RequestSend? || a.pc.SendCall?
    ensures ActorKept(id, a, r, c, gone, now, o)
  {}

  /** The last steps: completion, errors and the release. */
  lemma LastMoveSafe(id: ActorId, a: Actor, r: Row, c: Canon, gone: set<(int, int)>, now: int, o: Answer)
    requires RowSafe(r, c, gone) && ActorSafe(id, a, r, c, gone) && Possible(a, o, gone)
    requires RowKept(a, r, c, gone, now, o)
    requires a.pc.Finish? || a.pc.Failing? || a.pc.Delaying? || a.pc.Release?
    ensures ActorKept(id, a, r, c, gone, now, o)
  {
    var w := WriteOf(a, o);
    OthersSafe(id, a, r, RowAfter(r, w, now), c, CanonAfter(c, w), gone, gone);
    LastPcSafe(id, a, r.attempts, now, o, gone);
    SameViewSafe(id, a, Moved(id, a, r.attempts, now, o), RowAfter(r, w, now), CanonAfter(c, w), gone);
  }

  lemma LastPcSafe(id: ActorId, a: Actor, attempts: nat, now: int, o: Answer, gone: set<(int, int)>)
    requires a.pc.Finish? || a.pc.Failing? || a.pc.Delaying? || a.pc.Release?
    requires PcSafe(id, a, gone)
    ensures var b := Moved(id, a, attempts, now, o);
            b.entry == a.entry && b.payload == a.payload && b.response == a.response && PcSafe(id, b, gone)
  {}

  lemma SameViewSafe(id: ActorId, a: Actor, b: Actor, r: Row, c: Canon, gone: set<(int, int)>)
    requires ActorSafe(id, a, r, c, gone) && PcSafe(id, b, gone)
    requires b.entry == a.entry && b.payload == a.payload && b.response == a.response
    ensures ActorSafe(id, b, r, c, gone)
  {}

  lemma MoveSafe(id: ActorId, a: Actor, r: Row, c: Canon, gone: set<(int, int)>, now: int, o: Answer)
    requires RowSafe(r, c, gone) && ActorSafe(id, a, r, c, gone) && Possible(a, o, gone)
    ensures RowKept(a, r, c, gone, now, o) && ActorKept(id, a, r, c, gone, now, o)
  {
    RowMoveSafe(id, a, r, c, gone, now, o);
    match a.pc
    case CopyMade(_) => MediaMoveSafe(id, a, r, c, gone, now, o);
    case UseFallback => MediaMoveSafe(id, a, r, c, gone, now, o);
    case DeleteCall => DeletionSafe(id, a, r, c, gone, now, o);
    case RequestSend => LateMoveSafe(id, a, r, c, gone, now, o);
    case SendCall => LateMoveSafe(id, a, r, c, gone, now, o);
    case Finish(_) => LastMoveSafe(id, a, r, c, gone, now, o);
    case Failing(_, _) => LastMoveSafe(id, a, r, c, gone, now, o);
    case Delaying(_, _) => LastMoveSafe(id, a, r, c, gone, now, o);
    case Release => LastMoveSafe(id, a, r, c, gone, now, o);
    case _ => EarlyMoveSafe(id, a, r, c, gone, now, o);
  }

  /** The others' steps and vanishing messages do not disturb an actor. */
  lemma OthersSafe(id: ActorId, a: Actor, r: Row, r': Row, c: Canon, c': Canon, gone: set<(int, int)>,
                   gone': set<(int, int)>)
    requires ActorSafe(id, a, r, c, gone) && Grows(r, r') && c'.payload == c.payload && gone <= gone'
    ensures ActorSafe(id, a, r', c', gone')
  {}

  // The whole system

  lemma ActOwn(s: State, id: ActorId, o: Answer)
    requires Safe(s) && CanHappen(s, Act(id, o))
    ensures SafeAt(ActStep(s, id, o), id.action) && SafeActor(ActStep(s, id, o), id)
    ensures Grows(s.tables.outbox[id.action], ActStep(s, id, o).tables.outbox[id.action])
  {
    hide RowSafe, ActorSafe, Grows, Moved, WriteOf, RowAfter, CanonAfter, Consistent;
    assert SafeAt(s, id.action) && SafeActor(s, id);
    MoveSafe(id, s.actors[id], s.tables.outbox[id.action], s.tables.canon[id.action], s.gone, s.now, o);
  }

  lemma ActOther(s: State, id: ActorId, o: Answer, j: ActorId)
    requires Safe(s) && CanHappen(s, Act(id, o)) && j in s.actors && j != id
    ensures SafeActor(ActStep(s, id, o), j)
  {
    hide Consistent, ActorSafe, RowSafe, Moved, WriteOf;
    ActOwn(s, id, o);
    var s' := ActStep(s, id, o);
    assert s'.actors[j] == s.actors[j];
    assert Grows(s.tables.outbox[j.action], s'.tables.outbox[j.action]);
    OthersSafe(j, s.actors[j], s.tables.outbox[j.action], s'.tables.outbox[j.action],
               s.tables.canon[j.action], s'.tables.canon[j.action], s.gone, s'.gone);
  }

  lemma ActOtherRow(s: State, id: ActorId, o: Answer, n: nat)
    requires Safe(s) && CanHappen(s, Act(id, o)) && n in s.tables.outbox && n != id.action
    ensures SafeAt(ActStep(s, id, o), n)
  {
    var s' := ActStep(s, id, o);
    assert s'.tables.outbox[n] == s.tables.outbox[n] && s'.tables.canon[n] == s.tables.canon[n];
  }

  lemma ActSafe(s: State, id: ActorId, o: Answer)
    requires Safe(s) && CanHappen(s, Act(id, o))
    ensures Safe(ActStep(s, id, o))
  {
    var s' := ActStep(s, id, o);
    WrittenConsistent(s.tables, id.action, WriteOf(s.actors[id], o), s.now);
    forall n | n in s'.tables.outbox ensures SafeAt(s', n) {
      if n == id.action { ActOwn(s, id, o); } else { ActOtherRow(s, id, o, n); }
    }
    forall j | j in s'.actors ensures SafeActor(s', j) {
      if j == id { ActOwn(s, id, o); } else { ActOther(s, id, o, j); }
    }
  }

  lemma SafeConsistent(s: State)
    requires Safe(s)
    ensures Consistent(s.tables)
  {}

  lemma ClaimSafe(s: State, token: nat)
    requires Safe(s) && token !in s.tokens
    ensures Safe(ClaimStep(s, token))
  {
    hide ActorSafe, NewActor, Consistent, FromPlan;
    var s' := ClaimStep(s, token);
    SafeConsistent(s);
    ClaimedConsistent(s.tables, token, s.now);
    forall n | n in s'.tables.outbox ensures SafeAt(s', n) {
      assert SafeAt(s, n);
    }
    forall id | id in s'.actors ensures SafeActor(s', id) {
      if id in Visits(s'.tables, token) {
        assert SafeAt(s, id.action);
        NewActorSafe(id, s'.tables.outbox[id.action], s'.tables.canon[id.action], s.gone);
      } else {
        assert SafeActor(s, id);
        OthersSafe(id, s.actors[id], s.tables.outbox[id.action], s'.tables.outbox[id.action],
                   s.tables.canon[id.action], s'.tables.canon[id.action], s.gone, s.gone);
      }
    }
  }

  /** A creation leaves the older rows alone; a row it expires keeps its payload. */
  lemma CreatedKeeps(t: Tables, k: Key, p: Payload, source: int, now: int)
    requires Consistent(t) && Hex(k.fingerprint) && Wins(t, k, now)
    ensures var u := Created(t, k, p, source, now);
            && u.lastId !in t.outbox && u.outbox.Keys == t.outbox.Keys + {u.lastId}
            && u.outbox[u.lastId] == Row(k.chat, k.thread, source, p, Planned, 0, now, 0, 0, None)
            && u.canon[u.lastId] == Canon(k, p, Pending, 0, true, now)
            && forall a | a in t.outbox ::
                 a in u.canon && u.outbox[a] == t.outbox[a] && u.canon[a].payload == t.canon[a].payload
                 && u.canon[a].state == t.canon[a].state && u.canon[a].response == t.canon[a].response
                 && SameTopic(u.canon[a], t.outbox[a])
  {
    hide Consistent, Hex, ExpiredName;
    WinnerHolds(t, k, p, source, now);
    TableBounds(t);
    var h := Holder(t, k);
    if h.Some? {
      assert h.value in t.canon;
    }
  }

  lemma TableBounds(t: Tables)
    requires Consistent(t)
    ensures t.canon.Keys == t.outbox.Keys
    ensures forall a | a in t.outbox :: a <= t.lastId && SameTopic(t.canon[a], t.outbox[a])
  {}

  lemma CreateSafe(s: State, k: Key, p: Payload, source: int)
    requires Safe(s) && Hex(k.fingerprint)
    ensures Safe(CreateStep(s, k, p, source))
  {
    if Wins(s.tables, k, s.now) {
      CreatedKeeps(s.tables, k, p, source, s.now);
      CreatedConsistent(s.tables, k, p, source, s.now);
      var s' := CreateStep(s, k, p, source);
      var m := s'.tables.lastId;
      forall n | n in s'.tables.outbox ensures SafeAt(s', n) {
        assert n != m ==> SafeAt(s, n);
      }
      forall id | id in s'.actors ensures SafeActor(s', id) {
        if id == Inline(m) {
          NewActorSafe(id, s'.tables.outbox[m], s'.tables.canon[m], s.gone);
        } else {
          assert SafeActor(s, id);
          OthersSafe(id, s.actors[id], s.tables.outbox[id.action], s'.tables.outbox[id.action],
                     s.tables.canon[id.action], s'.tables.canon[id.action], s.gone, s.gone);
        }
      }
    }
  }

  lemma StopSafe(s: State, id: ActorId)
    requires Safe(s) && CanHappen(s, Stop(id))
    ensures Safe(Step(s, Stop(id)))
  {
    hide Consistent, RowSafe, ActorSafe;
    var s' := Step(s, Stop(id));
    forall n | n in s'.tables.outbox ensures SafeAt(s', n) {
      assert SafeAt(s, n);
    }
    forall j | j in s'.actors ensures SafeActor(s', j) {
      assert SafeActor(s, j);
      SameViewSafe(j, s.actors[j], s.actors[j].(pc := Halted), s.tables.outbox[j.action], s.tables.canon[j.action],
          s.gone);
    }
  }

  lemma VanishSafe(s: State, chat: int, message: int)
    requires Safe(s)
    ensures Safe(Step(s, Vanish(chat, message)))
  {
    var s' := Step(s, Vanish(chat, message));
    assert forall n | n in s'.tables.outbox :: SafeAt(s, n) ==> SafeAt(s', n);
    forall id | id in s'.actors ensures SafeActor(s', id) {
      assert SafeActor(s, id);
      OthersSafe(id, s.actors[id], s.tables.outbox[id.action], s.tables.outbox[id.action],
                 s.tables.canon[id.action], s.tables.canon[id.action], s.gone, s'.gone);
    }
  }

  lemma StepSafe(s: State, e: Event)
    requires Safe(s) && CanHappen(s, e)
    ensures Safe(Step(s, e))
  {
    match e
    case Tick(to) =>
      assert forall n | n in s.tables.outbox :: SafeAt(s, n) ==> SafeAt(Step(s, e), n);
      assert forall id | id in s.actors :: SafeActor(s, id) ==> SafeActor(Step(s, e), id);
    case Create(k, p, source) => CreateSafe(s, k, p, source);
    case Claim(token) => ClaimSafe(s, token);
    case Act(id, o) => ActSafe(s, id, o);
    case Stop(id) => StopSafe(s, id);
    case Vanish(chat, message) => VanishSafe(s, chat, message);
  }

  lemma {:induction false} RunSafe(b: seq<State>, es: seq<Event>, k: nat)
    requires Run(b, es) && k < |b|
    ensures Safe(b[k])
  {
    if k > 0 {
      RunSafe(b, es, k - 1);
      StepSafe(b[k - 1], es[k - 1]);
    }
  }

  // Whatever is recorded was seen

  /** The actor or its row knows of a response. */
  predicate KnowsResponse(a: Actor) {
    a.accepted || a.response != 0 || a.pc.CopyMade? || a.pc.Finish?
  }

  predicate ShowsResponse(r: Row, c: Canon) {
    r.response != 0 || r.phase == Complete || c.state == Sent
  }

  /** Nothing knows of a response that nobody can see. */
  ghost predicate Shown(s: State) {
    && (forall id | id in s.actors && KnowsResponse(s.actors[id]) :: Visible(s, id.action) >= 1)
    && (forall n | n in s.tables.outbox && n in s.tables.canon
                   && ShowsResponse(s.tables.outbox[n], s.tables.canon[n]) :: Visible(s, n) >= 1)
  }

  lemma MoveShown(id: ActorId, a: Actor, r: Row, c: Canon, now: int, o: Answer, gone: set<(int, int)>)
    requires PcSafe(id, a, gone)
    ensures KnowsResponse(Moved(id, a, r.attempts, now, o)) ==> KnowsResponse(a) || Responds(a, o)
    ensures ShowsResponse(RowAfter(r, WriteOf(a, o), now), CanonAfter(c, WriteOf(a, o))) ==>
              ShowsResponse(r, c) || KnowsResponse(a)
  {
    match a.pc
    case Failing(p, _) => assert ErrorPhaseSafe(a, p, gone);
    case Delaying(p, _) => assert ErrorPhaseSafe(a, p, gone);
    case _ =>
  }

  lemma NewActorShown(id: ActorId, r: Row)
    ensures KnowsResponse(NewActor(id, r)) <==> r.response != 0
  {}

  lemma ActOwnShown(s: State, id: ActorId, o: Answer)
    requires Shown(s) && SafeActor(s, id) && CanHappen(s, Act(id, o))
    ensures KnowsResponse(ActStep(s, id, o).actors[id])
            || ShowsResponse(ActStep(s, id, o).tables.outbox[id.action], ActStep(s, id, o).tables.canon[id.action]) ==>
              Visible(ActStep(s, id, o), id.action) >= 1
    ensures forall n :: Visible(s, n) <= Visible(ActStep(s, id, o), n)
  {
    hide Moved, WriteOf, KnowsResponse, ShowsResponse, PcSafe, RowSafe, RowAfter, CanonAfter;
    MoveShown(id, s.actors[id], s.tables.outbox[id.action], s.tables.canon[id.action], s.now, o, s.gone);
  }

  lemma ActShown(s: State, id: ActorId, o: Answer)
    requires Safe(s) && Shown(s) && CanHappen(s, Act(id, o))
    ensures Shown(ActStep(s, id, o))
  {
    hide Moved, WriteOf, KnowsResponse, ShowsResponse, Consistent, ActorSafe, RowSafe, Visible, RowAfter, CanonAfter;
    assert SafeActor(s, id);
    ActOwnShown(s, id, o);
  }

  lemma ClaimShown(s: State, token: nat)
    requires Safe(s) && Shown(s)
    ensures Shown(ClaimStep(s, token))
  {
    hide NewActor, KnowsResponse, Consistent, ActorSafe, RowSafe;
    var s' := ClaimStep(s, token);
    forall id | id in s'.actors && KnowsResponse(s'.actors[id]) ensures Visible(s', id.action) >= 1 {
      if id in Visits(s'.tables, token) {
        NewActorShown(id, s'.tables.outbox[id.action]);
        assert SafeAt(s, id.action);
      }
    }
  }

  lemma CreateShown(s: State, k: Key, p: Payload, source: int)
    requires Safe(s) && Shown(s) && Hex(k.fingerprint)
    ensures Shown(CreateStep(s, k, p, source))
  {
    hide NewActor, KnowsResponse, Consistent, ActorSafe, RowSafe, Hex, Created;
    if Wins(s.tables, k, s.now) {
      CreatedKeeps(s.tables, k, p, source, s.now);
      var s' := CreateStep(s, k, p, source);
      NewActorShown(Inline(s'.tables.lastId), s'.tables.outbox[s'.tables.lastId]);
      assert forall id | id in s.actors :: SafeActor(s, id);
      assert forall n | n in s.tables.outbox :: SafeAt(s, n);
    }
  }

  lemma StepShown(s: State, e: Event)
    requires Safe(s) && Shown(s) && CanHappen(s, e)
    ensures Shown(Step(s, e))
  {
    hide Safe;
    match e
    case Act(id, o) => ActShown(s, id, o);
    case Claim(token) => ClaimShown(s, token);
    case Create(k, p, source) => CreateShown(s, k, p, source);
    case _ =>
  }

  lemma {:induction false} RunShown(b: seq<State>, es: seq<Event>, k: nat)
    requires Run(b, es) && k < |b|
    ensures Shown(b[k])
  {
    hide Safe, Step, CanHappen;
    if k > 0 {
      RunShown(b, es, k - 1);
      RunSafe(b, es, k - 1);
      StepShown(b[k - 1], es[k - 1]);
    }
  }

  // Main results

  /** Nothing is recorded as answered that was not: in every reachable state of every run, an action that is complete,
      marked sent, or has a response id has at least one response that Telegram accepted. */
  lemma RecordedMeansSeen(b: seq<State>, es: seq<Event>, k: nat, n: nat)
    requires Run(b, es) && k < |b| && n in b[k].tables.outbox
    ensures n in b[k].tables.canon
    ensures var r := b[k].tables.outbox[n];
            r.phase == Complete || r.response != 0 || b[k].tables.canon[n].state == Sent ==> Visible(b[k], n) >= 1
  {
    RunSafe(b, es, k);
    RunShown(b, es, k);
    assert SafeAt(b[k], n);
  }

  /** In every reachable state a row that waits for its response or is complete, unless it is a reply, has lost its
      source; and a media row past planning has its copy recorded. */
  lemma PendingSendHasNoSource(b: seq<State>, es: seq<Event>, k: nat, n: nat)
    requires Run(b, es) && k < |b| && n in b[k].tables.outbox
    ensures var r := b[k].tables.outbox[n];
            && ((r.phase == SendPending || r.phase == Complete) && r.payload.op != Reply ==>
                  (r.chat, r.source) in b[k].gone)
            && (r.payload.op == CopyMedia && HalfDone(r.phase) ==> r.response != 0)
  {
    RunSafe(b, es, k);
  }

  /** Whenever Telegram accepts a plain Send, the source message is already gone; and what becomes
      visible, by Send, Reply or Copy, is the planned response or, for a media plan, its fallback. */
  lemma NoSendBesideSource(b: seq<State>, es: seq<Event>, k: nat)
    requires Run(b, es) && k < |es| && es[k].Act? && Responds(b[k].actors[es[k].id], es[k].answer)
    ensures var a, n := b[k].actors[es[k].id], es[k].id.action;
            && n in b[k].tables.canon
            && (a.pc == SendCall && a.payload.op != Reply ==> Source(a) in b[k].gone)
            && (a.pc == CopyCall ==> a.payload == b[k].tables.canon[n].payload && a.payload.op == CopyMedia)
            && FromPlan(a.payload, b[k].tables.canon[n].payload)
  {
    RunSafe(b, es, k);
  }

  /** Event j created row n. */
  ghost predicate CreatedBy(b: seq<State>, es: seq<Event>, j: nat, n: nat) {
    && j < |es| < |b| && es[j].Create?
    && Wins(b[j].tables, es[j].key, b[j].now) && b[j + 1].tables.lastId == n
  }

  /** Row n is what the creation stored: its key, or the expired form of it, its plan, and the message it was made
      for. */
  predicate Stems(t: Tables, n: nat, e: Event)
    requires e.Create?
  {
    && n in t.canon && n in t.outbox
    && t.canon[n].key == (if t.canon[n].active then e.key
                          else e.key.(fingerprint := ExpiredName(e.key.fingerprint, n)))
    && t.canon[n].payload == e.payload
    && t.outbox[n].chat == e.key.chat && t.outbox[n].thread == e.key.thread && t.outbox[n].source == e.source
  }

  lemma CreationKeepsStem(t: Tables, k: Key, p: Payload, source: int, now: int, n: nat, e: Event)
    requires Consistent(t) && Hex(k.fingerprint) && Wins(t, k, now) && e.Create? && Stems(t, n, e)
    ensures Stems(Created(t, k, p, source, now), n, e)
  {
    CreatedKeeps(t, k, p, source, now);
    var h := Holder(t, k);
    if h.Some? {
      HolderIsActive(t, h.value, k);
    }
    TableBounds(t);
  }

  lemma StepKeepsStem(s: State, e: Event, n: nat, origin: Event)
    requires Safe(s) && CanHappen(s, e) && origin.Create? && Stems(s.tables, n, origin)
    ensures Stems(Step(s, e).tables, n, origin)
  {
    hide Safe, Created, Wins, ExpiredName, Hex, Moved, NewActor, WriteOf, Consistent;
    SafeConsistent(s);
    match e
    case Create(k, p, source) =>
      if Wins(s.tables, k, s.now) {
        CreationKeepsStem(s.tables, k, p, source, s.now, n, origin);
      }
    case _ =>
  }

  lemma CreationStems(s: State, e: Event, n: nat)
    requires Safe(s) && e.Create? && CanHappen(s, e) && n !in s.tables.canon && n in Step(s, e).tables.canon
    ensures Wins(s.tables, e.key, s.now) && Step(s, e).tables.lastId == n && Stems(Step(s, e).tables, n, e)
  {
    SafeConsistent(s);
    if Wins(s.tables, e.key, s.now) {
      CreatedKeeps(s.tables, e.key, e.payload, e.source, s.now);
    }
  }

  lemma OnlyCreationAdds(s: State, e: Event, n: nat)
    requires CanHappen(s, e) && n !in s.tables.canon && n in Step(s, e).tables.canon
    ensures e.Create?
  {}

  /** Every canonical action of every reachable state stems from a creation that won. */
  lemma {:induction false} RowOrigin(b: seq<State>, es: seq<Event>, k: nat, n: nat) returns (j: nat)
    requires Run(b, es) && k < |b| && n in b[k].tables.canon
    ensures j < k && CreatedBy(b, es, j, n) && Stems(b[k].tables, n, es[j])
  {
    hide Safe, Step, CanHappen, Stems, Wins;
    var s, e := b[k - 1], es[k - 1];
    RunSafe(b, es, k - 1);
    if n in s.tables.canon {
      j := RowOrigin(b, es, k - 1, n);
      StepKeepsStem(s, e, n, es[j]);
    } else {
      OnlyCreationAdds(s, e, n);
      CreationStems(s, e, n);
      j := k - 1;
    }
  }

  /** Nothing is deleted before its plan is stored: whenever Telegram accepts a Delete of an actor, inline or worker,
      an earlier creation stored the canonical action for that very message, under a key whose chat, topic, sender,
      rule and fingerprint the action still has, its fingerprint renamed at most by expiry. */
  lemma DeleteHasPlan(b: seq<State>, es: seq<Event>, k: nat) returns (j: nat)
    requires Run(b, es) && k < |es| && es[k].Act? && Deletes(b[k].actors[es[k].id], es[k].answer)
    ensures var a, n := b[k].actors[es[k].id], es[k].id.action;
            && j < k && CreatedBy(b, es, j, n) && Stems(b[k].tables, n, es[j])
            && Source(a) == (es[j].key.chat, es[j].source)
            && a.payload.op != Reply && FromPlan(a.payload, es[j].payload)
  {
    hide Consistent, CreatedBy;
    RunSafe(b, es, k);
    assert SafeActor(b[k], es[k].id);
    j := RowOrigin(b, es, k, es[k].id.action);
  }

  /** A payload changes at most once, from a media copy to its fallback, over any stretch of a run. */
  lemma {:induction false} RowsGrow(b: seq<State>, es: seq<Event>, i: nat, k: nat, n: nat)
    requires Run(b, es) && i <= k < |b| && n in b[i].tables.outbox
    ensures n in b[k].tables.outbox && Grows(b[i].tables.outbox[n], b[k].tables.outbox[n])
  {
    hide Safe, Step, CanHappen;
    if i < k {
      RowsGrow(b, es, i, k - 1, n);
      RunSafe(b, es, k - 1);
      StepGrows(b[k - 1], es[k - 1], n);
    }
  }

  lemma StepGrows(s: State, e: Event, n: nat)
    requires Safe(s) && CanHappen(s, e) && n in s.tables.outbox
    ensures n in Step(s, e).tables.outbox && Grows(s.tables.outbox[n], Step(s, e).tables.outbox[n])
  {
    hide Safe, ActorSafe, RowSafe, Moved, WriteOf, RowAfter, Wins, Created;
    SafeConsistent(s);
    match e
    case Create(k, p, source) => if Wins(s.tables, k, s.now) { CreatedKeeps(s.tables, k, p, source, s.now); }
    case Act(id, o) => if n == id.action { ActOwn(s, id, o); }
    case _ =>
  }
}
