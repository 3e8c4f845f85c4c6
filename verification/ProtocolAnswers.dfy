/** What an answer of Telegram leads to, told by the events of a run and the rows of its states, for every
    interleaving: which write follows a refusal, and which answers a row's payload, end and response come from. */
module ProtocolAnswers {
  import opened Tables
  import opened Canonical
  import opened Protocol
  import opened ProtocolSafety
  import opened ProtocolProgress

  // Actors between their steps

  predicate Concerns(e: Event, id: ActorId) {
    (e.Act? && e.id == id) || e == Stop(id)
  }

  /** Event k is the next step of the actor after event j. */
  predicate Next(es: seq<Event>, id: ActorId, j: nat, k: nat) {
    && j < k < |es| && es[k].Act? && es[k].id == id
    && forall m | j < m < k :: !Concerns(es[m], id)
  }

  ghost predicate RowIn(s: State, n: nat) {
    n in s.tables.outbox && n in s.tables.canon
  }

  lemma NewIsNew(s: State, e: Event, id: ActorId)
    requires Safe(s) && TokensUsed(s) && CanHappen(s, e) && id in s.actors && !Concerns(e, id)
    ensures id in Step(s, e).actors && Step(s, e).actors[id] == s.actors[id]
  {
    hide NewActor, Moved, Consistent, ActorSafe, RowSafe;
    match e
    case Create(k, p, source) =>
      if Wins(s.tables, k, s.now) {
        CreatedKeeps(s.tables, k, p, source, s.now);
        assert SafeActor(s, id);
      }
    case _ =>
  }

  lemma {:induction false} ActorWaits(b: seq<State>, es: seq<Event>, id: ActorId, i: nat, k: nat)
    requires Run(b, es) && i <= k <= |es| && id in b[i].actors && forall m | i <= m < k :: !Concerns(es[m], id)
    ensures id in b[k].actors && b[k].actors[id] == b[i].actors[id]
  {
    hide Safe, TokensUsed, Step, CanHappen, Concerns;
    if i < k {
      ActorWaits(b, es, id, i, k - 1);
      RunSafe(b, es, k - 1);
      RunTokensUsed(b, es, k - 1);
      NewIsNew(b[k - 1], es[k - 1], id);
    }
  }

  /** The actor at its next step is as its last one left it. */
  lemma AfterStep(b: seq<State>, es: seq<Event>, k: nat, m: nat, id: ActorId)
    requires Run(b, es) && Next(es, id, k, m) && es[k].Act? && es[k].id == id
    ensures m + 1 < |b| && id in b[k].actors && id in b[m].actors && RowIn(b[k], id.action) && RowIn(b[m], id.action)
    ensures Possible(b[k].actors[id], es[k].answer, b[k].gone) && Possible(b[m].actors[id], es[m].answer, b[m].gone)
    ensures b[m].actors[id]
            == Moved(id, b[k].actors[id], b[k].tables.outbox[id.action].attempts, b[k].now, es[k].answer)
    ensures b[k + 1] == ActStep(b[k], id, es[k].answer) && b[m + 1] == ActStep(b[m], id, es[m].answer)
  {
    hide Moved, Possible, Concerns;
    assert CanHappen(b[k], es[k]) && CanHappen(b[m], es[m]);
    RunSafe(b, es, k);
    RunSafe(b, es, m);
    ActorWaits(b, es, id, k + 1, m);
  }

  // What follows a refusal

  /** The refusal may pass: Telegram asked to wait, or the error is transient. */
  predicate Passing(e: Error) {
    e.RetryAfter? || e.Transient?
  }

  /** The error write: one attempt more, no lease, due after the delay, and nothing else changes. */
  predicate PutOff(r: Row, r': Row, p: Phase, due: int) {
    r' == r.(phase := p, attempts := r.attempts + 1, nextAt := due, leaseUntil := 0, token := None)
  }

  /** Where a row waits whose call was refused for now. */
  predicate WaitsIn(call: Pc, p: Phase) {
    match call
    case CopyCall => p == Planned
    case DeleteCall => p == DeleteRequested
    case SendCall => p == SendPending
    case _ => false
  }

  /** What the next write makes of row r and its action c when e refused the call of actor a. A refusal that may pass
      puts the row off, in its phase and for the delay asked for; a transient one first reads the attempts. A copy
      refused for good makes the row a text and touches nothing else; a message that is not there counts as deleted;
      any other refusal for good gives the action up. */
  predicate RefusalLeads(a: Actor, e: Error, now: int, r: Row, r': Row, c: Canon, c': Canon) {
    && (a.pc == CopyCall || a.pc == DeleteCall || a.pc == SendCall)
    && (e.RetryAfter? ==> c' == c && exists p :: WaitsIn(a.pc, p) && PutOff(r, r', p, now + e.seconds))
    && (e.Transient? ==> r' == r && c' == c)
    && (!Passing(e) && a.pc == CopyCall ==>
          c' == c && r' == r.(payload := a.payload.(op := Text, text := a.payload.fallback)))
    && (e == NotFound && a.pc == DeleteCall && a.response == 0 ==>
          c' == c && r' == r.(phase := SendPending, nextAt := now))
    && (!Passing(e) && (a.pc == SendCall || (a.pc == DeleteCall && e != NotFound)) ==>
          c' == c.(state := DeadLetter)
          && r' == r.(phase := Dead, attempts := r.attempts + 1, nextAt := now, leaseUntil := 0))
  }

  lemma RefusalLeadsOn(id: ActorId, a: Actor, attempts: nat, then': int, e: Error, gone: set<(int, int)>, now: int,
                       r: Row,
                       c: Canon)
    requires Possible(a, Refused(e), gone)
    ensures var w := WriteOf(Moved(id, a, attempts, then', Refused(e)), Stored);
            RefusalLeads(a, e, now, r, RowAfter(r, w, now), c, CanonAfter(c, w))
  {
    var w := WriteOf(Moved(id, a, attempts, then', Refused(e)), Stored);
    var p := if a.pc == CopyCall then Planned else if a.pc == DeleteCall then DeleteRequested else SendPending;
    assert WaitsIn(a.pc, p);
    assert e.RetryAfter? ==> PutOff(r, RowAfter(r, w, now), p, now + e.seconds);
  }

  /** What a refused call leads to. */
  lemma RefusalWrites(b: seq<State>, es: seq<Event>, j: nat, k: nat, id: ActorId, e: Error)
    requires Run(b, es) && Next(es, id, j, k) && es[j] == Act(id, Refused(e)) && es[k].answer == Stored
    ensures id in b[j].actors && RowIn(b[k], id.action) && RowIn(b[k + 1], id.action)
    ensures var t, u := b[k].tables, b[k + 1].tables;
            RefusalLeads(b[j].actors[id], e, b[k].now, t.outbox[id.action], u.outbox[id.action],
                         t.canon[id.action], u.canon[id.action])
  {
    hide Moved, Possible, RefusalLeads, WriteOf, RowAfter, CanonAfter, Safe, RowSafe, Run;
    AfterStep(b, es, j, k, id);
    RefusalLeadsOn(id, b[j].actors[id], b[j].tables.outbox[id.action].attempts, b[j].now, e, b[j].gone, b[k].now,
                   b[k].tables.outbox[id.action], b[k].tables.canon[id.action]);
  }

  function Delay(attempts: nat): int {
    PowerOfTwo(if attempts < 10 then attempts else 10)
  }

  lemma TransientLeadsOn(id: ActorId, a: Actor, attempts: nat, then': int, gone: set<(int, int)>, read: nat, later: int,
                         now: int, r: Row, c: Canon)
    requires Possible(a, Refused(Transient), gone)
    ensures var x := Moved(id, Moved(id, a, attempts, then', Refused(Transient)), read, later, Stored);
            && CanonAfter(c, WriteOf(x, Stored)) == c
            && exists p :: WaitsIn(a.pc, p) && PutOff(r, RowAfter(r, WriteOf(x, Stored), now), p, now + Delay(read))
  {
    var x := Moved(id, Moved(id, a, attempts, then', Refused(Transient)), read, later, Stored);
    var p := if a.pc == CopyCall then Planned else if a.pc == DeleteCall then DeleteRequested else SendPending;
    assert x.pc == Delaying(p, Backoff(read));
    assert WaitsIn(a.pc, p) && PutOff(r, RowAfter(r, WriteOf(x, Stored), now), p, now + Delay(read));
  }

  /** After a transient refusal the row's attempts are read at event k, and the error write at event m puts the row
      off for two to the power of them, at most 1024 seconds. */
  lemma TransientWrites(b: seq<State>, es: seq<Event>, j: nat, k: nat, m: nat, id: ActorId)
    requires Run(b, es) && Next(es, id, j, k) && Next(es, id, k, m) && es[j] == Act(id, Refused(Transient))
    requires es[k].answer == Stored && es[m].answer == Stored
    ensures id in b[j].actors && RowIn(b[k], id.action) && RowIn(b[m], id.action) && RowIn(b[m + 1], id.action)
    ensures exists p :: WaitsIn(b[j].actors[id].pc, p)
                        && PutOff(b[m].tables.outbox[id.action], b[m + 1].tables.outbox[id.action], p,
                                  b[m].now + Delay(b[k].tables.outbox[id.action].attempts))
    ensures b[m + 1].tables.canon[id.action] == b[m].tables.canon[id.action]
  {
    hide Possible, Safe, Run, Moved, WriteOf, RowAfter, CanonAfter, PutOff, WaitsIn, Delay;
    AfterStep(b, es, j, k, id);
    AfterStep(b, es, k, m, id);
    var n := id.action;
    TransientLeadsOn(id, b[j].actors[id], b[j].tables.outbox[n].attempts, b[j].now, b[j].gone,
                     b[k].tables.outbox[n].attempts, b[k].now, b[m].now, b[m].tables.outbox[n], b[m].tables.canon[n]);
  }

  // What follows an acceptance

  /** What the next write makes of the row when the call of actor a was accepted with message x: a copy is recorded
      and its source still to be deleted, a response completes row and action, and after a deletion the response is
      due, unless a recorded copy is all there is to say. */
  predicate AcceptanceLeads(id: ActorId, a: Actor, x: int, now: int, r: Row, r': Row, c: Canon, c': Canon) {
    match a.pc
    case CopyCall => c' == c && r' == r.(phase := DeleteRequested, response := x, nextAt := now)
    case SendCall =>
      c' == c.(state := Sent, response := x) && r' == r.(phase := Complete, response := x, leaseUntil := 0)
    case DeleteCall =>
      if id.Inline? && a.response != 0 then
        c' == c.(state := Sent, response := a.response)
        && r' == r.(phase := Complete, response := a.response, leaseUntil := 0)
      else c' == c && r' == r.(phase := SendPending, nextAt := now)
    case _ => false
  }

  lemma AcceptanceLeadsOn(id: ActorId, a: Actor, attempts: nat, then': int, x: int, gone: set<(int, int)>, now: int,
                          r: Row, c: Canon)
    requires Possible(a, Accepted(x), gone)
    ensures var w := WriteOf(Moved(id, a, attempts, then', Accepted(x)), Stored);
            AcceptanceLeads(id, a, x, now, r, RowAfter(r, w, now), c, CanonAfter(c, w))
  {}

  /** What an accepted call leads to. */
  lemma AcceptanceWrites(b: seq<State>, es: seq<Event>, j: nat, k: nat, id: ActorId, x: int)
    requires Run(b, es) && Next(es, id, j, k) && es[j] == Act(id, Accepted(x)) && es[k].answer == Stored
    ensures id in b[j].actors && RowIn(b[k], id.action) && RowIn(b[k + 1], id.action)
    ensures var t, u := b[k].tables, b[k + 1].tables;
            AcceptanceLeads(id, b[j].actors[id], x, b[k].now, t.outbox[id.action], u.outbox[id.action],
                            t.canon[id.action], u.canon[id.action])
  {
    hide Moved, Possible, AcceptanceLeads, WriteOf, RowAfter, CanonAfter, Safe, RowSafe, Run;
    AfterStep(b, es, j, k, id);
    AcceptanceLeadsOn(id, b[j].actors[id], b[j].tables.outbox[id.action].attempts, b[j].now, x, b[j].gone, b[k].now,
                      b[k].tables.outbox[id.action], b[k].tables.canon[id.action]);
  }

  // What comes before a call

  lemma NewActorFresh(s: State, e: Event, id: ActorId)
    requires Safe(s) && CanHappen(s, e) && id in Step(s, e).actors && id !in s.actors
    ensures id.action in Step(s, e).tables.outbox
    ensures Step(s, e).actors[id] == NewActor(id, Step(s, e).tables.outbox[id.action])
  {
    hide NewActor, Moved, ActorSafe, RowSafe, Consistent;
    match e
    case Create(k, p, source) =>
      if Wins(s.tables, k, s.now) {
        CreatedKeeps(s.tables, k, p, source, s.now);
      }
    case _ =>
  }

  /** Event i is the last that made the actor what it is in state k: its start, its stop, or a step of its own. */
  ghost predicate MadeBy(b: seq<State>, es: seq<Event>, i: nat, k: nat, id: ActorId)
    requires i < k <= |es| < |b| && id in b[k].actors
  {
    && (forall m | i < m < k :: !Concerns(es[m], id))
    && if id !in b[i].actors then
         id.action in b[i + 1].tables.outbox && b[k].actors[id] == NewActor(id, b[i + 1].tables.outbox[id.action])
       else if es[i].Act? then
         && es[i].id == id && RowIn(b[i], id.action) && Possible(b[i].actors[id], es[i].answer, b[i].gone)
         && b[i + 1] == ActStep(b[i], id, es[i].answer) && b[k].actors[id] == b[i + 1].actors[id]
       else b[k].actors[id].pc == Halted
  }

  lemma {:induction false} LastStep(b: seq<State>, es: seq<Event>, k: nat, id: ActorId) returns (i: nat)
    requires Run(b, es) && k <= |es| && id in b[k].actors
    ensures k < |b| && i < k && MadeBy(b, es, i, k, id)
  {
    hide Safe, TokensUsed, ActStep, NewActor, Possible;
    assert k > 0 by { assert b[0].actors == map[]; }
    var s, e := b[k - 1], es[k - 1];
    RunSafe(b, es, k - 1);
    assert CanHappen(s, e);
    if id !in s.actors {
      NewActorFresh(s, e, id);
      i := k - 1;
    } else if Concerns(e, id) {
      SafeRows(s, id);
      i := k - 1;
    } else {
      RunTokensUsed(b, es, k - 1);
      NewIsNew(s, e, id);
      i := LastStep(b, es, k - 1, id);
    }
  }

  lemma SafeRows(s: State, id: ActorId)
    requires Safe(s) && id in s.actors
    ensures RowIn(s, id.action)
  {
    assert SafeActor(s, id);
  }

  /** The inline path tries a deletion only after it has recorded that one is under way. */
  lemma DeleteIsRequested(b: seq<State>, es: seq<Event>, k: nat, id: ActorId) returns (i: nat)
    requires Run(b, es) && k < |es| && es[k].Act? && es[k].id == id && id.Inline?
    requires id in b[k].actors && b[k].actors[id].pc == DeleteCall
    ensures Next(es, id, i, k) && es[i] == Act(id, Stored) && id.action in b[i + 1].tables.outbox
    ensures b[i + 1].tables.outbox[id.action].phase == DeleteRequested
  {
    hide Run;
    i := LastStep(b, es, k, id);
  }

  /** A response is sent only after the row was marked as waiting for it, by this actor or before it read the row. */
  lemma SendIsPending(b: seq<State>, es: seq<Event>, k: nat, id: ActorId) returns (i: nat)
    requires Run(b, es) && k < |es| && es[k].Act? && es[k].id == id
    requires id in b[k].actors && b[k].actors[id].pc == SendCall
    ensures b[k].actors[id].entry.phase == SendPending
            || (Next(es, id, i, k) && es[i] == Act(id, Stored) && id.action in b[i + 1].tables.outbox
                && b[i + 1].tables.outbox[id.action].phase == SendPending)
  {
    hide Run, Safe, Moved, NewActor, Possible, RowSafe, ActorSafe;
    i := LastStep(b, es, k, id);
    RunSafe(b, es, k);
    EntryUnfinished(b[k], id);
    if id !in b[i].actors {
      StartsSending(id, b[i + 1].tables.outbox[id.action]);
    } else if es[i].Act? {
      ComesToSend(id, b[i].actors[id], b[i].tables.outbox[id.action].attempts, b[i].now, es[i].answer, b[i].gone);
    }
  }

  lemma EntryUnfinished(s: State, id: ActorId)
    requires Safe(s) && id in s.actors
    ensures !Finished(s.actors[id].entry.phase)
  {
    assert SafeActor(s, id);
  }

  lemma StartsSending(id: ActorId, r: Row)
    requires NewActor(id, r).pc == SendCall
    ensures NewActor(id, r).entry.phase == SendPending || Finished(NewActor(id, r).entry.phase)
  {}

  lemma ComesToSend(id: ActorId, a: Actor, attempts: nat, now: int, o: Answer, gone: set<(int, int)>)
    requires Possible(a, o, gone) && Moved(id, a, attempts, now, o).pc == SendCall
    ensures var c := Moved(id, a, attempts, now, o);
            (a.pc == RequestSend && o == Stored) || c.entry.phase == SendPending || Finished(c.entry.phase)
  {}

  // What the statements between the calls write

  /** The request for a deletion counts as an attempt, and makes the row due after the backoff of the attempts read
      before. */
  lemma RequestWrites(b: seq<State>, es: seq<Event>, j: nat, k: nat, id: ActorId)
    requires Run(b, es) && Next(es, id, j, k) && es[j] == Act(id, Stored) && es[k].answer == Stored
    requires id in b[j].actors && b[j].actors[id].pc == ReadAttempts
    ensures RowIn(b[j], id.action) && RowIn(b[k], id.action) && RowIn(b[k + 1], id.action)
    ensures b[k + 1].tables.canon[id.action] == b[k].tables.canon[id.action]
    ensures var r := b[k].tables.outbox[id.action];
            b[k + 1].tables.outbox[id.action]
            == r.(phase := DeleteRequested, attempts := r.attempts + 1,
                  nextAt := b[k].now + Delay(b[j].tables.outbox[id.action].attempts))
  {
    hide Run, Safe;
    AfterStep(b, es, j, k, id);
  }

  /** A release clears the lease and nothing else. */
  lemma ReleaseWrites(b: seq<State>, es: seq<Event>, k: nat, id: ActorId)
    requires Run(b, es) && k < |es| && es[k] == Act(id, Stored) && id in b[k].actors && b[k].actors[id].pc == Release
    ensures id.action in b[k].tables.outbox && id.action in b[k + 1].tables.outbox
    ensures b[k + 1].tables.outbox[id.action] == b[k].tables.outbox[id.action].(leaseUntil := 0, token := None)
  {
    assert CanHappen(b[k], es[k]);
  }

  // How the actors end and what they leave alone

  /** The row is complete, given up, or put off to a later second. */
  predicate Settled(r: Row, r': Row, now: int) {
    || (r'.phase == Complete && r'.response != 0) || r'.phase == Dead
    || (PutOff(r, r', r'.phase, r'.nextAt) && now < r'.nextAt)
  }

  /** An inline path that ends of itself, with every write stored, has completed its row, given it up, or put it off. */
  lemma InlineSettles(b: seq<State>, es: seq<Event>, k: nat, id: ActorId, o: Answer)
    requires Run(b, es) && k < |es| && es[k] == Act(id, o) && id.Inline?
    requires id in b[k + 1].actors && b[k + 1].actors[id].pc == Halted && b[k + 1].actors[id].clean
    ensures id.action in b[k].tables.outbox && id.action in b[k + 1].tables.outbox
    ensures Settled(b[k].tables.outbox[id.action], b[k + 1].tables.outbox[id.action], b[k].now)
  {
    hide Moved, WriteOf, RowAfter, PutOff, RowSafe, Settled, Consistent, Possible, PcSafe, Waits;
    RunSafe(b, es, k);
    assert CanHappen(b[k], es[k]) && SafeActor(b[k], id);
    DelaysForward(b, es, k, id);
    InlineEnds(id, b[k].actors[id], b[k].tables.outbox[id.action], b[k].now, o, b[k].gone);
  }

  /** A delay about to be written is positive. */
  predicate Waits(pc: Pc) {
    match pc
    case Failing(_, e) => e.RetryAfter? ==> e.seconds > 0
    case Delaying(_, d) => d > 0
    case _ => true
  }

  lemma DelaysForward(b: seq<State>, es: seq<Event>, k: nat, id: ActorId)
    requires Run(b, es) && k <= |es| && id in b[k].actors
    ensures Waits(b[k].actors[id].pc)
  {
    hide Run, Safe, Moved, NewActor, Possible, Waits;
    var i := LastStep(b, es, k, id);
    HaltedWaits();
    if id !in b[i].actors {
      StartWaits(id, b[i + 1].tables.outbox[id.action]);
    } else if es[i].Act? {
      MoveWaits(id, b[i].actors[id], b[i].tables.outbox[id.action].attempts, b[i].now, es[i].answer, b[i].gone);
    }
  }

  lemma HaltedWaits()
    ensures Waits(Halted)
  {}

  lemma StartWaits(id: ActorId, r: Row)
    ensures Waits(NewActor(id, r).pc)
  {}

  lemma MoveWaits(id: ActorId, a: Actor, attempts: nat, now: int, o: Answer, gone: set<(int, int)>)
    requires Possible(a, o, gone)
    ensures Waits(Moved(id, a, attempts, now, o).pc)
  {}

  lemma InlineEnds(id: ActorId, a: Actor, r: Row, now: int, o: Answer, gone: set<(int, int)>)
    requires id.Inline? && Possible(a, o, gone) && PcSafe(id, a, gone) && Waits(a.pc)
    requires var c := Moved(id, a, r.attempts, now, o); c.pc == Halted && c.clean
    ensures Settled(r, RowAfter(r, WriteOf(a, o), now), now)
  {}

  /** A visit deletes nothing and marks nothing as pending for a row without a source. */
  lemma {:induction false} VisitHasSource(b: seq<State>, es: seq<Event>, k: nat, id: ActorId)
    requires Run(b, es) && k <= |es| && id.Worker? && id in b[k].actors
    requires b[k].actors[id].pc == DeleteCall || b[k].actors[id].pc == RequestSend
    ensures b[k].actors[id].entry.source > 0
    decreases k
  {
    hide Run, Safe, Moved, NewActor, Possible, PcSafe;
    var i := LastStep(b, es, k, id);
    RunSafe(b, es, i);
    if id !in b[i].actors {
      StartHasSource(id, b[i + 1].tables.outbox[id.action]);
    } else if es[i].Act? {
      SafePc(b[i], id);
      MoveHasSource(id, b[i].actors[id], b[i].tables.outbox[id.action].attempts, b[i].now, es[i].answer, b[i].gone);
      if b[i].actors[id].pc == DeleteCall {
        VisitHasSource(b, es, i, id);
      }
    }
  }

  lemma SafePc(s: State, id: ActorId)
    requires Safe(s) && id in s.actors
    ensures PcSafe(id, s.actors[id], s.gone)
  {
    assert SafeActor(s, id);
  }

  lemma StartHasSource(id: ActorId, r: Row)
    requires id.Worker? && (NewActor(id, r).pc == DeleteCall || NewActor(id, r).pc == RequestSend)
    ensures NewActor(id, r).entry.source > 0
  {}

  lemma MoveHasSource(id: ActorId, a: Actor, attempts: nat, now: int, o: Answer, gone: set<(int, int)>)
    requires id.Worker? && Possible(a, o, gone) && PcSafe(id, a, gone)
    requires var c := Moved(id, a, attempts, now, o); c.pc == DeleteCall || c.pc == RequestSend
    ensures Moved(id, a, attempts, now, o).entry == a.entry && (a.pc == DeleteCall || a.entry.source > 0)
  {}

  // Where a row's payload, end and response come from

  /** What Telegram has answered to the actors of one action: it refused a copy for good, it refused a response or a
      deletion for good, and the ids of the messages it made. */
  datatype Told = Told(copyRefused: bool, callRefused: bool, ids: set<int>)

  /** That a message is not there is no refusal of its deletion. */
  function TellMore(t: Told, call: Pc, o: Answer): Told {
    if o.Refused? && !Passing(o.error) then
      if call == CopyCall then t.(copyRefused := true)
      else if call == SendCall || (call == DeleteCall && o.error != NotFound) then t.(callRefused := true)
      else t
    else if o.Accepted? && (call == CopyCall || call == SendCall) then t.(ids := t.ids + {o.id})
    else t
  }

  predicate Concerned(s: State, e: Event, n: nat) {
    e.Act? && e.id.action == n && e.id in s.actors
  }

  function ToldBy(b: seq<State>, es: seq<Event>, k: nat, n: nat): Told
    requires k <= |es| <= |b|
  {
    if k == 0 then Told(false, false, {})
    else if Concerned(b[k - 1], es[k - 1], n) then
      TellMore(ToldBy(b, es, k - 1, n), b[k - 1].actors[es[k - 1].id].pc, es[k - 1].answer)
    else ToldBy(b, es, k - 1, n)
  }

  /** What an actor's state tells of the answers before it. */
  predicate ActorTold(a: Actor, plan: Payload, t: Told) {
    && (a.pc == UseFallback || a.payload != plan ==> t.copyRefused)
    && (a.payload != plan ==> a.payload == plan.(op := Text, text := plan.fallback))
    && (a.pc.Failing? && !Passing(a.pc.error) ==> t.callRefused)
    && (a.response != 0 ==> a.response in t.ids)
    && (a.pc.CopyMade? ==> a.pc.copied in t.ids)
    && (a.pc.Finish? ==> a.pc.response in t.ids)
  }

  /** What a row and its action tell of them. */
  predicate RowTold(r: Row, c: Canon, t: Told) {
    && (r.payload != c.payload ==> t.copyRefused && r.payload == c.payload.(op := Text, text := c.payload.fallback))
    && (r.phase == Dead || c.state == DeadLetter ==> t.callRefused)
    && (r.response != 0 ==> r.response in t.ids)
    && (c.state == Sent ==> c.response in t.ids)
  }

  lemma MoveTold(id: ActorId, a: Actor, attempts: nat, now: int, o: Answer, gone: set<(int, int)>, plan: Payload,
                 t: Told)
    requires ActorTold(a, plan, t) && Possible(a, o, gone)
    ensures ActorTold(Moved(id, a, attempts, now, o), plan, TellMore(t, a.pc, o))
  {
    if a.pc == CopyCall || a.pc == SendCall || a.pc == DeleteCall {
      CallTold(id, a, attempts, now, o, gone, plan, t);
    } else {
      RecordTold(id, a, attempts, now, o, plan, t);
    }
  }

  lemma CallTold(id: ActorId, a: Actor, attempts: nat, now: int, o: Answer, gone: set<(int, int)>, plan: Payload,
                 t: Told)
    requires ActorTold(a, plan, t) && Possible(a, o, gone)
    requires a.pc == CopyCall || a.pc == SendCall || a.pc == DeleteCall
    ensures ActorTold(Moved(id, a, attempts, now, o), plan, TellMore(t, a.pc, o))
  {
    match a.pc
    case CopyCall =>
    case SendCall =>
    case _ =>
  }

  lemma RecordTold(id: ActorId, a: Actor, attempts: nat, now: int, o: Answer, plan: Payload, t: Told)
    requires ActorTold(a, plan, t) && (o == Stored || o == NotStored)
    requires a.pc != CopyCall && a.pc != SendCall && a.pc != DeleteCall
    ensures ActorTold(Moved(id, a, attempts, now, o), plan, t)
  {
    if a.pc == UseFallback || a.pc.CopyMade? {
      MediaTold(id, a, attempts, now, o, plan, t);
    } else {
      hide ActorTold;
      StartTold(a, Moved(id, a, attempts, now, o), plan, t);
    }
  }

  lemma MediaTold(id: ActorId, a: Actor, attempts: nat, now: int, o: Answer, plan: Payload, t: Told)
    requires ActorTold(a, plan, t) && (a.pc == UseFallback || a.pc.CopyMade?) && (o == Stored || o == NotStored)
    ensures ActorTold(Moved(id, a, attempts, now, o), plan, t)
  {}

  /** Only a copy, a fallback and a refused call put an actor where more is to be told. */
  lemma StartTold(a: Actor, c: Actor, plan: Payload, t: Told)
    requires ActorTold(a, plan, t) && c.payload == a.payload && c.response == a.response
    requires c.pc == a.pc || (c.pc == Finish(a.response) && a.response != 0)
             || !(c.pc == UseFallback || c.pc.Failing? || c.pc.CopyMade? || c.pc.Finish?)
    ensures ActorTold(c, plan, t)
  {}

  lemma WriteTold(id: ActorId, a: Actor, r: Row, c: Canon, o: Answer, now: int, gone: set<(int, int)>, t: Told)
    requires PcSafe(id, a, gone) && ActorTold(a, c.payload, t) && RowTold(r, c, t)
    ensures RowTold(RowAfter(r, WriteOf(a, o), now), CanonAfter(c, WriteOf(a, o)), TellMore(t, a.pc, o))
  {
    match a.pc
    case Failing(p, _) => assert ErrorPhaseSafe(a, p, gone);
    case Delaying(p, _) => assert ErrorPhaseSafe(a, p, gone);
    case _ =>
  }

  lemma NewActorTold(id: ActorId, r: Row, c: Canon, t: Told)
    requires RowTold(r, c, t)
    ensures ActorTold(NewActor(id, r), c.payload, t)
  {}

  lemma ToldGrows(t: Told, call: Pc, o: Answer)
    ensures forall a, plan :: ActorTold(a, plan, t) ==> ActorTold(a, plan, TellMore(t, call, o))
    ensures forall r, c :: RowTold(r, c, t) ==> RowTold(r, c, TellMore(t, call, o))
  {}

  ghost predicate RowToldIn(s: State, n: nat, t: Told) {
    RowIn(s, n) && RowTold(s.tables.outbox[n], s.tables.canon[n], t)
  }

  ghost predicate ActorToldIn(s: State, id: ActorId, t: Told) {
    id in s.actors && id.action in s.tables.canon && ActorTold(s.actors[id], s.tables.canon[id.action].payload, t)
  }

  /** Every row and every actor of the state knows only what Telegram has told. */
  ghost predicate AllTold(b: seq<State>, es: seq<Event>, k: nat)
    requires k <= |es| < |b|
  {
    && (forall n | n in b[k].tables.outbox :: RowToldIn(b[k], n, ToldBy(b, es, k, n)))
    && (forall id | id in b[k].actors :: ActorToldIn(b[k], id, ToldBy(b, es, k, id.action)))
  }

  lemma ActTold(s: State, id: ActorId, o: Answer, t: Told)
    requires Safe(s) && CanHappen(s, Act(id, o)) && RowToldIn(s, id.action, t) && ActorToldIn(s, id, t)
    ensures var s', t' := ActStep(s, id, o), TellMore(t, s.actors[id].pc, o);
            RowToldIn(s', id.action, t') && ActorToldIn(s', id, t')
  {
    hide ActorTold, RowTold, Moved, WriteOf, RowAfter, CanonAfter, PcSafe, RowSafe, Consistent, Possible, TellMore;
    var a, r, c := s.actors[id], s.tables.outbox[id.action], s.tables.canon[id.action];
    assert SafeActor(s, id);
    MoveTold(id, a, r.attempts, s.now, o, s.gone, c.payload, t);
    WriteTold(id, a, r, c, o, s.now, s.gone, t);
    CanonKeepsPlan(c, WriteOf(a, o));
  }

  lemma CanonKeepsPlan(c: Canon, w: Write)
    ensures CanonAfter(c, w).payload == c.payload
  {}

  lemma ActToldOthers(s: State, id: ActorId, o: Answer, t: Told, n: nat, j: ActorId)
    requires Safe(s) && CanHappen(s, Act(id, o)) && RowIn(s, id.action)
    ensures n != id.action && RowToldIn(s, n, t) ==> RowToldIn(ActStep(s, id, o), n, t)
    ensures j != id && ActorToldIn(s, j, t) ==> ActorToldIn(ActStep(s, id, o), j, t)
  {
    hide ActorTold, RowTold, Moved, WriteOf, RowAfter, CanonAfter, Safe, Possible;
    CanonKeepsPlan(s.tables.canon[id.action], WriteOf(s.actors[id], o));
  }

  lemma ClaimTold(s: State, token: nat, n: nat, id: ActorId, t: Told)
    requires Safe(s)
    ensures RowToldIn(s, n, t) ==> RowToldIn(ClaimStep(s, token), n, t)
    ensures id in s.actors && id !in Visits(Claimed(s.tables, token, s.now), token) && ActorToldIn(s, id, t) ==>
              ActorToldIn(ClaimStep(s, token), id, t)
    ensures id in Visits(Claimed(s.tables, token, s.now), token) && RowToldIn(s, id.action, t) ==>
              ActorToldIn(ClaimStep(s, token), id, t)
  {
    hide ActorTold, NewActor, Safe;
    var s' := ClaimStep(s, token);
    if RowToldIn(s, id.action, t) && id in Visits(s'.tables, token) {
      NewActorTold(id, s'.tables.outbox[id.action], s'.tables.canon[id.action], t);
    }
  }

  lemma CreateTold(s: State, k: Key, p: Payload, source: int, n: nat, id: ActorId, t: Told)
    requires Safe(s) && Hex(k.fingerprint)
    ensures n in CreateStep(s, k, p, source).tables.outbox && (n in s.tables.outbox ==> RowToldIn(s, n, t)) ==>
              RowToldIn(CreateStep(s, k, p, source), n, t)
    ensures id in CreateStep(s, k, p, source).actors && (id in s.actors ==> ActorToldIn(s, id, t)) ==>
              ActorToldIn(CreateStep(s, k, p, source), id, t)
  {
    hide NewActor, Consistent, ActorSafe, RowSafe, Hex, ActorTold, Holder, Expired;
    if Wins(s.tables, k, s.now) {
      CreatedKeeps(s.tables, k, p, source, s.now);
      var s' := CreateStep(s, k, p, source);
      var m := s'.tables.lastId;
      NewActorTold(Inline(m), s'.tables.outbox[m], s'.tables.canon[m], t);
      assert id in s.actors ==> SafeActor(s, id);
    }
  }

  function ToldAfter(s: State, e: Event, n: nat, t: Told): Told {
    if Concerned(s, e, n) then TellMore(t, s.actors[e.id].pc, e.answer) else t
  }

  lemma RowStepTold(s: State, e: Event, n: nat, t: Told)
    requires Safe(s) && CanHappen(s, e) && n in Step(s, e).tables.outbox
    requires n in s.tables.outbox ==> RowToldIn(s, n, t)
    requires e.Act? && e.id.action == n ==> ActorToldIn(s, e.id, t)
    ensures RowToldIn(Step(s, e), n, ToldAfter(s, e, n, t))
  {
    hide ActorTold, RowTold, Safe, TellMore, CreateStep, Possible, Moved, NewActor, WriteOf, RowAfter, CanonAfter;
    match e
    case Act(i, o) => ActRowTold(s, i, o, n, t);
    case Create(key, p, source) => CreateTold(s, key, p, source, n, Inline(n), t);
    case Claim(token) => ClaimTold(s, token, n, Inline(n), t);
    case _ =>
  }

  lemma ActRowTold(s: State, i: ActorId, o: Answer, n: nat, t: Told)
    requires Safe(s) && CanHappen(s, Act(i, o)) && RowToldIn(s, n, t)
    requires i.action == n ==> ActorToldIn(s, i, t)
    ensures RowToldIn(ActStep(s, i, o), n, ToldAfter(s, Act(i, o), n, t))
  {
    hide ActorTold, RowTold, ActStep, Possible, TellMore, Consistent, ActorSafe, RowSafe;
    assert SafeActor(s, i);
    if n == i.action { ActTold(s, i, o, t); } else { ActToldOthers(s, i, o, t, n, i); }
  }

  lemma ActorStepTold(s: State, e: Event, id: ActorId, t: Told)
    requires Safe(s) && CanHappen(s, e) && id in Step(s, e).actors
    requires id in s.actors ==> ActorToldIn(s, id, t)
    requires id.action in s.tables.outbox ==> RowToldIn(s, id.action, t)
    requires e.Act? && e.id.action == id.action ==> ActorToldIn(s, e.id, t)
    ensures ActorToldIn(Step(s, e), id, ToldAfter(s, e, id.action, t))
  {
    hide ActorTold, RowTold, Safe, TellMore, CreateStep, Possible, NewActor, Moved;
    match e
    case Act(i, o) => ActActorTold(s, i, o, id, t);
    case Create(key, p, source) => CreateTold(s, key, p, source, id.action, id, t);
    case Claim(token) =>
      assert id in Visits(Claimed(s.tables, token, s.now), token) ==> id.action in s.tables.outbox;
      ClaimTold(s, token, id.action, id, t);
    case Stop(i) => StoppedTold(s, i, id, t);
    case _ =>
  }

  lemma StoppedTold(s: State, i: ActorId, id: ActorId, t: Told)
    requires i in s.actors && ActorToldIn(s, id, t)
    ensures ActorToldIn(Step(s, Stop(i)), id, t)
  {}

  lemma ActActorTold(s: State, i: ActorId, o: Answer, id: ActorId, t: Told)
    requires Safe(s) && CanHappen(s, Act(i, o)) && id in s.actors && ActorToldIn(s, id, t)
    requires i.action == id.action ==> ActorToldIn(s, i, t) && RowToldIn(s, i.action, t)
    ensures ActorToldIn(ActStep(s, i, o), id, ToldAfter(s, Act(i, o), id.action, t))
  {
    hide ActorTold, RowTold, ActStep, Possible, TellMore, Consistent, ActorSafe, RowSafe;
    assert SafeActor(s, i);
    if id == i {
      ActTold(s, i, o, t);
    } else {
      ActToldOthers(s, i, o, t, id.action, id);
      ToldGrows(t, s.actors[i].pc, o);
    }
  }

  lemma ActorActs(s: State, e: Event)
    requires CanHappen(s, e)
    ensures e.Act? ==> e.id in s.actors
  {}

  lemma StepTold(b: seq<State>, es: seq<Event>, k: nat)
    requires Run(b, es) && k < |es| && Safe(b[k]) && AllTold(b, es, k)
    ensures AllTold(b, es, k + 1)
  {
    hide Safe, Step, CanHappen, RowToldIn, ActorToldIn, Concerned;
    var s, e, s' := b[k], es[k], b[k + 1];
    assert CanHappen(s, e) && s' == Step(s, e);
    ActorActs(s, e);
    forall n | n in s'.tables.outbox ensures RowToldIn(s', n, ToldBy(b, es, k + 1, n)) {
      RowStepTold(s, e, n, ToldBy(b, es, k, n));
    }
    forall id | id in s'.actors ensures ActorToldIn(s', id, ToldBy(b, es, k + 1, id.action)) {
      ActorStepTold(s, e, id, ToldBy(b, es, k, id.action));
    }
  }

  lemma {:induction false} RunTold(b: seq<State>, es: seq<Event>, k: nat)
    requires Run(b, es) && k <= |es|
    ensures k < |b| && AllTold(b, es, k)
  {
    hide Safe, Step, CanHappen, RowToldIn, ActorToldIn;
    if k > 0 {
      RunTold(b, es, k - 1);
      RunSafe(b, es, k - 1);
      StepTold(b, es, k - 1);
    }
  }

  // Main results

  /** Event j: an actor of the action made this call, and got this answer. */
  ghost predicate Answered(b: seq<State>, es: seq<Event>, j: nat, n: nat, call: Pc, o: Answer) {
    && j < |es| < |b| && es[j].Act? && es[j].id.action == n && es[j].answer == o
    && es[j].id in b[j].actors && b[j].actors[es[j].id].pc == call
  }

  lemma {:induction false} CopyRefusal(b: seq<State>, es: seq<Event>, k: nat, n: nat) returns (j: nat, e: Error)
    requires k <= |es| < |b| && ToldBy(b, es, k, n).copyRefused
    ensures j < k && !Passing(e) && Answered(b, es, j, n, CopyCall, Refused(e))
  {
    if ToldBy(b, es, k - 1, n).copyRefused {
      j, e := CopyRefusal(b, es, k - 1, n);
    } else {
      j, e := k - 1, es[k - 1].answer.error;
    }
  }

  lemma {:induction false} CallRefusal(b: seq<State>, es: seq<Event>, k: nat, n: nat) returns (j: nat, e: Error)
    requires k <= |es| < |b| && ToldBy(b, es, k, n).callRefused
    ensures j < k && !Passing(e)
    ensures Answered(b, es, j, n, SendCall, Refused(e)) || (e != NotFound
            && Answered(b, es, j, n, DeleteCall, Refused(e)))
  {
    if ToldBy(b, es, k - 1, n).callRefused {
      j, e := CallRefusal(b, es, k - 1, n);
    } else {
      j, e := k - 1, es[k - 1].answer.error;
    }
  }

  lemma {:induction false} Acceptance(b: seq<State>, es: seq<Event>, k: nat, n: nat, x: int) returns (j: nat)
    requires k <= |es| < |b| && x in ToldBy(b, es, k, n).ids
    ensures j < k
    ensures Answered(b, es, j, n, CopyCall, Accepted(x)) || Answered(b, es, j, n, SendCall, Accepted(x))
  {
    if x in ToldBy(b, es, k - 1, n).ids {
      j := Acceptance(b, es, k - 1, n, x);
    } else {
      j := k - 1;
    }
  }

  /** Media is given up only for good reason: if the payload of a row is no longer its plan, the plan was a copy,
      Telegram refused one for good, and the row is now the plan's uncut fallback text. */
  lemma FallbackHasRefusal(b: seq<State>, es: seq<Event>, k: nat, n: nat) returns (j: nat, e: Error)
    requires Run(b, es) && k < |b| && n in b[k].tables.outbox && n in b[k].tables.canon
    requires b[k].tables.outbox[n].payload != b[k].tables.canon[n].payload
    ensures j < k && !Passing(e) && Answered(b, es, j, n, CopyCall, Refused(e))
    ensures var p, plan := b[k].tables.outbox[n].payload, b[k].tables.canon[n].payload;
            plan.op == CopyMedia && p == Payload(Text, plan.fallback, plan.replyTo, plan.fallback)
  {
    RunTold(b, es, k);
    RunSafe(b, es, k);
    assert RowToldIn(b[k], n, ToldBy(b, es, k, n)) && SafeAt(b[k], n);
    j, e := CopyRefusal(b, es, k, n);
  }

  /** No action is given up but for a refusal for good of its response or of its deletion: never for a refused copy, and
      never because the source was not there. */
  lemma DeadHasRefusal(b: seq<State>, es: seq<Event>, k: nat, n: nat) returns (j: nat, e: Error)
    requires Run(b, es) && k < |b| && n in b[k].tables.outbox && n in b[k].tables.canon
    requires b[k].tables.outbox[n].phase == Dead || b[k].tables.canon[n].state == DeadLetter
    ensures j < k && !Passing(e)
    ensures Answered(b, es, j, n, SendCall, Refused(e)) || (e != NotFound
            && Answered(b, es, j, n, DeleteCall, Refused(e)))
  {
    RunTold(b, es, k);
    assert RowToldIn(b[k], n, ToldBy(b, es, k, n));
    j, e := CallRefusal(b, es, k, n);
  }

  /** Whatever response id is stored, Telegram gave it to a copy or a response of that very action. */
  lemma ResponseWasAnswered(b: seq<State>, es: seq<Event>, k: nat, n: nat, x: int) returns (j: nat)
    requires Run(b, es) && k < |b| && n in b[k].tables.outbox && n in b[k].tables.canon
    requires (x != 0 && b[k].tables.outbox[n].response == x)
             || (b[k].tables.canon[n].state == Sent && b[k].tables.canon[n].response == x)
    ensures j < k
    ensures Answered(b, es, j, n, CopyCall, Accepted(x)) || Answered(b, es, j, n, SendCall, Accepted(x))
  {
    RunTold(b, es, k);
    assert RowToldIn(b[k], n, ToldBy(b, es, k, n));
    j := Acceptance(b, es, k, n, x);
  }

  /** What is posted: whenever Telegram accepts a copy or a response, it goes to the chat and topic of the action; a
      copy carries the planned caption, a response the planned text, and for a planned copy the uncut fallback, after
      Telegram refused a copy for good. */
  lemma PostedText(b: seq<State>, es: seq<Event>, k: nat)
    requires Run(b, es) && k < |es| && es[k].Act? && Responds(b[k].actors[es[k].id], es[k].answer)
    ensures es[k].id.action in b[k].tables.canon
    ensures var a, c := b[k].actors[es[k].id], b[k].tables.canon[es[k].id.action];
            && a.entry.chat == c.key.chat && a.entry.thread == c.key.thread
            && (a.pc == CopyCall ==> c.payload.op == CopyMedia && a.payload == c.payload)
            && (a.pc == SendCall && c.payload.op != CopyMedia ==> a.payload == c.payload)
            && (a.pc == SendCall && c.payload.op == CopyMedia ==>
                 a.payload.op == Text && a.payload.text == c.payload.fallback
                 && exists j: nat, e ::
                     j < k && !Passing(e)
                     && Answered(b, es, j, es[k].id.action, CopyCall, Refused(e)))
  {
    var id := es[k].id;
    RunTold(b, es, k);
    RunSafe(b, es, k);
    assert CanHappen(b[k], es[k]);
    assert SafeActor(b[k], id) && SafeAt(b[k], id.action);
    assert ActorToldIn(b[k], id, ToldBy(b, es, k, id.action));
    if b[k].actors[id].payload != b[k].tables.canon[id.action].payload {
      var j, e := CopyRefusal(b, es, k, id.action);
    }
  }
}
