/** Why the timing assumption of ProtocolExclusive is needed. The inline path takes no lease and a new row is due
    at once, so a worker may claim the row under it; and updates are keyed on the action alone, so the slower
    actor reopens the row the faster one completed. */
module ProtocolLimits {
  import opened Tables
  import opened Canonical
  import opened Protocol
  import opened ProtocolExclusive

  lemma FirstCreation(now: int, k: Key, p: Payload, source: int)
    ensures Wins(EMPTY, k, now) && Created(EMPTY, k, p, source, now) == Inserted(EMPTY, k, p, source, now)
  {
    assert forall a :: !Holds(EMPTY, a, k);
  }

  const INLINE := Inline(1)
  const WORKER := Worker(1, 0)

  /** Row 1 is in phase p; its inline path and its worker are where they are said to be. */
  predicate Shows(s: State, p: Phase, inline: Pc, worker: Pc, visible: nat) {
    && 1 in s.tables.outbox && s.tables.outbox[1].phase == p
    && s.actors.Keys == {INLINE, WORKER}
    && s.actors[INLINE].pc == inline && s.actors[WORKER].pc == worker
    && s.actors[INLINE].payload.op == Text && s.actors[WORKER].payload.op == Text
    && s.actors[INLINE].response == 0 && s.actors[WORKER].response == 0
    && Visible(s, 1) == visible
  }

  /** The steps of a text response that meet no trouble. */
  predicate Smooth(pc: Pc, o: Answer) {
    match pc
    case RequestDelete(_) => o == Stored
    case DeleteCall => o == Accepted(1) || o == Refused(NotFound)
    case RequestSend => o == Stored
    case SendCall => o.Accepted? && o.id > 0
    case Finish(_) => o == Stored
    case _ => false
  }

  function NextPc(pc: Pc, o: Answer): Pc {
    match pc
    case RequestDelete(_) => DeleteCall
    case DeleteCall => RequestSend
    case RequestSend => SendCall
    case SendCall => if o.Accepted? then Finish(o.id) else pc
    case _ => Halted
  }

  function NextPhase(p: Phase, pc: Pc): Phase {
    match pc
    case RequestDelete(_) => DeleteRequested
    case RequestSend => SendPending
    case Finish(_) => Complete
    case _ => p
  }

  lemma SmoothMove(id: ActorId, a: Actor, r: Row, now: int, o: Answer)
    requires Smooth(a.pc, o) && a.payload.op == Text && a.response == 0
    ensures var b := Moved(id, a, r.attempts, now, o);
            && b.pc == NextPc(a.pc, o) && b.entry == a.entry && b.payload == a.payload && b.response == 0
            && b.accepted == (a.accepted || a.pc == SendCall) && (a.pc.Finish? && a.accepted ==> b.recorded)
    ensures RowAfter(r, WriteOf(a, o), now).phase == NextPhase(r.phase, a.pc)
    ensures Responds(a, o) <==> a.pc == SendCall
  {}

  /** One smooth step of one of the two, seen from outside. */
  lemma ShowsAct(s: State, p: Phase, inline: Pc, worker: Pc, visible: nat, id: ActorId, o: Answer) returns (s': State)
    requires Shows(s, p, inline, worker, visible) && (id == INLINE || id == WORKER) && Smooth(s.actors[id].pc, o)
    requires o == Refused(NotFound) ==> Source(s.actors[id]) in s.gone
    ensures CanHappen(s, Act(id, o)) && s' == Step(s, Act(id, o))
    ensures var pc := s.actors[id].pc;
            && Shows(s', NextPhase(p, pc), if id == INLINE then NextPc(pc, o) else inline,
                     if id == WORKER then NextPc(pc, o) else worker, visible + if pc == SendCall then 1 else 0)
            && (if id == INLINE then s'.actors[WORKER] == s.actors[WORKER] else s'.actors[INLINE] == s.actors[INLINE])
            && Source(s'.actors[id]) == Source(s.actors[id])
            && s.gone <= s'.gone && (pc == DeleteCall ==> Source(s.actors[id]) in s'.gone)
            && s'.actors[id].accepted == (s.actors[id].accepted || pc == SendCall)
            && (pc.Finish? && s.actors[id].accepted ==> s'.actors[id].recorded)
  {
    hide Moved, WriteOf, RowAfter;
    assert Possible(s.actors[id], o, s.gone);
    SmoothMove(id, s.actors[id], s.tables.outbox[1], s.now, o);
    s' := ActStep(s, id, o);
  }

  lemma StepsConcat(b: seq<State>, es: seq<Event>, c: seq<State>, fs: seq<Event>)
    requires Steps(b, es) && Steps(c, fs) && c[0] == b[|b| - 1]
    ensures Steps(b + c[1..], es + fs)
  {
    var d, gs := b + c[1..], es + fs;
    forall k | 0 <= k < |gs| ensures CanHappen(d[k], gs[k]) && d[k + 1] == Step(d[k], gs[k]) {
      if k >= |es| {
        var i := k - |es|;
        assert d[k] == c[i] && d[k + 1] == c[i + 1] && gs[k] == fs[i];
      }
    }
  }

  /** The new row 1, whose inline path has read its attempts. */
  ghost predicate Reading(s: State, key: Key, payload: Payload) {
    && s.now == 0 && s.tables == Inserted(EMPTY, key, payload, 5, 0) && s.tokens == {} && s.visible == map[1 := 0]
    && s.actors.Keys == {INLINE} && s.actors[INLINE].pc == RequestDelete(1)
    && s.actors[INLINE].entry == s.tables.outbox[1] && s.actors[INLINE].payload == payload
    && s.actors[INLINE].response == 0 && HistoryOk(s.actors[INLINE])
  }

  lemma InlineReads(key: Key, payload: Payload) returns (b: seq<State>, es: seq<Event>)
    requires Hex(key.fingerprint) && payload.op == Text
    ensures es == [Create(key, payload, 5), Act(INLINE, Stored)] && |b| == 3 && Run(b, es)
            && Reading(b[2], key, payload)
  {
    hide Wins, Created, Holder, Hex;
    FirstCreation(0, key, payload, 5);
    es := [Create(key, payload, 5), Act(INLINE, Stored)];
    var s0 := State(0, EMPTY, {}, map[], {}, map[]);
    var s1 := Step(s0, es[0]);
    WrittenNothing(s1.tables, 1, 0);
    b := [s0, s1, Step(s1, es[1])];
  }

  lemma ClaimShows(s: State, key: Key, payload: Payload)
    requires payload.op == Text && Reading(s, key, payload)
    ensures CanHappen(s, Claim(0)) && !Timely(s, Claim(0))
    ensures var s' := Step(s, Claim(0));
            && Shows(s', Planned, RequestDelete(1), DeleteCall, 0)
            && Source(s'.actors[INLINE]) == Source(s'.actors[WORKER])
            && HistoryOk(s'.actors[INLINE]) && HistoryOk(s'.actors[WORKER])
  {
    assert Selected(Claimed(s.tables, 0, 0), 0) == {1};
    assert Step(s, Claim(0)).actors[WORKER].pc == DeleteCall;
  }

  /** An action is created, its inline path reads the attempts, and a worker claims the row. */
  lemma WorkerClaimsEarly(key: Key, payload: Payload) returns (b: seq<State>, es: seq<Event>)
    requires Hex(key.fingerprint) && payload.op == Text
    ensures |b| == 4 && Run(b, es) && !Timely(b[2], es[2])
    ensures es[0].Create? && es[1] == Act(INLINE, Stored) && es[2] == Claim(0)
    ensures Shows(b[3], Planned, RequestDelete(1), DeleteCall, 0)
    ensures Source(b[3].actors[INLINE]) == Source(b[3].actors[WORKER])
    ensures HistoryOk(b[3].actors[INLINE]) && HistoryOk(b[3].actors[WORKER])
  {
    b, es := InlineReads(key, payload);
    ClaimShows(b[2], key, payload);
    RunSnoc(b, es, Claim(0));
    b, es := b + [Step(b[2], Claim(0))], es + [Claim(0)];
  }

  /** The assumption is not empty: a reply that meets no trouble is delivered once, in a timely run. */
  lemma {:induction false} ReplyDelivered(key: Key, payload: Payload) returns (b: seq<State>, es: seq<Event>)
    requires Hex(key.fingerprint) && payload.op == Reply
    ensures |b| == 5 && TimelyRun(b, es) && Visible(b[4], 1) == 1
    ensures 1 in b[4].tables.outbox && b[4].tables.outbox[1].phase == Complete && b[4].tables.outbox[1].response == 7
  {
    hide Wins, Created, Holder, Hex;
    FirstCreation(0, key, payload, 5);
    es := [Create(key, payload, 5), Act(INLINE, Stored), Act(INLINE, Accepted(7)), Act(INLINE, Stored)];
    var s0 := State(0, EMPTY, {}, map[], {}, map[]);
    var s1 := Step(s0, es[0]);
    var s2 := Step(s1, es[1]);
    assert s2.actors[INLINE].pc == SendCall;
    var s3 := Step(s2, es[2]);
    assert s3.actors[INLINE].pc == Finish(7);
    b := [s0, s1, s2, s3, Step(s3, es[3])];
  }

  /** Two smooth steps of one of the two. */
  lemma TwoSteps(s: State, p: Phase, inline: Pc, worker: Pc, visible: nat, id: ActorId, o: Answer, o': Answer)
    returns (b: seq<State>)
    requires Shows(s, p, inline, worker, visible) && (id == INLINE || id == WORKER)
    requires Smooth(s.actors[id].pc, o) && Smooth(NextPc(s.actors[id].pc, o), o') && o' != Refused(NotFound)
    requires o == Refused(NotFound) ==> Source(s.actors[id]) in s.gone
    ensures |b| == 3 && b[0] == s && Steps(b, [Act(id, o), Act(id, o')])
    ensures var pc := s.actors[id].pc;
            var next := NextPc(pc, o);
            var last := NextPc(next, o');
            && Shows(b[2], NextPhase(NextPhase(p, pc), next), if id == INLINE then last else inline,
                     if id == WORKER then last else worker,
                     visible + (if pc == SendCall then 1 else 0) + (if next == SendCall then 1 else 0))
            && (if id == INLINE then b[2].actors[WORKER] == s.actors[WORKER]
                else b[2].actors[INLINE] == s.actors[INLINE])
            && s.gone <= b[2].gone
            && (pc == DeleteCall ==> Source(s.actors[id]) in b[2].gone)
            && (pc == SendCall && next.Finish? ==> b[2].actors[id].recorded)
  {
    hide Step, CanHappen, Visible, Possible, Moved;
    var pc := s.actors[id].pc;
    var s1 := ShowsAct(s, p, inline, worker, visible, id, o);
    var seen := visible + if pc == SendCall then 1 else 0;
    var s2 := ShowsAct(s1, NextPhase(p, pc), if id == INLINE then NextPc(pc, o) else inline,
                       if id == WORKER then NextPc(pc, o) else worker, seen, id, o');
    b := [s, s1, s2];
  }

  lemma TimelySnoc(b: seq<State>, es: seq<Event>, e: Event)
    requires TimelyRun(b, es) && CanHappen(b[|es|], e) && Timely(b[|es|], e)
    ensures TimelyRun(b + [Step(b[|es|], e)], es + [e])
  {
    hide Step, CanHappen, Timely, Initial;
    var c, fs := b + [Step(b[|es|], e)], es + [e];
    forall k | 0 <= k < |fs| ensures CanHappen(c[k], fs[k]) && c[k + 1] == Step(c[k], fs[k]) && Timely(c[k], fs[k]) {
      assert k < |es| ==> c[k] == b[k] && c[k + 1] == b[k + 1] && fs[k] == es[k];
    }
  }

  /** A reply row and the visit of its worker. */
  predicate Replies(s: State, p: Phase, worker: Pc, visible: nat) {
    && s.now == 0 && 1 in s.tables.outbox && s.tables.outbox[1].phase == p
    && s.actors.Keys == {INLINE, WORKER} && s.actors[WORKER].pc == worker && s.actors[WORKER].deadline == 60
    && s.actors[WORKER].payload.op == Reply && s.actors[WORKER].response == 0
    && !s.actors[INLINE].accepted && Visible(s, 1) == visible
  }

  /** The inline path stops at once. */
  lemma InlineStops(key: Key, payload: Payload) returns (b: seq<State>, es: seq<Event>)
    requires Hex(key.fingerprint)
    ensures es == [Create(key, payload, 5), Stop(INLINE)] && |b| == 3 && TimelyRun(b, es)
    ensures var s := b[2];
            && s.now == 0 && s.tables == Inserted(EMPTY, key, payload, 5, 0) && s.tokens == {}
               && s.visible == map[1 := 0]
            && s.actors.Keys == {INLINE} && s.actors[INLINE].pc == Halted && !s.actors[INLINE].accepted
  {
    hide Wins, Created, Holder, Hex, StartPc;
    FirstCreation(0, key, payload, 5);
    es := [Create(key, payload, 5), Stop(INLINE)];
    var s0 := State(0, EMPTY, {}, map[], {}, map[]);
    var s1 := Step(s0, es[0]);
    b := [s0, s1, Step(s1, es[1])];
  }

  /** And then a worker claims the row. */
  lemma WorkerClaims(key: Key, payload: Payload) returns (b: seq<State>, es: seq<Event>)
    requires Hex(key.fingerprint) && payload.op == Reply
    ensures es == [Create(key, payload, 5), Stop(INLINE), Claim(0)]
    ensures |b| == 4 && TimelyRun(b, es) && Replies(b[3], Planned, RequestSend, 0)
  {
    hide TimelyRun;
    b, es := InlineStops(key, payload);
    ClaimReplies(b[2], key, payload);
    RunLength(b, es);
    TimelySnoc(b, es, Claim(0));
    b, es := b + [Step(b[2], Claim(0))], es + [Claim(0)];
  }

  lemma RunLength(b: seq<State>, es: seq<Event>)
    requires TimelyRun(b, es)
    ensures |b| == |es| + 1
  {}

  lemma ClaimReplies(s: State, key: Key, payload: Payload)
    requires payload.op == Reply && s.now == 0 && s.tables == Inserted(EMPTY, key, payload, 5, 0) && s.tokens == {}
    requires s.visible == map[1 := 0] && s.actors.Keys == {INLINE} && s.actors[INLINE].pc == Halted
    requires !s.actors[INLINE].accepted
    ensures CanHappen(s, Claim(0)) && Timely(s, Claim(0)) && Replies(Step(s, Claim(0)), Planned, RequestSend, 0)
  {
    assert Selected(Claimed(s.tables, 0, 0), 0) == {1};
    assert Step(s, Claim(0)).actors[WORKER].pc == RequestSend;
  }

  lemma ReplySteps(s: State, p: Phase, worker: Pc, visible: nat, o: Answer)
    requires Replies(s, p, worker, visible)
    requires (worker == RequestSend && o == Stored) || (worker == SendCall && o == Accepted(7))
             || (worker == Finish(7) && o == Stored && s.actors[WORKER].accepted)
    ensures var e := Act(WORKER, o);
            && CanHappen(s, e) && Timely(s, e)
            && Replies(Step(s, e), NextPhase(p, worker), NextPc(worker, o),
                       visible + if worker == SendCall then 1 else 0)
            && (worker == SendCall ==> Step(s, e).actors[WORKER].accepted)
            && (worker == Finish(7) ==> Step(s, e).actors[WORKER].recorded && Step(s, e).tables.outbox[1].response == 7)
  {}

  /** Nor is it empty for workers: after the inline path has stopped, a worker claims the row and delivers the reply. */
  lemma {:induction false} WorkerDelivers(key: Key, payload: Payload) returns (b: seq<State>, es: seq<Event>)
    requires Hex(key.fingerprint) && payload.op == Reply
    ensures es == [Create(key, payload, 5), Stop(INLINE), Claim(0)]
                  + [Act(WORKER, Stored)] + [Act(WORKER, Accepted(7))] + [Act(WORKER, Stored)]
    ensures |b| == 7 && TimelyRun(b, es) && Visible(b[6], 1) == 1 && AbandonedOn(b[6], 1) == {}
    ensures 1 in b[6].tables.outbox && b[6].tables.outbox[1].phase == Complete && b[6].tables.outbox[1].response == 7
  {
    hide Step, CanHappen, Timely, Visible;
    b, es := WorkerClaims(key, payload);
    ReplySteps(b[3], Planned, RequestSend, 0, Stored);
    TimelySnoc(b, es, Act(WORKER, Stored));
    b, es := b + [Step(b[3], Act(WORKER, Stored))], es + [Act(WORKER, Stored)];
    ReplySteps(b[4], SendPending, SendCall, 0, Accepted(7));
    TimelySnoc(b, es, Act(WORKER, Accepted(7)));
    b, es := b + [Step(b[4], Act(WORKER, Accepted(7)))], es + [Act(WORKER, Accepted(7))];
    ReplySteps(b[5], SendPending, Finish(7), 1, Stored);
    TimelySnoc(b, es, Act(WORKER, Stored));
    b, es := b + [Step(b[5], Act(WORKER, Stored))], es + [Act(WORKER, Stored)];
  }

  /** The worker deletes, sends and completes, undisturbed. */
  lemma WorkerCompletes(s: State) returns (b: seq<State>, es: seq<Event>)
    requires Shows(s, Planned, RequestDelete(1), DeleteCall, 0)
    ensures es == [Act(WORKER, Accepted(1)), Act(WORKER, Stored), Act(WORKER, Accepted(7)), Act(WORKER, Stored)]
    ensures |b| == 5 && Steps(b, es) && b[0] == s
    ensures Shows(b[4], Complete, RequestDelete(1), Halted, 1) && b[4].actors[WORKER].recorded
    ensures Source(s.actors[WORKER]) in b[4].gone && b[4].actors[INLINE] == s.actors[INLINE]
  {
    hide Step, CanHappen, Visible, Steps;
    var b1 := TwoSteps(s, Planned, RequestDelete(1), DeleteCall, 0, WORKER, Accepted(1), Stored);
    var b2 := TwoSteps(b1[2], SendPending, RequestDelete(1), SendCall, 0, WORKER, Accepted(7), Stored);
    var es1 := [Act(WORKER, Accepted(1)), Act(WORKER, Stored)];
    var es2 := [Act(WORKER, Accepted(7)), Act(WORKER, Stored)];
    StepsConcat(b1, es1, b2, es2);
    b, es := b1 + b2[1..], es1 + es2;
  }

  /** The inline path goes on: it reopens the row, finds the source gone, and sends as well. */
  lemma InlineReopens(s: State) returns (b: seq<State>, es: seq<Event>)
    requires Shows(s, Complete, RequestDelete(1), Halted, 1)
    requires Source(s.actors[INLINE]) in s.gone
    ensures es == [Act(INLINE, Stored), Act(INLINE, Refused(NotFound)), Act(INLINE, Stored), Act(INLINE, Accepted(8)),
                   Act(INLINE, Stored)]
    ensures |b| == 6 && Steps(b, es) && b[0] == s && Shows(b[1], DeleteRequested, DeleteCall, Halted, 1)
    ensures Shows(b[5], Complete, Halted, Halted, 2) && b[5].actors[WORKER] == s.actors[WORKER]
    ensures b[5].actors[INLINE].recorded
  {
    hide Step, CanHappen, Visible, Steps;
    var s1 := ShowsAct(s, Complete, RequestDelete(1), Halted, 1, INLINE, Stored);
    OneStep(s, Act(INLINE, Stored));
    var b1 := TwoSteps(s1, DeleteRequested, DeleteCall, Halted, 1, INLINE, Refused(NotFound), Stored);
    var b2 := TwoSteps(b1[2], SendPending, SendCall, Halted, 1, INLINE, Accepted(8), Stored);
    var es1 := [Act(INLINE, Refused(NotFound)), Act(INLINE, Stored)];
    var es2 := [Act(INLINE, Accepted(8)), Act(INLINE, Stored)];
    StepsConcat(b1, es1, b2, es2);
    StepsConcat([s, s1], [Act(INLINE, Stored)], b1 + b2[1..], es1 + es2);
    b, es := [s, s1] + (b1 + b2[1..])[1..], [Act(INLINE, Stored)] + (es1 + es2);
  }

  lemma OneStep(s: State, e: Event)
    requires CanHappen(s, e)
    ensures Steps([s, Step(s, e)], [e])
  {}

  /** Two responses become visible for one action with no stop, no failed write and no passed deadline: the worker
      completes the row while the inline path is on its way, and the inline path reopens it and sends again. The
      run is not timely, for it claims a row whose inline path still runs. */
  lemma {:induction false} InlineAndWorkerBothRespond(key: Key, payload: Payload)
    returns (b: seq<State>, es: seq<Event>)
    requires Hex(key.fingerprint) && payload.op == Text
    ensures |b| == 13 && Run(b, es) && !TimelyRun(b, es)
    ensures forall e | e in es :: !e.Stop? && !e.Tick? && (e.Act? ==> e.answer != NotStored)
    ensures Visible(b[12], 1) == 2 && AbandonedOn(b[12], 1) == {}
    ensures 1 in b[7].tables.outbox && b[7].tables.outbox[1].phase == Complete
    ensures 1 in b[8].tables.outbox && b[8].tables.outbox[1].phase == DeleteRequested
  {
    hide CanHappen, Step, Timely;
    var b1, es1 := WorkerClaimsEarly(key, payload);
    var b2, es2 := WorkerCompletes(b1[3]);
    var b3, es3 := InlineReopens(b2[4]);
    b, es := b1 + b2[1..] + b3[1..], es1 + es2 + es3;
    Joined(b1, es1, b2, es2, b3, es3);
    NothingAbandoned(b[12]);
    assert forall e | e in es :: e in es1 || e in es2 || e in es3;
  }

  lemma Joined(b1: seq<State>, es1: seq<Event>, b2: seq<State>, es2: seq<Event>, b3: seq<State>, es3: seq<Event>)
    requires |b1| == 4 && |b2| == 5 && |b3| == 6
    requires Run(b1, es1) && Steps(b2, es2) && Steps(b3, es3) && b2[0] == b1[3] && b3[0] == b2[4]
             && !Timely(b1[2], es1[2])
    ensures var b, es := b1 + b2[1..] + b3[1..], es1 + es2 + es3;
            && |b| == 13 && Run(b, es) && !TimelyRun(b, es)
            && b[7] == b2[4] && b[8] == b3[1] && b[12] == b3[5]
  {
    hide CanHappen, Step, Timely;
    StepsConcat(b1, es1, b2, es2);
    StepsConcat(b1 + b2[1..], es1 + es2, b3, es3);
    var b, es := b1 + b2[1..] + b3[1..], es1 + es2 + es3;
    assert b[2] == b1[2] && es[2] == es1[2];
  }

  lemma NothingAbandoned(s: State)
    requires s.actors.Keys == {INLINE, WORKER}
    requires s.actors[INLINE].recorded && s.actors[WORKER].recorded
    ensures AbandonedOn(s, 1) == {}
  {}
}
