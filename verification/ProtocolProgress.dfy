/** Progress: every visit ends soon and leaves its row settled or due again later; whatever stops, no row is lost. */
module ProtocolProgress {
  import opened Tables
  import opened Canonical
  import opened Protocol
  import opened ProtocolSafety
  import opened ProtocolExclusive

  // Every visit ends

  /** An upper bound on the steps an actor still takes. Only a worker has a lease to release in the end. */
  function StepsLeft(id: ActorId, pc: Pc): nat {
    var last := if id.Inline? then 0 else 1;
    match pc
    case CopyCall => if id.Inline? then 9 else 8
    case UseFallback => if id.Inline? then 8 else 7
    case ReadAttempts => 7 + last
    case CopyMade(_) => 6 + last
    case RequestDelete(_) => 6 + last
    case DeleteCall => 5 + last
    case RequestSend => 4 + last
    case SendCall => 3 + last
    case Failing(_, _) => 2 + last
    case Delaying(_, _) => 1 + last
    case Finish(_) => 1 + last
    case Release => 1
    case Halted => 0
  }

  function MostSteps(id: ActorId): nat {
    if id.Inline? then 9 else 8
  }

  lemma StepsDescend(id: ActorId, a: Actor, attempts: nat, now: int, o: Answer, gone: set<(int, int)>)
    requires Possible(a, o, gone)
    ensures StepsLeft(id, Moved(id, a, attempts, now, o).pc) < StepsLeft(id, a.pc)
  {}

  lemma StepsAtFirst(id: ActorId, r: Row)
    ensures StepsLeft(id, NewActor(id, r).pc) <= MostSteps(id)
  {}

  function Acts(es: seq<Event>, id: ActorId): nat {
    if es == [] then 0
    else Acts(es[..|es| - 1], id) + (if es[|es| - 1].Act? && es[|es| - 1].id == id then 1 else 0)
  }

  /** Every visit has used up its token. */
  ghost predicate TokensUsed(s: State) {
    forall id | id in s.actors && id.Worker? :: id.token in s.tokens
  }

  lemma {:induction false} RunTokensUsed(b: seq<State>, es: seq<Event>, k: nat)
    requires Run(b, es) && k < |b|
    ensures TokensUsed(b[k])
  {
    hide NewActor, Moved, Wins, Created;
    if k > 0 {
      RunTokensUsed(b, es, k - 1);
    }
  }

  /** In every run, timely or not and whatever the answers are, no inline path ever takes more than nine steps, and no
      visit of a worker more than eight. */
  lemma {:induction false} ActsBounded(b: seq<State>, es: seq<Event>, k: nat, id: ActorId)
    requires Run(b, es) && k < |b|
    ensures Acts(es[..k], id) <= MostSteps(id)
    ensures if id in b[k].actors then Acts(es[..k], id) + StepsLeft(id, b[k].actors[id].pc) <= MostSteps(id)
            else Acts(es[..k], id) == 0
  {
    hide Safe, Step, CanHappen, TokensUsed;
    if k > 0 {
      ActsBounded(b, es, k - 1, id);
      RunSafe(b, es, k - 1);
      RunTokensUsed(b, es, k - 1);
      assert es[..k][..k - 1] == es[..k - 1];
      StepDescends(b[k - 1], es[k - 1], id);
    }
  }

  lemma StepDescends(s: State, e: Event, id: ActorId)
    requires Safe(s) && TokensUsed(s) && CanHappen(s, e)
    ensures var s' := Step(s, e);
            && (e.Act? && e.id == id ==> id in s.actors)
            && (id in s.actors ==> id in s'.actors)
            && (id in s'.actors ==>
                  StepsLeft(id, s'.actors[id].pc) + (if e.Act? && e.id == id then 1 else 0)
                  <= if id in s.actors then StepsLeft(id, s.actors[id].pc) else MostSteps(id))
  {
    hide Safe, NewActor, Moved;
    match e
    case Act(i, o) => ActDescends(s, i, o, id);
    case Create(key, p, source) =>
      if Wins(s.tables, key, s.now) {
        CreateExtends(s, key, p, source);
        StepsAtFirst(id, Step(s, e).tables.outbox[Step(s, e).tables.lastId]);
      }
    case Claim(token) =>
      if id in Visits(Step(s, e).tables, token) {
        StepsAtFirst(id, Step(s, e).tables.outbox[id.action]);
      }
    case _ =>
  }

  lemma ActDescends(s: State, i: ActorId, o: Answer, id: ActorId)
    requires CanHappen(s, Act(i, o))
    ensures id in ActStep(s, i, o).actors <==> id in s.actors
    ensures id in s.actors ==>
              StepsLeft(id, ActStep(s, i, o).actors[id].pc) + (if i == id then 1 else 0)
              <= StepsLeft(id, s.actors[id].pc)
  {
    StepsDescend(i, s.actors[i], s.tables.outbox[i.action].attempts, s.now, o, s.gone);
  }

  // Every visit gets somewhere

  predicate RetryOk(x: Retry) {
    x.delay >= 1 && (x.requested || x.delay <= 1024)
  }

  /** The row after an error write that was the visit's last word. */
  predicate PutBack(entry: Row, r: Row, retry: Option<Retry>) {
    && !Finished(r.phase)
    && Order(r.phase) >= Order(entry.phase)
    && r.attempts == entry.attempts + 1
    && r.leaseUntil == 0
    && retry.Some? && RetryOk(retry.value) && r.nextAt == retry.value.at + retry.value.delay
  }

  predicate PcForward(a: Actor) {
    match a.pc
    case DeleteCall => a.entry.phase == Planned || a.entry.phase == DeleteRequested
    case Failing(p, e) => Order(p) >= Order(a.entry.phase) && (e.RetryAfter? ==> e.seconds > 0)
    case Delaying(p, d) => Order(p) >= Order(a.entry.phase) && 1 <= d <= 1024
    case _ => true
  }

  /** A visit in which no write has failed, of a row with a source: until its release the row has the attempts
      it was claimed with and is not at an earlier phase. */
  predicate VisitOk(a: Actor, r: Row) {
    && PcForward(a)
    && if a.pc == Release then Finished(r.phase) || PutBack(a.entry, r, a.retry)
       else !Finished(r.phase) && r.attempts == a.entry.attempts && Order(r.phase) >= Order(a.entry.phase)
  }

  ghost predicate Visiting(s: State, id: ActorId) {
    id.Worker? && Live(s, id) && s.actors[id].clean && s.actors[id].entry.source > 0
  }

  ghost predicate VisitHeld(s: State, id: ActorId) {
    Visiting(s, id) ==> id.action in s.tables.outbox && VisitOk(s.actors[id], s.tables.outbox[id.action])
  }

  lemma NewVisitOk(id: ActorId, r: Row)
    requires id.Worker? && !Finished(r.phase) && r.source > 0
    ensures VisitOk(NewActor(id, r), r)
  {}

  lemma MoveVisitOk(id: ActorId, a: Actor, r: Row, gone: set<(int, int)>, now: int, o: Answer)
    requires id.Worker? && VisitOk(a, r) && Possible(a, o, gone) && PcSafe(id, a, gone) && a.entry.source > 0
    requires a.clean && Moved(id, a, r.attempts, now, o).clean
    ensures var b, r' := Moved(id, a, r.attempts, now, o), RowAfter(r, WriteOf(a, o), now);
            if b.pc == Halted then r'.phase == Complete || r'.phase == Dead || PutBack(a.entry, r', b.retry)
            else VisitOk(b, r')
  {
    match a.pc {
      case Failing(p, e) => assert ErrorPhaseSafe(a, p, gone);
      case Delaying(p, d) => assert ErrorPhaseSafe(a, p, gone);
      case _ =>
    }
  }

  lemma CreateVisitHeld(s: State, k: Key, p: Payload, source: int, id: ActorId)
    requires Held(s) && Hex(k.fingerprint) && VisitHeld(s, id)
    ensures VisitHeld(CreateStep(s, k, p, source), id)
  {
    if Wins(s.tables, k, s.now) {
      CreateExtends(s, k, p, source);
    }
  }

  lemma StepVisitHeld(s: State, e: Event, id: ActorId)
    requires Held(s) && CanHappen(s, e) && Timely(s, e) && VisitHeld(s, id)
    ensures VisitHeld(Step(s, e), id)
  {
    hide Held, VisitOk, Acting, Wins, Created;
    match e
    case Act(i, o) =>
      ActsTimely(s, i, o);
      HeldApart(s, i, id);
      ActVisitHeld(s, i, o, id);
    case Claim(token) => ClaimVisitHeld(s, token, id);
    case Create(key, p, source) => CreateVisitHeld(s, key, p, source, id);
    case _ =>
  }

  lemma ActVisitHeld(s: State, i: ActorId, o: Answer, id: ActorId)
    requires Acting(s, i, o) && Apart(s, i, id) && VisitHeld(s, id)
    ensures VisitHeld(ActStep(s, i, o), id)
  {
    var s' := ActStep(s, i, o);
    if i == id {
      if Visiting(s', id) {
        MoveKeepsEntry(id, s.actors[id], s.tables.outbox[id.action].attempts, s.now, o);
        MoveVisitOk(id, s.actors[id], s.tables.outbox[id.action], s.gone, s.now, o);
      }
    } else if Visiting(s', id) {
      assert s'.actors[id] == s.actors[id] && s'.now == s.now;
      assert i.action != id.action;
    }
  }

  /** A visit never becomes clean again, and its entry never changes. */
  lemma MoveKeepsEntry(id: ActorId, a: Actor, attempts: nat, now: int, o: Answer)
    ensures var b := Moved(id, a, attempts, now, o); b.entry == a.entry && (b.clean ==> a.clean)
  {}

  lemma ClaimVisitHeld(s: State, token: nat, id: ActorId)
    requires Held(s) && token !in s.tokens && Timely(s, Claim(token)) && VisitHeld(s, id)
    ensures VisitHeld(ClaimStep(s, token), id)
  {
    var s' := ClaimStep(s, token);
    if id in Visits(s'.tables, token) {
      SelectedIsClaimable(s, token, id.action);
      if Visiting(s', id) {
        NewVisitOk(id, s'.tables.outbox[id.action]);
      }
    } else if Visiting(s', id) {
      if Claimable(s.tables.outbox[id.action], s.now) {
        ClaimableIsFree(s, token, id);
      }
    }
  }

  lemma {:induction false} RunVisitHeld(b: seq<State>, es: seq<Event>, k: nat, id: ActorId)
    requires TimelyRun(b, es) && k < |b|
    ensures VisitHeld(b[k], id)
  {
    hide Held, Step, Timely, CanHappen;
    if k > 0 {
      RunVisitHeld(b, es, k - 1, id);
      RunHeld(b, es, k - 1);
      StepVisitHeld(b[k - 1], es[k - 1], id);
    }
  }

  /** The step that ends a visit without a stop or a failed write, of a row with a source, leaves the row
      complete, dead, or unfinished and unleased, with one attempt more, not at an earlier phase than it was
      claimed in, and due again 1 to 1024 seconds after the error write, or after the delay Telegram asked for. */
  lemma VisitSettlesRow(b: seq<State>, es: seq<Event>, k: nat, id: ActorId, o: Answer)
    requires TimelyRun(b, es) && k < |es| && es[k] == Act(id, o) && id.Worker?
    requires b[k + 1].actors[id].pc == Halted && b[k + 1].actors[id].clean && b[k].actors[id].entry.source > 0
    ensures id.action in b[k + 1].tables.outbox
    ensures var a, r := b[k + 1].actors[id], b[k + 1].tables.outbox[id.action];
            r.phase == Complete || r.phase == Dead || PutBack(a.entry, r, a.retry)
  {
    var s := b[k];
    RunHeld(b, es, k);
    ActsTimely(s, id, o);
    RunVisitHeld(b, es, k, id);
    MoveKeepsEntry(id, s.actors[id], s.tables.outbox[id.action].attempts, s.now, o);
    MoveVisitOk(id, s.actors[id], s.tables.outbox[id.action], s.gone, s.now, o);
  }

  // No row is lost

  function Longest(asked: int): int {
    if asked < 1024 then 1024 else asked
  }

  /** Telegram never asks for a delay beyond `asked` seconds. */
  predicate AsksAtMost(es: seq<Event>, asked: int) {
    forall k | 0 <= k < |es| && es[k].Act? && es[k].answer.Refused? && es[k].answer.error.RetryAfter? ::
      es[k].answer.error.seconds <= asked
  }

  predicate RowSoon(r: Row, now: int, asked: int) {
    r.leaseUntil <= now + LEASE_SECONDS && r.nextAt <= now + Longest(asked)
  }

  predicate PcSoon(pc: Pc, asked: int) {
    match pc
    case RequestDelete(d) => d <= 1024
    case Failing(_, e) => e.RetryAfter? ==> e.seconds <= asked
    case Delaying(_, d) => d <= 1024
    case _ => true
  }

  /** No row is leased or put off for long. */
  ghost predicate Soon(s: State, asked: int) {
    && 0 <= s.now
    && (forall n | n in s.tables.outbox :: RowSoon(s.tables.outbox[n], s.now, asked))
    && (forall id | id in s.actors :: PcSoon(s.actors[id].pc, asked))
  }

  lemma NewPcSoon(id: ActorId, r: Row, asked: int)
    ensures PcSoon(NewActor(id, r).pc, asked)
  {}

  lemma MoveSoon(id: ActorId, a: Actor, r: Row, now: int, o: Answer, asked: int)
    requires PcSoon(a.pc, asked) && RowSoon(r, now, asked) && 0 <= now
    requires o.Refused? && o.error.RetryAfter? ==> o.error.seconds <= asked
    ensures PcSoon(Moved(id, a, r.attempts, now, o).pc, asked) && RowSoon(RowAfter(r, WriteOf(a, o), now), now, asked)
  {}

  lemma ActSoon(s: State, id: ActorId, o: Answer, asked: int)
    requires Soon(s, asked) && CanHappen(s, Act(id, o))
    requires o.Refused? && o.error.RetryAfter? ==> o.error.seconds <= asked
    ensures Soon(ActStep(s, id, o), asked)
  {
    MoveSoon(id, s.actors[id], s.tables.outbox[id.action], s.now, o, asked);
  }

  lemma ClaimSoon(s: State, token: nat, asked: int)
    requires Soon(s, asked)
    ensures Soon(ClaimStep(s, token), asked)
  {
    var t := Claimed(s.tables, token, s.now);
    forall id | id in Visits(t, token) ensures PcSoon(Visits(t, token)[id].pc, asked) {
      NewPcSoon(id, t.outbox[id.action], asked);
    }
  }

  lemma CreateSoon(s: State, k: Key, p: Payload, source: int, asked: int)
    requires Safe(s) && Soon(s, asked) && Hex(k.fingerprint)
    ensures Soon(CreateStep(s, k, p, source), asked)
  {
    if Wins(s.tables, k, s.now) {
      CreatedKeeps(s.tables, k, p, source, s.now);
      var t := Created(s.tables, k, p, source, s.now);
      NewPcSoon(Inline(t.lastId), t.outbox[t.lastId], asked);
    }
  }

  lemma StepSoon(s: State, e: Event, asked: int)
    requires Safe(s) && Soon(s, asked) && CanHappen(s, e)
    requires e.Act? && e.answer.Refused? && e.answer.error.RetryAfter? ==> e.answer.error.seconds <= asked
    ensures Soon(Step(s, e), asked)
  {
    hide Safe;
    match e
    case Act(id, o) => ActSoon(s, id, o, asked);
    case Claim(token) => ClaimSoon(s, token, asked);
    case Create(key, p, source) => CreateSoon(s, key, p, source, asked);
    case _ =>
  }

  lemma {:induction false} RunSoon(b: seq<State>, es: seq<Event>, k: nat, asked: int)
    requires Run(b, es) && k < |b| && AsksAtMost(es, asked) && 0 <= b[0].now
    ensures Soon(b[k], asked)
  {
    if k > 0 {
      RunSoon(b, es, k - 1, asked);
      RunSafe(b, es, k - 1);
      StepSoon(b[k - 1], es[k - 1], asked);
    }
  }

  /** After any run, however many actors stopped and writes failed, a claim takes an unfinished row exactly
      when its retry time and its lease have passed; and both pass within a minute, 1024 seconds, or the
      longest delay Telegram ever asked for. */
  lemma EveryRowComesBack(b: seq<State>, es: seq<Event>, k: nat, asked: int, n: nat, to: int, token: nat)
    requires Run(b, es) && k < |b| && AsksAtMost(es, asked) && 0 <= b[0].now
    requires n in b[k].tables.outbox && !Finished(b[k].tables.outbox[n].phase)
    requires b[k].now <= to && FreshToken(b[k].tables, token)
    ensures var r := b[k].tables.outbox[n];
            var later := ClaimStep(Step(b[k], Tick(to)), token);
            && (Worker(n, token) in Visits(later.tables, token) <==> r.nextAt <= to && r.leaseUntil <= to)
            && (b[k].now + Longest(asked) <= to ==>
                 Worker(n, token) in later.actors && later.actors[Worker(n, token)].pc != Halted)
  {
    RunSoon(b, es, k, asked);
    assert RowSoon(b[k].tables.outbox[n], b[k].now, asked);
  }
}
