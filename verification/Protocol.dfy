/** The outbox protocol as a step relation: any number of inline paths and retry workers, each statement
    and each Telegram call one step, with stops, failed writes and lost leases anywhere. */
module Protocol {
  import opened Tables
  import opened Canonical

  /** The classes of client errors. NotFound answers a Delete of a message that is not there, NoDeleteRight one that
      the bot may not make. */
  datatype Error = NotFound | NoDeleteRight | Permanent | RetryAfter(seconds: int) | Transient

  predicate IsPermanent(e: Error) {
    e == NotFound || e == NoDeleteRight || e == Permanent
  }

  /** What a Telegram call or a store statement can answer. A refusal took no effect. */
  datatype Answer = Accepted(id: int) | Refused(error: Error) | Stored | NotStored

  /** What an actor does next. */
  datatype Pc =
    | CopyCall
    | CopyMade(copied: int)
    | UseFallback
    | ReadAttempts
    | RequestDelete(backoff: int)
    | DeleteCall
    | RequestSend
    | SendCall
    | Finish(response: int)
    | Failing(phase: Phase, error: Error)
    | Delaying(phase: Phase, delay: int)
    | Release
    | Halted

  /** One inline path per canonical action, one visit per claimed row. A worker's visits are separate
      actors here, which allows every order of them and a stop between any two. */
  datatype ActorId = Inline(action: nat) | Worker(action: nat, token: nat)

  /** entry is the row as the actor read it; payload and response are its local copies. It may act
      before its deadline. accepted and recorded are history: Telegram accepted a response of this actor,
      and the store recorded it. clean says no write of it has failed; retry is the delay it has written. */
  datatype Actor = Actor(entry: Row, payload: Payload, response: int, pc: Pc, deadline: int,
                         accepted: bool, recorded: bool, clean: bool, retry: Option<Retry>)

  /** An error write at second `at` made the row due `delay` seconds later. */
  datatype Retry = Retry(at: int, delay: int, requested: bool)

  datatype State = State(now: int, tables: Tables, tokens: set<nat>, actors: map<ActorId, Actor>,
                         gone: set<(int, int)>, visible: map<nat, nat>)

  // Where a step leads

  function AfterDelete(a: Actor): Pc {
    if a.response != 0 then Finish(a.response) else SendCall
  }

  /** A claimed row after its media copy is settled (application.go:595-612). */
  function VisitPc(a: Actor): Pc {
    if a.entry.phase == Planned || a.entry.phase == DeleteRequested then
      if a.entry.source <= 0 then Release
      else if a.payload.op != Reply then DeleteCall
      else RequestSend
    else AfterDelete(a)
  }

  /** applyTextAction from its first line. */
  function TextPc(a: Actor): Pc {
    if a.payload.op != Reply then ReadAttempts else RequestSend
  }

  function StartPc(id: ActorId, a: Actor): Pc {
    if a.payload.op == CopyMedia && a.response == 0 then CopyCall
    else if id.Inline? then TextPc(a) else VisitPc(a)
  }

  function NewActor(id: ActorId, r: Row): Actor {
    var a := Actor(r, r.payload, r.response, Halted, r.leaseUntil, false, false, true, None);
    a.(pc := StartPc(id, a))
  }

  /** After an error the inline path returns; a worker still releases its lease. */
  function QuitPc(id: ActorId): Pc {
    if id.Inline? then Halted else Release
  }

  function GiveUp(id: ActorId, a: Actor): Actor {
    a.(pc := QuitPc(id), clean := false)
  }

  /** An error write made the row due again: its writer must be done before that. */
  function Retried(id: ActorId, a: Actor, now: int, delay: int, requested: bool): Actor {
    a.(pc := QuitPc(id), retry := Some(Retry(now, delay, requested)),
       deadline := if now + delay < a.deadline then now + delay else a.deadline)
  }

  // One step of one actor

  /** The answers a step can get. Telegram ids are positive, requested delays too. */
  predicate Possible(a: Actor, o: Answer, gone: set<(int, int)>) {
    match a.pc
    case Halted => false
    case CopyCall => (o.Accepted? && o.id > 0) || Refusal(o)
    case SendCall => (o.Accepted? && o.id > 0) || Refusal(o)
    case DeleteCall => o.Accepted? || (Refusal(o) && (o.error == NotFound ==> Source(a) in gone))
    case _ => o.Stored? || o.NotStored?
  }

  predicate Refusal(o: Answer) {
    o.Refused? && (o.error.RetryAfter? ==> o.error.seconds > 0)
  }

  function Source(a: Actor): (int, int) {
    (a.entry.chat, a.entry.source)
  }

  /** What a step writes to the store. */
  function WriteOf(a: Actor, o: Answer): Write {
    if !o.Stored? then Nothing else
    match a.pc
    case CopyMade(id) => MarkCopied(id)
    case UseFallback => ReplacePayload(FallbackOf(a.payload))
    case RequestDelete(d) => MarkDeleteRequested(d)
    case RequestSend => MarkSendPending
    case Finish(id) => MarkComplete(id)
    case Failing(p, e) =>
      if IsPermanent(e) then MarkDead else if e.RetryAfter? then MarkError(p, e.seconds) else Nothing
    case Delaying(p, d) => MarkError(p, d)
    case Release => ReleaseLease
    case _ => Nothing
  }

  /** Telegram takes a response: the step that makes one visible. */
  predicate Responds(a: Actor, o: Answer) {
    (a.pc == CopyCall || a.pc == SendCall) && o.Accepted?
  }

  predicate Deletes(a: Actor, o: Answer) {
    a.pc == DeleteCall && o.Accepted?
  }

  /** The actor after the step; `attempts` is what the store answers when it is read. */
  function Moved(id: ActorId, a: Actor, attempts: nat, now: int, o: Answer): Actor {
    match a.pc
    case CopyCall =>
      if o.Accepted? then a.(pc := CopyMade(o.id), accepted := true)
      else if o.Refused? && IsPermanent(o.error) then a.(pc := UseFallback)
      else if o.Refused? then a.(pc := Failing(Planned, o.error))
      else a
    case CopyMade(copied) =>
      if !o.Stored? then GiveUp(id, a) else
      var b := a.(response := copied, recorded := true);
      b.(pc := if id.Inline? then DeleteCall else VisitPc(b))
    case UseFallback =>
      if !o.Stored? then GiveUp(id, a) else
      var b := a.(payload := FallbackOf(a.payload));
      b.(pc := if id.Inline? then TextPc(b) else VisitPc(b))
    case ReadAttempts =>
      if o.Stored? then a.(pc := RequestDelete(Backoff(attempts))) else GiveUp(id, a)
    case RequestDelete(_) =>
      if o.Stored? then a.(pc := DeleteCall) else GiveUp(id, a)
    case DeleteCall =>
      if o.Refused? && o.error != NotFound then a.(pc := Failing(DeleteRequested, o.error))
      else if id.Inline? && a.response != 0 then a.(pc := Finish(a.response))
      else a.(pc := RequestSend)
    case RequestSend =>
      if o.Stored? then a.(pc := AfterDelete(a)) else GiveUp(id, a)
    case SendCall =>
      if o.Accepted? then a.(pc := Finish(o.id), accepted := true)
      else if o.Refused? then a.(pc := Failing(SendPending, o.error))
      else a
    case Finish(_) =>
      if o.Stored? then a.(pc := Halted, recorded := a.accepted) else GiveUp(id, a)
    case Failing(p, e) =>
      if !o.Stored? then GiveUp(id, a)
      else if IsPermanent(e) then a.(pc := QuitPc(id))
      else if e.RetryAfter? then Retried(id, a, now, e.seconds, true)
      else a.(pc := Delaying(p, Backoff(attempts)))
    case Delaying(p, d) =>
      if o.Stored? then Retried(id, a, now, d, false) else GiveUp(id, a)
    case Release => if o.Stored? then a.(pc := Halted) else a.(pc := Halted, clean := false)
    case Halted => a
  }

  // Steps of the whole system

  datatype Event =
    | Tick(to: int)
    | Create(key: Key, payload: Payload, source: int)
    | Claim(token: nat)
    | Act(id: ActorId, answer: Answer)
    | Stop(id: ActorId)
    | Vanish(chat: int, message: int)

  ghost predicate CanHappen(s: State, e: Event) {
    match e
    case Tick(to) => s.now <= to
    case Create(k, p, source) => Hex(k.fingerprint)
    case Claim(token) => token !in s.tokens
    case Act(id, o) => id in s.actors && id.action in s.tables.outbox && Possible(s.actors[id], o, s.gone)
    case Stop(id) => id in s.actors
    case Vanish(chat, message) => true
  }

  ghost function Step(s: State, e: Event): State
    requires CanHappen(s, e)
  {
    match e
    case Tick(to) => s.(now := to)
    case Create(k, p, source) => CreateStep(s, k, p, source)
    case Claim(token) => ClaimStep(s, token)
    case Act(id, o) => ActStep(s, id, o)
    case Stop(id) => s.(actors := s.actors[id := s.actors[id].(pc := Halted)])
    case Vanish(chat, message) => s.(gone := s.gone + {(chat, message)})
  }

  /** The creation that wins starts the inline path of the new action. */
  ghost function CreateStep(s: State, k: Key, p: Payload, source: int): State {
    var t := Created(s.tables, k, p, source, s.now);
    if !Wins(s.tables, k, s.now) then s else
    var id := Inline(t.lastId);
    assert t.lastId in t.outbox;
    s.(tables := t, actors := s.actors[id := NewActor(id, t.outbox[t.lastId])], visible := s.visible[t.lastId := 0])
  }

  /** A claim starts one visit for every row it returns. */
  ghost function ClaimStep(s: State, token: nat): State {
    var t := Claimed(s.tables, token, s.now);
    s.(tables := t, tokens := s.tokens + {token}, actors := s.actors + Visits(t, token))
  }

  ghost function Visits(t: Tables, token: nat): map<ActorId, Actor> {
    map a | a in Selected(t, token) :: Worker(a, token) := NewActor(Worker(a, token), t.outbox[a])
  }

  ghost function ActStep(s: State, id: ActorId, o: Answer): State
    requires id in s.actors && id.action in s.tables.outbox
  {
    var a := s.actors[id];
    s.(tables := Written(s.tables, id.action, WriteOf(a, o), s.now),
       actors := s.actors[id := Moved(id, a, s.tables.outbox[id.action].attempts, s.now, o)],
       gone := if Deletes(a, o) then s.gone + {Source(a)} else s.gone,
       visible := if Responds(a, o) then s.visible[id.action := Visible(s, id.action) + 1] else s.visible)
  }

  function Visible(s: State, a: nat): nat {
    if a in s.visible then s.visible[a] else 0
  }

  // Runs

  predicate Initial(s: State) {
    s.tables == EMPTY && s.tokens == {} && s.actors == map[] && s.visible == map[]
  }

  ghost predicate Steps(b: seq<State>, es: seq<Event>) {
    && |b| == |es| + 1
    && forall k | 0 <= k < |es| :: CanHappen(b[k], es[k]) && b[k + 1] == Step(b[k], es[k])
  }

  ghost predicate Run(b: seq<State>, es: seq<Event>) {
    Steps(b, es) && Initial(b[0])
  }

  lemma RunSnoc(b: seq<State>, es: seq<Event>, e: Event)
    requires Run(b, es) && CanHappen(b[|es|], e)
    ensures |b| == |es| + 1 && Run(b + [Step(b[|es|], e)], es + [e])
  {
    hide Step, CanHappen, Initial;
    var c, fs := b + [Step(b[|es|], e)], es + [e];
    forall k | 0 <= k < |fs| ensures CanHappen(c[k], fs[k]) && c[k + 1] == Step(c[k], fs[k]) {
      assert k < |es| ==> c[k] == b[k] && c[k + 1] == b[k + 1] && fs[k] == es[k];
    }
  }
}
