/** The code that delivers responses: the inline path after a canonical action is created, and the worker that
    retries the outbox. Its methods branch and loop as the source does; each port call is recorded as a step, and
    every method is proved to run its actors along the step relation of Protocol, from where they start until they
    halt. */
module Workflow {
  import opened Tables
  import opened Canonical
  import opened Protocol
  import opened StoreClass

  /** What has happened up to some point. */
  datatype History = History(states: seq<State>, events: seq<Event>, actors: map<ActorId, Actor>, rows: set<nat>,
                             tokens: set<nat>)

  /** From h to h' only time passed and actor id took steps. */
  ghost predicate Grew(h: History, h': History, id: ActorId) {
    && h.states <= h'.states && h.events <= h'.events
    && (forall k | |h.events| <= k < |h'.events| :: h'.events[k].Tick? || (h'.events[k].Act? && h'.events[k].id == id))
    && h'.actors.Keys == h.actors.Keys
    && (forall j | j in h.actors && j != id :: h'.actors[j] == h.actors[j])
    && h'.rows == h.rows && h'.tokens == h.tokens
  }

  lemma GrewTransitive(id: ActorId)
    ensures forall h0, h1, h2 :: Grew(h0, h1, id) && Grew(h1, h2, id) ==> Grew(h0, h2, id)
    ensures forall h :: Grew(h, h, id)
  {}

  lemma SelectedKeys(t: Tables, token: nat)
    ensures forall a | a in Selected(t, token) :: a in t.outbox
  {}

  lemma ClaimedKeys(t: Tables, token: nat, now: int)
    ensures Claimed(t, token, now).outbox.Keys == t.outbox.Keys
  {}

  lemma VisitOf(t: Tables, token: nat, a: nat)
    requires a in Selected(t, token)
    ensures a in t.outbox && Worker(a, token) in Visits(t, token)
    ensures Visits(t, token)[Worker(a, token)] == NewActor(Worker(a, token), t.outbox[a])
  {}

  class Application {
    const store: Store
    var now: int
    /** Messages that are not there (any more). */
    var gone: set<(int, int)>
    /** What the clock, Telegram and the database will do. */
    var pauses: seq<nat>
    var script: seq<Answer>

    ghost var tokens: set<nat>
    ghost var actors: map<ActorId, Actor>
    ghost var visible: map<nat, nat>
    /** The history so far. */
    ghost var states: seq<State>
    ghost var events: seq<Event>

    constructor (store: Store, now: int, gone: set<(int, int)>, pauses: seq<nat>, script: seq<Answer>)
      requires store.Current() == EMPTY
      ensures Valid() && Initial(Here()) && events == [] && this.store == store
    {
      this.store, this.now, this.gone, this.pauses, this.script := store, now, gone, pauses, script;
      tokens, actors, visible, events := {}, map[], map[], [];
      states := [State(now, EMPTY, {}, map[], gone, map[])];
    }

    ghost function Here(): State
      reads this, store
    {
      State(now, store.Current(), tokens, actors, gone, visible)
    }

    ghost predicate Valid()
      reads this, store
    {
      store.Valid() && Run(states, events) && states[|events|] == Here()
    }

    /** The actor exists and is about to do what pc says. */
    ghost predicate At(id: ActorId, pc: Pc)
      reads this, store
    {
      id in actors && id.action in store.outbox && actors[id].pc == pc
    }

    ghost function Past(): History
      reads this, store
    {
      History(states, events, actors, store.outbox.Keys, tokens)
    }

    /** The history grew by steps of actor id. */
    twostate predicate Ran(id: ActorId)
      reads this, store
    {
      Valid() && Grew(old(Past()), Past(), id) && id in actors && id.action in store.outbox
    }

    /** Some time passed and then actor id took one step, with answer o. */
    twostate predicate Took(id: ActorId, o: Answer)
      reads this, store
    {
      && Ran(id)
      && (o.Accepted? && !old(actors)[id].pc.DeleteCall? ==> o.id > 0)
      && actors[id] == Moved(id, old(actors)[id], old(store.outbox)[id.action].attempts, now, o)
    }

    /** The next step is a statement of the store. */
    ghost predicate Writes(pc: Pc) {
      !pc.CopyCall? && !pc.SendCall? && !pc.DeleteCall? && !pc.Halted?
    }

    lemma WritesPossible(a: Actor, gone: set<(int, int)>)
      requires Writes(a.pc)
      ensures Possible(a, Stored, gone) && Possible(a, NotStored, gone) && WriteOf(a, NotStored) == Nothing
      ensures !Deletes(a, Stored) && !Deletes(a, NotStored)
    {}

    // Ports

    method Elapse()
      modifies `now, `pauses
      ensures old(now) <= now
    {
      if pauses != [] {
        now, pauses := now + pauses[0], pauses[1..];
      }
    }

    /** What Telegram will answer to the next delete of a message. */
    ghost function DeleteAnswer(chat: int, message: int): (o: Answer)
      reads this
      ensures o.Accepted? || Refusal(o)
    {
      var o := if script == [] then NotStored else script[0];
      if o.Accepted? || (Refusal(o) && (o.error == NotFound ==> (chat, message) in gone)) then o else Refused(Transient)
    }

    method NextAnswer() returns (o: Answer)
      modifies `script
      ensures o == if old(script) == [] then NotStored else old(script)[0]
    {
      o := NotStored;
      if script != [] {
        o, script := script[0], script[1..];
      }
    }

    /** Enters a step into the history. */
    ghost method Record(id: ActorId, o: Answer, before: State)
      requires Run(states, events) && states[|events|] == before && before.now <= now && store.Valid()
      requires id in before.actors && id.action in before.tables.outbox && Possible(before.actors[id], o, before.gone)
      requires actors == before.actors && visible == before.visible && tokens == before.tokens
      requires store.Current() == Written(before.tables, id.action, WriteOf(before.actors[id], o), now)
      requires gone == if Deletes(before.actors[id], o) then before.gone + {Source(before.actors[id])} else before.gone
      modifies `actors, `visible, `states, `events
      ensures Valid() && Here() == ActStep(before.(now := now), id, o)
      ensures states == old(states) + [before.(now := now), Here()] && events == old(events) + [Tick(now), Act(id, o)]
      ensures actors
              == old(actors)[id := Moved(id, before.actors[id], before.tables.outbox[id.action].attempts, now, o)]
      ensures tokens == old(tokens)
    {
      hide Moved, WriteOf, Written, Possible;
      var s := before.(now := now);
      actors, visible := ActStep(s, id, o).actors, ActStep(s, id, o).visible;
      states, events := states + [s, Here()], events + [Tick(now), Act(id, o)];
    }

    method Delete(ghost id: ActorId, chat: int, message: int) returns (o: Answer)
      requires Valid() && At(id, DeleteCall) && Source(actors[id]) == (chat, message)
      modifies this
      ensures Took(id, o) && (o.Accepted? || o.Refused?)
    {
      hide Run, Moved, Consistent;
      ghost var s := Here();
      Elapse();
      o := NextAnswer();
      if !(o.Accepted? || (Refusal(o) && (o.error == NotFound ==> (chat, message) in gone))) {
        o := Refused(Transient);
      }
      if o.Accepted? {
        gone := gone + {(chat, message)};
      }
      WrittenNothing(s.tables, id.action, now);
      Record(id, o, s);
    }

    /** Send, Reply and Copy: `pc` tells which call it is. */
    method Call(ghost id: ActorId, ghost pc: Pc) returns (o: Answer)
      requires Valid() && At(id, pc) && (pc == SendCall || pc == CopyCall)
      modifies this
      ensures Took(id, o) && (o.Accepted? || o.Refused?)
    {
      hide Run, Moved, Consistent;
      ghost var s := Here();
      Elapse();
      o := NextAnswer();
      if !((o.Accepted? && o.id > 0) || Refusal(o)) {
        o := Refused(Transient);
      }
      WrittenNothing(s.tables, id.action, now);
      Record(id, o, s);
    }

    method Send(ghost id: ActorId, chat: int, thread: int, text: string) returns (o: Answer)
      requires Valid() && At(id, SendCall) && actors[id].payload.op != Reply && actors[id].payload.text == text
      requires actors[id].entry.chat == chat && actors[id].entry.thread == thread
      modifies this
      ensures Took(id, o) && (o.Accepted? || o.Refused?)
    {
      o := Call(id, SendCall);
    }

    method SendReply(ghost id: ActorId, chat: int, thread: int, replyTo: int, text: string) returns (o: Answer)
      requires Valid() && At(id, SendCall) && actors[id].payload.op == Reply && actors[id].payload.text == text
      requires actors[id].entry.chat == chat && actors[id].entry.thread == thread
               && actors[id].payload.replyTo == replyTo
      modifies this
      ensures Took(id, o) && (o.Accepted? || o.Refused?)
    {
      o := Call(id, SendCall);
    }

    method Copy(ghost id: ActorId, chat: int, thread: int, message: int, caption: string) returns (o: Answer)
      requires Valid() && At(id, CopyCall) && actors[id].payload.text == caption
      requires Source(actors[id]) == (chat, message) && actors[id].entry.thread == thread
      modifies this
      ensures Took(id, o) && (o.Accepted? || o.Refused?)
    {
      o := Call(id, CopyCall);
    }

    /** One statement of the store. */
    method Perform(a: nat, w: Write)
      requires store.Valid()
      modifies store`canon, store`outbox
      ensures store.Valid() && store.Current() == Written(old(store.Current()), a, w, now)
    {
      hide Consistent, Written;
      match w {
        case Nothing => WrittenNothing(store.Current(), a, now);
        case ReplacePayload(p) => store.ReplaceOutboxPayload(a, p, now);
        case MarkCopied(copied) => store.MarkOutboxCopied(a, copied, now);
        case MarkDeleteRequested(d) => store.UpdateOutbox(a, d, now);
        case MarkSendPending => store.MarkSendPending(a, now);
        case MarkError(p, d) => store.UpdateDelayed(a, p, d, now);
        case MarkDead => store.MarkOutboxDead(a, now);
        case MarkComplete(response) => store.MarkOutboxComplete(a, response, now);
        case ReleaseLease => store.ReleaseOutboxLease(a, now);
      }
    }

    /** A statement as a step: it may fail, and then changes nothing. */
    method Execute(ghost id: ActorId, a: nat, w: Write) returns (ok: bool)
      requires Valid() && id in actors && id.action in store.outbox && a == id.action
      requires Writes(actors[id].pc) && WriteOf(actors[id], Stored) == w
      modifies this, store`canon, store`outbox
      ensures Took(id, if ok then Stored else NotStored)
    {
      hide Run, Moved, Consistent, Written, Possible, WriteOf, Deletes;
      ghost var s := Here();
      WritesPossible(actors[id], gone);
      Elapse();
      var o := NextAnswer();
      ok := o == Stored;
      if ok {
        Perform(a, w);
      } else {
        WrittenNothing(s.tables, a, now);
      }
      WrittenKeys(s.tables, a, w, now);
      Record(id, if ok then Stored else NotStored, s);
    }

    /** Reads the attempts of a row as a delay. */
    method OutboxBackoff(ghost id: ActorId, a: nat) returns (delay: Option<int>)
      requires Valid() && id in actors && a in store.outbox && a == id.action
      requires Writes(actors[id].pc) && WriteOf(actors[id], Stored) == Nothing
      modifies this, store`canon, store`outbox
      ensures Took(id, if delay.Some? then Stored else NotStored)
      ensures delay.Some? ==> delay.value == Backoff(old(store.outbox)[a].attempts)
    {
      delay := store.OutboxBackoff(a);
      var ok := Execute(id, a, Nothing);
      if !ok {
        delay := None;
      }
    }

    // Errors

    method MarkOutboxError(ghost id: ActorId, a: nat, p: Phase, e: Error)
      requires Valid() && At(id, Failing(p, e)) && a == id.action
      modifies this, store`canon, store`outbox
      ensures Ran(id) && actors[id].pc == QuitPc(id) && actors[id].entry == old(actors)[id].entry
    {
      hide Valid, Written, RowAfter, CanonAfter, Grew;
      GrewTransitive(id);
      if IsPermanent(e) {
        var _ := Execute(id, a, MarkDead);
        return;
      }
      if e.RetryAfter? {
        var _ := Execute(id, a, MarkError(p, e.seconds));
        return;
      }
      var delay := OutboxBackoff(id, a);
      if delay.None? {
        return;
      }
      var _ := Execute(id, a, MarkError(p, delay.value));
    }

    // The inline path

    /** Stores a plan as a step; the winner's inline path starts. A loser's lookup of the winner is made at `reread`. */
    method CreateCanonical(k: Key, p: Payload, source: int, reread: int) returns (action: Option<nat>, created: bool)
      requires Valid() && Hex(k.fingerprint)
      modifies this, store`canon, store`outbox, store`lastId
      ensures Valid() && old(now) <= now && tokens == old(tokens) && gone == old(gone) && script == old(script)
      ensures states == old(states) + [old(Here()).(now := now), Here()]
      ensures events == old(events) + [Tick(now), Event.Create(k, p, source)]
      ensures created <==> Wins(old(store.Current()), k, now)
      ensures store.Current() == Created(old(store.Current()), k, p, source, now)
      ensures created ==> action == Some(store.lastId) && store.lastId in store.outbox
                          && store.outbox[store.lastId] == Row(k.chat, k.thread, source, p, Planned, 0, now, 0, 0, None)
                          && var id := Inline(store.lastId);
                             actors == old(actors)[id := NewActor(id, store.outbox[store.lastId])]
      ensures !created ==> action == Find(old(store.Current()), k, reread)
                           && actors == old(actors) && store.Current() == old(store.Current())
    {
      hide Run, Consistent, NewActor, Find;
      ghost var s := Here();
      Elapse();
      CreationAgreesWithLookup(store.Current(), k, p, source, now);
      action, created := store.CreateCanonical(k, p, source, now, reread);
      ghost var waited := s.(now := now);
      ghost var after := CreateStep(waited, k, p, source);
      actors, visible := after.actors, after.visible;
      assert Here() == after;
      RunSnoc(states, events, Tick(now));
      assert (states + [waited])[|events| + 1] == waited;
      RunSnoc(states + [waited], events + [Tick(now)], Event.Create(k, p, source));
      assert states + [waited, Here()] == states + [waited] + [Here()];
      assert events + [Tick(now), Event.Create(k, p, source)] == events + [Tick(now)] + [Event.Create(k, p, source)];
      states, events := states + [waited, Here()], events + [Tick(now), Event.Create(k, p, source)];
    }

    /** Deletes a repost, which no row of the outbox describes. */
    method DeleteRepost(chat: int, message: int) returns (o: Answer)
      requires Valid()
      modifies this
      ensures Valid() && old(now) <= now && tokens == old(tokens) && actors == old(actors)
      ensures o == old(DeleteAnswer(chat, message))
      ensures gone == if o.Accepted? then old(gone) + {(chat, message)} else old(gone)
      ensures old(states) <= states && old(events) <= events
      ensures forall k | |old(events)| <= k < |events| :: events[k].Tick? || events[k] == Vanish(chat, message)
    {
      hide Run, Consistent;
      ghost var s := Here();
      Elapse();
      o := NextAnswer();
      if !(o.Accepted? || (Refusal(o) && (o.error == NotFound ==> (chat, message) in gone))) {
        o := Refused(Transient);
      }
      ghost var waited := s.(now := now);
      RunSnoc(states, events, Tick(now));
      states, events := states + [waited], events + [Tick(now)];
      if o.Accepted? {
        gone := gone + {(chat, message)};
        RunSnoc(states, events, Vanish(chat, message));
        states, events := states + [Here()], events + [Vanish(chat, message)];
      }
    }

    /** applyTextAction: deletes the source unless the response is a reply, then responds. It returns an error only
        after a failed write. */
    method ApplyTextAction(ghost id: ActorId, a: nat, chat: int, thread: int, message: int, payload: Payload)
      returns (ok: bool)
      requires Valid() && id.Inline? && a == id.action && id in actors && At(id, TextPc(actors[id]))
      requires actors[id].payload == payload && actors[id].entry.thread == thread
               && Source(actors[id]) == (chat, message)
      requires actors[id].response == 0
      modifies this, store`canon, store`outbox
      ensures Ran(id) && actors[id].pc == Halted && (!ok ==> !actors[id].clean)
    {
      hide Valid, Written, RowAfter, CanonAfter, Grew;
      GrewTransitive(id);
      if payload.op != Reply {
        var deleted;
        deleted, ok := DeleteSource(id, a, chat, message);
        if !deleted {
          return;
        }
      }
      ok := SendResponse(id, a, chat, thread, payload);
    }

    /** The first half of applyTextAction. */
    method DeleteSource(ghost id: ActorId, a: nat, chat: int, message: int) returns (deleted: bool, ok: bool)
      requires Valid() && id.Inline? && a == id.action && At(id, ReadAttempts)
      requires Source(actors[id]) == (chat, message) && actors[id].response == 0
      modifies this, store`canon, store`outbox
      ensures Ran(id) && actors[id].pc == (if deleted then RequestSend else Halted) && (!ok ==> !actors[id].clean)
      ensures deleted ==> actors[id] == old(actors)[id].(pc := RequestSend)
    {
      hide Valid, Written, RowAfter, CanonAfter, Grew;
      GrewTransitive(id);
      var delay := OutboxBackoff(id, a);
      if delay.None? {
        return false, false;
      }
      ok := Execute(id, a, MarkDeleteRequested(delay.value));
      if !ok {
        return false, false;
      }
      var o := Delete(id, chat, message);
      if o.Refused? && o.error != NotFound {
        MarkOutboxError(id, a, DeleteRequested, o.error);
        return false, true;
      }
      deleted := true;
    }

    /** The second half of applyTextAction. */
    method SendResponse(ghost id: ActorId, a: nat, chat: int, thread: int, payload: Payload) returns (ok: bool)
      requires Valid() && id.Inline? && a == id.action && At(id, RequestSend)
      requires actors[id].payload == payload && actors[id].entry.thread == thread && actors[id].entry.chat == chat
      requires actors[id].response == 0
      modifies this, store`canon, store`outbox
      ensures Ran(id) && actors[id].pc == Halted && (!ok ==> !actors[id].clean)
    {
      hide Valid, Written, RowAfter, CanonAfter, Grew;
      GrewTransitive(id);
      ok := Execute(id, a, MarkSendPending);
      if !ok {
        return;
      }
      ok := Respond(id, a, chat, thread, payload);
    }

    /** The response, and its record. */
    method Respond(ghost id: ActorId, a: nat, chat: int, thread: int, payload: Payload) returns (ok: bool)
      requires Valid() && id.Inline? && a == id.action && At(id, SendCall)
      requires actors[id].payload == payload && actors[id].entry.thread == thread && actors[id].entry.chat == chat
      modifies this, store`canon, store`outbox
      ensures Ran(id) && actors[id].pc == Halted && (!ok ==> !actors[id].clean)
    {
      hide Valid, Written, RowAfter, CanonAfter, Grew;
      GrewTransitive(id);
      var answer := Answered(id, chat, thread, payload);
      if answer.Refused? {
        MarkOutboxError(id, a, SendPending, answer.error);
        return true;
      }
      ok := Execute(id, a, MarkComplete(answer.id));
    }

    /** Reply or Send, as the payload says. */
    method Answered(ghost id: ActorId, chat: int, thread: int, payload: Payload) returns (o: Answer)
      requires Valid() && At(id, SendCall) && actors[id].payload == payload
      requires actors[id].entry.chat == chat && actors[id].entry.thread == thread
      modifies this
      ensures Took(id, o) && (o.Accepted? || o.Refused?)
    {
      hide Valid, Moved;
      if payload.op == Reply {
        o := SendReply(id, chat, thread, payload.replyTo, payload.text);
      } else {
        o := Send(id, chat, thread, payload.text);
      }
    }

    /** applyMediaAction: copies the media with its new caption first, and falls back to text if it cannot be copied. */
    method ApplyMediaAction(ghost id: ActorId, a: nat, chat: int, thread: int, message: int, payload: Payload)
      returns (ok: bool)
      requires Valid() && id.Inline? && a == id.action && At(id, CopyCall)
      requires actors[id].payload == payload && actors[id].entry.thread == thread
               && Source(actors[id]) == (chat, message)
      requires actors[id].response == 0
      modifies this, store`canon, store`outbox
      ensures Ran(id) && actors[id].pc == Halted && (!ok ==> !actors[id].clean)
    {
      hide Valid, Written, RowAfter, CanonAfter, Grew;
      GrewTransitive(id);
      var answer := Copy(id, chat, thread, message, payload.text);
      if answer.Refused? {
        if !IsPermanent(answer.error) {
          MarkOutboxError(id, a, Planned, answer.error);
          return true;
        }
        var fallback := payload.(op := Text, text := payload.fallback);
        ok := Execute(id, a, ReplacePayload(fallback));
        if !ok {
          return;
        }
        ok := ApplyTextAction(id, a, chat, thread, message, fallback);
        return;
      }
      ok := FinishMedia(id, a, chat, message, answer.id);
    }

    /** The rest of applyMediaAction once the copy is made. */
    method FinishMedia(ghost id: ActorId, a: nat, chat: int, message: int, copied: int) returns (ok: bool)
      requires Valid() && id.Inline? && a == id.action && At(id, CopyMade(copied)) && copied > 0
      requires Source(actors[id]) == (chat, message)
      modifies this, store`canon, store`outbox
      ensures Ran(id) && actors[id].pc == Halted && (!ok ==> !actors[id].clean)
    {
      hide Valid, Written, RowAfter, CanonAfter, Grew;
      GrewTransitive(id);
      ok := Execute(id, a, MarkCopied(copied));
      if !ok {
        return;
      }
      var o := Delete(id, chat, message);
      if o.Refused? && o.error != NotFound {
        MarkOutboxError(id, a, DeleteRequested, o.error);
        return true;
      }
      ok := Execute(id, a, MarkComplete(copied));
    }

    // The worker

    /** The claim as a step. */
    method Claim(token: nat) returns (entries: seq<Entry>)
      requires Valid() && FreshToken(store.Current(), token) && token !in tokens
      modifies this, store`outbox
      ensures Valid() && tokens == old(tokens) + {token} && store.outbox.Keys == old(store.outbox).Keys
      ensures states == old(states) + [Here()] && events == old(events) + [Event.Claim(token)]
      ensures actors == old(actors) + Visits(store.Current(), token)
      ensures store.Current() == Claimed(old(store.Current()), token, now) && now == old(now)
      ensures forall i, j | 0 <= i < j < |entries| :: entries[i].id < entries[j].id
      ensures forall e | e in entries :: e.id in Selected(store.Current(), token)
      ensures forall e | e in entries ::
                e.id in store.outbox && Worker(e.id, token) in actors
                  && actors[Worker(e.id, token)] == NewActor(Worker(e.id, token), e.row)
      ensures forall a | a in Selected(store.Current(), token) :: Entry(a, store.outbox[a]) in entries
    {
      hide Run, Consistent, NewActor, Claimed, Selected, Visits;
      ghost var s := Here();
      entries := store.PendingOutbox(token, now);
      SelectedKeys(store.Current(), token);
      ClaimedKeys(old(store.Current()), token, now);
      tokens, actors := tokens + {token}, actors + Visits(store.Current(), token);
      forall e | e in entries
        ensures e.id in store.outbox
        ensures Worker(e.id, token) in actors && actors[Worker(e.id, token)] == NewActor(Worker(e.id, token), e.row)
      {
        VisitOf(store.Current(), token, e.id);
      }
      RunSnoc(states, events, Event.Claim(token));
      states, events := states + [Here()], events + [Event.Claim(token)];
    }

    method ReleaseOutboxLease(ghost id: ActorId, a: nat)
      requires Valid() && id.Worker? && a == id.action && At(id, Release)
      modifies this, store`canon, store`outbox
      ensures Ran(id) && actors[id].pc == Halted
    {
      var _ := Execute(id, a, ReleaseLease);
    }

    /** prepareMediaOutbox: tries the copy again, and falls back to text if it cannot be made. */
    method PrepareMediaOutbox(ghost id: ActorId, e: Entry, payload: Payload)
      returns (prepared: Payload, response: int, ready: bool, failed: bool)
      requires Valid() && id.Worker? && e.id == id.action && At(id, CopyCall)
      requires actors[id].entry == e.row && actors[id].payload == payload && actors[id].response == 0
      modifies this, store`canon, store`outbox
      ensures Ran(id) && actors[id].entry == e.row
      ensures !ready || failed ==> actors[id].pc == Release
      ensures ready ==> !failed && actors[id].pc == VisitPc(actors[id])
                        && actors[id].payload == prepared && actors[id].response == response
    {
      hide Valid, Written, RowAfter, CanonAfter, Grew;
      GrewTransitive(id);
      prepared, response, ready, failed := payload, 0, false, false;
      var answer := Copy(id, e.row.chat, e.row.thread, e.row.source, payload.text);
      if answer.Accepted? {
        var recorded := Execute(id, e.id, MarkCopied(answer.id));
        if !recorded {
          failed := true;
          return;
        }
        response, ready := answer.id, true;
        return;
      }
      if !IsPermanent(answer.error) {
        MarkOutboxError(id, e.id, Planned, answer.error);
        return;
      }
      prepared := payload.(op := Text, text := payload.fallback);
      var replaced := Execute(id, e.id, ReplacePayload(prepared));
      if !replaced {
        failed := true;
        return;
      }
      ready := true;
    }

    /** prepareOutboxEntry: deletes the source unless the response is a reply. */
    method PrepareOutboxEntry(ghost id: ActorId, e: Entry, payload: Payload) returns (ready: bool, failed: bool)
      requires Valid() && id.Worker? && e.id == id.action && id in actors && At(id, VisitPc(actors[id]))
      requires actors[id].entry == e.row && actors[id].payload == payload
      requires e.row.phase == Planned || e.row.phase == DeleteRequested
      modifies this, store`canon, store`outbox
      ensures Ran(id) && actors[id].entry == e.row
      ensures !ready || failed ==> actors[id].pc == Release
      ensures ready ==> !failed && actors[id] == old(actors)[id].(pc := AfterDelete(actors[id]))
    {
      hide Valid, Written, RowAfter, CanonAfter, Grew;
      GrewTransitive(id);
      ready, failed := false, false;
      if e.row.source <= 0 {
        return;
      }
      if payload.op != Reply {
        var o := Delete(id, e.row.chat, e.row.source);
        if o.Refused? && o.error != NotFound {
          MarkOutboxError(id, e.id, DeleteRequested, o.error);
          return;
        }
      }
      var pending := Execute(id, e.id, MarkSendPending);
      if !pending {
        failed := true;
        return;
      }
      ready := true;
    }

    /** One turn of the worker's loop; stop says that the round ends with an error. */
    method Visit(ghost id: ActorId, e: Entry) returns (stop: bool)
      requires Valid() && id.Worker? && e.id == id.action && id in actors && id.action in store.outbox
      requires actors[id] == NewActor(id, e.row)
      modifies this, store`canon, store`outbox
      ensures Ran(id) && actors[id].pc == Halted
    {
      hide Valid, Written, RowAfter, CanonAfter, Grew;
      GrewTransitive(id);
      var payload, response := e.row.payload, e.row.response;
      if payload.op == CopyMedia && response == 0 {
        var ready, failed;
        payload, response, ready, failed := PrepareMediaOutbox(id, e, payload);
        if !ready || failed {
          ReleaseOutboxLease(id, e.id);
          return failed;
        }
      }
      if e.row.phase == Planned || e.row.phase == DeleteRequested {
        var ready, failed := PrepareOutboxEntry(id, e, payload);
        if !ready || failed {
          ReleaseOutboxLease(id, e.id);
          return failed;
        }
      }
      stop := Conclude(id, e, payload, response);
    }

    /** The end of the worker's turn: the recorded copy, or a response of its own, completes the row. */
    method Conclude(ghost id: ActorId, e: Entry, payload: Payload, response: int) returns (stop: bool)
      requires Valid() && id.Worker? && e.id == id.action && id in actors && At(id, AfterDelete(actors[id]))
      requires actors[id].entry == e.row && actors[id].payload == payload && actors[id].response == response
      modifies this, store`canon, store`outbox
      ensures Ran(id) && actors[id].pc == Halted
    {
      hide Valid, Written, RowAfter, CanonAfter, Grew;
      GrewTransitive(id);
      var sent := response;
      if response == 0 {
        var answer := Answered(id, e.row.chat, e.row.thread, payload);
        if answer.Refused? {
          MarkOutboxError(id, e.id, SendPending, answer.error);
          ReleaseOutboxLease(id, e.id);
          return false;
        }
        sent := answer.id;
      }
      var completed := Execute(id, e.id, MarkComplete(sent));
      if !completed {
        ReleaseOutboxLease(id, e.id);
      }
      stop := !completed;
    }

    /** retryOutbox: claims what is due and visits it row by row. An error ends the round and leaves the rest
        claimed, its visits where they started, as a stop would. */
    method RetryOutbox(token: nat) returns (entries: seq<Entry>, failed: bool)
      requires Valid() && FreshToken(store.Current(), token) && token !in tokens
      modifies this, store`canon, store`outbox
      ensures Valid() && old(states) <= states && old(events) + [Event.Claim(token)] <= events
      ensures var t := Claimed(old(store.Current()), token, old(now));
              forall a | a in Selected(t, token) :: Entry(a, t.outbox[a]) in entries
      ensures (set e | e in entries :: e.id)
              == set a | a in old(store.outbox) && Claimable(old(store.outbox)[a], old(now))
      ensures forall e | e in entries ::
                var id := Worker(e.id, token);
                id in actors && (actors[id].pc == Halted || (failed && actors[id] == NewActor(id, e.row)))
    {
      hide Valid, NewActor, Claimed, FreshToken, Selected, Claimable;
      FreshClaimReturnsDue(store.Current(), token, now);
      SelectedKeys(Claimed(store.Current(), token, now), token);
      entries := Claim(token);
      ghost var due := Selected(store.Current(), token);
      forall a | a in due ensures exists e | e in entries :: e.id == a {
        assert Entry(a, store.outbox[a]) in entries;
      }
      assert (set e | e in entries :: e.id) == due;
      failed := VisitAll(token, entries);
    }

    /** The loop of retryOutbox. */
    method VisitAll(token: nat, entries: seq<Entry>) returns (failed: bool)
      requires Valid()
      requires forall i, j | 0 <= i < j < |entries| :: entries[i].id < entries[j].id
      requires forall e | e in entries ::
                 e.id in store.outbox && Worker(e.id, token) in actors
                   && actors[Worker(e.id, token)] == NewActor(Worker(e.id, token), e.row)
      modifies this, store`canon, store`outbox
      ensures Valid() && old(states) <= states && old(events) <= events
      ensures forall e | e in entries ::
                var id := Worker(e.id, token);
                id in actors && (actors[id].pc == Halted || (failed && actors[id] == NewActor(id, e.row)))
    {
      hide Valid, NewActor;
      for i := 0 to |entries|
        invariant Valid() && old(states) <= states && old(events) <= events
        invariant store.outbox.Keys == old(store.outbox).Keys && actors.Keys == old(actors).Keys
        invariant forall j | 0 <= j < i :: actors[Worker(entries[j].id, token)].pc == Halted
        invariant forall j | i <= j < |entries| ::
                    actors[Worker(entries[j].id, token)] == old(actors)[Worker(entries[j].id, token)]
      {
        var stop := Visit(Worker(entries[i].id, token), entries[i]);
        if stop {
          return true;
        }
      }
      failed := false;
    }
  }
}
