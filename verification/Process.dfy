/** The workflow for one message, from the membership lookup to the response. Its decision is proved to be the one of
    Policy on the lookups it makes, and only a created plan or a suppression has an effect. */
module Process {
  import opened Tables
  import opened Canonical
  import opened Membership
  import opened SpanEdit
  import opened Message
  import opened Policy
  import P = Protocol
  import opened ProtocolSafety
  import opened ProtocolReplay
  import opened Workflow

  /** The action that suppressed a message: of its chat, topic, sender and content, and inside the window; or the
      loser of a creation race did not find the winner again. */
  ghost predicate Backed(c: Config, m: Input, t: Tables, id: Option<nat>, rule: string, now: int) {
    if id.Some? then Matches(t, id.value, KeyOf(c, m, rule), now) else Holder(t, KeyOf(c, m, rule)).Some?
  }

  lemma FoundInTables(t: Tables, k: Key, now: int)
    ensures Find(t, k, now).Some? ==> Find(t, k, now).value in t.canon
  {}

  lemma SuppressorInTables(c: Config, m: Input, w: Answers, sandboxed: bool, t: Tables, clock: Site -> int)
    requires Decide(c, m, w, LookupsAt(c, m, t, clock), sandboxed).Suppress?
    ensures Decide(c, m, w, LookupsAt(c, m, t, clock), sandboxed).id in t.canon
  {
    hide Newcomer, Links;
    SuppressionHasAction(c, m, w, sandboxed, t, clock);
  }

  /** The state in which the effects of a message begin, with Telegram's answer to a delete of the message. */
  datatype Start = Start(tables: Tables, states: seq<P.State>, events: seq<P.Event>, gone: set<(int, int)>,
                         suppressed: seq<(nat, int, int)>, answer: P.Answer)

  /** Suppression returns no error: the deletion was recorded for its action, or the bot may not delete. */
  predicate SuppressionOk(o: P.Answer, known: bool) {
    o == P.Refused(P.NoDeleteRight) || ((o.Accepted? || o == P.Refused(P.NotFound)) && known)
  }

  class Moderator {
    const app: Application
    const c: Config

    constructor (app: Application, c: Config)
      ensures this.app == app && this.c == c
    {
      this.app, this.c := app, c;
    }

    method LookUp(m: Input, clock: Site -> int, site: Site, rule: string) returns (found: Option<nat>)
      requires app.store.Valid()
      ensures found == LookupsAt(c, m, app.store.Current(), clock)(site, rule)
    {
      found := app.store.FindCanonical(KeyOf(c, m, rule), clock(site));
    }

    // Decisions

    method ModerateNewcomer(m: Input, clock: Site -> int) returns (d: Decision)
      requires app.store.Valid()
      ensures d == Newcomer(c, m, LookupsAt(c, m, app.store.Current(), clock))
    {
      var urls := ExtractURLs(c.lib, m);
      if |urls| == 0 {
        return Enact(NEWCOMER);
      }
      var found := LookUp(m, clock, AtNewcomer, NEWCOMER.rule);
      d := if found.Some? then Suppress(found.value) else Enact(NEWCOMER);
    }

    method ModeratePreview(m: Input, w: Answers, urls: seq<Url>) returns (plan: Option<Plan>)
      ensures plan == Preview(m, w, urls)
    {
      var previews: seq<Metadata> := [];
      for i := 0 to |urls|
        invariant Probes(w, m.previewDisabled, i) == Some(previews)
        invariant Probes(w, m.previewDisabled, |urls|).Some? ==> previews <= Probes(w, m.previewDisabled, |urls|).value
      {
        ProbesGrow(w, m.previewDisabled, i + 1, |urls|);
        if w.known(i) && !m.previewDisabled {
          previews := previews + [Metadata(true, "known-good")];
          continue;
        }
        var document := w.fetch(i);
        if document.None? {
          return None;
        }
        previews := previews + [document.value];
      }
      var useful := |previews| > 0;
      for i := 0 to |previews|
        invariant useful <==> |previews| > 0 && forall k | 0 <= k < i :: previews[k].useful
      {
        if !previews[i].useful {
          useful := false;
          break;
        }
      }
      if useful && m.previewDisabled {
        return Some(Plan(ReplaceSource, "link-preview", PreviewEnriched(urls[0].target, previews)));
      }
      plan := if !useful then Some(Plan(Effect.DeleteSource, "link-preview", PreviewMissing)) else None;
    }

    /** A failed probe is never recovered, and a probe's answer stays. */
    lemma ProbesGrow(w: Answers, disabled: bool, i: nat, n: nat)
      requires i <= n
      ensures Probes(w, disabled, n).Some? ==>
                Probes(w, disabled, i).Some? && Probes(w, disabled, i).value <= Probes(w, disabled, n).value
    {
      if i < n {
        ProbesGrow(w, disabled, i, n - 1);
      }
    }

    method ResolvedURLs(urls: seq<Url>, destinations: map<int, string>) returns (resolved: seq<Url>)
      ensures resolved == ResolvedUrls(urls, destinations)
    {
      resolved := urls;
      var rest := destinations.Keys;
      while rest != {}
        invariant rest <= destinations.Keys && |resolved| == |urls|
        invariant forall i | 0 <= i < |urls| ::
                    resolved[i]
                    == if i in destinations && i !in rest then ResolvedUrls(urls, destinations)[i] else urls[i]
        decreases rest
      {
        var i := Pick(rest);
        rest := rest - {i};
        if 0 <= i < |resolved| {
          resolved := resolved[i := resolved[i].(target := destinations[i], raw := destinations[i])];
        }
      }
    }

    /** The rule of the lowest rewritten index, whatever the order of the map. */
    method RewrittenRule(urls: seq<Url>, destinations: map<int, string>) returns (rule: string)
      requires forall i | i in destinations :: 0 <= i < |urls|
      ensures rule == LowestRule(c, urls, destinations)
    {
      rule := "google-share";
      var lowest := |urls|;
      var rest := destinations.Keys;
      while rest != {}
        invariant rest <= destinations.Keys && lowest <= |urls|
        invariant lowest < |urls| ==> lowest in destinations && c.matchName(urls[lowest].target) == Some(rule)
        invariant lowest == |urls| ==> rule == "google-share"
        invariant forall i | i in destinations && i !in rest && i < lowest :: c.matchName(urls[i].target).None?
        decreases rest
      {
        var i := Pick(rest);
        rest := rest - {i};
        if i < lowest {
          var name := c.matchName(urls[i].target);
          if name.Some? {
            rule, lowest := name.value, i;
          }
        }
      }
      LowestFound(urls, destinations, 0, lowest);
    }

    lemma LowestFound(urls: seq<Url>, destinations: map<int, string>, i: nat, lowest: nat)
      requires i <= lowest <= |urls|
      requires forall k | i <= k < lowest && k in destinations :: c.matchName(urls[k].target).None?
      requires lowest < |urls| ==> lowest in destinations && c.matchName(urls[lowest].target).Some?
      ensures LowestRule(c, urls, destinations, i)
              == if lowest < |urls| then c.matchName(urls[lowest].target).value else "google-share"
      decreases lowest - i
    {
      if i < lowest {
        LowestFound(urls, destinations, i + 1, lowest);
      }
    }

    method HandleResolvedWrappers(m: Input, w: Answers, clock: Site -> int, urls: seq<Url>,
                                  destinations: map<int, string>)
      returns (d: Decision)
      requires app.store.Valid() && forall i | i in destinations :: 0 <= i < |urls|
      ensures d == Wrappers(c, m, w, LookupsAt(c, m, app.store.Current(), clock), urls, destinations)
    {
      var replaced := ReplaceURLSpans(MessageText(m), urls, destinations);
      if replaced.None? {
        return Failed;
      }
      var only := IsLinkOnly(c.lib, m);
      if only {
        var resolved := ResolvedURLs(urls, destinations);
        var found := LookUp(m, clock, AtPreview, "link-preview");
        if found.Some? {
          return Suppress(found.value);
        }
        var preview := ModeratePreview(m, w, resolved);
        if preview.Some? && preview.value.effect == Effect.DeleteSource {
          return Enact(preview.value);
        }
      }
      var rule := RewrittenRule(urls, destinations);
      d := Enact(Plan(ReplaceSource, rule, GoogleWrapper(replaced.value)));
    }

    method ModerateLinks(m: Input, w: Answers, clock: Site -> int) returns (d: Decision)
      requires app.store.Valid()
      ensures d == Links(c, m, w, LookupsAt(c, m, app.store.Current(), clock))
    {
      ghost var look := LookupsAt(c, m, app.store.Current(), clock);
      var urls := ExtractURLs(c.lib, m);
      if |urls| == 0 {
        return Quiet;
      }
      var destinations: map<int, string> := map[];
      var matchedWrapper := false;
      for i := 0 to |urls|
        invariant LinkLoop(c, w, look, urls, 0, map[]) == LinkLoop(c, w, look, urls, i, destinations)
        invariant forall k | k in destinations :: 0 <= k < i
        invariant |destinations| > 0 ==> matchedWrapper
      {
        var name := c.matchName(urls[i].target);
        if name.None? {
          continue;
        }
        matchedWrapper := true;
        var found := LookUp(m, clock, AtUrl(i), name.value);
        if found.Some? {
          return Suppress(found.value);
        }
        var resolution := w.resolve(i);
        if resolution.ResolveFailed? {
          return Quiet;
        }
        if resolution.NotResolved? || resolution.destination == urls[i].target {
          continue;
        }
        destinations := destinations[i := resolution.destination];
      }
      if matchedWrapper && |destinations| > 0 {
        d := HandleResolvedWrappers(m, w, clock, urls, destinations);
        return;
      }
      var only := IsLinkOnly(c.lib, m);
      if !only {
        return Quiet;
      }
      var found := LookUp(m, clock, AtPreview, "link-preview");
      if found.Some? {
        return Suppress(found.value);
      }
      var plan := ModeratePreview(m, w, urls);
      d := if plan.Some? then Enact(plan.value) else Quiet;
    }

    // Effects

    /** What the effects of a message start from. */
    ghost function Before(m: Input): Start
      reads app, app.store
    {
      Start(app.store.Current(), app.states, app.events, app.gone, app.store.suppressed,
            app.DeleteAnswer(m.chat, m.message))
    }

    ghost predicate Untouched(s: Start)
      reads app, app.store
    {
      && app.store.Current() == s.tables && app.events == s.events
      && app.gone == s.gone && app.store.suppressed == s.suppressed
    }

    /** A delete of the message was tried; if the message is gone, the deletion was recorded for its action, if it
        has one. No action and no row changed. */
    ghost predicate Suppressed(m: Input, id: Option<nat>, s: Start)
      reads app, app.store
    {
      var accepted := s.answer.Accepted?;
      var deleted := accepted || s.answer == P.Refused(P.NotFound);
      && app.gone == (if accepted then s.gone + {(m.chat, m.message)} else s.gone)
      && app.store.suppressed
         == s.suppressed + (if deleted && id.Some? then [(id.value, m.message, app.now)] else [])
      && app.store.Current() == s.tables
    }

    /** Deletes a repost and records it. Without an action, which a loser may have, the store rejects the record and the
        deletion goes unrecorded. A missing delete right is logged and is no error; any other refusal is one. */
    method SuppressDuplicate(m: Input, id: Option<nat>) returns (ok: bool)
      requires app.Valid() && (id.Some? ==> id.value in app.store.canon)
      modifies app, app.store`suppressed
      ensures app.Valid() && app.actors == old(app.actors) && old(app.states) <= app.states
      ensures Suppressed(m, id, old(Before(m))) && OnlyDeletes(m, old(app.events), app.events)
      ensures ok <==> SuppressionOk(old(Before(m)).answer, id.Some?)
      ensures var answer := old(app.DeleteAnswer(m.chat, m.message));
              && app.gone == old(app.gone) + (if answer.Accepted? then {(m.chat, m.message)} else {})
              && app.store.suppressed
                 == old(app.store.suppressed)
                    + (if (answer.Accepted? || answer == P.Refused(P.NotFound)) && id.Some? then
                         [(id.value, m.message, app.now)] else [])
    {
      NoRowZero();
      var o := app.DeleteRepost(m.chat, m.message);
      if o.Refused? && o.error == P.NoDeleteRight {
        return true;
      }
      if o.Refused? && o.error != P.NotFound {
        return false;
      }
      ok := app.store.RecordSuppressed(if id.Some? then id.value else 0, m.message, app.now);
    }

    lemma NoRowZero()
      requires app.Valid()
      ensures 0 !in app.store.canon
    {}

    /** Between two histories only time passed, and the message may have been deleted. */
    ghost predicate OnlyDeletes(m: Input, before: seq<P.Event>, after: seq<P.Event>) {
      before <= after && forall k | |before| <= k < |after| :: after[k].Tick? || after[k] == P.Vanish(m.chat, m.message)
    }

    method ApplyPlan(m: Input, plan: Plan, clock: Site -> int) returns (o: Outcome, ok: bool)
      requires app.Valid()
      modifies app, app.store`canon, app.store`outbox, app.store`lastId, app.store`suppressed
      ensures app.Valid() && old(app.states) <= app.states && old(app.events) <= app.events
      ensures o == Applied(c, m, LookupsAt(c, m, old(app.store.Current()), clock), plan)
      ensures o.Silent? || o.Error? ==> Untouched(old(Before(m))) && (ok <==> o.Silent?)
      ensures o.Suppresses? ==> Suppressed(m, Some(o.id), old(Before(m))) && OnlyDeletes(m, old(app.events), app.events)
      ensures o.Suppresses? ==> (ok <==> SuppressionOk(old(Before(m)).answer, true))
      ensures o.Creates? ==> o.plan == plan && Carried(m, plan, clock, old(Before(m)), ok)
    {
      if plan.rule == "" || c.fingerprint(ContentOf(m), plan.rule) == "" {
        return Silent, true;
      }
      var found := LookUp(m, clock, AtApply, plan.rule);
      if found.Some? {
        FoundInTables(app.store.Current(), KeyOf(c, m, plan.rule), clock(AtApply));
        ok := SuppressDuplicate(m, found);
        o := Suppresses(found.value);
        return;
      }
      var text := Truncated(c.render(plan.notice, m.senderName), 3900);
      TrimSpaceBlank(text);
      if TrimSpace(text) == "" {
        return Error, false;
      }
      ok := Carry(m, plan, PayloadOf(c, m, plan), clock);
      o := Creates(plan);
    }

    /** The plan was offered to the store at the last second before event j. Either it was stored as event j, and its
        inline path ran until it halted; or another action of the same key was there first, and the message was
        suppressed. */
    ghost predicate Carried(m: Input, plan: Plan, clock: Site -> int, s: Start, ok: bool)
      reads app, app.store
    {
      var k, p, t, j := KeyOf(c, m, plan.rule), PayloadOf(c, m, plan), s.tables, |s.events| + 1;
      && j < |app.states| && s.events + [P.Tick(app.states[j].now), P.Event.Create(k, p, m.message)] <= app.events
      && (if Wins(t, k, app.states[j].now) then
            && CreatedBy(app.states, app.events, j, t.lastId + 1)
            && P.Inline(t.lastId + 1) in app.actors && app.actors[P.Inline(t.lastId + 1)].pc == P.Halted
            && (!ok ==> !app.actors[P.Inline(t.lastId + 1)].clean)
          else
            var winner := Find(t, k, clock(AtReread));
            && Suppressed(m, winner, s) && Backed(c, m, t, winner, plan.rule, clock(AtReread))
            && (ok <==> SuppressionOk(s.answer, winner.Some?)))
    }

    lemma CreatedNow(k: Key, p: Payload, source: int, t: Tables, before: seq<P.Event>, created: bool)
      requires app.Valid() && app.events == before + [P.Tick(app.now), P.Event.Create(k, p, source)]
      requires |app.states| == |before| + 3 && app.states[|before| + 1].tables == t
               && app.states[|before| + 1].now == app.now
      requires created <==> Wins(t, k, app.now)
      requires created ==> app.store.lastId == t.lastId + 1
      ensures created ==> CreatedBy(app.states, app.events, |before| + 1, t.lastId + 1)
    {}

    method Carry(m: Input, plan: Plan, payload: Payload, clock: Site -> int) returns (ok: bool)
      requires app.Valid() && payload == PayloadOf(c, m, plan)
      modifies app, app.store`canon, app.store`outbox, app.store`lastId, app.store`suppressed
      ensures app.Valid() && old(app.states) <= app.states && old(app.events) <= app.events
      ensures Carried(m, plan, clock, old(Before(m)), ok)
    {
      hide KeyOf, PayloadOf, P.NewActor, Created, Wins, P.Run, Consistent;
      ghost var t := app.store.Current();
      var k := KeyOf(c, m, plan.rule);
      KeyParts(m, plan.rule);
      OneStateMore();
      CreationAgrees(t, k, payload, m.message);
      FoundInTables(t, k, clock(AtReread));
      var action, created := app.CreateCanonical(k, payload, m.message, clock(AtReread));
      ghost var started := old(app.events) + [P.Tick(app.now), P.Event.Create(k, payload, m.message)];
      assert app.events == started;
      ghost var states := app.states;
      assert states[|old(app.events)| + 1] == old(app.Here()).(now := app.now);
      CreatedNow(k, payload, m.message, t, old(app.events), created);
      if created {
        ok := RunInline(P.Inline(app.store.lastId), action.value, m, payload);
      } else {
        ok := SuppressDuplicate(m, action);
      }
      assert started <= app.events && states <= app.states;
      OneStateMore();
      CreatedStays(states, started, app.states, app.events, |old(app.events)| + 1, t.lastId + 1);
    }

    lemma CreatedStays(b: seq<P.State>, es: seq<P.Event>, b': seq<P.State>, es': seq<P.Event>, j: nat, n: nat)
      requires b <= b' && es <= es' && |es'| < |b'|
      ensures CreatedBy(b, es, j, n) ==> CreatedBy(b', es', j, n)
    {
      hide Wins;
    }

    lemma OneStateMore()
      requires app.Valid()
      ensures |app.states| == |app.events| + 1
    {}

    lemma KeyParts(m: Input, rule: string)
      ensures KeyOf(c, m, rule).chat == m.chat && KeyOf(c, m, rule).thread == m.thread
      ensures Hex(KeyOf(c, m, rule).fingerprint)
    {}

    lemma CreationAgrees(t: Tables, k: Key, p: Payload, source: int)
      requires Consistent(t) && Hex(k.fingerprint)
      ensures forall now :: Wins(t, k, now) ==> Created(t, k, p, source, now).lastId == t.lastId + 1
      ensures forall now :: !Wins(t, k, now) ==> Holder(t, k).Some?
    {}

    /** The inline path of a new action. */
    method RunInline(ghost id: P.ActorId, a: nat, m: Input, payload: Payload) returns (ok: bool)
      requires app.Valid() && id == P.Inline(a) && a in app.store.outbox && id in app.actors
      requires app.actors[id] == P.NewActor(id, app.store.outbox[a])
      requires var r := app.store.outbox[a];
               && r.chat == m.chat && r.thread == m.thread && r.source == m.message
               && r.payload == payload && r.response == 0
      modifies app, app.store`canon, app.store`outbox
      ensures app.Ran(id) && app.actors[id].pc == P.Halted && (!ok ==> !app.actors[id].clean)
    {
      hide app.Valid, P.Run, Consistent;
      if payload.op == CopyMedia {
        ok := app.ApplyMediaAction(id, a, m.chat, m.thread, m.message, payload);
      } else {
        ok := app.ApplyTextAction(id, a, m.chat, m.thread, m.message, payload);
      }
    }

    // The whole workflow

    method Process(m: Input, w: Answers, clock: Site -> int) returns (o: Outcome, ok: bool)
      requires app.Valid()
      modifies app, app.store`canon, app.store`outbox, app.store`lastId, app.store`suppressed, app.store`members
      ensures app.Valid() && old(app.states) <= app.states && old(app.events) <= app.events
      ensures app.store.Membership(m.chat, m.sender)
              == MemberAfter(old(app.store.Membership(m.chat, m.sender)), FirstMessage)
      ensures var joined := JoinTime(app.store.Membership(m.chat, m.sender).value);
              var look := LookupsAt(c, m, old(app.store.Current()), clock);
              o == Judge(c, m, w, look, Sandboxed(c, m, joined, clock(AtNewcomer)))
      ensures o.Silent? || o.Error? ==> Untouched(old(Before(m))) && (ok <==> o.Silent?)
      ensures o.Suppresses? ==> Suppressed(m, Some(o.id), old(Before(m))) && OnlyDeletes(m, old(app.events), app.events)
      ensures o.Suppresses? ==> (ok <==> SuppressionOk(old(Before(m)).answer, true))
      ensures o.Creates? ==> Carried(m, o.plan, clock, old(Before(m)), ok)
    {
      hide Newcomer, Links, Applied, Sandboxed, Carried, OnlyDeletes, Consistent, P.Run, Suppressed, SuppressionOk,
          KeyOf;
      var membership := app.store.Membership(m.chat, m.sender);
      if membership.None? {
        app.store.Grandfather(m.chat, m.sender);
        membership := app.store.Membership(m.chat, m.sender);
      }
      var sandboxed := NewcomerPlan(m, JoinTime(membership.value), clock(AtNewcomer));
      var d;
      if sandboxed {
        d := ModerateNewcomer(m, clock);
      } else {
        d := ModerateLinks(m, w, clock);
      }
      match d {
        case Quiet => o, ok := Silent, true;
        case Failed => o, ok := Error, false;
        case Suppress(id) => {
          SuppressorInTables(c, m, w, sandboxed, app.store.Current(), clock);
          ok := SuppressDuplicate(m, Some(id));
          o := Suppresses(id);
        }
        case Enact(plan) => o, ok := ApplyPlan(m, plan, clock);
      }
    }

    // Two runs

    /** What the lookup of the sender's row will tell Process. */
    ghost function SenderJoined(m: Input): Option<int>
      reads app, app.store
    {
      var row := app.store.Membership(m.chat, m.sender);
      if row.Some? then JoinTime(row.value) else None
    }

    /** Process on a repost. Event j of the history created row n for a plan of an earlier message with the same
        content, sender and topic; whatever inline paths, workers and other messages did since, if the four hours
        have not passed and the sandbox decides as it did then, nothing is created, sent, replied or copied: at most
        the message is deleted. */
    method ProcessRepost(m: Input, w: Answers, clock: Site -> int, ghost first: Input, ghost w0: Answers,
                         ghost found: Lookups, ghost sandboxed: bool, ghost j: nat, ghost n: nat)
      returns (o: Outcome, ok: bool)
      requires app.Valid() && CreatedBy(app.states, app.events, j, n)
      requires Judge(c, first, w0, found, sandboxed).Creates?
      requires app.events[j].key == KeyOf(c, first, Judge(c, first, w0, found, sandboxed).plan.rule)
      requires ContentOf(first) == ContentOf(m)
      requires first.chat == m.chat && first.thread == m.thread && first.sender == m.sender
      requires Sandboxed(c, m, SenderJoined(m), clock(AtNewcomer)) == sandboxed
      requires app.now <= app.states[j].now + WINDOW_SECONDS
      requires forall site :: clock(site) <= app.states[j].now + WINDOW_SECONDS
      modifies app, app.store`canon, app.store`outbox, app.store`lastId, app.store`suppressed, app.store`members
      ensures app.Valid() && !o.Creates?
      ensures app.store.Current() == old(app.store.Current()) && OnlyDeletes(m, old(app.events), app.events)
    {
      hide Judge, Sandboxed, P.Step, P.CanHappen, CreatedBy, app.Ran;
      RepostJudged(app.states, app.events, j, n, first, w0, found, sandboxed, m, w, clock);
      o, ok := Process(m, w, clock);
    }

    lemma GrandfatheredHasNoJoin(row: Option<Member>)
      ensures MemberAfter(row, FirstMessage).Some?
      ensures JoinTime(MemberAfter(row, FirstMessage).value) == if row.Some? then JoinTime(row.value) else None
    {}

    /** Process on a message and then on a repost of it. If the first call wins the creation of its plan, and the second
        ends within four hours of it, with the sandbox deciding as before, the second creates nothing: whatever the
        network answers it, the rows are those the first call left, and at most the repost is deleted. */
    method ProcessTwice(first: Input, m: Input, w: Answers, w': Answers, clock: Site -> int, clock': Site -> int)
      returns (o: Outcome, o': Outcome, ghost between: Start)
      requires app.Valid() && ContentOf(first) == ContentOf(m)
      requires first.chat == m.chat && first.thread == m.thread && first.sender == m.sender
      modifies app, app.store`canon, app.store`outbox, app.store`lastId, app.store`suppressed, app.store`members
      ensures app.Valid() && old(app.states) <= app.states
      ensures old(app.events) <= between.events <= app.events
      ensures o.Creates? ==> |old(app.events)| + 1 < |app.states|
      ensures o.Creates? ==>
                var k, joined, j := KeyOf(c, first, o.plan.rule), old(SenderJoined(first)), |old(app.events)| + 1;
                var until := app.states[j].now + WINDOW_SECONDS;
                Wins(old(app.store.Current()), k, app.states[j].now)
                && Sandboxed(c, m, joined, clock'(AtNewcomer)) == Sandboxed(c, first, joined, clock(AtNewcomer))
                && app.now <= until && (forall site :: clock'(site) <= until) ==>
                  CreatedBy(app.states, app.events, j, old(app.store.lastId) + 1)
                  && !o'.Creates? && app.store.Current() == between.tables
                  && OnlyDeletes(m, between.events, app.events)
    {
      hide Judge, Sandboxed, P.Run, CreatedBy, Carried, OnlyDeletes, Consistent, KeyOf, ContentOf, Wins;
      ghost var joined, row := SenderJoined(first), app.store.Membership(first.chat, first.sender);
      ghost var t, look, j := app.store.Current(), LookupsAt(c, first, app.store.Current(), clock), |app.events| + 1;
      ghost var sandboxed := Sandboxed(c, first, joined, clock(AtNewcomer));
      GrandfatheredHasNoJoin(row);
      var ok;
      o, ok := Process(first, w, clock);
      between := Before(m);
      ghost var now := app.now;
      if o.Creates? {
        CarriedCreates(first, o.plan, clock, old(Before(first)), ok);
      }
      o', ok := Process(m, w', clock');
      NowPassed(between, now);
      if o.Creates? && Wins(t, KeyOf(c, first, o.plan.rule), between.states[j].now)
         && Sandboxed(c, m, joined, clock'(AtNewcomer)) == sandboxed
         && app.now <= between.states[j].now + WINDOW_SECONDS
         && (forall site :: clock'(site) <= between.states[j].now + WINDOW_SECONDS) {
        RepostJudged(between.states, between.events, j, t.lastId + 1, first, w, look, sandboxed, m, w', clock');
        OneStateMore();
        CreatedStays(between.states, between.events, app.states, app.events, j, t.lastId + 1);
        NothingHappens(m, app.events);
      }
    }

    lemma NothingHappens(m: Input, es: seq<P.Event>)
      ensures OnlyDeletes(m, es, es)
    {}

    lemma NowPassed(s: Start, now: int)
      requires app.Valid() && P.Run(s.states, s.events) && s.states[|s.events|].now == now
      requires s.states <= app.states && s.events <= app.events
      ensures now <= app.now
    {
      TimePasses(app.states, app.events, |s.events|, |app.events|);
    }

    lemma CarriedCreates(m: Input, plan: Plan, clock: Site -> int, s: Start, ok: bool)
      requires Carried(m, plan, clock, s, ok)
      ensures |s.events| + 1 < |app.states|
      ensures Wins(s.tables, KeyOf(c, m, plan.rule), app.states[|s.events| + 1].now) ==>
                CreatedBy(app.states, app.events, |s.events| + 1, s.tables.lastId + 1)
                && app.events[|s.events| + 1].key == KeyOf(c, m, plan.rule)
    {
      hide CreatedBy, Suppressed, Backed, KeyOf, PayloadOf, Wins;
      if Wins(s.tables, KeyOf(c, m, plan.rule), app.states[|s.events| + 1].now) {
        CreationBefore(app.states, app.events, |s.events| + 1, s.tables.lastId + 1);
        assert app.events[|s.events| + 1].Create?;
      }
    }

    lemma RepostJudged(b: seq<P.State>, es: seq<P.Event>, j: nat, n: nat, first: Input, w: Answers, look: Lookups,
                       sandboxed: bool, m: Input, w': Answers, clock: Site -> int)
      requires P.Run(b, es) && CreatedBy(b, es, j, n) && Judge(c, first, w, look, sandboxed).Creates?
      requires es[j].key == KeyOf(c, first, Judge(c, first, w, look, sandboxed).plan.rule)
      requires ContentOf(first) == ContentOf(m)
      requires first.chat == m.chat && first.thread == m.thread && first.sender == m.sender
      requires b[|es|].now <= b[j].now + WINDOW_SECONDS
      requires forall site :: clock(site) <= b[j].now + WINDOW_SECONDS
      ensures !Judge(c, m, w', LookupsAt(c, m, b[|es|].tables, clock), sandboxed).Creates?
    {
      hide Judge, CreatedBy;
      var rule := Judge(c, first, w, look, sandboxed).plan.rule;
      var look' := LookupsAt(c, m, b[|es|].tables, clock);
      forall site ensures look'(site, rule).Some? {
        CreationBefore(b, es, j, n);
        RunFindsCreation(b, es, j, n, |es|, clock(site));
      }
      SameContentReposts(c, first, m);
      RepostSilence(c, first, w, look, sandboxed, m, w', look');
    }

    lemma CreationBefore(b: seq<P.State>, es: seq<P.Event>, j: nat, n: nat)
      requires CreatedBy(b, es, j, n)
      ensures j < |es| < |b|
    {}

    method NewcomerPlan(m: Input, joined: Option<int>, now: int) returns (sandboxed: bool)
      ensures sandboxed <==> Sandboxed(c, m, joined, now)
      ensures sandboxed <==>
                joined.Some? && joined.value <= now < joined.value + c.window
                && (Urls(c.lib, m) != [] || m.mediaKind != "" || m.mediaGroupId != "")
    {
      if joined.None? || now < joined.value || now - joined.value >= c.window {
        return false;
      }
      var urls := ExtractURLs(c.lib, m);
      sandboxed := |urls| > 0 || m.mediaKind != "" || m.mediaGroupId != "";
    }
  }
}
