/** What moderation decides about one message, as a function of the message, the answers of the network and the
    lookups of canonical actions. */
module Policy {
  import opened Tables
  import opened Canonical
  import opened Membership
  import opened SpanEdit
  import opened Message

  // Inputs of a decision

  type Digest = s: string | Hex(s) witness ""

  /** What a fingerprint depends on besides the rule. */
  datatype Content = Content(text: string, entities: seq<Entity>, caption: string, captionEntities: seq<Entity>,
                             mediaKind: string, mediaUniqueId: string, mediaGroupId: string)

  function ContentOf(m: Input): Content {
    Content(m.text, m.entities, m.caption, m.captionEntities, m.mediaKind, m.mediaUniqueId, m.mediaGroupId)
  }

  datatype Metadata = Metadata(useful: bool, summary: string)

  datatype Notice =
    | NewcomerSandbox
    | GoogleWrapper(content: string)
    | PreviewMissing
    | PreviewEnriched(url: string, metadata: seq<Metadata>)

  /** The fixed parts of the application. MatchName and fingerprints are functions: they do not ask the network. */
  datatype Config = Config(lib: Library, fingerprint: (Content, string) -> Digest, matchName: string -> Option<string>,
                           render: (Notice, string) -> string, window: int)

  datatype Resolution = ResolveFailed | NotResolved | ResolvedTo(destination: string)

  /** What the network and the known-good cache answer for the i-th URL. */
  datatype Answers = Answers(resolve: nat -> Resolution, known: nat -> bool, fetch: nat -> Option<Metadata>)

  /** Where a canonical action is looked up; each place is reached at most once per message. */
  datatype Site = AtNewcomer | AtUrl(index: nat) | AtPreview | AtApply | AtCreate | AtReread

  type Lookups = (Site, string) -> Option<nat>

  function KeyOf(c: Config, m: Input, rule: string): Key {
    Key(m.chat, m.thread, m.sender, rule, "v0.5", c.fingerprint(ContentOf(m), rule))
  }

  // Decisions

  datatype Effect = DeleteSource | ReplaceSource

  datatype Plan = Plan(effect: Effect, rule: string, notice: Notice)

  /** Quiet and Failed leave everything as it is. */
  datatype Decision = Quiet | Failed | Suppress(id: nat) | Enact(plan: Plan)

  ghost predicate HasLinkOrMedia(c: Config, m: Input) {
    Urls(c.lib, m) != [] || m.mediaKind != "" || m.mediaGroupId != ""
  }

  ghost predicate Sandboxed(c: Config, m: Input, joined: Option<int>, now: int) {
    InSandbox(joined, now, c.window) && HasLinkOrMedia(c, m)
  }

  const NEWCOMER := Plan(DeleteSource, "newcomer-sandbox", NewcomerSandbox)

  ghost function Newcomer(c: Config, m: Input, look: Lookups): Decision {
    var found := look(AtNewcomer, NEWCOMER.rule);
    if Urls(c.lib, m) != [] && found.Some? then Suppress(found.value) else Enact(NEWCOMER)
  }

  /** The preview probes of the first n URLs, unless a fetch failed. */
  function Probes(w: Answers, disabled: bool, n: nat): (r: Option<seq<Metadata>>)
    ensures r.Some? ==> |r.value| == n
  {
    if n == 0 then Some([]) else
    var before := Probes(w, disabled, n - 1);
    if before.None? then None
    else if w.known(n - 1) && !disabled then Some(before.value + [Metadata(true, "known-good")])
    else if w.fetch(n - 1).None? then None
    else Some(before.value + [w.fetch(n - 1).value])
  }

  /** A fetch failure decides nothing; a useful preview is enriched only if the sender turned previews off. */
  ghost function Preview(m: Input, w: Answers, urls: seq<Url>): Option<Plan> {
    var probes := Probes(w, m.previewDisabled, |urls|);
    if probes.None? then None else
    var useful := urls != [] && forall i | 0 <= i < |urls| :: probes.value[i].useful;
    if !useful then Some(Plan(DeleteSource, "link-preview", PreviewMissing))
    else if m.previewDisabled then
      Some(Plan(ReplaceSource, "link-preview", PreviewEnriched(urls[0].target, probes.value)))
    else None
  }

  datatype LinkResult = Stopped(decision: Decision) | Went(destinations: map<int, string>)

  /** The loop over the URLs, from the i-th on. */
  ghost function LinkLoop(c: Config, w: Answers, look: Lookups, urls: seq<Url>, i: nat,
                          destinations: map<int, string>): LinkResult
    requires i <= |urls|
    decreases |urls| - i
  {
    if i == |urls| then Went(destinations) else
    var rule := c.matchName(urls[i].target);
    if rule.None? then LinkLoop(c, w, look, urls, i + 1, destinations) else
    var found := look(AtUrl(i), rule.value);
    if found.Some? then Stopped(Suppress(found.value)) else
    match w.resolve(i)
    case ResolveFailed => Stopped(Quiet)
    case NotResolved => LinkLoop(c, w, look, urls, i + 1, destinations)
    case ResolvedTo(d) =>
      LinkLoop(c, w, look, urls, i + 1, if d == urls[i].target then destinations else destinations[i := d])
  }

  /** The rule of the first rewritten URL. */
  function LowestRule(c: Config, urls: seq<Url>, destinations: map<int, string>, i: nat := 0): string
    requires i <= |urls|
    decreases |urls| - i
  {
    if i == |urls| then "google-share"
    else if i in destinations && c.matchName(urls[i].target).Some? then c.matchName(urls[i].target).value
    else LowestRule(c, urls, destinations, i + 1)
  }

  ghost function Replaced(text: string, urls: seq<Url>, destinations: map<int, string>): Option<string> {
    var used := Effective(urls, destinations);
    if AllValid(text, urls, used) && Disjoint(text, urls, used) then Some(LeftToRight(text, urls, used, 0)) else None
  }

  function ResolvedUrls(urls: seq<Url>, destinations: map<int, string>): (r: seq<Url>)
    ensures |r| == |urls|
  {
    seq(|urls|, i requires 0 <= i < |urls| =>
      if i in destinations then urls[i].(target := destinations[i], raw := destinations[i]) else urls[i])
  }

  ghost function Wrappers(c: Config, m: Input, w: Answers, look: Lookups, urls: seq<Url>,
                          destinations: map<int, string>): Decision {
    var replaced := Replaced(MessageText(m), urls, destinations);
    if replaced.None? then Failed else
    var wrapper := Plan(ReplaceSource, LowestRule(c, urls, destinations), GoogleWrapper(replaced.value));
    if !LinkOnly(c.lib, m) then Enact(wrapper) else
    var found := look(AtPreview, "link-preview");
    if found.Some? then Suppress(found.value) else
    var preview := Preview(m, w, ResolvedUrls(urls, destinations));
    Enact(if preview.Some? && preview.value.effect == DeleteSource then preview.value else wrapper)
  }

  ghost function Links(c: Config, m: Input, w: Answers, look: Lookups): Decision {
    var urls := Urls(c.lib, m);
    if urls == [] then Quiet else
    match LinkLoop(c, w, look, urls, 0, map[])
    case Stopped(d) => d
    case Went(destinations) =>
      if |destinations| > 0 then Wrappers(c, m, w, look, urls, destinations)
      else if !LinkOnly(c.lib, m) then Quiet
      else
        var found := look(AtPreview, "link-preview");
        if found.Some? then Suppress(found.value) else
        var preview := Preview(m, w, urls);
        if preview.None? then Quiet else Enact(preview.value)
  }

  ghost function Decide(c: Config, m: Input, w: Answers, look: Lookups, sandboxed: bool): Decision {
    if sandboxed then Newcomer(c, m, look) else Links(c, m, w, look)
  }

  // Applying a plan

  const ELLIPSIS: char := '\U{2026}'

  /** truncateRunes. */
  function Truncated(s: string, limit: nat): string {
    if |s| <= limit then s else TrimSpace(s[..limit]) + [ELLIPSIS]
  }

  function PayloadOf(c: Config, m: Input, plan: Plan): Payload {
    var text := Truncated(c.render(plan.notice, m.senderName), 3900);
    if plan.notice.GoogleWrapper? && m.mediaKind != "" && m.caption != "" then
      Payload(CopyMedia, Truncated(text, 1000), 0, text)
    else if plan.notice.PreviewEnriched? then Payload(Reply, text, m.message, "")
    else Payload(Text, text, 0, "")
  }

  /** What a message comes to: Creates asks the store for a new canonical action. */
  datatype Outcome = Silent | Error | Suppresses(id: nat) | Creates(plan: Plan)

  ghost function Judge(c: Config, m: Input, w: Answers, look: Lookups, sandboxed: bool): Outcome {
    match Decide(c, m, w, look, sandboxed)
    case Quiet => Silent
    case Failed => Error
    case Suppress(id) => Suppresses(id)
    case Enact(plan) => Applied(c, m, look, plan)
  }

  ghost function Applied(c: Config, m: Input, look: Lookups, plan: Plan): Outcome {
    var found := look(AtApply, plan.rule);
    if plan.rule == "" || c.fingerprint(ContentOf(m), plan.rule) == "" then Silent
    else if found.Some? then Suppresses(found.value)
    else if Blank(Truncated(c.render(plan.notice, m.senderName), 3900)) then Error
    else Creates(plan)
  }

  // What makes a plan

  lemma {:induction false} LoopDestinations(c: Config, w: Answers, look: Lookups, urls: seq<Url>, i: nat,
                                            destinations: map<int, string>)
    requires i <= |urls|
    requires forall k | k in destinations :: 0 <= k < i && c.matchName(urls[k].target).Some?
    ensures var r := LinkLoop(c, w, look, urls, i, destinations);
            && (r.Stopped? ==> !r.decision.Enact?)
            && (r.Went? ==> forall k | k in r.destinations :: 0 <= k < |urls| && c.matchName(urls[k].target).Some?)
    decreases |urls| - i
  {
    if i < |urls| {
      LoopDestinations(c, w, look, urls, i + 1, destinations);
      var d := w.resolve(i);
      if c.matchName(urls[i].target).Some? && d.ResolvedTo? {
        LoopDestinations(c, w, look, urls, i + 1, destinations[i := d.destination]);
      }
    }
  }

  /** The rule of a rewrite is the rule of a URL: the default is never used. */
  lemma {:induction false} LowestRuleMatches(c: Config, urls: seq<Url>, destinations: map<int, string>, i: nat, k: nat)
    requires i <= k < |urls| && k in destinations && c.matchName(urls[k].target).Some?
    ensures exists j | i <= j <= k ::
             j in destinations
             && c.matchName(urls[j].target) == Some(LowestRule(c, urls, destinations, i))
    decreases |urls| - i
  {
    if i in destinations && c.matchName(urls[i].target).Some? {
      assert c.matchName(urls[i].target) == Some(LowestRule(c, urls, destinations, i));
    } else {
      LowestRuleMatches(c, urls, destinations, i + 1, k);
    }
  }

  /** A resolver gave the rule its name. */
  predicate NamesUrl(c: Config, urls: seq<Url>, i: nat, rule: string) {
    i < |urls| && c.matchName(urls[i].target) == Some(rule)
  }

  lemma Element<T>(s: set<T>) returns (x: T)
    requires |s| > 0
    ensures x in s
  {
    x :| x in s;
  }

  lemma RewriteRule(c: Config, urls: seq<Url>, destinations: map<int, string>)
    requires |destinations| > 0
    requires forall k | k in destinations :: 0 <= k < |urls| && c.matchName(urls[k].target).Some?
    ensures exists i :: NamesUrl(c, urls, i, LowestRule(c, urls, destinations))
  {
    var k := Element(destinations.Keys);
    LowestRuleMatches(c, urls, destinations, 0, k);
    var j :| 0 <= j <= k && j in destinations && c.matchName(urls[j].target) == Some(LowestRule(c, urls, destinations));
    assert NamesUrl(c, urls, j, LowestRule(c, urls, destinations));
  }

  /** Where the rule of a plan comes from. */
  lemma RuleOrigin(c: Config, m: Input, w: Answers, look: Lookups)
    requires Links(c, m, w, look).Enact?
    ensures var rule := Links(c, m, w, look).plan.rule;
            (exists i :: NamesUrl(c, Urls(c.lib, m), i, rule)) || (LinkOnly(c.lib, m) && rule == "link-preview")
  {
    hide LinkOnly, LinkLoop, LowestRule, Urls, Replaced, NamesUrl;
    var urls := Urls(c.lib, m);
    LoopDestinations(c, w, look, urls, 0, map[]);
    var r := LinkLoop(c, w, look, urls, 0, map[]);
    if |r.destinations| > 0 {
      RewriteRule(c, urls, r.destinations);
    }
  }

  /** Lookups in given tables, each at its second. */
  ghost function LookupsAt(c: Config, m: Input, t: Tables, clock: Site -> int): Lookups {
    (site, rule) => Find(t, KeyOf(c, m, rule), clock(site))
  }

  // Repost silence

  /** A repost, as far as policy can tell: the same URLs lead to the same targets, and nothing else it tests differs. */
  ghost predicate Reposts(c: Config, m: Input, w: Input) {
    && Targets(Urls(c.lib, m)) == Targets(Urls(c.lib, w))
    && (LinkOnly(c.lib, m) <==> LinkOnly(c.lib, w))
    && (HasLinkOrMedia(c, m) <==> HasLinkOrMedia(c, w))
  }

  function Targets(urls: seq<Url>): seq<string> {
    seq(|urls|, i requires 0 <= i < |urls| => urls[i].target)
  }

  /** The same content is a repost. */
  lemma SameContentReposts(c: Config, m: Input, w: Input)
    requires ContentOf(m) == ContentOf(w)
    ensures Reposts(c, m, w)
  {
    assert Urls(c.lib, m) == Urls(c.lib, w);
  }

  /** If the rule of a URL is found, the loop never gets past it. */
  lemma {:induction false} LoopCatches(c: Config, w: Answers, look: Lookups, urls: seq<Url>, i: nat,
                                       destinations: map<int, string>, k: nat, rule: string)
    requires i <= k < |urls| && NamesUrl(c, urls, k, rule) && look(AtUrl(k), rule).Some?
    ensures var r := LinkLoop(c, w, look, urls, i, destinations);
            r.Stopped? && (r.decision.Quiet? || r.decision.Suppress?)
    decreases |urls| - i
  {
    if i < k {
      LoopCatches(c, w, look, urls, i + 1, destinations, k, rule);
      var d := w.resolve(i);
      if d.ResolvedTo? {
        LoopCatches(c, w, look, urls, i + 1, destinations[i := d.destination], k, rule);
      }
    }
  }

  /** A message outside the sandbox is caught in the loop or before the preview. */
  lemma LinksCatch(c: Config, m: Input, w: Answers, look: Lookups, rule: string)
    requires (exists i :: NamesUrl(c, Urls(c.lib, m), i, rule)) || (LinkOnly(c.lib, m) && rule == "link-preview")
    requires forall site :: look(site, rule).Some?
    ensures !Links(c, m, w, look).Enact?
  {
    var urls := Urls(c.lib, m);
    LoopDestinations(c, w, look, urls, 0, map[]);
    if i: nat :| NamesUrl(c, urls, i, rule) {
      LoopCatches(c, w, look, urls, 0, map[], i, rule);
    } else {
      assert look(AtPreview, "link-preview").Some?;
    }
  }

  /** Two runs: if the first asked for a canonical action, and the second, on a repost, finds that action wherever it
      looks for its rule, then the second creates nothing and sends nothing, whatever resolvers, fetches and previews
      answer. */
  lemma {:induction false} RepostSilence(c: Config, first: Input, w: Answers, look: Lookups, sandboxed: bool,
                                         second: Input, w': Answers, look': Lookups)
    requires Judge(c, first, w, look, sandboxed).Creates? && Reposts(c, first, second)
    requires forall site :: look'(site, Judge(c, first, w, look, sandboxed).plan.rule).Some?
    ensures !Judge(c, second, w', look', sandboxed).Creates?
  {
    hide Links, LinkOnly, Urls, HasLinkOrMedia;
    var rule := Judge(c, first, w, look, sandboxed).plan.rule;
    if !sandboxed {
      RuleOrigin(c, first, w, look);
      var us, vs := Urls(c.lib, first), Urls(c.lib, second);
      assert |us| == |Targets(us)| == |Targets(vs)| == |vs|;
      if i: nat :| NamesUrl(c, us, i, rule) {
        assert Targets(us)[i] == Targets(vs)[i];
        assert NamesUrl(c, vs, i, rule);
      }
      LinksCatch(c, second, w', look', rule);
    }
  }

  /** The lookups of a message, made on the tables after some prefixes of a run of the store. */
  ghost function LookupsIn(c: Config, m: Input, ops: seq<StoreOp>, at: Site -> nat, clock: Site -> int): Lookups {
    (site, rule) => if at(site) <= |ops| then Find(After(ops[..at(site)]), KeyOf(c, m, rule), clock(site)) else None
  }

  /** So a repost of the same content by the same sender in the same topic is silent until four hours after the
      creation, whatever other messages and workers do to the store meanwhile. */
  lemma {:induction false} RepostSilentInWindow(c: Config, first: Input, w: Answers, look: Lookups, sandboxed: bool,
                                                second: Input, w': Answers, ops: seq<StoreOp>, i: nat,
                                                at: Site -> nat, clock: Site -> int)
    requires Judge(c, first, w, look, sandboxed).Creates?
    requires Digests(ops) && CreatedAt(ops, i)
    requires ops[i].key == KeyOf(c, first, Judge(c, first, w, look, sandboxed).plan.rule)
    requires ContentOf(first) == ContentOf(second)
    requires first.chat == second.chat && first.thread == second.thread && first.sender == second.sender
    requires forall site :: i < at(site) <= |ops| && clock(site) <= ops[i].now + WINDOW_SECONDS
    requires forall n | i < n < |ops| && ops[n].NewAction? :: ops[n].now <= ops[i].now + WINDOW_SECONDS
    ensures !Judge(c, second, w', LookupsIn(c, second, ops, at, clock), sandboxed).Creates?
  {
    var rule := Judge(c, first, w, look, sandboxed).plan.rule;
    var look' := LookupsIn(c, second, ops, at, clock);
    forall site ensures look'(site, rule).Some? {
      FoundInsideWindow(ops, i, at(site), clock(site));
    }
    SameContentReposts(c, first, second);
    RepostSilence(c, first, w, look, sandboxed, second, w', look');
  }

  // When a repost is sure to be deleted

  lemma {:induction false} SkipsUnmatched(c: Config, w: Answers, look: Lookups, urls: seq<Url>, i: nat, k: nat)
    requires i <= k <= |urls| && forall j | i <= j < k :: c.matchName(urls[j].target).None?
    ensures LinkLoop(c, w, look, urls, i, map[]) == LinkLoop(c, w, look, urls, k, map[])
    decreases k - i
  {
    if i < k {
      SkipsUnmatched(c, w, look, urls, i + 1, k);
    }
  }

  /** The first URL that a resolver matches. */
  function FirstMatched(c: Config, urls: seq<Url>, i: nat := 0): (k: nat)
    requires i <= |urls|
    ensures i <= k <= |urls| && (k < |urls| ==> c.matchName(urls[k].target).Some?)
    ensures forall j | i <= j < k :: c.matchName(urls[j].target).None?
    decreases |urls| - i
  {
    if i == |urls| || c.matchName(urls[i].target).Some? then i else FirstMatched(c, urls, i + 1)
  }

  /** What the first lookup of a message outside the sandbox finds: that of its first matched URL, or that of the
      preview policy for a link-only message none of whose URLs is matched. */
  ghost function FirstLookup(c: Config, m: Input, look: Lookups): Option<nat> {
    var urls := Urls(c.lib, m);
    var i := FirstMatched(c, urls);
    if i < |urls| then look(AtUrl(i), c.matchName(urls[i].target).value)
    else if LinkOnly(c.lib, m) then look(AtPreview, "link-preview")
    else None
  }

  /** The sandbox is decided without the network, and a hit of the first lookup settles a message before anything is
      resolved or fetched. */
  lemma NetworkComesLast(c: Config, m: Input, w: Answers, w': Answers, look: Lookups)
    ensures Judge(c, m, w, look, true) == Judge(c, m, w', look, true)
    ensures FirstLookup(c, m, look).Some? ==> Judge(c, m, w, look, false) == Suppresses(FirstLookup(c, m, look).value)
  {
    var urls := Urls(c.lib, m);
    SkipsUnmatched(c, w, look, urls, 0, FirstMatched(c, urls));
  }

  // What suppresses a message

  ghost predicate LookedUp(look: Lookups, id: nat) {
    exists site, rule :: look(site, rule) == Some(id)
  }

  lemma {:induction false} LoopSuppresses(c: Config, w: Answers, look: Lookups, urls: seq<Url>, i: nat,
                                          destinations: map<int, string>)
    requires i <= |urls|
    ensures var r := LinkLoop(c, w, look, urls, i, destinations);
            r.Stopped? && r.decision.Suppress? ==> LookedUp(look, r.decision.id)
    decreases |urls| - i
  {
    if i < |urls| {
      var rule := c.matchName(urls[i].target);
      if rule.None? || look(AtUrl(i), rule.value).None? {
        LoopSuppresses(c, w, look, urls, i + 1, destinations);
        if w.resolve(i).ResolvedTo? {
          LoopSuppresses(c, w, look, urls, i + 1, destinations[i := w.resolve(i).destination]);
        }
      }
    }
  }

  /** A message is suppressed only by an active canonical action of its own chat, topic, sender and content, no older
      than four hours when it was looked up. */
  lemma SuppressionHasAction(c: Config, m: Input, w: Answers, sandboxed: bool, t: Tables, clock: Site -> int)
    requires Judge(c, m, w, LookupsAt(c, m, t, clock), sandboxed).Suppresses?
    ensures var id := Judge(c, m, w, LookupsAt(c, m, t, clock), sandboxed).id;
            exists site, rule :: Matches(t, id, KeyOf(c, m, rule), clock(site))
    ensures var id := Judge(c, m, w, LookupsAt(c, m, t, clock), sandboxed).id;
            && id in t.canon && t.canon[id].active
            && t.canon[id].key.chat == m.chat && t.canon[id].key.thread == m.thread && t.canon[id].key.user == m.sender
            && t.canon[id].key.fingerprint == c.fingerprint(ContentOf(m), t.canon[id].key.rule)
            && exists site :: clock(site) <= t.canon[id].createdAt + 14400
  {
    hide LinkOnly, Preview, Replaced, Matches, LowestRule, KeyOf;
    var look := LookupsAt(c, m, t, clock);
    var id := Judge(c, m, w, look, sandboxed).id;
    LoopSuppresses(c, w, look, Urls(c.lib, m), 0, map[]);
    assert LookedUp(look, id);
    var site, rule :| look(site, rule) == Some(id);
    assert Matches(t, id, KeyOf(c, m, rule), clock(site));
    MatchTells(c, m, t, id, rule, clock(site));
  }

  /** What a match says of the row, column by column. */
  lemma MatchTells(c: Config, m: Input, t: Tables, id: nat, rule: string, now: int)
    requires Matches(t, id, KeyOf(c, m, rule), now)
    ensures && id in t.canon && t.canon[id].active && now <= t.canon[id].createdAt + 14400
            && t.canon[id].key.chat == m.chat && t.canon[id].key.thread == m.thread && t.canon[id].key.user == m.sender
            && t.canon[id].key.fingerprint == c.fingerprint(ContentOf(m), t.canon[id].key.rule)
            && t.canon[id].key.rule == rule && t.canon[id].key.version == "v0.5"
  {}

  // When a message is deleted for want of a preview

  ghost predicate Probed(m: Input, w: Answers, i: nat) {
    (w.known(i) && !m.previewDisabled) || w.fetch(i).Some?
  }

  ghost predicate ProbedUseful(m: Input, w: Answers, i: nat) {
    if w.known(i) && !m.previewDisabled then true else w.fetch(i).Some? && w.fetch(i).value.useful
  }

  lemma {:induction false} ProbesAnswer(m: Input, w: Answers, n: nat)
    ensures Probes(w, m.previewDisabled, n).Some? <==> forall i: nat | i < n :: Probed(m, w, i)
    ensures Probes(w, m.previewDisabled, n).Some? ==>
              forall i: nat | i < n :: Probes(w, m.previewDisabled, n).value[i].useful <==> ProbedUseful(m, w, i)
  {
    if n > 0 {
      ProbesAnswer(m, w, n - 1);
      assert (forall i: nat | i < n :: Probed(m, w, i)) <==>
                (forall i: nat | i < n - 1 :: Probed(m, w, i))
                && Probed(m, w, n - 1);
    }
  }

  /** The preview policy plans a deletion exactly when every URL was probed and one of them has no useful preview. */
  lemma MissingPreview(m: Input, w: Answers, urls: seq<Url>)
    requires urls != []
    ensures Preview(m, w, urls) == Some(Plan(DeleteSource, "link-preview", PreviewMissing))
            <==>
              (forall i: nat | i < |urls| :: Probed(m, w, i))
              && (exists i: nat | i < |urls| :: !ProbedUseful(m, w, i))
  {
    ProbesAnswer(m, w, |urls|);
  }

  /** A message is deleted for want of a preview only if it is link-only, every probe succeeded or was known good,
      and one was not useful. */
  lemma MissingPreviewHasCause(c: Config, m: Input, w: Answers, look: Lookups, sandboxed: bool)
    requires Judge(c, m, w, look, sandboxed).Creates? && Judge(c, m, w, look, sandboxed).plan.notice == PreviewMissing
    ensures !sandboxed && LinkOnly(c.lib, m)
    ensures forall i: nat | i < |Urls(c.lib, m)| :: Probed(m, w, i)
    ensures exists i: nat | i < |Urls(c.lib, m)| :: !ProbedUseful(m, w, i)
  {
    var urls := Urls(c.lib, m);
    LoopDestinations(c, w, look, urls, 0, map[]);
    var r := LinkLoop(c, w, look, urls, 0, map[]);
    MissingPreview(m, w, urls);
    if r.Went? {
      MissingPreview(m, w, ResolvedUrls(urls, r.destinations));
    }
  }
}
