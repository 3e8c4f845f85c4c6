/** Reposts under the production resolvers. The answers of Policy are tied to the registry: what a URL resolves to is
    the outcome of its resolver chain for some answers of the network. So it is decided which lookups are sure to
    protect a repost, and which reposts a failing network leaves in place. */
module Reposts {
  import opened Tables
  import opened SpanEdit
  import Utf16Text
  import opened Message
  import opened Policy
  import W = WebAddress
  import V = Resolvers
  import R = Registry

  // Answers of the registry

  /** What Process makes of a resolution: every error counts as a failure. */
  function ResolutionOf(web: W.Library, r: R.Outcome): Resolution {
    match r
    case NoMatch => NotResolved
    case Resolved(_, destination, _) => ResolvedTo(W.Render(web, destination))
    case _ => ResolveFailed
  }

  function Resolve(web: W.Library, net: nat -> V.Fetched, target: string): Resolution {
    ResolutionOf(web, R.OutcomeOf(web, R.Production(web), net, target))
  }

  /** MatchName is that of the production registry. */
  ghost predicate Wired(c: Config, web: W.Library) {
    forall raw :: c.matchName(raw) == R.MatchName(web, R.Production(web), raw)
  }

  ghost predicate Answered(web: W.Library, target: string, x: Resolution) {
    exists net :: x == Resolve(web, net, target)
  }

  /** The resolutions of the message's URLs come from the registry, for some network; previews are free. */
  ghost predicate Genuine(c: Config, web: W.Library, m: Input, w: Answers) {
    forall i | 0 <= i < |Urls(c.lib, m)| :: Answered(web, Urls(c.lib, m)[i].target, w.resolve(i))
  }

  // A matched URL fails or moves

  /** Lower case does not change what a host is compared as. */
  lemma HostInLowerCase(web: W.Library, u: W.Address, v: W.Address)
    requires W.Lawful(web) && v.host == W.Lower(web, u.host)
    ensures V.Host(web, v) == V.Host(web, u)
  {
    var h, k := web.hostname(u.host), web.hostname(v.host);
    assert k == W.Lower(web, h) by { assert web.hostname(W.Lower(web, u.host)) == W.Lower(web, h); }
    LowerTwice(web, h);
  }

  lemma LowerTwice(web: W.Library, h: string)
    ensures W.Lower(web, W.TrimSuffix(W.Lower(web, h), ".")) == W.Lower(web, W.TrimSuffix(h, "."))
  {
    var t := W.Lower(web, h);
    assert W.FoldsCase(web.lowerRune);
    assert h != "" ==> (h[|h| - 1] == '.' <==> t[|t| - 1] == '.');
    assert h != "" ==> h[|h| - 1..] == [h[|h| - 1]] && t[|t| - 1..] == [t[|t| - 1]];
    assert forall i | 0 <= i < |h| :: web.lowerRune(web.lowerRune(h[i])) == web.lowerRune(h[i]);
  }

  lemma CleanInLowerCase(web: W.Library, u: W.Address, v: W.Address)
    requires W.Lawful(web) && R.Clean(web, u)
    requires v.host == W.Lower(web, u.host) && v.path == u.path && v.rawQuery == u.rawQuery
    ensures R.FirstMatch(R.Production(web), v).None?
  {
    HostInLowerCase(web, u, v);
    assert !V.IsGoogleShare(web, v) && !V.IsAmp(web, v) && V.TrackingParameters(web, v) == {};
  }

  /** A target that renders a clean URL is matched by no resolver. */
  lemma CleanIsUnmatched(web: W.Library, target: string, d: W.Address)
    requires W.Lawful(web) && W.ReadsBack(web) && Trimmed(target) && R.Clean(web, d) && W.Render(web, d) == target
    ensures R.MatchName(web, R.Production(web), target).None?
  {
    TrimSpaceTrims(target);
    var p := web.parse(target);
    if p.Some? && W.IsHttp(web, p.value) {
      assert web.parse(W.Render(web, d)) == p;
      CleanInLowerCase(web, d, R.ParseHttp(web, target).value);
    }
  }

  /** For a URL that MatchName matches, resolution fails or leads to a different URL, whatever the network answers. */
  lemma MatchedMoves(web: W.Library, net: nat -> V.Fetched, target: string)
    requires W.Lawful(web) && W.ReadsBack(web) && Trimmed(target)
    requires R.MatchName(web, R.Production(web), target).Some?
    ensures var x := Resolve(web, net, target);
            x == ResolveFailed || (x.ResolvedTo? && x.destination != target)
  {
    hide R.Production, R.Clean, W.Lawful, W.ReadsBack;
    var rs := R.Production(web);
    var r := R.OutcomeOf(web, rs, net, target);
    var urls := R.OutcomeHasRun(web, rs, net, target);
    R.ResolvedIsClean(web, net, target, urls, r);
    if r.Resolved? && W.Render(web, r.destination) == target {
      CleanIsUnmatched(web, target, r.destination);
    }
  }

  /** Every target is trimmed. */
  lemma TargetsTrimmed(lib: Library, m: Input, i: nat)
    requires i < |Urls(lib, m)|
    ensures Trimmed(Urls(lib, m)[i].target)
  {
    UrlTrimmed(lib, MessageText(m), MessageEntities(m), Urls(lib, m)[i]);
  }

  lemma {:induction false} UrlTrimmed(lib: Library, text: string, es: seq<Entity>, u: Url)
    requires u in UrlsOf(lib, text, es)
    ensures Trimmed(u.target)
  {
    var e := es[|es| - 1];
    if UrlOf(lib, text, e) == Some(u) {
      var span := Utf16Text.CharSpan(text, e.offset, e.length);
      TrimSpaceTrims(if e.kind == UrlEntity then text[span.value.start..span.value.end] else e.url);
      assert "https://"[0] == 'h' && "https://"[7] == '/';
    } else {
      UrlTrimmed(lib, text, es[..|es| - 1], u);
    }
  }

  // Reposts of a rewritten message

  /** Every matched URL fails or moves. */
  ghost predicate Moves(c: Config, urls: seq<Url>, w: Answers) {
    forall i | 0 <= i < |urls| && c.matchName(urls[i].target).Some? ::
      w.resolve(i) == ResolveFailed || (w.resolve(i).ResolvedTo? && w.resolve(i).destination != urls[i].target)
  }

  lemma GenuineMoves(c: Config, web: W.Library, m: Input, w: Answers)
    requires W.Lawful(web) && W.ReadsBack(web) && Wired(c, web) && Genuine(c, web, m, w)
    ensures Moves(c, Urls(c.lib, m), w)
  {
    hide W.Lawful, W.ReadsBack, Resolve;
    var urls := Urls(c.lib, m);
    forall i | 0 <= i < |urls| && c.matchName(urls[i].target).Some?
      ensures w.resolve(i) == ResolveFailed || (w.resolve(i).ResolvedTo? && w.resolve(i).destination != urls[i].target)
    {
      assert Answered(web, urls[i].target, w.resolve(i));
      var net :| w.resolve(i) == Resolve(web, net, urls[i].target);
      TargetsTrimmed(c.lib, m, i);
      MatchedMoves(web, net, urls[i].target);
    }
  }

  /** A loop that goes through has rewritten every matched URL. */
  lemma {:induction false} LoopRewritesMatched(c: Config, w: Answers, look: Lookups, urls: seq<Url>, i: nat,
                                               destinations: map<int, string>)
    requires i <= |urls| && Moves(c, urls, w)
    requires forall k | 0 <= k < i && c.matchName(urls[k].target).Some? :: k in destinations
    ensures var r := LinkLoop(c, w, look, urls, i, destinations);
            r.Went? ==> forall k | 0 <= k < |urls| && c.matchName(urls[k].target).Some? :: k in r.destinations
    decreases |urls| - i
  {
    if i < |urls| {
      if c.matchName(urls[i].target).None? {
        LoopRewritesMatched(c, w, look, urls, i + 1, destinations);
      } else if w.resolve(i).ResolvedTo? {
        LoopRewritesMatched(c, w, look, urls, i + 1, destinations[i := w.resolve(i).destination]);
      }
    }
  }

  /** With every matched URL rewritten, the rule is that of the first matched one. */
  lemma {:induction false} LowestIsFirst(c: Config, urls: seq<Url>, destinations: map<int, string>, i: nat)
    requires i <= |urls|
    requires forall k | 0 <= k < |urls| && c.matchName(urls[k].target).Some? :: k in destinations
    ensures var k := FirstMatched(c, urls, i);
            k < |urls| ==> c.matchName(urls[k].target) == Some(LowestRule(c, urls, destinations, i))
    decreases |urls| - i
  {
    if i < |urls| && c.matchName(urls[i].target).None? {
      LowestIsFirst(c, urls, destinations, i + 1);
    }
  }

  /** A rewrite is stored under the rule of the first matched URL. */
  lemma WrapperRule(c: Config, m: Input, w: Answers, look: Lookups)
    requires Moves(c, Urls(c.lib, m), w)
    requires Links(c, m, w, look).Enact? && Links(c, m, w, look).plan.notice.GoogleWrapper?
    ensures var urls := Urls(c.lib, m);
            var i := FirstMatched(c, urls);
            i < |urls| && c.matchName(urls[i].target) == Some(Links(c, m, w, look).plan.rule)
  {
    hide LinkOnly, Replaced, Urls;
    var urls := Urls(c.lib, m);
    LoopDestinations(c, w, look, urls, 0, map[]);
    LoopRewritesMatched(c, w, look, urls, 0, map[]);
    var r := LinkLoop(c, w, look, urls, 0, map[]);
    LowestIsFirst(c, urls, r.destinations, 0);
    RewriteRule(c, urls, r.destinations);
    var k :| NamesUrl(c, urls, k, LowestRule(c, urls, r.destinations));
    assert FirstMatched(c, urls) <= k;
  }

  lemma {:induction false} SameFirstMatched(c: Config, us: seq<Url>, vs: seq<Url>, i: nat)
    requires Targets(us) == Targets(vs) && i <= |us| == |vs|
    ensures FirstMatched(c, us, i) == FirstMatched(c, vs, i)
    decreases |us| - i
  {
    if i < |us| {
      assert Targets(us)[i] == Targets(vs)[i];
      SameFirstMatched(c, us, vs, i + 1);
    }
  }

  /** The repost of a rewritten message: if the first run stored a rewrite and the second finds that action, the
      first lookup of the second hits, and the message is suppressed whatever the network answers. */
  lemma {:induction false} RewriteProtects(c: Config, web: W.Library, first: Input, w: Answers, look: Lookups,
                                           second: Input, w': Answers, look': Lookups)
    requires W.Lawful(web) && W.ReadsBack(web) && Wired(c, web) && Genuine(c, web, first, w)
             && Reposts(c, first, second)
    requires Judge(c, first, w, look, false).Creates? && Judge(c, first, w, look, false).plan.notice.GoogleWrapper?
    requires forall site :: look'(site, Judge(c, first, w, look, false).plan.rule).Some?
    ensures FirstLookup(c, second, look').Some?
    ensures Judge(c, second, w', look', false) == Suppresses(FirstLookup(c, second, look').value)
  {
    hide Links, W.Lawful, W.ReadsBack, Genuine, LinkOnly, Urls;
    GenuineMoves(c, web, first, w);
    WrapperRule(c, first, w, look);
    var us, vs := Urls(c.lib, first), Urls(c.lib, second);
    assert |us| == |Targets(us)| == |Targets(vs)| == |vs|;
    SameFirstMatched(c, us, vs, 0);
    var i := FirstMatched(c, us);
    assert us[i].target == Targets(us)[i] == Targets(vs)[i] == vs[i].target;
    NetworkComesLast(c, second, w', w', look');
  }

  // Which lookups are sure to protect a message

  const UNREACHABLE: nat -> V.Fetched := _ => V.FetchFailed

  /** What is known to have good previews is local: it does not depend on the network. */
  ghost predicate Knows(c: Config, m: Input, w: Answers, known: nat -> bool) {
    forall i: nat | i < |Urls(c.lib, m)| :: w.known(i) == known(i)
  }

  /** A network that is down: only rewrites that fetch nothing succeed. */
  ghost function Down(c: Config, web: W.Library, m: Input, known: nat -> bool): Answers {
    var urls := Urls(c.lib, m);
    Answers((i: nat) => if i < |urls| then Resolve(web, UNREACHABLE, urls[i].target) else ResolveFailed, known,
        _ => None)
  }

  /** A network that serves pages without a preview, but nothing to resolve. */
  ghost function Useless(c: Config, web: W.Library, m: Input, known: nat -> bool): Answers {
    Down(c, web, m, known).(fetch := _ => Some(Metadata(false, "")))
  }

  lemma DownIsGenuine(c: Config, web: W.Library, m: Input, known: nat -> bool)
    ensures Genuine(c, web, m, Down(c, web, m, known)) && Genuine(c, web, m, Useless(c, web, m, known))
  {
    hide Resolve;
    var urls := Urls(c.lib, m);
    forall i | 0 <= i < |urls| ensures Answered(web, urls[i].target, Down(c, web, m, known).resolve(i)) {
      assert Down(c, web, m, known).resolve(i) == Resolve(web, UNREACHABLE, urls[i].target);
    }
  }

  /** What a production resolver makes of a URL without fetching, it makes of it for every answer. */
  lemma NeedsNoFetch(web: W.Library, u: W.Address, f: V.Fetched, i: nat)
    requires i < |R.Production(web)|
    ensures var r := R.Production(web)[i];
            r.resolve(u, V.FetchFailed) == V.Refused || r.resolve(u, f) == r.resolve(u, V.FetchFailed)
  {
    hide V.IsAmp, V.IsGoogleShare, V.IsPublic, V.UnwrapAmpCache, V.WithoutTracking, V.TrackingParameters;
    assert i == 0 || i == 1 || i == 2;
  }

  lemma {:induction false} ChainNeedsNoFetch(web: W.Library, net: nat -> V.Fetched, first: W.Address, k: nat,
                                             u: W.Address)
    requires k <= |R.Production(web)| + 1
    ensures var rs := R.Production(web);
            var down := R.Chain(web, rs, UNREACHABLE, first, k, u);
            down.ResolverFailed? || R.Chain(web, rs, net, first, k, u) == down
    decreases |R.Production(web)| + 1 - k
  {
    hide R.Production, R.FirstMatch, W.Render, R.NameFor;
    var rs := R.Production(web);
    var i := R.FirstMatch(rs, u);
    if k <= |rs| && i.Some? {
      NeedsNoFetch(web, u, net(k), i.value);
      match rs[i.value].resolve(u, UNREACHABLE(k)) {
        case Gave(Some(d)) =>
          if W.Render(web, d) != W.Render(web, u) {
            ChainNeedsNoFetch(web, net, first, k + 1, d);
          }
        case _ =>
      }
    }
  }

  /** Resolution fails when the network is down, or is the same for every network. */
  lemma DownAgrees(web: W.Library, net: nat -> V.Fetched, target: string)
    ensures var x := Resolve(web, UNREACHABLE, target);
            x == ResolveFailed || x == Resolve(web, net, target)
  {
    hide R.Production, R.Chain;
    var u := R.ParseHttp(web, target);
    if u.Some? {
      ChainNeedsNoFetch(web, net, u.value, 0, u.value);
    }
  }

  /** The loop stops quietly when the network is down, or does the same for every network. */
  lemma {:induction false} LoopWhenDown(c: Config, web: W.Library, m: Input, known: nat -> bool, w: Answers,
                                        look: Lookups, i: nat, destinations: map<int, string>)
    requires i <= |Urls(c.lib, m)| && Genuine(c, web, m, w)
    ensures var down := LinkLoop(c, Down(c, web, m, known), look, Urls(c.lib, m), i, destinations);
            down == Stopped(Quiet) || LinkLoop(c, w, look, Urls(c.lib, m), i, destinations) == down
    decreases |Urls(c.lib, m)| - i
  {
    hide Resolve, Urls;
    var urls := Urls(c.lib, m);
    if i < |urls| {
      LoopWhenDown(c, web, m, known, w, look, i + 1, destinations);
      assert Answered(web, urls[i].target, w.resolve(i));
      var net :| w.resolve(i) == Resolve(web, net, urls[i].target);
      DownAgrees(web, net, urls[i].target);
      var x := Down(c, web, m, known).resolve(i);
      assert x == Resolve(web, UNREACHABLE, urls[i].target);
      if x.ResolvedTo? {
        LoopWhenDown(c, web, m, known, w, look, i + 1, destinations[i := x.destination]);
      }
    }
  }

  /** The lookup of applyPlan hits. */
  predicate AppliedHits(c: Config, m: Input, look: Lookups, rule: string) {
    rule != "" && c.fingerprint(ContentOf(m), rule) != "" && look(AtApply, rule).Some?
  }

  /** Every preview is known to be good, and none is asked for again. */
  ghost predicate AllKnown(c: Config, m: Input, known: nat -> bool) {
    !m.previewDisabled && forall i: nat | i < |Urls(c.lib, m)| :: known(i)
  }

  /** A lookup hits before anything depends on the network: in the loop, after rewrites that fetch nothing; before the
      preview policy; or when the plan is applied, and then for both plans a link-only rewrite can come to, which is one
      plan if all its previews are known to be good. */
  ghost predicate SureHit(c: Config, web: W.Library, m: Input, known: nat -> bool, look: Lookups) {
    var urls := Urls(c.lib, m);
    match LinkLoop(c, Down(c, web, m, known), look, urls, 0, map[])
    case Stopped(d) => d.Suppress?
    case Went(destinations) =>
      var atPreview := LinkOnly(c.lib, m) && look(AtPreview, "link-preview").Some?;
      if |destinations| == 0 then atPreview
      else
        && Replaced(MessageText(m), urls, destinations).Some?
        && (atPreview || (AppliedHits(c, m, look, LowestRule(c, urls, destinations))
                          && (LinkOnly(c.lib, m) && !AllKnown(c, m, known) ==>
                               AppliedHits(c, m, look, "link-preview"))))
  }

  /** With what is known to be good given, a message is suppressed for every network if and only if a sure lookup
      hits. */
  lemma DeletedWhateverAnswers(c: Config, web: W.Library, m: Input, known: nat -> bool, look: Lookups)
    ensures (forall w | Genuine(c, web, m, w) && Knows(c, m, w, known) :: Judge(c, m, w, look, false).Suppresses?)
            <==> SureHit(c, web, m, known, look)
  {
    forall w | Genuine(c, web, m, w) && Knows(c, m, w, known) && SureHit(c, web, m, known, look)
      ensures Judge(c, m, w, look, false).Suppresses?
    {
      SureHitSuppresses(c, web, m, known, w, look);
    }
    DownIsGenuine(c, web, m, known);
    if !SureHit(c, web, m, known, look) {
      NoSureHit(c, web, m, known, look);
    }
  }

  lemma SureHitSuppresses(c: Config, web: W.Library, m: Input, known: nat -> bool, w: Answers, look: Lookups)
    requires Genuine(c, web, m, w) && Knows(c, m, w, known) && SureHit(c, web, m, known, look)
    ensures Judge(c, m, w, look, false).Suppresses?
  {
    hide LinkOnly, Urls, Replaced, LinkLoop, LowestRule, Genuine, Preview, Knows, AllKnown;
    LinkOnlyHasUrls(c, m);
    LoopWhenDown(c, web, m, known, w, look, 0, map[]);
    LoopWhenEmpty(c, w, look, Urls(c.lib, m));
    var r := LinkLoop(c, w, look, Urls(c.lib, m), 0, map[]);
    if r.Went? {
      var resolved := ResolvedUrls(Urls(c.lib, m), r.destinations);
      PreviewRule(m, w, resolved);
      if AllKnown(c, m, known) {
        PreviewWhenKnown(c, m, known, w, resolved);
      }
    }
  }

  lemma LinkOnlyHasUrls(c: Config, m: Input)
    ensures LinkOnly(c.lib, m) ==> Urls(c.lib, m) != []
  {}

  lemma LoopWhenEmpty(c: Config, w: Answers, look: Lookups, urls: seq<Url>)
    ensures urls == [] ==> LinkLoop(c, w, look, urls, 0, map[]) == Went(map[])
  {}

  lemma PreviewRule(m: Input, w: Answers, urls: seq<Url>)
    ensures Preview(m, w, urls).Some? ==> Preview(m, w, urls).value.rule == "link-preview"
  {}

  /** With all previews known to be good there is nothing to delete. */
  lemma PreviewWhenKnown(c: Config, m: Input, known: nat -> bool, w: Answers, urls: seq<Url>)
    requires Knows(c, m, w, known) && AllKnown(c, m, known) && |urls| == |Urls(c.lib, m)|
    ensures urls != [] ==> Preview(m, w, urls).None?
  {
    hide Urls;
    ProbesAnswer(m, w, |urls|);
    assert forall i: nat | i < |urls| :: Probed(m, w, i) && ProbedUseful(m, w, i);
  }

  /** Without a sure hit, a network that is down or useless does not suppress the message. */
  lemma NoSureHit(c: Config, web: W.Library, m: Input, known: nat -> bool, look: Lookups)
    requires !SureHit(c, web, m, known, look)
    ensures !Judge(c, m, Down(c, web, m, known), look, false).Suppresses?
            || !Judge(c, m, Useless(c, web, m, known), look, false).Suppresses?
  {
    hide LinkOnly, Urls, Replaced, LinkLoop, LowestRule, Preview, Resolve, AllKnown;
    var urls := Urls(c.lib, m);
    if urls != [] {
      SameResolutions(c, Down(c, web, m, known), Useless(c, web, m, known), look, urls, 0, map[]);
      PreviewWhenDown(c, web, m, known, urls);
      var r := LinkLoop(c, Down(c, web, m, known), look, urls, 0, map[]);
      LoopDestinations(c, Down(c, web, m, known), look, urls, 0, map[]);
      if r.Went? {
        PreviewWhenDown(c, web, m, known, ResolvedUrls(urls, r.destinations));
      }
    }
  }

  /** Nothing to delete when the network is down; something to delete when it is useless, unless all is known to be
      good. */
  lemma PreviewWhenDown(c: Config, web: W.Library, m: Input, known: nat -> bool, urls: seq<Url>)
    requires urls != [] && |urls| == |Urls(c.lib, m)|
    ensures Preview(m, Down(c, web, m, known), urls).None?
    ensures !AllKnown(c, m, known) ==>
              Preview(m, Useless(c, web, m, known), urls) == Some(Plan(DeleteSource, "link-preview", PreviewMissing))
  {
    hide Resolve, Urls;
    var down, useless := Down(c, web, m, known), Useless(c, web, m, known);
    ProbesAnswer(m, down, |urls|);
    MissingPreview(m, useless, urls);
    assert forall i: nat :: Probed(m, down, i) <==> known(i) && !m.previewDisabled;
    assert forall i: nat :: Probed(m, useless, i) && (ProbedUseful(m, useless, i) <==> known(i) && !m.previewDisabled);
    if m.previewDisabled {
      assert !Probed(m, down, 0) && !ProbedUseful(m, useless, 0);
    } else if i: nat :| i < |urls| && !known(i) {
      assert !Probed(m, down, i) && !ProbedUseful(m, useless, i);
    }
  }

  lemma {:induction false} SameResolutions(c: Config, w: Answers, w': Answers, look: Lookups, urls: seq<Url>, i: nat,
                                           destinations: map<int, string>)
    requires i <= |urls| && forall k | 0 <= k < |urls| :: w.resolve(k) == w'.resolve(k)
    ensures LinkLoop(c, w, look, urls, i, destinations) == LinkLoop(c, w', look, urls, i, destinations)
    decreases |urls| - i
  {
    if i < |urls| {
      SameResolutions(c, w, w', look, urls, i + 1, destinations);
      if w.resolve(i).ResolvedTo? {
        SameResolutions(c, w, w', look, urls, i + 1, destinations[i := w.resolve(i).destination]);
      }
    }
  }
}
