/** A repost that stays. The design says that an identical message with an active canonical action is deleted without
    being resolved again. A link-only message whose share link leads to a page without a preview is stored under the
    rule of the preview policy; its repost is first looked up under the rule of the resolver, is resolved again, and
    if that fails it is left in place. */
module RepostLimits {
  import opened Tables
  import opened Canonical
  import opened Utf16Text
  import opened SpanEdit
  import opened Message
  import opened Policy
  import opened Reposts
  import W = WebAddress
  import V = Resolvers
  import R = Registry

  const TARGET := "https://goo.gl/a"
  const SHARE: W.Address := W.Parts("https", None, "goo.gl", "/a", false, "", "")
  const PAGE: W.Address := W.Parts("https", None, "e.fi", "/", false, "", "")

  /** What a library makes of the two URLs: it parses the share link, leaves the two hosts as they are, finds no
      query, and has the page on a public host. */
  ghost predicate Recognizes(web: W.Library) {
    && web.parse(TARGET) == Some(SHARE)
    && PlainHost(web, "goo.gl") && PlainHost(web, "e.fi") && !web.blocked("e.fi")
    && web.decode("") == map[]
  }

  predicate PlainHost(web: W.Library, h: string) {
    web.hostname(h) == h && web.escapeHost(h) == h && W.Lower(web, h) == h
  }

  /** A message whose only text is a link to the share link. */
  function Linked(message: int): Input {
    Input(1, 0, message, 2, "s", "x", [Entity(TextLink, 0, 1, TARGET)], "", [], "", "", "", false)
  }

  // The message

  lemma LinkedUrls(lib: Library, message: int)
    requires lib.validUrl(TARGET)
    ensures Urls(lib, Linked(message)) == [Url(TARGET, TARGET, 0, 1, false)]
  {
    var es := Linked(message).entities;
    TrimSpaceTrims(TARGET);
    assert UrlOf(lib, "x", es[0]) == Some(Url(TARGET, TARGET, 0, 1, false));
    assert es[..0] == [];
    assert UrlsOf(lib, "x", es[..0]) == [];
  }

  lemma LinkSpan()
    ensures CharSpan("x", 0, 1) == Some(Span(0, 1))
  {
    var t := "x";
    PrefixStep(t, 0);
    assert Units(t[..0]) == 0;
    assert Denotes(t, 0, 1, 0, 1);
    SpanFound(t, 0, 1, 0, 1);
  }

  lemma LinkedIsLinkOnly(lib: Library, message: int)
    requires lib.validUrl(TARGET)
    ensures LinkOnly(lib, Linked(message))
  {
    var urls := Urls(lib, Linked(message));
    LinkedUrls(lib, message);
    LinkSpan();
    assert urls[0] in urls;
    assert Covered("x", urls, 0);
  }

  // The resolution

  lemma ShareIsShared(web: W.Library)
    requires Recognizes(web)
    ensures R.ParseHttp(web, TARGET) == Some(SHARE) && R.FirstMatch(R.Production(web), SHARE) == Some(0)
    ensures R.MatchName(web, R.Production(web), TARGET) == Some("google-share")
  {
    TrimSpaceTrims(TARGET);
    assert W.Lower(web, "goo.gl") == "goo.gl";
    assert W.TrimSuffix("goo.gl", ".") == "goo.gl";
    assert R.Production(web)[0].matches(SHARE);
  }

  lemma PageIsPlain(web: W.Library)
    requires Recognizes(web)
    ensures R.FirstMatch(R.Production(web), PAGE).None? && V.IsPublic(web, PAGE) && !V.IsGoogleShare(web, PAGE)
  {
    assert W.TrimSuffix("e.fi", ".") == "e.fi" && W.Lower(web, "e.fi") == "e.fi" && W.Lower(web, "/") == "/";
    assert W.Lower(web, "") == "";
    assert W.CutAt("", '&') == ("", "") && W.CutAt("", '=') == ("", "");
    assert !V.HasAmpQuery("");
    assert !V.Contains("/", "/amp/");
    assert !V.IsAmp(web, PAGE);
    assert V.TrackingParameters(web, PAGE) == {};
  }

  const SERVED: nat -> V.Fetched := _ => V.Page(Some(PAGE), None)

  lemma ShareAnswers(web: W.Library)
    requires Recognizes(web)
    ensures R.Production(web)[0].resolve(SHARE, SERVED(0)) == V.Gave(Some(PAGE))
    ensures R.Production(web)[0].resolve(SHARE, UNREACHABLE(0)) == V.Refused
    ensures |R.Production(web)| == 3 && R.Production(web)[0].name == "google-share"
  {
    hide V.IsAmp, V.IsGoogleShare, V.IsPublic, W.Render, V.AmpResolve, V.WithoutTracking;
    PageIsPlain(web);
  }

  lemma Renderings(web: W.Library)
    requires Recognizes(web)
    ensures W.Render(web, PAGE) == "https://e.fi/" && W.Render(web, SHARE) == TARGET
  {
    Rendering(web, PAGE, "e.fi", "/");
    Rendering(web, SHARE, "goo.gl", "/a");
  }

  lemma Rendering(web: W.Library, u: W.Address, host: string, path: string)
    requires u == W.Parts("https", None, host, path, false, "", "") && PlainHost(web, host)
    ensures W.Render(web, u) == "https://" + host + path
  {
    hide W.IsPathChar, W.Lower;
    assert "https" + "://" + "" == "https://";
  }

  lemma Resolutions(web: W.Library)
    requires Recognizes(web)
    ensures Resolve(web, SERVED, TARGET) == ResolvedTo("https://e.fi/")
    ensures Resolve(web, UNREACHABLE, TARGET) == ResolveFailed
  {
    hide R.Production, R.FirstMatch, W.Render;
    var rs := R.Production(web);
    ShareIsShared(web);
    PageIsPlain(web);
    ShareAnswers(web);
    Renderings(web);
    assert R.Chain(web, rs, SERVED, SHARE, 1, PAGE) == R.Resolved(SHARE, PAGE, "google-share");
  }

  // The two runs

  /** The tables once the first run has stored its action. */
  ghost function Stored(c: Config, first: Input, now: int): Tables {
    After([NewAction(KeyOf(c, first, "link-preview"), PayloadOf(c, first, MISSING), first.message, now)])
  }

  const MISSING := Plan(DeleteSource, "link-preview", PreviewMissing)

  /** Any configuration that accepts the link and stores plans at all. */
  ghost predicate Stores(web: W.Library, c: Config) {
    && c.lib.validUrl(TARGET) && Wired(c, web)
    && (forall x, rule :: c.fingerprint(x, rule) != "")
    && (forall notice, name :: !Blank(Truncated(c.render(notice, name), 3900)))
  }

  const LINKS := [Url(TARGET, TARGET, 0, 1, false)]
  const THERE: map<int, string> := map[0 := "https://e.fi/"]

  /** The share link resolves, and its page has no preview. */
  const FIRST := Answers(_ => ResolvedTo("https://e.fi/"), _ => false, _ => Some(Metadata(false, "")))

  /** The network is down. */
  const SECOND := Answers(_ => ResolveFailed, _ => false, _ => None)

  lemma BothGenuine(web: W.Library, c: Config)
    requires c.lib.validUrl(TARGET) && Recognizes(web)
    ensures Genuine(c, web, Linked(7), FIRST) && Genuine(c, web, Linked(8), SECOND)
  {
    hide Resolve, UrlsOf;
    LinkedUrls(c.lib, 7);
    LinkedUrls(c.lib, 8);
    Resolutions(web);
    assert FIRST.resolve(0) == Resolve(web, SERVED, TARGET) && SECOND.resolve(0) == Resolve(web, UNREACHABLE, TARGET);
    assert Answered(web, TARGET, FIRST.resolve(0)) && Answered(web, TARGET, SECOND.resolve(0));
  }

  lemma ShareMatched(web: W.Library, c: Config)
    requires Recognizes(web) && Stores(web, c)
    ensures c.matchName(TARGET) == Some("google-share")
  {
    hide R.MatchName, R.Production;
    ShareIsShared(web);
    assert c.matchName(TARGET) == R.MatchName(web, R.Production(web), TARGET);
  }

  lemma FirstLoop(c: Config, look: Lookups)
    requires c.matchName(TARGET) == Some("google-share") && look(AtUrl(0), "google-share").None?
    ensures LinkLoop(c, FIRST, look, LINKS, 0, map[]) == Went(THERE)
  {
    assert map[][0 := "https://e.fi/"] == THERE;
    assert LinkLoop(c, FIRST, look, LINKS, 1, THERE) == Went(THERE);
  }

  lemma FirstRun(web: W.Library, c: Config, look: Lookups)
    requires Recognizes(web) && Stores(web, c) && forall site, rule :: look(site, rule).None?
    ensures Judge(c, Linked(7), FIRST, look, false) == Creates(MISSING)
  {
    hide LinkOnly, UrlsOf, LinkLoop, Preview, Replaced, LowestRule, Wired, Recognizes, Truncated;
    LinkedUrls(c.lib, 7);
    LinkedIsLinkOnly(c.lib, 7);
    ShareMatched(web, c);
    LinkReplaced(LINKS);
    FirstLoop(c, look);
    MissingPreview(Linked(7), FIRST, ResolvedUrls(LINKS, THERE));
    assert !ProbedUseful(Linked(7), FIRST, 0);
    assert |THERE| == 1;
  }

  lemma LinkReplaced(urls: seq<Url>)
    requires urls == [Url(TARGET, TARGET, 0, 1, false)]
    ensures Replaced("x", urls, map[0 := "https://e.fi/"]).Some?
  {
    var used := Effective(urls, map[0 := "https://e.fi/"]);
    assert "https://e.fi/"[0] in "https://e.fi/" && !IsSpace('h');
    assert used == map[0 := "https://e.fi/"];
    LinkSpan();
  }

  lemma StoredRow(c: Config, first: Input, now: int)
    ensures var k := KeyOf(c, first, "link-preview");
            Stored(c, first, now) == Inserted(EMPTY, k, PayloadOf(c, first, MISSING), first.message, now)
  {
    var op := NewAction(KeyOf(c, first, "link-preview"), PayloadOf(c, first, MISSING), first.message, now);
    assert [op][..0] == [] && After([op][..0]) == EMPTY;
    assert forall a :: !Holds(EMPTY, a, op.key);
  }

  /** The identical message within four hours, with the action of the first in the tables: every lookup of the
      action's rule finds it, the network is down, and the message stays. */
  lemma {:induction false} RepostStays(web: W.Library, c: Config, clock: Site -> int)
    requires Recognizes(web) && Stores(web, c) && forall site :: 0 <= clock(site) <= WINDOW_SECONDS
    ensures Genuine(c, web, Linked(7), FIRST) && Genuine(c, web, Linked(8), SECOND)
    ensures Judge(c, Linked(7), FIRST, LookupsAt(c, Linked(7), EMPTY, clock), false) == Creates(MISSING)
    ensures var look := LookupsAt(c, Linked(8), Stored(c, Linked(7), 0), clock);
            && (forall site :: look(site, MISSING.rule) == Some(1))
            && Judge(c, Linked(8), SECOND, look, false) == Silent
  {
    hide UrlsOf, Genuine, Wired;
    BothGenuine(web, c);
    var before := LookupsAt(c, Linked(7), EMPTY, clock);
    forall site, rule ensures before(site, rule).None? {
      assert Find(EMPTY, KeyOf(c, Linked(7), rule), clock(site)).None?;
    }
    FirstRun(web, c, before);
    StoredLookups(web, c, clock);
    ShareMatched(web, c);
    LinkedUrls(c.lib, 8);
  }

  lemma StoredLookups(web: W.Library, c: Config, clock: Site -> int)
    requires forall site :: 0 <= clock(site) <= WINDOW_SECONDS
    ensures var look := LookupsAt(c, Linked(8), Stored(c, Linked(7), 0), clock);
            (forall site :: look(site, MISSING.rule) == Some(1)) && look(AtUrl(0), "google-share").None?
  {
    StoredRow(c, Linked(7), 0);
    var t, k := Stored(c, Linked(7), 0), KeyOf(c, Linked(7), MISSING.rule);
    assert KeyOf(c, Linked(8), MISSING.rule) == k;
    assert forall a, key :: Holds(t, a, key) <==> a == 1 && key == k;
    forall site ensures Find(t, k, clock(site)) == Some(1) {
      assert Matches(t, 1, k, clock(site));
    }
    assert Find(t, KeyOf(c, Linked(8), "google-share"), clock(AtUrl(0))).None?;
  }
}
