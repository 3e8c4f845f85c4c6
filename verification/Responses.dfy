/** What a moderated message is answered with, told by the message, the answers of the network and the lookups. */
module Responses {
  import opened Tables
  import opened Utf16Text
  import opened SpanEdit
  import opened Message
  import opened Policy

  /** What the fingerprint of a message is taken of tells all of its content. */
  lemma ContentTells(m: Input, m': Input)
    requires ContentOf(m) == ContentOf(m')
    ensures m.text == m'.text && m.entities == m'.entities && m.caption == m'.caption
    ensures m.captionEntities == m'.captionEntities && m.mediaKind == m'.mediaKind
    ensures m.mediaUniqueId == m'.mediaUniqueId && m.mediaGroupId == m'.mediaGroupId
  {}

  // A rewritten text

  predicate Used(destinations: map<int, string>, i: int) {
    i in destinations && !Blank(destinations[i])
  }

  /** Position pos belongs to a replaced span. */
  ghost predicate Replaces(text: string, urls: seq<Url>, destinations: map<int, string>, i: int, pos: int) {
    && Used(destinations, i) && 0 <= i < |urls| && SpanOf(text, urls[i]).Some?
    && SpanOf(text, urls[i]).value.start <= pos < SpanOf(text, urls[i]).value.end
  }

  /** The result is the text with a destination for each span: position pos of the text is at(pos) in the result. */
  ghost predicate Rewritten(text: string, urls: seq<Url>, destinations: map<int, string>, result: string,
                            at: nat -> nat) {
    && at(0) == 0 && at(|text|) == |result|
    && (forall i | Used(destinations, i) && 0 <= i < |urls| ::
          SpanOf(text, urls[i]).Some? && Stands(SpanOf(text, urls[i]).value, destinations[i], result, at))
    && (forall pos: nat | pos < |text| && (forall i :: !Replaces(text, urls, destinations, i, pos)) ::
          at(pos) < |result| && result[at(pos)] == text[pos] && at(pos + 1) == at(pos) + 1)
  }

  predicate Stands(s: Span, destination: string, result: string, at: nat -> nat) {
    at(s.start) + |destination| == at(s.end) <= |result| && result[at(s.start)..at(s.end)] == destination
  }

  /** No used span begins before pos and ends after it. */
  ghost predicate Boundary(text: string, urls: seq<Url>, used: Edits, pos: nat) {
    forall i | i in used && 0 <= i < |urls| && SpanOf(text, urls[i]).Some? ::
      !(SpanOf(text, urls[i]).value.start < pos < SpanOf(text, urls[i]).value.end)
  }

  /** The splice from a boundary on ends the whole splice. */
  lemma {:induction false} SpliceSuffix(text: string, urls: seq<Url>, used: Edits, pos: nat)
    requires pos <= |text| && Disjoint(text, urls, used) && Boundary(text, urls, used, pos)
    ensures var whole, rest := LeftToRight(text, urls, used, 0), LeftToRight(text, urls, used, pos);
            |rest| <= |whole| && whole[|whole| - |rest|..] == rest
  {
    hide LeftToRight, CharSpan;
    if pos > 0 {
      if i :| i in used && 0 <= i < |urls| && SpanOf(text, urls[i]).Some? && SpanOf(text, urls[i]).value.end == pos {
        var s := SpanOf(text, urls[i]).value;
        forall j | j in used && 0 <= j < |urls| && SpanOf(text, urls[j]).Some?
          ensures !(SpanOf(text, urls[j]).value.start < s.start < SpanOf(text, urls[j]).value.end)
        {
          assert j != i ==> !Overlap(text, urls, i, j);
        }
        SpliceSuffix(text, urls, used, s.start);
        PieceReplaced(text, urls, used, i);
      } else {
        var before := pos - 1;
        assert forall i :: !StartsAt(text, urls, used, before, i);
        SpliceSuffix(text, urls, used, before);
        CharacterCopied(text, urls, used, before);
      }
    }
  }

  ghost function Position(text: string, urls: seq<Url>, used: Edits, pos: nat): nat {
    if pos > |text| then 0 else
    var whole, rest := |LeftToRight(text, urls, used, 0)|, |LeftToRight(text, urls, used, pos)|;
    if rest <= whole then whole - rest else 0
  }

  /** The left-to-right splice rewrites the text. */
  lemma SpliceRewrites(text: string, urls: seq<Url>, destinations: map<int, string>) returns (at: nat -> nat)
    requires AllValid(text, urls, Effective(urls, destinations)) && Disjoint(text, urls, Effective(urls, destinations))
    ensures Rewritten(text, urls, destinations, LeftToRight(text, urls, Effective(urls, destinations), 0), at)
  {
    var used := Effective(urls, destinations);
    var result := LeftToRight(text, urls, used, 0);
    at := pos => Position(text, urls, used, pos);
    SpliceSuffix(text, urls, used, |text|);
    forall i | Used(destinations, i) && 0 <= i < |urls|
      ensures SpanOf(text, urls[i]).Some? && Stands(SpanOf(text, urls[i]).value, destinations[i], result, at)
    {
      SpanStands(text, urls, used, i, at);
    }
    forall pos: nat | pos < |text| && (forall i :: !Replaces(text, urls, destinations, i, pos))
      ensures at(pos) < |result| && result[at(pos)] == text[pos] && at(pos + 1) == at(pos) + 1
    {
      CharacterStays(text, urls, destinations, pos);
    }
  }

  lemma SpanStands(text: string, urls: seq<Url>, used: Edits, i: int, at: nat -> nat)
    requires AllValid(text, urls, used) && Disjoint(text, urls, used) && i in used && 0 <= i < |urls|
    requires forall pos :: at(pos) == Position(text, urls, used, pos)
    ensures SpanOf(text, urls[i]).Some?
            && Stands(SpanOf(text, urls[i]).value, used[i], LeftToRight(text, urls, used, 0), at)
  {
    hide LeftToRight, CharSpan;
    var s := SpanOf(text, urls[i]).value;
    forall j | j in used && 0 <= j < |urls| && SpanOf(text, urls[j]).Some?
      ensures !(SpanOf(text, urls[j]).value.start < s.start < SpanOf(text, urls[j]).value.end)
      ensures !(SpanOf(text, urls[j]).value.start < s.end < SpanOf(text, urls[j]).value.end)
    {
      assert j != i ==> !Overlap(text, urls, i, j);
    }
    SpliceSuffix(text, urls, used, s.start);
    SpliceSuffix(text, urls, used, s.end);
    PieceReplaced(text, urls, used, i);
  }

  lemma CharacterStays(text: string, urls: seq<Url>, destinations: map<int, string>, pos: nat)
    requires var used := Effective(urls, destinations); AllValid(text, urls, used) && Disjoint(text, urls, used)
    requires pos < |text| && forall i :: !Replaces(text, urls, destinations, i, pos)
    ensures var used := Effective(urls, destinations);
            var result, at := LeftToRight(text, urls, used, 0), Position(text, urls, used, pos);
            at < |result| && result[at] == text[pos] && Position(text, urls, used, pos + 1) == at + 1
  {
    hide LeftToRight, CharSpan;
    var used := Effective(urls, destinations);
    assert forall i | i in used :: !Replaces(text, urls, destinations, i, pos);
    assert forall i :: !StartsAt(text, urls, used, pos, i);
    SpliceSuffix(text, urls, used, pos);
    SpliceSuffix(text, urls, used, pos + 1);
    CharacterCopied(text, urls, used, pos);
    var whole, rest := LeftToRight(text, urls, used, 0), LeftToRight(text, urls, used, pos);
    assert whole[|whole| - |rest|] == rest[0];
  }

  // What the loop over the URLs finds

  /** The i-th URL is matched by a resolver, which leads somewhere else. */
  ghost predicate Moved(c: Config, urls: seq<Url>, w: Answers, i: int) {
    && 0 <= i < |urls| && c.matchName(urls[i].target).Some?
    && w.resolve(i).ResolvedTo? && w.resolve(i).destination != urls[i].target
  }

  /** A matched URL that could not be resolved. */
  ghost predicate Stuck(c: Config, urls: seq<Url>, w: Answers, i: int) {
    0 <= i < |urls| && c.matchName(urls[i].target).Some? && w.resolve(i).ResolveFailed?
  }

  ghost predicate Finds(c: Config, urls: seq<Url>, look: Lookups, i: int) {
    0 <= i < |urls| && c.matchName(urls[i].target).Some? && look(AtUrl(i), c.matchName(urls[i].target).value).Some?
  }

  /** One turn of the loop. */
  lemma LoopTurn(c: Config, w: Answers, look: Lookups, urls: seq<Url>, i: nat, destinations: map<int, string>)
    requires i < |urls|
    ensures var r := LinkLoop(c, w, look, urls, i, destinations);
            if Finds(c, urls, look, i) then
              r == Stopped(Suppress(look(AtUrl(i), c.matchName(urls[i].target).value).value))
            else if Stuck(c, urls, w, i) then r == Stopped(Quiet)
            else
              r == LinkLoop(c, w, look, urls, i + 1,
                            if Moved(c, urls, w, i) then destinations[i := w.resolve(i).destination] else destinations)
  {}

  /** The loop gets through exactly when no lookup hits and every matched URL is resolved, and then it has the
      destinations of the URLs that lead somewhere else. */
  lemma {:induction false} LoopCollects(c: Config, w: Answers, look: Lookups, urls: seq<Url>, i: nat,
                                        destinations: map<int, string>)
    requires i <= |urls| && forall k | k in destinations :: 0 <= k < i
    ensures var r := LinkLoop(c, w, look, urls, i, destinations);
            && (r.Went? <==> forall k | i <= k < |urls| :: !Stuck(c, urls, w, k) && !Finds(c, urls, look, k))
            && (r.Went? ==> forall k :: k in r.destinations <==> k in destinations || (i <= k && Moved(c, urls, w, k)))
            && (r.Went? ==> forall k | k in r.destinations ::
                  r.destinations[k] == if k in destinations then destinations[k] else w.resolve(k).destination)
    decreases |urls| - i
  {
    if i < |urls| {
      var d := w.resolve(i);
      var next := if Moved(c, urls, w, i) then destinations[i := d.destination] else destinations;
      LoopCollects(c, w, look, urls, i + 1, next);
      LoopTurn(c, w, look, urls, i, destinations);
      assert (forall k | i <= k < |urls| :: !Stuck(c, urls, w, k) && !Finds(c, urls, look, k))
        <==> !Stuck(c, urls, w, i) && !Finds(c, urls, look, i)
             && forall k | i + 1 <= k < |urls| :: !Stuck(c, urls, w, k) && !Finds(c, urls, look, k);
    }
  }

  /** The loop ends quietly exactly when the first thing to stop it is a failed resolution. */
  lemma {:induction false} LoopStops(c: Config, w: Answers, look: Lookups, urls: seq<Url>, i: nat,
                                     destinations: map<int, string>, k: nat)
    requires i <= k < |urls| && forall j | i <= j < k :: !Stuck(c, urls, w, j) && !Finds(c, urls, look, j)
    ensures Finds(c, urls, look, k) ==>
              LinkLoop(c, w, look, urls, i, destinations)
              == Stopped(Suppress(look(AtUrl(k), c.matchName(urls[k].target).value).value))
    ensures !Finds(c, urls, look, k) && Stuck(c, urls, w, k) ==>
              LinkLoop(c, w, look, urls, i, destinations) == Stopped(Quiet)
    decreases |urls| - i
  {
    if i < k {
      var d := w.resolve(i);
      var next := if Moved(c, urls, w, i) then destinations[i := d.destination] else destinations;
      LoopTurn(c, w, look, urls, i, destinations);
      LoopStops(c, w, look, urls, i + 1, next, k);
    }
  }

  // What is posted

  /** What RewriteText says of a plan. */
  ghost predicate SaysAgain(c: Config, m: Input, w: Answers, plan: Plan, destinations: map<int, string>,
                            at: nat -> nat) {
    && plan.notice.GoogleWrapper? && plan.effect == ReplaceSource && destinations != map[]
    && (forall i :: i in destinations <==> Moved(c, Urls(c.lib, m), w, i))
    && (forall i | i in destinations :: destinations[i] == w.resolve(i).destination)
    && FirstNames(c, Urls(c.lib, m), destinations, plan.rule)
    && Rewritten(MessageText(m), Urls(c.lib, m), destinations, plan.notice.content, at)
  }

  /** A rewrite says the message again with direct links: the matched URLs that lead somewhere else, and only they, are
      replaced by where they lead, and every other character stays in place. */
  lemma RewriteText(c: Config, m: Input, w: Answers, look: Lookups, sandboxed: bool)
    returns (destinations: map<int, string>, at: nat -> nat)
    requires Judge(c, m, w, look, sandboxed).Creates? && Judge(c, m, w, look, sandboxed).plan.notice.GoogleWrapper?
    ensures !sandboxed && SaysAgain(c, m, w, Judge(c, m, w, look, sandboxed).plan, destinations, at)
  {
    hide LinkLoop, Urls, LinkOnly, LeftToRight, Rewritten, LowestRule, Finds, Stuck, FirstNames, Preview, AllValid,
        Disjoint;
    var urls := Urls(c.lib, m);
    LoopCollects(c, w, look, urls, 0, map[]);
    LoopEnactsNothing(c, w, look, urls);
    PreviewIsNoRewrite(m, w, urls);
    destinations := LinkLoop(c, w, look, urls, 0, map[]).destinations;
    PreviewIsNoRewrite(m, w, ResolvedUrls(urls, destinations));
    at := SpliceRewrites(MessageText(m), urls, destinations);
    FirstNamesRule(c, urls, destinations);
  }

  /** The first of the destinations belongs to a matched URL, whose rule is the plan's. */
  ghost predicate FirstNames(c: Config, urls: seq<Url>, destinations: map<int, string>, rule: string) {
    forall i | i in destinations && 0 <= i < |urls| && (forall j | j < i :: j !in destinations) ::
      c.matchName(urls[i].target) == Some(rule)
  }

  lemma FirstNamesRule(c: Config, urls: seq<Url>, destinations: map<int, string>)
    requires forall i | i in destinations :: 0 <= i < |urls| && c.matchName(urls[i].target).Some?
    ensures FirstNames(c, urls, destinations, LowestRule(c, urls, destinations))
  {
    forall i | i in destinations && (forall j | j < i :: j !in destinations)
      ensures c.matchName(urls[i].target) == Some(LowestRule(c, urls, destinations))
    {
      FirstGivesRule(c, urls, destinations, 0, i);
    }
  }

  lemma {:induction false} FirstGivesRule(c: Config, urls: seq<Url>, destinations: map<int, string>, i: nat, k: nat)
    requires i <= k < |urls| && k in destinations && (forall j | j < k :: j !in destinations)
    requires c.matchName(urls[k].target).Some?
    ensures Some(LowestRule(c, urls, destinations, i)) == c.matchName(urls[k].target)
    decreases k - i
  {
    if i < k {
      FirstGivesRule(c, urls, destinations, i + 1, k);
    }
  }

  lemma PreviewIsNoRewrite(m: Input, w: Answers, urls: seq<Url>)
    ensures Preview(m, w, urls).Some? ==> !Preview(m, w, urls).value.notice.GoogleWrapper?
  {}

  lemma LoopEnactsNothing(c: Config, w: Answers, look: Lookups, urls: seq<Url>)
    ensures var r := LinkLoop(c, w, look, urls, 0, map[]); r.Stopped? ==> !r.decision.Enact?
  {
    LoopDestinations(c, w, look, urls, 0, map[]);
  }

  // When something is posted

  /** Rules have names, every content has a digest, and every notice says something. */
  ghost predicate Speaks(c: Config, m: Input) {
    && (forall target :: c.matchName(target) != Some(""))
    && (forall rule :: c.fingerprint(ContentOf(m), rule) != "")
    && (forall notice :: !Blank(Truncated(c.render(notice, m.senderName), 3900)))
  }

  ghost predicate NothingFound(look: Lookups) {
    forall site, rule :: look(site, rule).None?
  }

  /** A newcomer's message with a link or media is never left alone. */
  lemma SandboxActs(c: Config, m: Input, w: Answers, look: Lookups)
    requires Speaks(c, m)
    ensures var o := Judge(c, m, w, look, true);
            && (o == Creates(Plan(DeleteSource, "newcomer-sandbox", NewcomerSandbox)) || o.Suppresses?)
            && (o.Suppresses? ==> exists site :: look(site, "newcomer-sandbox") == Some(o.id))
  {
    var o := Judge(c, m, w, look, true);
    if o.Suppresses? && look(AtNewcomer, "newcomer-sandbox") != Some(o.id) {
      assert look(AtApply, "newcomer-sandbox") == Some(o.id);
    }
  }

  /** A matched URL that cannot be resolved leaves the message alone, unless a lookup hits before it. */
  lemma {:induction false} FailureLeavesMessage(c: Config, m: Input, w: Answers, look: Lookups, k: nat)
    requires Stuck(c, Urls(c.lib, m), w, k) && forall j | 0 <= j <= k :: !Finds(c, Urls(c.lib, m), look, j)
    ensures Judge(c, m, w, look, false) == Silent
  {
    hide Urls, LinkLoop, Finds, Stuck, Moved;
    if j :| 0 <= j < k && Stuck(c, Urls(c.lib, m), w, j) {
      FailureLeavesMessage(c, m, w, look, j);
    } else {
      StuckIsUrl(c, Urls(c.lib, m), w, k);
      LoopStops(c, w, look, Urls(c.lib, m), 0, map[], k);
    }
  }

  lemma StuckIsUrl(c: Config, urls: seq<Url>, w: Answers, k: int)
    requires Stuck(c, urls, w, k)
    ensures 0 <= k < |urls|
  {}

  /** Where the matched URLs lead. */
  ghost function Destinations(c: Config, m: Input, w: Answers): map<int, string> {
    map i | 0 <= i < |Urls(c.lib, m)| && Moved(c, Urls(c.lib, m), w, i) :: w.resolve(i).destination
  }

  /** With nothing found and everything resolved, the loop hands on where the URLs lead. */
  lemma LoopHandsOn(c: Config, m: Input, w: Answers, look: Lookups)
    requires NothingFound(look) && forall i :: !Stuck(c, Urls(c.lib, m), w, i)
    ensures LinkLoop(c, w, look, Urls(c.lib, m), 0, map[]) == Went(Destinations(c, m, w))
  {
    hide Urls, LinkLoop;
    LoopCollects(c, w, look, Urls(c.lib, m), 0, map[]);
    assert LinkLoop(c, w, look, Urls(c.lib, m), 0, map[]).destinations == Destinations(c, m, w);
  }

  ghost predicate AllProbed(m: Input, w: Answers, n: nat) {
    forall i: nat | i < n :: Probed(m, w, i)
  }

  ghost predicate AllUseful(m: Input, w: Answers, n: nat) {
    forall i: nat | i < n :: ProbedUseful(m, w, i)
  }

  /** The link-only policy on a message with nothing to rewrite. A probe that fails leaves the message alone; a page
      without a preview deletes it; and if every page has one, the message stays, with a reply that says what the
      pages are if the sender turned previews off. */
  lemma PreviewDecides(c: Config, m: Input, w: Answers, look: Lookups)
    requires Speaks(c, m) && NothingFound(look) && LinkOnly(c.lib, m)
    requires forall i :: !Stuck(c, Urls(c.lib, m), w, i) && !Moved(c, Urls(c.lib, m), w, i)
    ensures var n, o := |Urls(c.lib, m)|, Judge(c, m, w, look, false);
            if !AllProbed(m, w, n) then o == Silent
            else if !AllUseful(m, w, n) then o == Creates(Plan(DeleteSource, "link-preview", PreviewMissing))
            else if !m.previewDisabled then o == Silent
            else
              && o.Creates? && o.plan.effect == ReplaceSource && o.plan.rule == "link-preview"
              && o.plan.notice.PreviewEnriched? && |o.plan.notice.metadata| == n
              && o.plan.notice.url == Urls(c.lib, m)[0].target
              && forall i | 0 <= i < n :: w.fetch(i) == Some(o.plan.notice.metadata[i])
  {
    hide Urls, LinkLoop, LinkOnly, Stuck;
    LoopHandsOn(c, m, w, look);
    assert Destinations(c, m, w) == map[];
    LinkOnlyHasUrls(c, m);
    ProbesAnswer(m, w, |Urls(c.lib, m)|);
    ProbesFetched(m, w, |Urls(c.lib, m)|);
  }

  lemma LinkOnlyHasUrls(c: Config, m: Input)
    ensures LinkOnly(c.lib, m) ==> Urls(c.lib, m) != []
  {}

  /** With previews off, the known-good cache does not answer. */
  lemma {:induction false} ProbesFetched(m: Input, w: Answers, n: nat)
    ensures var r := Probes(w, m.previewDisabled, n);
            r.Some? && m.previewDisabled ==> forall i | 0 <= i < n :: w.fetch(i) == Some(r.value[i])
  {
    if n > 0 {
      ProbesFetched(m, w, n - 1);
    }
  }

  /** The spans of the URLs to be replaced denote text and do not overlap. */
  ghost predicate CanReplace(c: Config, m: Input, w: Answers) {
    var used := Effective(Urls(c.lib, m), Destinations(c, m, w));
    AllValid(MessageText(m), Urls(c.lib, m), used) && Disjoint(MessageText(m), Urls(c.lib, m), used)
  }

  /** A message with a URL to be replaced is rewritten, unless it is link-only and a page has no preview, which
      deletes it; spans that cannot be replaced are an error, and then nothing happens. */
  lemma RewriteDecides(c: Config, m: Input, w: Answers, look: Lookups, k: int)
    requires Speaks(c, m) && NothingFound(look)
    requires Moved(c, Urls(c.lib, m), w, k) && forall i :: !Stuck(c, Urls(c.lib, m), w, i)
    ensures var n, o := |Urls(c.lib, m)|, Judge(c, m, w, look, false);
            if !CanReplace(c, m, w) then o == Error
            else if LinkOnly(c.lib, m) && AllProbed(m, w, n) && !AllUseful(m, w, n) then
              o == Creates(Plan(DeleteSource, "link-preview", PreviewMissing))
            else o.Creates? && o.plan.effect == ReplaceSource && o.plan.notice.GoogleWrapper?
  {
    hide Urls, LinkLoop, LinkOnly, Stuck, Moved, Destinations, AllValid, Disjoint, LeftToRight, LowestRule, Truncated,
         Probed, ProbedUseful, Effective;
    LoopHandsOn(c, m, w, look);
    RewriteIsNamed(c, m, w, k);
    LinkOnlyHasUrls(c, m);
    ProbesAnswer(m, w, |Urls(c.lib, m)|);
  }

  lemma RewriteIsNamed(c: Config, m: Input, w: Answers, k: int)
    requires (forall target :: c.matchName(target) != Some("")) && Moved(c, Urls(c.lib, m), w, k)
    ensures Urls(c.lib, m) != [] && |Destinations(c, m, w)| > 0
    ensures LowestRule(c, Urls(c.lib, m), Destinations(c, m, w)) != ""
  {
    hide Urls, LowestRule;
    assert k in Destinations(c, m, w);
    RewriteRule(c, Urls(c.lib, m), Destinations(c, m, w));
  }

  // How a plan is put into words

  lemma {:induction false} TrimLeftDrops(s: string) returns (i: nat)
    ensures i <= |s| && TrimLeft(s) == s[i..] && Blank(s[..i])
  {
    i := 0;
    if s != "" && IsSpace(s[0]) {
      i := TrimLeftDrops(s[1..]);
      assert s[1..][i..] == s[i + 1..] && s[..i + 1] == [s[0]] + s[1..][..i];
      i := i + 1;
    }
  }

  lemma {:induction false} TrimRightDrops(s: string) returns (j: nat)
    ensures j <= |s| && TrimRight(s) == s[..j] && Blank(s[j..])
  {
    j := |s|;
    if s != "" && IsSpace(s[|s| - 1]) {
      var init := s[..|s| - 1];
      j := TrimRightDrops(init);
      assert init[..j] == s[..j] && s[j..] == init[j..] + [s[|s| - 1]];
    }
  }

  /** The text itself if it fits; or else its first `limit` characters without the space around them, and an
      ellipsis. */
  ghost predicate Shortened(s: string, limit: nat, t: string) {
    if |s| <= limit then t == s else exists i, j :: Part(s, limit, i, j, t)
  }

  predicate Part(s: string, limit: nat, i: int, j: int, t: string) {
    && 0 <= i <= j <= limit < |s| && t == s[i..j] + "\U{2026}"
    && Blank(s[..i]) && Blank(s[j..limit])
  }

  lemma TruncatedShortens(s: string, limit: nat)
    ensures Shortened(s, limit, Truncated(s, limit))
    ensures |Truncated(s, limit)| <= limit + 1
  {
    if |s| > limit {
      var cut := s[..limit];
      var i := TrimLeftDrops(cut);
      var j := TrimRightDrops(cut[i..]);
      assert cut[i..][..j] == s[i..i + j] && cut[i..][j..] == s[i + j..limit] && cut[..i] == s[..i];
      assert Part(s, limit, i, i + j, Truncated(s, limit));
    }
  }

  /** The payload of a plan: its notice, cut to 3900 characters. A rewritten caption travels with its media, cut to
      1000, and the longer text stays as the fallback; a preview replies to the message; anything else is a text. */
  lemma PostsNotice(c: Config, m: Input, plan: Plan)
    ensures var notice, p := c.render(plan.notice, m.senderName), PayloadOf(c, m, plan);
            && (p.op == CopyMedia <==> plan.notice.GoogleWrapper? && m.mediaKind != "" && m.caption != "")
            && (p.op == Reply <==> plan.notice.PreviewEnriched?) && (p.op == Reply ==> p.replyTo == m.message)
            && Shortened(notice, 3900, if p.op == CopyMedia then p.fallback else p.text)
            && (p.op == CopyMedia ==> Shortened(p.fallback, 1000, p.text))
            && |p.text| <= (if p.op == CopyMedia then 1001 else 3901)
  {
    var notice := c.render(plan.notice, m.senderName);
    TruncatedShortens(notice, 3900);
    TruncatedShortens(Truncated(notice, 3900), 1000);
  }
}
