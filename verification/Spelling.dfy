/** The string before hashing does not depend on how the URLs of a message are spelled. A text is woven from gaps and
    the spellings between them; only the gaps and the normal forms of the targets reach the fingerprint. */
module Spelling {
  import opened Tables
  import opened Utf16Text
  import opened SpanEdit
  import opened Message
  import opened Fingerprint

  // Trimming commutes with what surrounds the text

  lemma {:induction false} TrimLeftConcat(a: string, s: string)
    ensures TrimLeft(a + s) == if Blank(a) then TrimLeft(s) else TrimLeft(a) + s
  {
    if a == "" {
      assert a + s == s;
    } else {
      assert a == [a[0]] + a[1..] && (a + s)[1..] == a[1..] + s;
      if IsSpace(a[0]) {
        TrimLeftConcat(a[1..], s);
      } else {
        assert a[0] in a;
      }
    }
  }

  lemma {:induction false} TrimRightConcat(s: string, z: string)
    ensures TrimRight(s + z) == if Blank(z) then TrimRight(s) else s + TrimRight(z)
  {
    if z == "" {
      assert s + z == s;
    } else {
      var init := z[..|z| - 1];
      assert z == init + [z[|z| - 1]] && (s + z)[..|s + z| - 1] == s + init;
      if IsSpace(z[|z| - 1]) {
        TrimRightConcat(s, init);
      } else {
        assert z[|z| - 1] in z;
      }
    }
  }

  lemma {:induction false} TrimsCommute(s: string)
    ensures TrimRight(TrimLeft(s)) == TrimLeft(TrimRight(s))
  {
    if s != "" {
      assert s == [s[0]] + s[1..];
      TrimRightConcat([s[0]], s[1..]);
      if IsSpace(s[0]) {
        TrimsCommute(s[1..]);
        if Blank(s[1..]) {
          TrimLeftBlank(s[1..]);
          assert TrimRight([s[0]]) == "";
        }
      } else if Blank(s[1..]) {
        assert TrimRight([s[0]]) == [s[0]];
      }
    }
  }

  /** Only the inner side of the outer gaps survives trimming. */
  lemma OuterWhitespace(a: string, b: string, s: string, y: string, z: string)
    requires TrimLeft(a) == TrimLeft(b) && TrimRight(y) == TrimRight(z)
    ensures TrimSpace(a + s + y) == TrimSpace(b + s + z)
  {
    TrimLeftBlank(a);
    TrimLeftBlank(b);
    TrimRightBlank(y);
    TrimRightBlank(z);
    TrimLeftConcat(a, s + y);
    TrimLeftConcat(b, s + y);
    assert a + s + y == a + (s + y) && b + s + y == b + (s + y);
    TrimsCommute(b + s + y);
    TrimsCommute(b + s + z);
    TrimRightConcat(b + s, y);
    TrimRightConcat(b + s, z);
  }

  lemma {:induction false} TrimRightBlank(s: string)
    ensures TrimRight(s) == "" <==> Blank(s)
  {
    if s != "" {
      assert s == s[..|s| - 1] + [s[|s| - 1]];
      if IsSpace(s[|s| - 1]) {
        TrimRightBlank(s[..|s| - 1]);
      } else {
        assert s[|s| - 1] in s;
      }
    }
  }

  // Weaving

  /** Gap, value, gap, value, ..., gap. */
  function Woven(gaps: seq<string>, values: seq<string>): string
    requires |gaps| == |values| + 1
  {
    if values == [] then gaps[0]
    else Woven(gaps[..|values|], values[..|values| - 1]) + values[|values| - 1] + gaps[|values|]
  }

  /** The part of the weave before the k-th value. */
  function Before(gaps: seq<string>, values: seq<string>, k: nat): string
    requires |gaps| == |values| + 1 && k <= |values|
  {
    Woven(gaps[..k + 1], values[..k])
  }

  lemma BeforeNext(gaps: seq<string>, values: seq<string>, k: nat)
    requires |gaps| == |values| + 1 && k < |values|
    ensures Before(gaps, values, k + 1) == Before(gaps, values, k) + values[k] + gaps[k + 1]
  {
    assert gaps[..k + 2][..k + 1] == gaps[..k + 1] && values[..k + 1][..k] == values[..k];
  }

  /** Every part of a weave is a prefix of it. */
  lemma {:induction false} BeforeIsPrefix(gaps: seq<string>, values: seq<string>, k: nat, m: nat)
    requires |gaps| == |values| + 1 && k <= m <= |values|
    ensures Before(gaps, values, k) <= Before(gaps, values, m)
  {
    if k < m {
      BeforeNext(gaps, values, m - 1);
      BeforeIsPrefix(gaps, values, k, m - 1);
    }
  }

  /** The text is woven from these gaps and spellings; the k-th spelling is the span of the URL that order[k] names, and
      every URL has its place. */
  ghost predicate Spells(text: string, urls: seq<Url>, gaps: seq<string>, spellings: seq<string>, order: seq<nat>) {
    && |gaps| == |spellings| + 1 && |order| == |spellings| && text == Woven(gaps, spellings)
    && (forall k | 0 <= k < |order| ::
         order[k] < |urls| && !Blank(urls[order[k]].raw)
         && PlacedAt(text, urls, gaps, spellings, order, k))
    && (forall i | 0 <= i < |urls| :: i in order)
  }

  ghost predicate PlacedAt(text: string, urls: seq<Url>, gaps: seq<string>, spellings: seq<string>, order: seq<nat>,
                           k: nat)
    requires |gaps| == |spellings| + 1 && |order| == |spellings| && k < |order| && order[k] < |urls|
  {
    var start := |Before(gaps, spellings, k)|;
    SpanOf(text, urls[order[k]]) == Some(Span(start, start + |spellings[k]|))
  }

  /** The normal forms, in the order of the text. */
  function Values(lib: Library, urls: seq<Url>, order: seq<nat>): (v: seq<string>)
    requires forall k | 0 <= k < |order| :: order[k] < |urls|
    ensures |v| == |order|
  {
    seq(|order|, k requires 0 <= k < |order| => lib.normalizeUrl(urls[order[k]].target))
  }

  /** Where the k-th spelling begins. */
  function StartOf(gaps: seq<string>, spellings: seq<string>, k: nat): nat
    requires |gaps| == |spellings| + 1 && k <= |spellings|
  {
    |Before(gaps, spellings, k)|
  }

  lemma Starts(gaps: seq<string>, spellings: seq<string>, k: nat, m: nat)
    requires |gaps| == |spellings| + 1 && k < m <= |spellings|
    ensures StartOf(gaps, spellings, k) + |spellings[k]| <= StartOf(gaps, spellings, m)
  {
    BeforeNext(gaps, spellings, k);
    BeforeIsPrefix(gaps, spellings, k + 1, m);
  }

  /** A gap as it stands in the text. */
  lemma GapInText(gaps: seq<string>, spellings: seq<string>, k: nat)
    requires |gaps| == |spellings| + 1 && k <= |spellings|
    ensures var text, end := Woven(gaps, spellings), StartOf(gaps, spellings, k);
            && |gaps[k]| <= end <= |text| && text[end - |gaps[k]|..end] == gaps[k]
    ensures k > 0 ==> StartOf(gaps, spellings, k) - |gaps[k]| == StartOf(gaps, spellings, k - 1) + |spellings[k - 1]|
    ensures k == 0 ==> StartOf(gaps, spellings, k) == |gaps[0]|
    ensures k == |spellings| ==> StartOf(gaps, spellings, k) == |Woven(gaps, spellings)|
  {
    var text, b := Woven(gaps, spellings), Before(gaps, spellings, k);
    BeforeIsPrefix(gaps, spellings, k, |spellings|);
    assert gaps[..|spellings| + 1] == gaps && spellings[..|spellings|] == spellings;
    if k > 0 {
      BeforeNext(gaps, spellings, k - 1);
    }
    assert text[|b| - |gaps[k]|..|b|] == b[|b| - |gaps[k]|..];
  }

  lemma PlaceOf(text: string, urls: seq<Url>, gaps: seq<string>, spellings: seq<string>, order: seq<nat>, i: int)
    returns (k: nat)
    requires Spells(text, urls, gaps, spellings, order) && 0 <= i < |urls|
    ensures k < |order| && order[k] == i && PlacedAt(text, urls, gaps, spellings, order, k)
  {
    assert i in order;
    k :| 0 <= k < |order| && order[k] == i;
  }

  lemma SpellsDisjoint(lib: Library, text: string, urls: seq<Url>, gaps: seq<string>, spellings: seq<string>,
                       order: seq<nat>)
    requires Spells(text, urls, gaps, spellings, order)
    ensures Disjoint(text, urls, NormalEdits(lib, text, urls))
  {
    var edits := NormalEdits(lib, text, urls);
    forall i, j | i in edits && j in edits && i != j ensures !Overlap(text, urls, i, j) {
      var k := PlaceOf(text, urls, gaps, spellings, order, i);
      var m := PlaceOf(text, urls, gaps, spellings, order, j);
      if k < m {
        Starts(gaps, spellings, k, m);
      } else {
        Starts(gaps, spellings, m, k);
      }
    }
  }

  lemma NoStartInGap(lib: Library, text: string, urls: seq<Url>, gaps: seq<string>, spellings: seq<string>,
                     order: seq<nat>, k: nat)
    requires Spells(text, urls, gaps, spellings, order) && k <= |spellings|
    ensures forall i, pos | StartOf(gaps, spellings, k) - |gaps[k]| <= pos < StartOf(gaps, spellings, k) ::
              !StartsAt(text, urls, NormalEdits(lib, text, urls), pos, i)
  {
    var edits := NormalEdits(lib, text, urls);
    GapInText(gaps, spellings, k);
    forall i, pos | StartOf(gaps, spellings, k) - |gaps[k]| <= pos < StartOf(gaps, spellings, k)
      ensures !StartsAt(text, urls, edits, pos, i)
    {
      if StartsAt(text, urls, edits, pos, i) {
        var m := PlaceOf(text, urls, gaps, spellings, order, i);
        StartOutside(gaps, spellings, k, m);
      }
    }
  }

  /** No spelling begins in a gap. */
  lemma StartOutside(gaps: seq<string>, spellings: seq<string>, k: nat, m: nat)
    requires |gaps| == |spellings| + 1 && k <= |spellings| && m < |spellings| && spellings[m] != ""
    ensures StartOf(gaps, spellings, m) < StartOf(gaps, spellings, k) - |gaps[k]|
            || StartOf(gaps, spellings, k) <= StartOf(gaps, spellings, m)
  {
    if m < k {
      GapInText(gaps, spellings, k);
      if m < k - 1 {
        Starts(gaps, spellings, m, k - 1);
      }
    } else if k < m {
      Starts(gaps, spellings, k, m);
    }
  }

  lemma GapKept(lib: Library, text: string, urls: seq<Url>, gaps: seq<string>, spellings: seq<string>, order: seq<nat>,
                k: nat)
    requires Spells(text, urls, gaps, spellings, order) && k <= |spellings|
    ensures var edits, end := NormalEdits(lib, text, urls), StartOf(gaps, spellings, k);
            && |gaps[k]| <= end <= |text|
            && LeftToRight(text, urls, edits, end - |gaps[k]|) == gaps[k] + LeftToRight(text, urls, edits, end)
  {
    hide LeftToRight;
    var end := StartOf(gaps, spellings, k);
    GapInText(gaps, spellings, k);
    NoStartInGap(lib, text, urls, gaps, spellings, order, k);
    GapCopied(text, urls, NormalEdits(lib, text, urls), end - |gaps[k]|, end);
  }

  /** Up to the k-th span, the splice is the weave of the values. */
  lemma {:induction false} SplicedBefore(lib: Library, text: string, urls: seq<Url>, gaps: seq<string>,
                                         spellings: seq<string>, order: seq<nat>, k: nat)
    requires Spells(text, urls, gaps, spellings, order) && k <= |spellings|
    ensures StartOf(gaps, spellings, k) <= |text|
    ensures var edits := NormalEdits(lib, text, urls);
            LeftToRight(text, urls, edits, 0)
            == Before(gaps, Values(lib, urls, order), k) + LeftToRight(text, urls, edits, StartOf(gaps, spellings, k))
  {
    hide LeftToRight, Before, StartOf, NormalEdits, Values;
    var edits, values := NormalEdits(lib, text, urls), Values(lib, urls, order);
    GapInText(gaps, spellings, k);
    GapKept(lib, text, urls, gaps, spellings, order, k);
    if k == 0 {
      FirstGap(gaps, values);
    } else {
      SplicedBefore(lib, text, urls, gaps, spellings, order, k - 1);
      BeforeNext(gaps, values, k - 1);
      SpellsDisjoint(lib, text, urls, gaps, spellings, order);
      ReplacedAt(lib, text, urls, gaps, spellings, order, k - 1);
    }
  }

  lemma FirstGap(gaps: seq<string>, values: seq<string>)
    requires |gaps| == |values| + 1
    ensures Before(gaps, values, 0) == gaps[0]
  {
  }

  lemma ReplacedAt(lib: Library, text: string, urls: seq<Url>, gaps: seq<string>, spellings: seq<string>,
                   order: seq<nat>, k: nat)
    requires Spells(text, urls, gaps, spellings, order) && k < |spellings|
    requires Disjoint(text, urls, NormalEdits(lib, text, urls))
    ensures var edits, start := NormalEdits(lib, text, urls), StartOf(gaps, spellings, k);
            && start + |spellings[k]| <= |text|
            && LeftToRight(text, urls, edits, start)
               == Values(lib, urls, order)[k] + LeftToRight(text, urls, edits, start + |spellings[k]|)
  {
    hide LeftToRight, Before;
    assert PlacedAt(text, urls, gaps, spellings, order, k);
    PieceReplaced(text, urls, NormalEdits(lib, text, urls), order[k]);
  }

  /** The spellings do not reach the normalized text. */
  lemma SplicedWoven(lib: Library, text: string, urls: seq<Url>, gaps: seq<string>, spellings: seq<string>,
                     order: seq<nat>)
    requires Spells(text, urls, gaps, spellings, order)
    ensures LeftToRight(text, urls, NormalEdits(lib, text, urls), 0) == Woven(gaps, Values(lib, urls, order))
  {
    var values := Values(lib, urls, order);
    SplicedBefore(lib, text, urls, gaps, spellings, order, |spellings|);
    GapInText(gaps, spellings, |spellings|);
    assert gaps[..|values| + 1] == gaps && values[..|values|] == values;
  }

  // Two spellings of one message

  /** The same text between the URLs; whitespace at the two ends of the message does not matter. */
  predicate SameGaps(g: seq<string>, h: seq<string>) {
    && |g| == |h| > 0
    && (|g| == 1 ==> TrimSpace(g[0]) == TrimSpace(h[0]))
    && (|g| > 1 ==>
          TrimLeft(g[0]) == TrimLeft(h[0]) && TrimRight(g[|g| - 1]) == TrimRight(h[|g| - 1])
          && g[1..|g| - 1] == h[1..|g| - 1])
  }

  /** What lies between the outer gaps. */
  function Middle(inner: seq<string>, values: seq<string>): string
    requires |inner| + 1 == |values|
  {
    Woven([""] + inner, values[..|inner|]) + values[|inner|]
  }

  lemma {:induction false} WovenHead(gaps: seq<string>, values: seq<string>)
    requires |gaps| == |values| + 1
    ensures Woven(gaps, values) == gaps[0] + Woven([""] + gaps[1..], values)
  {
    var bare := [""] + gaps[1..];
    if values != [] {
      var n := |values|;
      WovenHead(gaps[..n], values[..n - 1]);
      assert bare[..n] == [""] + gaps[..n][1..];
    }
  }

  lemma WovenMiddle(gaps: seq<string>, values: seq<string>)
    requires |gaps| == |values| + 1 > 1
    ensures Woven(gaps, values) == gaps[0] + Middle(gaps[1..|values|], values) + gaps[|values|]
  {
    hide Woven;
    var n := |values|;
    WovenLast(gaps, values);
    WovenHead(gaps[..n], values[..n - 1]);
    assert gaps[..n][1..] == gaps[1..n];
  }

  lemma WovenLast(gaps: seq<string>, values: seq<string>)
    requires |gaps| == |values| + 1 > 1
    ensures var n := |values|;
            Woven(gaps, values) == Woven(gaps[..n], values[..n - 1]) + values[n - 1] + gaps[n]
  {
  }

  lemma SameGapsSameText(g: seq<string>, h: seq<string>, values: seq<string>)
    requires SameGaps(g, h) && |g| == |values| + 1
    ensures TrimSpace(Woven(g, values)) == TrimSpace(Woven(h, values))
  {
    var n := |values|;
    if n > 0 {
      WovenMiddle(g, values);
      WovenMiddle(h, values);
      OuterWhitespace(g[0], h[0], Middle(g[1..n], values), g[n], h[n]);
    }
  }

  /** How a message is spelled. */
  datatype Spelt = Spelt(gaps: seq<string>, spellings: seq<string>)

  ghost predicate SpeltAs(lib: Library, m: Input, s: Spelt, order: seq<nat>) {
    MessageText(m) != "" && (m.text == "" || m.caption == "")
      && Spells(MessageText(m), Urls(lib, m), s.gaps, s.spellings, order)
  }

  predicate SameTargets(lib: Library, us: seq<Url>, vs: seq<Url>) {
    |us| == |vs| && forall i | 0 <= i < |us| :: lib.normalizeUrl(us[i].target) == lib.normalizeUrl(vs[i].target)
  }

  predicate SameMedia(m: Input, w: Input) {
    m.mediaKind == w.mediaKind && m.mediaUniqueId == w.mediaUniqueId && m.mediaGroupId == w.mediaGroupId
  }

  /** The same gaps, media and normalized targets give the same string, however the URLs are spelled. */
  lemma SpellingDoesNotMatter(lib: Library, m: Input, w: Input, rule: string, order: seq<nat>, s: Spelt, t: Spelt,
                              pre: string, other: string)
    requires SpeltAs(lib, m, s, order) && SpeltAs(lib, w, t, order) && (m.text == "") == (w.text == "")
    requires SameGaps(s.gaps, t.gaps) && SameMedia(m, w) && SameTargets(lib, Urls(lib, m), Urls(lib, w))
    requires FingerprintOf(lib, m, rule, pre) && FingerprintOf(lib, w, rule, other)
    ensures pre == other
  {
    hide Normalizes, Spells, TrimSpace, Woven, UrlLines, UrlsOf, SameGaps;
    var text, caption, inText, inCaption :| Assembled(lib, m, rule, pre, text, caption, inText, inCaption);
    var text', caption', inText', inCaption' :| Assembled(lib, w, rule, other, text', caption', inText', inCaption');
    var us, vs := Urls(lib, m), Urls(lib, w);
    if m.text != "" {
      NothingNormalizes(lib, us, inCaption, caption);
      NothingNormalizes(lib, vs, inCaption', caption');
      BodyWoven(lib, m.text, us, s, order, inText, text);
      BodyWoven(lib, w.text, vs, t, order, inText', text');
    } else {
      NothingNormalizes(lib, us, inText, text);
      NothingNormalizes(lib, vs, inText', text');
      BodyWoven(lib, m.caption, us, s, order, inCaption, caption);
      BodyWoven(lib, w.caption, vs, t, order, inCaption', caption');
    }
    assert Values(lib, us, order) == Values(lib, vs, order);
    SameGapsSameText(s.gaps, t.gaps, Values(lib, us, order));
    SameLines(lib, us, vs);
  }

  lemma NothingNormalizes(lib: Library, urls: seq<Url>, kept: set<int>, r: string)
    requires Normalizes(lib, "", urls, kept, r)
    ensures r == ""
  {}

  lemma BodyWoven(lib: Library, text: string, urls: seq<Url>, s: Spelt, order: seq<nat>, kept: set<int>, body: string)
    requires text != "" && Spells(text, urls, s.gaps, s.spellings, order) && Normalizes(lib, text, urls, kept, body)
    ensures |s.gaps| == |order| + 1 && forall k | 0 <= k < |order| :: order[k] < |urls|
    ensures body == lib.nfkc(TrimSpace(Woven(s.gaps, Values(lib, urls, order))))
  {
    SpellsDisjoint(lib, text, urls, s.gaps, s.spellings, order);
    DisjointNormalizes(lib, text, urls, kept, body);
    SplicedWoven(lib, text, urls, s.gaps, s.spellings, order);
  }

  lemma {:induction false} SameLines(lib: Library, us: seq<Url>, vs: seq<Url>)
    requires SameTargets(lib, us, vs)
    ensures UrlLines(lib, us) == UrlLines(lib, vs)
  {
    if us != [] {
      SameLines(lib, us[..|us| - 1], vs[..|us| - 1]);
    }
  }

  /** The second list spells some URLs of the first with an explicit https. */
  predicate MadeExplicit(us: seq<Url>, vs: seq<Url>) {
    && |us| == |vs|
    && forall i | 0 <= i < |us| ::
         us[i].fromText == vs[i].fromText
         && (us[i].raw == vs[i].raw
             || (us[i].fromText && !HasExplicitScheme(us[i].raw) && vs[i].raw == "https://" + us[i].raw))
  }

  /** In particular, writing out https changes nothing. */
  lemma ExplicitSchemeDoesNotMatter(lib: Library, m: Input, w: Input, rule: string, order: seq<nat>, s: Spelt, t: Spelt,
                                    pre: string, other: string)
    requires SpeltAs(lib, m, s, order) && SpeltAs(lib, w, t, order) && (m.text == "") == (w.text == "")
    requires SameGaps(s.gaps, t.gaps) && SameMedia(m, w) && MadeExplicit(Urls(lib, m), Urls(lib, w))
    requires FingerprintOf(lib, m, rule, pre) && FingerprintOf(lib, w, rule, other)
    ensures pre == other
  {
    var us, vs := Urls(lib, m), Urls(lib, w);
    forall i | 0 <= i < |us| ensures us[i].target == vs[i].target {
      AcceptedTarget(lib, MessageText(m), MessageEntities(m), us[i]);
      AcceptedTarget(lib, MessageText(w), MessageEntities(w), vs[i]);
      if us[i].raw != vs[i].raw {
        SchemelessMeansHttps(lib, us[i].raw);
      }
    }
    SpellingDoesNotMatter(lib, m, w, rule, order, s, t, pre, other);
  }

  lemma {:induction false} AcceptedTarget(lib: Library, text: string, es: seq<Entity>, u: Url)
    requires u in UrlsOf(lib, text, es)
    ensures CanonicalTarget(lib, u.raw, u.fromText) == Some(u.target)
  {
    if UrlOf(lib, text, es[|es| - 1]) != Some(u) {
      AcceptedTarget(lib, text, es[..|es| - 1], u);
    }
  }
}
