/** Where the production registry leads: the outcome for each kind of URL, and which URLs are of which kind. */
module Destinations {
  import opened Tables
  import opened Utf16Text
  import opened WebAddress
  import opened Resolvers
  import opened Registry

  /** A raw URL that the registry reads as u. */
  predicate Reads(lib: Library, raw: string, u: Address) {
    ParseHttp(lib, raw) == Some(u)
  }

  /** One rewrite to a clean URL is the whole run. */
  lemma OneRewrite(lib: Library, net: nat -> Fetched, raw: string, u: Address, i: nat, d: Address)
    requires Lawful(lib) && Reads(lib, raw, u) && FirstMatch(Production(lib), u) == Some(i)
    requires Production(lib)[i].resolve(u, net(0)) == Gave(Some(d)) && Clean(lib, d)
    ensures OutcomeOf(lib, Production(lib), net, raw) == Resolved(u, d, Production(lib)[i].name)
  {
    hide Render, IsAmp, IsGoogleShare, TrackingParameters, UnwrapAmpCache, WithoutTracking;
    ParsedIsHttp(lib, raw);
    AlwaysChanges(lib, u, net(0), i, d);
    assert FirstMatch(Production(lib), d).None?;
    assert Chain(lib, Production(lib), net, u, 1, d) == Resolved(u, d, NameFor(Production(lib), u));
  }

  /** A share link leads to the page its redirects end at, if that is public and clean. */
  lemma ShareLeads(lib: Library, net: nat -> Fetched, raw: string, u: Address, d: Address, canonical: Option<Address>)
    requires Lawful(lib) && Reads(lib, raw, u)
    requires Host(lib, u) == "share.google" || Host(lib, u) == "goo.gl"
    requires net(0) == Page(Some(d), canonical) && IsPublic(lib, d) && Clean(lib, d)
    ensures OutcomeOf(lib, Production(lib), net, raw) == Resolved(u, d, "google-share")
  {
    hide Render, IsAmp, TrackingParameters, UnwrapAmpCache, WithoutTracking, Host;
    assert Production(lib)[0].matches(u);
    assert FirstMatch(Production(lib), u) == Some(0);
    OneRewrite(lib, net, raw, u, 0, d);
  }

  /** A cache URL leads to the page it has stored, whatever the network answers. */
  lemma CacheLeads(lib: Library, net: nat -> Fetched, raw: string, u: Address, secure: bool, h: string, p: string)
    requires Lawful(lib) && Reads(lib, raw, u) && Caches(lib, u, secure, h, p) && IsPage(lib, secure, h, p)
    requires !lib.blocked(lib.hostname(Lower(lib, h)))
    ensures IsHost(Lower(lib, h)) && IsPath(p)
    ensures var d: Address := Parts(if secure then "https" else "http", None, Lower(lib, h), p, false, "", "");
            Clean(lib, d) ==> OutcomeOf(lib, Production(lib), net, raw) == Resolved(u, d, "amp")
  {
    hide Render, TrackingParameters, UnwrapAmpCache, WithoutTracking, Clean;
    CacheUnwraps(lib, u, net(0), secure, h, p);
    var d: Address := Parts(if secure then "https" else "http", None, Lower(lib, h), p, false, "", "");
    CacheIsAmp(lib, u, secure, h, p);
    assert !Production(lib)[0].matches(u) && Production(lib)[1].matches(u);
    assert FirstMatch(Production(lib), u, 1) == Some(1);
    assert FirstMatch(Production(lib), u) == Some(1);
    if Clean(lib, d) {
      OneRewrite(lib, net, raw, u, 1, d);
    }
  }

  lemma CacheIsAmp(lib: Library, u: Address, secure: bool, h: string, p: string)
    requires Caches(lib, u, secure, h, p)
    ensures IsAmp(lib, u) && !IsGoogleShare(lib, u)
  {
    hide Host, HasAmpQuery, Contains;
    var page := (if secure then "s/" else "") + (h + p);
    if u.path == "/amp/" + page {
      assert HasPrefix(u.path, "/amp/");
      LowerKeepsMark(lib, u.path, "/amp/");
    }
  }

  /** Any other AMP URL leads to the canonical page its page names, or else to where the fetch ended, if that is
      public and clean. */
  lemma CanonicalLeads(lib: Library, net: nat -> Fetched, raw: string, u: Address, f: Address,
                       canonical: Option<Address>, d: Address)
    requires Lawful(lib) && Reads(lib, raw, u) && IsAmp(lib, u) && !IsGoogleShare(lib, u)
    requires !IsGoogleHost(Host(lib, u)) && !HasSuffix(Host(lib, u), ".cdn.ampproject.org")
    requires net(0) == Page(Some(f), canonical)
    requires d == if canonical.Some? && !IsAmp(lib, canonical.value) then canonical.value else f
    requires IsPublic(lib, d) && Clean(lib, d)
    ensures OutcomeOf(lib, Production(lib), net, raw) == Resolved(u, d, "amp")
  {
    hide Render, TrackingParameters, WithoutTracking, Host, IsAmp, IsGoogleShare;
    assert !Production(lib)[0].matches(u) && Production(lib)[1].matches(u);
    assert FirstMatch(Production(lib), u, 1) == Some(1);
    assert FirstMatch(Production(lib), u) == Some(1);
    OneRewrite(lib, net, raw, u, 1, d);
  }

  /** A page that cannot be fetched resolves neither a share link nor an AMP URL that no cache has stored. */
  lemma FetchFails(lib: Library, net: nat -> Fetched, raw: string, u: Address)
    requires Reads(lib, raw, u) && net(0) == FetchFailed && (IsGoogleShare(lib, u) || IsAmp(lib, u))
    requires !IsGoogleHost(Host(lib, u)) && !HasSuffix(Host(lib, u), ".cdn.ampproject.org")
    ensures OutcomeOf(lib, Production(lib), net, raw)
            == ResolverFailed(if IsGoogleShare(lib, u) then "google-share" else "amp")
  {
    hide Render, TrackingParameters, WithoutTracking, Host, IsAmp, IsGoogleShare;
    if IsGoogleShare(lib, u) {
      assert Production(lib)[0].matches(u);
      assert FirstMatch(Production(lib), u) == Some(0);
    } else {
      assert !Production(lib)[0].matches(u) && Production(lib)[1].matches(u);
      assert FirstMatch(Production(lib), u, 1) == Some(1);
      assert FirstMatch(Production(lib), u) == Some(1);
    }
  }

  /** A URL with tracking parameters leads to itself without them, whatever the network answers. */
  lemma TrackingLeads(lib: Library, net: nat -> Fetched, raw: string, u: Address)
    requires Lawful(lib) && Reads(lib, raw, u) && !IsAmp(lib, u) && !IsGoogleShare(lib, u)
    requires TrackingParameters(lib, u) != {} && Clean(lib, WithoutTracking(lib, u))
    ensures OutcomeOf(lib, Production(lib), net, raw) == Resolved(u, WithoutTracking(lib, u), "tracking-parameter")
  {
    hide Render, TrackingParameters, WithoutTracking, Host, IsAmp, IsGoogleShare;
    var rs := Production(lib);
    assert !rs[0].matches(u) && !rs[1].matches(u) && rs[2].matches(u);
    assert FirstMatch(rs, u, 2) == Some(2);
    assert FirstMatch(rs, u, 1) == Some(2);
    assert FirstMatch(rs, u) == Some(2);
    OneRewrite(lib, net, raw, u, 2, WithoutTracking(lib, u));
  }

  // Where a run may lead

  lemma RewritePublic(lib: Library, u: Address, f: Fetched, i: nat, d: Address)
    requires i < 3 && Production(lib)[i].resolve(u, f) == Gave(Some(d))
    ensures i < 2 ==> IsPublic(lib, d)
    ensures i == 2 && IsPublic(lib, u) ==> IsPublic(lib, d)
  {
    hide IsAmp, IsGoogleShare, UnwrapAmpCache, TrackingParameters;
  }

  lemma {:induction false} RewritesStayPublic(lib: Library, net: nat -> Fetched, urls: seq<Address>, k: nat)
    requires k < |urls| && IsPublic(lib, urls[0]) && Rewrites(lib, Production(lib), net, urls)
    ensures IsPublic(lib, urls[k])
  {
    hide Production, Render, FirstMatch, IsPublic;
    if k > 0 {
      RewritesStayPublic(lib, net, urls, k - 1);
      assert RewritesTo(lib, Production(lib), urls[k - 1], net(k - 1), urls[k]);
      ThreeResolvers(lib);
      RewritePublic(lib, urls[k - 1], net(k - 1), FirstMatch(Production(lib), urls[k - 1]).value, urls[k]);
    }
  }

  lemma ThreeResolvers(lib: Library)
    ensures |Production(lib)| == 3
  {}

  /** A run that starts at a public URL ends at one, whatever redirects and pages say. */
  lemma ResolvedIsPublic(lib: Library, net: nat -> Fetched, raw: string, urls: seq<Address>, r: Outcome)
    requires Lawful(lib) && Runs(lib, Production(lib), net, raw, urls, r) && r.Resolved? && IsPublic(lib, r.original)
    ensures IsPublic(lib, r.destination)
  {
    hide Production, Render, IsPublic, IsHttp;
    var last := urls[|urls| - 1];
    ParsedIsHttp(lib, raw);
    StaysHttp(lib, net, urls, |urls| - 1);
    EndIsClean(lib, urls[0], |urls| - 1, last, net(|urls| - 1), r);
    RewritesStayPublic(lib, net, urls, |urls| - 1);
  }

  /** A host is read without its port and one final dot, in lower case. */
  lemma HostRead(lib: Library, u: Address, h: string)
    requires lib.hostname(u.host) == h || (lib.hostname(u.host) == h + "." && h != "")
    requires (h != "" ==> h[|h| - 1] != '.') && forall c | c in h :: 'a' <= c <= 'z' || c == '.'
    ensures Host(lib, u) == h
  {
    MarkStays(lib, h);
    var s := lib.hostname(u.host);
    assert s == h + "." ==> s[|s| - 1..] == "." && s[..|s| - 1] == h;
    assert s == h && h != "" ==> s[|s| - 1..] == [h[|h| - 1]] && [h[|h| - 1]][0] != "."[0];
  }

  // Which URLs are AMP

  predicate AmpAt(s: string, k: nat) {
    k + 3 <= |s| && s[k] == 'a' && s[k + 1] == 'm' && s[k + 2] == 'p'
  }

  predicate SaysAmp(s: string) {
    exists k: nat :: k < |s| && AmpAt(s, k)
  }

  lemma PartSaysAmp(s: string, at: nat, part: string)
    requires SaysAmp(part) && at + |part| <= |s| && s[at..at + |part|] == part
    ensures SaysAmp(s)
  {
    var k: nat :| k < |part| && AmpAt(part, k);
    forall i | k <= i < k + 3 ensures s[at + i] == part[i] {
      assert s[at..at + |part|][i] == s[at + i];
    }
    assert AmpAt(s, at + k);
  }

  lemma PartsSayAmp(s: string, part: string)
    requires SaysAmp(part)
    ensures HasPrefix(s, part) || HasSuffix(s, part) || Contains(s, part) ==> SaysAmp(s)
  {
    hide SaysAmp;
    if HasPrefix(s, part) {
      PartSaysAmp(s, 0, part);
    } else if HasSuffix(s, part) {
      PartSaysAmp(s, |s| - |part|, part);
    } else if Contains(s, part) {
      PartSaysAmp(s, FirstOccurrence(s, part).value, part);
    }
  }

  lemma {:induction false} AmpQuerySaysAmp(query: string)
    requires HasAmpQuery(query)
    ensures SaysAmp(query)
    decreases |query|
  {
    hide IsAmpPair, Contains, SaysAmp, CutAt;
    var cut := CutAt(query, '&');
    if IsAmpPair(cut.0) {
      AmpPairSaysAmp(cut.0);
      PartsSayAmp(query, cut.0);
    } else {
      var rest := cut.1[1..];
      AmpQuerySaysAmp(rest);
      assert query[|query| - |rest|..] == rest;
      PartsSayAmp(query, rest);
    }
  }

  lemma AmpPairSaysAmp(pair: string)
    requires IsAmpPair(pair)
    ensures SaysAmp(pair)
  {
    assert AmpAt("amp", 0) && AmpAt("amp_", 0) && AmpAt("_amp", 1);
    var name, value := Name(pair), Value(pair);
    PartsSayAmp(name, "amp");
    PartsSayAmp(name, "amp_");
    PartsSayAmp(name, "_amp");
    if SaysAmp(name) {
      assert HasPrefix(pair, name);
      PartsSayAmp(pair, name);
    } else {
      assert HasSuffix(pair, value);
      PartsSayAmp(pair, value);
    }
  }

  /** A URL that nowhere says "amp" in its host, path or query is not taken for AMP. */
  lemma AmpSaysAmp(lib: Library, u: Address)
    requires IsAmp(lib, u)
    ensures SaysAmp(Host(lib, u)) || SaysAmp(Lower(lib, u.path)) || SaysAmp(Lower(lib, u.rawQuery))
  {
    hide Host, HasAmpQuery, Lower;
    var host, path, query := Host(lib, u), Lower(lib, u.path), Lower(lib, u.rawQuery);
    HostSaysAmp(host);
    PathSaysAmp(path);
    if HasAmpQuery(query) {
      AmpQuerySaysAmp(query);
    }
  }

  lemma HostSaysAmp(host: string)
    ensures HasSuffix(host, ".cdn.ampproject.org") || HasSuffix(host, ".ampproject.net") || HasPrefix(host, "amp.") ==>
              SaysAmp(host)
  {
    assert AmpAt(".cdn.ampproject.org", 5) && AmpAt(".ampproject.net", 1)
           && AmpAt("amp.", 0);
    PartsSayAmp(host, ".cdn.ampproject.org");
    PartsSayAmp(host, ".ampproject.net");
    PartsSayAmp(host, "amp.");
  }

  lemma PathSaysAmp(path: string)
    ensures path == "/amp" || HasPrefix(path, "/amp/") || HasSuffix(path, "/amp") || Contains(path, "/amp/")
            || HasSuffix(path, ".amp") ==>
              SaysAmp(path)
  {
    assert AmpAt("/amp", 1) && AmpAt("/amp/", 1) && AmpAt(".amp", 1);
    PartsSayAmp(path, "/amp");
    PartsSayAmp(path, "/amp/");
    PartsSayAmp(path, ".amp");
  }

  /** A mark of lower-case letters and separators stays where it is in lower case. */
  lemma LowerKeepsMark(lib: Library, s: string, mark: string)
    requires forall c | c in mark :: 'a' <= c <= 'z' || c == '/' || c == '.'
    ensures HasPrefix(s, mark) ==> HasPrefix(Lower(lib, s), mark)
    ensures HasSuffix(s, mark) ==> HasSuffix(Lower(lib, s), mark)
  {
    hide Lower, FoldsCase;
    MarkStays(lib, mark);
    var t := Lower(lib, s);
    if HasPrefix(s, mark) {
      forall i | 0 <= i < |mark| ensures t[..|mark|][i] == mark[i] {
        assert s[..|mark|][i] == s[i];
      }
      assert t[..|mark|] == mark;
    }
    if HasSuffix(s, mark) {
      var at := |s| - |mark|;
      forall i | 0 <= i < |mark| ensures t[at..][i] == mark[i] {
        assert s[at..][i] == s[at + i];
      }
      assert t[at..] == mark;
    }
  }

  lemma MarkStays(lib: Library, mark: string)
    requires forall c | c in mark :: 'a' <= c <= 'z' || c == '/' || c == '.'
    ensures forall i | 0 <= i < |mark| :: lib.lowerRune(mark[i]) == mark[i]
  {
    assert FoldsCase(lib.lowerRune);
    assert forall i | 0 <= i < |mark| :: mark[i] in mark;
  }

  /** One pair of a query that asks for AMP is enough, wherever it stands. */
  lemma {:induction false} AmpPairMarks(before: string, pair: string, after: string)
    requires IsAmpPair(pair) && '&' !in pair && (before == "" || before[|before| - 1] == '&')
    requires after == "" || after[0] == '&'
    ensures HasAmpQuery(before + pair + after)
    decreases |before|
  {
    hide IsAmpPair, CutAt;
    if before == "" {
      assert before + pair + after == pair + after;
      QueryCut(pair, after);
    } else {
      var first := CutAt(before, '&');
      assert first.1 != "" by { assert before[|before| - 1] == '&' && '&' in before; }
      var rest := first.1[1..];
      assert before + pair + after == first.0 + (first.1 + pair + after);
      assert (first.1 + pair + after)[1..] == rest + pair + after;
      assert rest == "" || rest[|rest| - 1] == before[|before| - 1];
      AmpPairMarks(rest, pair, after);
      QueryCut(first.0, first.1 + pair + after);
    }
  }

  /** A query is searched pair by pair. */
  lemma QueryCut(pair: string, after: string)
    requires '&' !in pair && (after == "" || after[0] == '&')
    ensures HasAmpQuery(pair + after) <==> IsAmpPair(pair) || (after != "" && HasAmpQuery(after[1..]))
  {
    hide IsAmpPair, CutAt;
    var cut := CutAt(pair + after, '&');
    SplitUnique(cut.0, cut.1, pair, after, {'&'});
  }

  /** The pairs that ask for AMP. */
  lemma AmpPairs(value: string)
    ensures IsAmpPair("amp") && IsAmpPair("amp" + ("=" + value)) && IsAmpPair("output" + ("=" + "amp"))
  {
    hide IsAmpPair, Name, Value, CutAt;
    AmpEquals("amp", value);
    AmpEquals("output", "amp");
    AmpAlone();
    NamesAmp("amp");
    NamesAmp("amp" + ("=" + value));
    NamesAmp("output" + ("=" + "amp"));
  }

  lemma NamesAmp(pair: string)
    ensures Name(pair) == "amp" || (Name(pair) == "output" && Value(pair) == "amp") ==> IsAmpPair(pair)
  {}

  lemma AmpAlone()
    ensures Name("amp") == "amp"
  {
    var cut := CutAt("amp", '=');
    SplitUnique(cut.0, cut.1, "amp", "", {'='});
  }

  lemma AmpEquals(name: string, value: string)
    requires '=' !in name
    ensures Name(name + ("=" + value)) == name && Value(name + ("=" + value)) == value
  {
    var cut := CutAt(name + ("=" + value), '=');
    SplitUnique(cut.0, cut.1, name, "=" + value, {'='});
    assert ("=" + value)[1..] == value;
  }

  /** The marks of AMP: a cache host, a publisher's amp host, and outside www.google hosts an AMP path or query. */
  lemma AmpMarks(lib: Library, u: Address)
    ensures HasSuffix(Host(lib, u), ".cdn.ampproject.org") || HasSuffix(Host(lib, u), ".ampproject.net") ==>
              IsAmp(lib, u)
    ensures HasPrefix(Host(lib, u), "amp.") ==> IsAmp(lib, u)
    ensures HasPrefix(u.path, "/amp/") || HasSuffix(u.path, "/amp") || HasSuffix(u.path, ".amp") ==>
              IsAmp(lib, u) || HasPrefix(Host(lib, u), "www.google.")
    ensures Contains(Lower(lib, u.path), "/amp/") || HasAmpQuery(Lower(lib, u.rawQuery)) ==>
              IsAmp(lib, u) || HasPrefix(Host(lib, u), "www.google.")
  {
    hide Host, HasAmpQuery, Lower, Contains;
    LowerKeepsMark(lib, u.path, "/amp/");
    LowerKeepsMark(lib, u.path, "/amp");
    LowerKeepsMark(lib, u.path, ".amp");
    NotBothPrefixes(Host(lib, u));
  }

  lemma NotBothPrefixes(host: string)
    ensures !(HasPrefix(host, "amp.") && HasPrefix(host, "www.google."))
  {
    assert "amp."[0] == 'a' && "www.google."[0] == 'w';
  }

  // Which parameters track

  /** The documented parameters are tracking parameters, those that mean something are not, and beyond the documented
      prefix only a short list of names is ever removed, four of them on their own hosts only. */
  lemma TrackingNames(host: string, p: string)
    ensures HasPrefix(p, "utm_") || p in ["fbclid", "gclid", "shem", "ttclid"] ==> IsTracking(host, p)
    ensures p in ["v", "t", "list", "index"] ==> !IsTracking(host, p)
    ensures host in ["youtube.com", "www.youtube.com", "m.youtube.com", "youtu.be"] && p in ["si", "pp", "s"] ==>
              IsTracking(host, p)
    ensures host == "open.spotify.com" && p == "si" ==> IsTracking(host, p)
    ensures host in ["instagram.com", "www.instagram.com"] && p == "igshid" ==> IsTracking(host, p)
    ensures IsTracking(host, p) && !HasPrefix(p, "utm_") ==>
              p in ["fbclid", "gclid", "shem", "dclid", "gbraid", "wbraid", "mc_cid", "mc_eid", "msclkid", "ttclid",
                    "yclid", "si", "pp", "s", "igshid"]
    ensures IsTracking(host, p) && p in ["si", "pp", "s", "igshid"] ==>
              host in ["youtube.com", "www.youtube.com", "m.youtube.com", "youtu.be", "open.spotify.com",
                       "instagram.com", "www.instagram.com"]
  {
    assert "utm_"[0] == 'u';
  }
}
