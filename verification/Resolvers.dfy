/** The three production resolvers: what they match, and what they make of a URL for any answer of the network. */
module Resolvers {
  import opened Tables
  import opened Utf16Text
  import opened SpanEdit
  import opened WebAddress

  /** What a fetch gives: the final URL and the canonical link of its page, if any. */
  datatype Fetched = FetchFailed | Page(url: Option<Address>, canonical: Option<Address>)

  datatype Answer = Refused | Gave(destination: Option<Address>)

  function Host(lib: Library, u: Address): string {
    Lower(lib, TrimSuffix(lib.hostname(u.host), "."))
  }

  predicate IsPublic(lib: Library, u: Address) {
    IsHttp(lib, u) && !lib.blocked(lib.hostname(u.host))
  }

  // Google share

  predicate IsGoogleShare(lib: Library, u: Address) {
    Host(lib, u) == "share.google" || Host(lib, u) == "goo.gl"
  }

  function GoogleShareResolve(lib: Library, u: Address, f: Fetched): Answer {
    if f.FetchFailed? || f.url.None? then Refused
    else if IsGoogleShare(lib, f.url.value) || !IsPublic(lib, f.url.value) then Refused
    else Gave(f.url)
  }

  // AMP

  predicate Contains(s: string, p: string) {
    FirstOccurrence(s, p).Some?
  }

  /** strings.Cut at the first '='. */
  function Name(pair: string): string {
    CutAt(pair, '=').0
  }

  function Value(pair: string): string {
    var after := CutAt(pair, '=').1;
    if after == "" then "" else after[1..]
  }

  predicate IsAmpPair(pair: string) {
    || Name(pair) == "amp" || HasPrefix(Name(pair), "amp_") || HasSuffix(Name(pair), "_amp")
    || (Name(pair) == "output" && Value(pair) == "amp")
  }

  /** Some '&'-separated pair asks for AMP. */
  predicate HasAmpQuery(query: string)
    decreases |query|
  {
    var cut := CutAt(query, '&');
    IsAmpPair(cut.0) || (cut.1 != "" && HasAmpQuery(cut.1[1..]))
  }

  predicate IsGoogleHost(host: string) {
    host == "google.com" || host == "www.google.com"
  }

  predicate IsAmp(lib: Library, u: Address) {
    var host, path, query := Host(lib, u), Lower(lib, u.path), Lower(lib, u.rawQuery);
    if HasSuffix(host, ".cdn.ampproject.org") || HasSuffix(host, ".ampproject.net") then true
    else if IsGoogleHost(host) && HasPrefix(path, "/amp/") then true
    else if HasPrefix(host, "www.google.") then false
    else if HasPrefix(host, "amp.") then true
    else
      || path == "/amp" || HasPrefix(path, "/amp/") || HasSuffix(path, "/amp") || Contains(path, "/amp/")
      || HasSuffix(path, ".amp") || HasAmpQuery(query)
  }

  /** What follows the cache prefix of the path. */
  function CachedPart(lib: Library, u: Address): (rest: Option<string>)
    ensures rest.Some? ==> |rest.value| < |u.path| && forall c | c in rest.value :: c in u.path
  {
    var host := Host(lib, u);
    if IsGoogleHost(host) && HasPrefix(u.path, "/amp/") then Some(u.path[5..])
    else if HasSuffix(host, ".cdn.ampproject.org") && (HasPrefix(u.path, "/c/") || HasPrefix(u.path, "/v/")) then
      Some(u.path[3..])
    else None
  }

  lemma TailIsPath(rest: string, head: string, tail: string)
    requires (forall c | c in rest :: IsPathChar(c)) && rest == head + tail && (tail == "" || tail[0] == '/')
    ensures IsPath(tail)
  {
    assert forall c | c in tail :: c in rest;
  }

  /** Parsing scheme://rest for a rest cut from a path: the authority ends at the first '/'. */
  function ParsePlain(lib: Library, scheme: string, rest: string): (u: Option<Address>)
    requires forall c | c in rest :: IsPathChar(c)
    ensures u.Some? ==> |u.value.path| <= |rest|
  {
    var cut := CutAt(rest, '/');
    TailIsPath(rest, cut.0, cut.1);
    if '@' in cut.0 || lib.readHost(cut.0).None? || lib.hostname(lib.readHost(cut.0).value) == "" then None
    else Some(Parts(scheme, None, LowerHost(lib, lib.readHost(cut.0).value), cut.1, false, "", ""))
  }

  function UnwrapAmpCache(lib: Library, u: Address): Option<Address> {
    var cached := CachedPart(lib, u);
    if cached.None? then None else
    var secure := HasPrefix(cached.value, "s/");
    var rest := if secure then cached.value[2..] else cached.value;
    if rest == "" || HasPrefix(rest, "/") then None
    else ParsePlain(lib, if secure then "https" else "http", rest)
  }

  function AmpResolve(lib: Library, u: Address, f: Fetched): Answer {
    var unwrapped := UnwrapAmpCache(lib, u);
    if unwrapped.Some? && IsPublic(lib, unwrapped.value) then Gave(unwrapped)
    else if f.FetchFailed? || f.url.None? then Refused
    else
      var destination :=
        if f.canonical.Some? && !IsAmp(lib, f.canonical.value) then f.canonical.value else f.url.value;
      if IsAmp(lib, destination) || !IsPublic(lib, destination) then Refused else Gave(Some(destination))
  }

  // Tracking parameters

  const GENERIC := {"fbclid", "gclid", "shem", "dclid", "gbraid", "wbraid", "mc_cid", "mc_eid", "msclkid", "ttclid",
                    "yclid"}

  predicate HostTracks(host: string, parameter: string) {
    if host in ["youtube.com", "www.youtube.com", "m.youtube.com", "youtu.be"] then parameter in ["si", "pp", "s"]
    else if host == "open.spotify.com" then parameter == "si"
    else if host == "instagram.com" || host == "www.instagram.com" then parameter == "igshid"
    else false
  }

  predicate IsTracking(host: string, parameter: string) {
    parameter in GENERIC || HasPrefix(parameter, "utm_") || HostTracks(host, parameter)
  }

  function TrackingParameters(lib: Library, u: Address): set<string> {
    set p | p in lib.decode(u.rawQuery) && IsTracking(Host(lib, u), p)
  }

  /** The same URL without the parameters. */
  function WithoutTracking(lib: Library, u: Address): Address {
    var raw := lib.encode(lib.decode(u.rawQuery) - TrackingParameters(lib, u));
    u.(rawQuery := raw, forceQuery := raw != "" && u.forceQuery)
  }

  lemma WithoutTrackingIs(lib: Library, u: Address)
    ensures WithoutTracking(lib, u)
            == (var raw := lib.encode(lib.decode(u.rawQuery) - TrackingParameters(lib, u));
                u.(rawQuery := raw, forceQuery := raw != "" && u.forceQuery))
  {}

  /** Deletes the parameters one after another from the query map. */
  method RemoveTracking(lib: Library, u: Address) returns (destination: Address)
    ensures destination == WithoutTracking(lib, u)
  {
    hide IsTracking, Host, TrackingParameters, WithoutTracking;
    WithoutTrackingIs(lib, u);
    var query: Query := lib.decode(u.rawQuery);
    var doomed := TrackingParameters(lib, u);
    while doomed != {}
      invariant doomed <= TrackingParameters(lib, u)
      invariant query == lib.decode(u.rawQuery) - (TrackingParameters(lib, u) - doomed)
      decreases doomed
    {
      var p := Pick(doomed);
      query, doomed := query - {p}, doomed - {p};
    }
    assert query == lib.decode(u.rawQuery) - TrackingParameters(lib, u);
    destination := u.(rawQuery := lib.encode(query));
    if destination.rawQuery == "" {
      destination := destination.(forceQuery := false);
    }
  }

  /** Removal keeps exactly the other keys with their values, changes nothing else, leaves nothing to remove, and
      done twice is done once. */
  lemma {:induction false} TrackingRemoved(lib: Library, u: Address)
    requires Lawful(lib)
    ensures var d := WithoutTracking(lib, u);
            var before, after := lib.decode(u.rawQuery), lib.decode(d.rawQuery);
            && d.scheme == u.scheme && d.userinfo == u.userinfo
            && d.host == u.host && d.path == u.path && d.fragment == u.fragment
            && (forall p :: p in after <==> p in before && !IsTracking(Host(lib, u), p))
            && (forall p | p in after :: after[p] == before[p])
            && TrackingParameters(lib, d) == {}
            && d.forceQuery == (u.forceQuery && d.rawQuery != "")
            && WithoutTracking(lib, d) == d
  {
    hide IsTracking;
    var d := WithoutTracking(lib, u);
    assert Host(lib, d) == Host(lib, u);
    assert lib.decode(d.rawQuery) == lib.decode(u.rawQuery) - TrackingParameters(lib, u);
    assert lib.decode(d.rawQuery) - TrackingParameters(lib, d) == lib.decode(d.rawQuery);
  }

  /** A URL with tracking parameters is rendered differently without them. */
  lemma TrackingChanges(lib: Library, u: Address)
    requires Lawful(lib) && IsHttp(lib, u) && TrackingParameters(lib, u) != {}
    ensures Render(lib, WithoutTracking(lib, u)) != Render(lib, u)
  {
    var d := WithoutTracking(lib, u);
    TrackingRemoved(lib, u);
    if Render(lib, d) == Render(lib, u) {
      RenderingTells(lib, d, u);
    }
  }

  /** An AMP cache has stored page p of host h under this URL, secure if it was fetched by HTTPS. */
  predicate Caches(lib: Library, u: Address, secure: bool, h: string, p: string) {
    var page := (if secure then "s/" else "") + (h + p);
    var host := Host(lib, u);
    || (HasSuffix(host, ".cdn.ampproject.org") && (u.path == "/c/" + page || u.path == "/v/" + page))
    || ((host == "google.com" || host == "www.google.com") && u.path == "/amp/" + page)
  }

  /** A host as it stands in a cache path, and the path after it. */
  predicate IsPage(lib: Library, secure: bool, h: string, p: string) {
    && h != "" && '/' !in h && '@' !in h && lib.readHost(h) == Some(h) && lib.hostname(h) != ""
    && (p == "" || p[0] == '/') && !(h == "s" && p != "" && !secure)
  }

  /** A cache URL unwraps, without asking the network, to the page it has stored: to its host in lower case, its
      path, no query and no fragment, and by HTTPS exactly if it was stored from there. */
  lemma CacheUnwraps(lib: Library, u: Address, f: Fetched, secure: bool, h: string, p: string)
    requires Lawful(lib) && Caches(lib, u, secure, h, p) && IsPage(lib, secure, h, p)
    requires !lib.blocked(lib.hostname(Lower(lib, h)))
    ensures IsHost(Lower(lib, h)) && IsPath(p)
    ensures AmpResolve(lib, u, f)
            == Gave(Some(Parts(if secure then "https" else "http", None, Lower(lib, h), p, false, "", "")))
  {
    hide Caches, CachedPart, Host, IsAmp, ParsePlain, IsPathChar;
    var rest := h + p;
    var page := (if secure then "s/" else "") + rest;
    CachedPage(lib, u, secure, h, p);
    PageChars(lib, u, secure, h, p);
    PageScheme(lib, secure, h, p);
    assert (if secure then page[2..] else page) == rest;
    PlainPage(lib, if secure then "https" else "http", h, p);
  }

  lemma PageScheme(lib: Library, secure: bool, h: string, p: string)
    requires IsPage(lib, secure, h, p)
    ensures HasPrefix((if secure then "s/" else "") + (h + p), "s/") <==> secure
    ensures h + p != "" && !HasPrefix(h + p, "/")
  {
    var page := h + p;
    assert page[0] == h[0] && h[0] in h && "/"[0] == '/';
    assert ("s/" + page)[..2] == "s/";
    if |h| > 1 {
      assert page[1] == h[1] && h[1] in h && "s/"[1] == '/';
    } else if HasPrefix(page, "s/") {
      assert h == "s" by { assert page[0] == "s/"[0] && h == [h[0]]; }
      assert p == page[1..] && p != "";
    }
  }

  /** The authority ends where the path begins. */
  lemma PlainPage(lib: Library, scheme: string, h: string, p: string)
    requires '/' !in h && '@' !in h && lib.readHost(h) == Some(h) && lib.hostname(h) != "" && (p == "" || p[0] == '/')
    requires forall c | c in h + p :: IsPathChar(c)
    ensures IsHost(h) && IsHost(Lower(lib, h)) && IsPath(p)
    ensures ParsePlain(lib, scheme, h + p) == Some(Parts(scheme, None, Lower(lib, h), p, false, "", ""))
  {
    var cut := CutAt(h + p, '/');
    SplitUnique(cut.0, cut.1, h, p, {'/'});
    assert forall c | c in p :: c in h + p;
  }

  lemma CachedPage(lib: Library, u: Address, secure: bool, h: string, p: string)
    requires Caches(lib, u, secure, h, p)
    ensures CachedPart(lib, u) == Some((if secure then "s/" else "") + (h + p))
  {
    hide Host, IsPathChar, HasPrefix, HasSuffix;
    var page := (if secure then "s/" else "") + (h + p);
    AfterPrefix("/c/", page);
    AfterPrefix("/v/", page);
    AfterPrefix("/amp/", page);
    NoGoogleCache(Host(lib, u));
  }

  lemma PageChars(lib: Library, u: Address, secure: bool, h: string, p: string)
    requires CachedPart(lib, u) == Some((if secure then "s/" else "") + (h + p))
    ensures forall c | c in h + p :: IsPathChar(c)
  {
    hide IsPathChar, Host;
    var page := (if secure then "s/" else "") + (h + p);
    assert forall c | c in h + p :: c in page;
  }

  lemma AfterPrefix(prefix: string, page: string)
    ensures HasPrefix(prefix + page, prefix) && (prefix + page)[|prefix|..] == page
  {}

  lemma NoGoogleCache(host: string)
    ensures HasSuffix(host, ".cdn.ampproject.org") ==> !IsGoogleHost(host)
  {}

  /** Unwrapping an AMP cache URL shortens the path. */
  lemma {:induction false} UnwrappingChanges(lib: Library, u: Address)
    requires IsHttp(lib, u) && UnwrapAmpCache(lib, u).Some? && IsHttp(lib, UnwrapAmpCache(lib, u).value)
    ensures Render(lib, UnwrapAmpCache(lib, u).value) != Render(lib, u)
  {
    var d := UnwrapAmpCache(lib, u).value;
    if Render(lib, d) == Render(lib, u) {
      RenderingTells(lib, d, u);
    }
  }

  /** An AMP URL and one that is not are rendered differently, and so are share links and others. */
  lemma LeavingChanges(lib: Library, u: Address, d: Address)
    requires IsHttp(lib, u) && IsHttp(lib, d)
    requires (IsAmp(lib, u) && !IsAmp(lib, d)) || (IsGoogleShare(lib, u) && !IsGoogleShare(lib, d))
    ensures Render(lib, d) != Render(lib, u)
  {
    if Render(lib, d) == Render(lib, u) {
      RenderingTells(lib, d, u);
    }
  }
}
