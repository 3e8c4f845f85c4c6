/** URLs as Go's net/url holds them after parsing, and the library calls the resolvers make on them. */
module WebAddress {
  import opened Tables

  /** The host is decoded; path, query and fragment are as they are written, the path in escaped form. */
  datatype Parts = Parts(scheme: string, userinfo: Option<string>, host: string, path: string, forceQuery: bool,
                         rawQuery: string, fragment: string)

  /** Where the parser cuts: the host ends before '/', '?' or '#', the path before '?' or '#', the query before '#'. */
  predicate WellFormed(u: Parts) {
    IsHost(u.host) && IsPath(u.path) && '#' !in u.rawQuery
  }

  predicate IsHost(s: string) {
    '/' !in s && '?' !in s && '#' !in s
  }

  /** What EscapedPath leaves unescaped, and the escapes. */
  predicate IsPathChar(c: char) {
    'a' <= c <= 'z' || 'A' <= c <= 'Z' || '0' <= c <= '9' || c in "-._~!$&'()*+,;=:@[]/%"
  }

  predicate IsPath(s: string) {
    (forall c | c in s :: IsPathChar(c)) && (s == "" || s[0] == '/')
  }

  type Address = u: Parts | WellFormed(u) witness Parts("http", None, "h", "", false, "", "")

  type HostText = s: string | IsHost(s)

  /** A decoded query: every key has a value. */
  type Query = q: map<string, seq<string>> | forall k | k in q :: q[k] != []

  /** An encoded query. */
  type QueryText = s: string | '#' !in s

  /** Lower case of one rune: done twice it is done once, it leaves the letters from a to z, and it touches no separator
      and makes none. */
  type CaseFold = f: char -> char | FoldsCase(f) witness c => c

  ghost predicate FoldsCase(f: char -> char) {
    && (forall c {:trigger f(f(c))} :: f(f(c)) == f(c))
    && (forall c :: 'a' <= c <= 'z' ==> f(c) == c)
    && (forall c :: c in {'/', '?', '#', '.'} || f(c) in {'/', '?', '#', '.'} ==> f(c) == c)
  }

  /** How a host is written: no two alike, and none with a separator. */
  type HostEscape = f: string -> string | EscapesHosts(f) witness h => h

  ghost predicate EscapesHosts(f: string -> string) {
    && (forall g, h :: f(g) == f(h) ==> g == h)
    && (forall h :: IsHost(h) ==> IsHost(f(h)))
  }

  /** What is taken from the library: parsing, lower case, how hosts are written and read, the host without its port,
      address ranges that are not public, and the query codec. */
  datatype Library = Library(parse: string -> Option<Address>, lowerRune: CaseFold, escapeHost: HostEscape,
                             readHost: string -> Option<HostText>, hostname: string -> string, blocked: string -> bool,
                             decode: string -> Query, encode: Query -> QueryText)

  /** The laws the resolvers use: the codec round trip, and the port is cut off in the same place in lower case. */
  ghost predicate Lawful(lib: Library) {
    && (forall q: Query :: lib.decode(lib.encode(q)) == q)
    && (forall h: string {:trigger lib.hostname(Lower(lib, h))} ::
         lib.hostname(Lower(lib, h)) == Lower(lib, lib.hostname(h)))
  }

  /** The parser reads back what String writes: a rendering that parses at all has the host, path and query it was made
      from. */
  ghost predicate ReadsBack(lib: Library) {
    forall u: Address {:trigger lib.parse(Render(lib, u))} | IsHttp(lib, u) && lib.parse(Render(lib, u)).Some? ::
      SamePlace(lib.parse(Render(lib, u)).value, u)
  }

  predicate SamePlace(u: Address, v: Address) {
    u.host == v.host && u.path == v.path && u.rawQuery == v.rawQuery
  }

  // Strings

  /** strings.ToLower, rune by rune. */
  function Lower(lib: Library, s: string): (t: string)
    ensures |t| == |s| && forall i | 0 <= i < |s| :: t[i] == lib.lowerRune(s[i])
  {
    seq(|s|, i requires 0 <= i < |s| => lib.lowerRune(s[i]))
  }

  /** Lower case of a host, which is a host again. */
  function LowerHost(lib: Library, s: string): (t: string)
    requires IsHost(s)
    ensures t == Lower(lib, s) && IsHost(t)
  {
    var t := Lower(lib, s);
    assert forall i | 0 <= i < |t| :: s[i] in s && t[i] == lib.lowerRune(s[i]);
    t
  }

  predicate HasPrefix(s: string, p: string) {
    p <= s
  }

  predicate HasSuffix(s: string, p: string) {
    |p| <= |s| && s[|s| - |p|..] == p
  }

  function TrimSuffix(s: string, p: string): string {
    if HasSuffix(s, p) then s[..|s| - |p|] else s
  }

  /** The part of s before the first c, and the part from it on. */
  function CutAt(s: string, c: char): (r: (string, string))
    ensures r.0 + r.1 == s && c !in r.0 && (r.1 == "" || r.1[0] == c)
    ensures forall d :: d in s <==> d in r.0 || d in r.1
  {
    if s == "" || s[0] == c then ("", s)
    else
      var r := CutAt(s[1..], c);
      ([s[0]] + r.0, r.1)
  }

  // Rendering

  function QueryPart(u: Parts): string {
    if u.forceQuery || u.rawQuery != "" then "?" + u.rawQuery else ""
  }

  /** URL.String, for a hierarchical URL. */
  function Render(lib: Library, u: Address): string {
    u.scheme + "://" + (if u.userinfo.Some? then u.userinfo.value + "@" else "")
    + (lib.escapeHost(u.host) + (u.path + (QueryPart(u) + if u.fragment != "" then "#" + u.fragment else "")))
  }

  /** HTTP or HTTPS, a host, no credentials. */
  predicate IsHttp(lib: Library, u: Address) {
    (u.scheme == "http" || u.scheme == "https") && lib.hostname(u.host) != "" && u.userinfo.None?
  }

  /** A text up to the first stop character is determined by the whole. */
  lemma {:induction false} SplitUnique(a: string, s: string, b: string, t: string, stop: set<char>)
    requires a + s == b + t
    requires (forall c | c in a :: c !in stop) && (forall c | c in b :: c !in stop)
    requires (s == "" || s[0] in stop) && (t == "" || t[0] in stop)
    ensures a == b && s == t
  {
    NotShorter(a, s, b, t, stop);
    NotShorter(b, t, a, s, stop);
    assert a == (a + s)[..|a|] && s == (a + s)[|a|..];
  }

  lemma NotShorter(a: string, s: string, b: string, t: string, stop: set<char>)
    requires a + s == b + t
    requires (forall c | c in b :: c !in stop) && (s == "" || s[0] in stop)
    ensures |b| <= |a|
  {
    var x := a + s;
    assert |a| < |x| ==> x[|a|] == s[0];
    assert forall i | 0 <= i < |b| :: x[i] == b[i] && b[i] in b;
  }

  /** Two HTTP addresses with the same rendering are the same but for a '?' before an empty query. */
  lemma RenderingTells(lib: Library, u: Address, v: Address)
    requires IsHttp(lib, u) && IsHttp(lib, v) && Render(lib, u) == Render(lib, v)
    ensures SamePlace(u, v) && u.scheme == v.scheme && u.fragment == v.fragment
    ensures u.(forceQuery := v.forceQuery) == v
  {
    hide IsPathChar;
    var endOf := (w: Address) => if w.fragment != "" then "#" + w.fragment else "";
    var queryOf := (w: Address) => QueryPart(w) + endOf(w);
    var g, h := lib.escapeHost(u.host), lib.escapeHost(v.host);
    assert EscapesHosts(lib.escapeHost);
    SameScheme(u.scheme, g + (u.path + queryOf(u)), v.scheme, h + (v.path + queryOf(v)));
    SplitUnique(g, u.path + queryOf(u), h, v.path + queryOf(v), {'/', '?', '#'});
    PathStops(u.path);
    PathStops(v.path);
    SplitUnique(u.path, queryOf(u), v.path, queryOf(v), {'?', '#'});
    SplitUnique(QueryPart(u), endOf(u), QueryPart(v), endOf(v), {'#'});
    assert QueryPart(u) != "" ==> QueryPart(u)[1..] == u.rawQuery;
    assert QueryPart(v) != "" ==> QueryPart(v)[1..] == v.rawQuery;
    assert endOf(u) != "" ==> endOf(u)[1..] == u.fragment;
    assert endOf(v) != "" ==> endOf(v)[1..] == v.fragment;
  }

  lemma PathStops(s: string)
    requires IsPath(s)
    ensures '?' !in s && '#' !in s
  {
    assert !IsPathChar('?') && !IsPathChar('#');
  }

  lemma SameScheme(a: string, s: string, b: string, t: string)
    requires (a == "http" || a == "https") && (b == "http" || b == "https")
    requires a + "://" + "" + s == b + "://" + "" + t
    ensures a == b && s == t
  {
    var x := a + "://" + "" + s;
    assert x[4] == if a == "http" then ':' else 's';
    assert x[4] == if b == "http" then ':' else 's';
    assert s == x[|a| + 3..] && t == x[|b| + 3..];
  }
}
