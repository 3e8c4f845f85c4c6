/** A library that obeys all the laws asked of one, so that no theorem about lawful libraries is empty: a query codec
    with percent escapes, and a parser that reads back what is rendered. */
module SampleLibrary {
  import opened Tables
  import opened Resolvers
  import opened WebAddress
  import RepostLimits

  // Percent escapes

  function EscapeChar(c: char): string {
    match c
    case '%' => "%25"
    case '&' => "%26"
    case '=' => "%3D"
    case '#' => "%23"
    case _ => [c]
  }

  function Escape(s: string): string {
    if s == "" then "" else EscapeChar(s[0]) + Escape(s[1..])
  }

  function Unescape(t: string): string {
    if t == "" then ""
    else if HasPrefix(t, "%25") then "%" + Unescape(t[3..])
    else if HasPrefix(t, "%26") then "&" + Unescape(t[3..])
    else if HasPrefix(t, "%3D") then "=" + Unescape(t[3..])
    else if HasPrefix(t, "%23") then "#" + Unescape(t[3..])
    else [t[0]] + Unescape(t[1..])
  }

  lemma UnescapeChar(c: char, rest: string)
    ensures Unescape(EscapeChar(c) + rest) == [c] + Unescape(rest)
  {
    var e := EscapeChar(c);
    var t := e + rest;
    assert t[|e|..] == rest && t[0] == e[0] && e <= t;
    assert |e| == 3 ==> t[2] == e[2] && t[1] == e[1];
    assert "%25"[0] == '%' && "%25"[2] == '5' && "%26"[2] == '6' && "%3D"[1] == '3' && "%23"[2] == '3'
           && "%23"[1] == '2';
    assert "%26"[0] == '%' && "%3D"[0] == '%' && "%23"[0] == '%' && "%25"[1] == '2' && "%26"[1] == '2'
           && "%3D"[2] == 'D';
  }

  lemma {:induction false} EscapeRoundTrip(s: string)
    ensures Unescape(Escape(s)) == s
    ensures '&' !in Escape(s) && '=' !in Escape(s) && '#' !in Escape(s)
  {
    if s != "" {
      EscapeRoundTrip(s[1..]);
      UnescapeChar(s[0], Escape(s[1..]));
      assert s == [s[0]] + s[1..];
    }
  }

  // The query codec

  /** One value more for a key, in front. */
  function With(q: Query, k: string, v: string): Query {
    q[k := [v] + if k in q then q[k] else []]
  }

  function Decode(t: string): Query
    decreases |t|
  {
    if t == "" then map[] else
    var cut := CutAt(t, '&');
    var rest := if cut.1 == "" then map[] else Decode(cut.1[1..]);
    if cut.0 == "" then rest else With(rest, Unescape(Name(cut.0)), Unescape(Value(cut.0)))
  }

  lemma CutAtFirst(a: string, c: char, b: string)
    requires c !in a
    ensures CutAt(a + [c] + b, c) == (a, [c] + b)
  {
    var r := CutAt(a + [c] + b, c);
    assert a + [c] + b == a + ([c] + b);
    assert r.1 != "" by { assert c in a + [c] + b; }
    SplitUnique(r.0, r.1, a, [c] + b, {c});
  }

  function Pair(k: string, v: string): string {
    Escape(k) + "=" + Escape(v)
  }

  lemma PairDecoded(k: string, v: string, t: string)
    ensures Decode(Pair(k, v) + "&" + t) == With(Decode(t), k, v)
    ensures '#' !in t ==> '#' !in Pair(k, v) + "&" + t
  {
    EscapeRoundTrip(k);
    EscapeRoundTrip(v);
    CutAtFirst(Pair(k, v), '&', t);
    CutAtFirst(Escape(k), '=', Escape(v));
    assert ("&" + t)[1..] == t;
  }

  ghost predicate Writes(t: string, q: Query) {
    '#' !in t && Decode(t) == q
  }

  /** The values of one key, written before the rest. */
  lemma {:induction false} ValuesWritten(q: Query, k: string, vs: seq<string>, t: string) returns (r: string)
    requires Writes(t, q) && k !in q && vs != []
    ensures Writes(r, q[k := vs])
    decreases |vs|
  {
    hide Decode, Pair;
    if |vs| == 1 {
      r := Pair(k, vs[0]) + "&" + t;
      PairDecoded(k, vs[0], t);
      assert [vs[0]] + [] == vs;
      assert With(q, k, vs[0]) == q[k := vs];
    } else {
      var s := ValuesWritten(q, k, vs[1..], t);
      r := Pair(k, vs[0]) + "&" + s;
      PairDecoded(k, vs[0], s);
      assert [vs[0]] + vs[1..] == vs;
      assert With(q[k := vs[1..]], k, vs[0]) == q[k := vs];
    }
  }

  lemma {:induction false} QueryWritten(q: Query) returns (t: string)
    ensures Writes(t, q)
    decreases |q|
  {
    if q == map[] {
      t := "";
    } else {
      var k := AnyKey(q);
      var rest := q - {k};
      assert |rest.Keys| < |q.Keys| by { assert rest.Keys == q.Keys - {k}; }
      t := QueryWritten(rest);
      t := ValuesWritten(rest, k, q[k], t);
      assert rest[k := q[k]] == q;
    }
  }

  lemma AnyKey(q: Query) returns (k: string)
    requires q != map[]
    ensures k in q
  {
    k :| k in q;
  }

  lemma QueryHasText(q: Query)
    ensures exists t :: Writes(t, q)
  {
    var t := QueryWritten(q);
  }

  ghost function Encode(q: Query): (t: QueryText)
    ensures Decode(t) == q
  {
    QueryHasText(q);
    var t :| Writes(t, q);
    t
  }

  // The library

  /** Everything but the parser. */
  ghost function Reader(parse: string -> Option<Address>): Library {
    Library(parse, c => c, h => h, s => if IsHost(s) then Some(s) else None, h => h, _ => false, s => Decode(s),
            (q: Query) => Encode(q))
  }

  ghost predicate RenderedAs(u: Address, s: string) {
    var lib := Reader(_ => None);
    IsHttp(lib, u) && Render(lib, u) == s
  }

  /** Some address with this rendering, and the share link for its own. */
  ghost function Parse(s: string): (u: Option<Address>)
    ensures u.Some? <==> s == RepostLimits.TARGET || exists v: Address :: RenderedAs(v, s)
    ensures u.Some? ==> RenderedAs(u.value, s)
  {
    assert RenderedAs(RepostLimits.SHARE, RepostLimits.TARGET);
    if s == RepostLimits.TARGET then Some(RepostLimits.SHARE)
    else if exists v: Address :: RenderedAs(v, s) then
      var v: Address :| RenderedAs(v, s);
      Some(v)
    else None
  }

  ghost function Sample(): Library {
    Reader(s => Parse(s))
  }

  lemma SampleIsLawful()
    ensures Lawful(Sample()) && ReadsBack(Sample()) && RepostLimits.Recognizes(Sample())
  {
    var lib := Sample();
    forall h: string ensures Lower(lib, h) == h {
      assert forall i | 0 <= i < |h| :: lib.lowerRune(h[i]) == h[i];
    }
    forall u: Address | IsHttp(lib, u) && lib.parse(Render(lib, u)).Some?
      ensures SamePlace(lib.parse(Render(lib, u)).value, u)
    {
      var v := lib.parse(Render(lib, u)).value;
      assert RenderedAs(v, Render(lib, u));
      RenderingTells(lib, v, u);
    }
  }
}
