/** Editing a text at entity spans. The source converts spans to bytes, sorts them by descending start, compares
    neighbours and splices from right to left; it is proved to be the plain left-to-right splice. */
module SpanEdit {
  import opened Tables
  import opened Utf16Text

  /** A URL found in a message, with its display span. */
  datatype Url = Url(raw: string, target: string, offset: int, length: int, fromText: bool)

  /** unicode.IsSpace. */
  predicate IsSpace(c: char) {
    '\t' <= c <= '\r' || c == ' ' || c == '\U{85}' || c == '\U{a0}' || c == '\U{1680}' || '\U{2000}' <= c <= '\U{200a}'
    || c == '\U{2028}' || c == '\U{2029}' || c == '\U{202f}' || c == '\U{205f}' || c == '\U{3000}'
  }

  predicate Blank(s: string) {
    forall c | c in s :: IsSpace(c)
  }

  // The plain splice

  /** The replacement texts by URL index. */
  type Edits = map<int, string>

  ghost function SpanOf(text: string, u: Url): Option<Span> {
    CharSpan(text, u.offset, u.length)
  }

  ghost predicate StartsAt(text: string, urls: seq<Url>, edits: Edits, pos: nat, i: int) {
    i in edits && 0 <= i < |urls| && SpanOf(text, urls[i]).Some? && SpanOf(text, urls[i]).value.start == pos
  }

  /** Reads the text once from left to right, copies every character outside the spans and puts each replacement
      where its span begins. */
  ghost function LeftToRight(text: string, urls: seq<Url>, edits: Edits, pos: nat): string
    requires pos <= |text|
    decreases |text| - pos
  {
    if pos == |text| then ""
    else if exists i :: StartsAt(text, urls, edits, pos, i) then
      var i :| StartsAt(text, urls, edits, pos, i);
      edits[i] + LeftToRight(text, urls, edits, SpanOf(text, urls[i]).value.end)
    else [text[pos]] + LeftToRight(text, urls, edits, pos + 1)
  }

  predicate Meets(a: Span, b: Span) {
    a.start < b.end && b.start < a.end
  }

  ghost predicate Overlap(text: string, urls: seq<Url>, i: int, j: int) {
    && 0 <= i < |urls| && 0 <= j < |urls|
    && SpanOf(text, urls[i]).Some? && SpanOf(text, urls[j]).Some?
    && Meets(SpanOf(text, urls[i]).value, SpanOf(text, urls[j]).value)
  }

  ghost predicate Disjoint(text: string, urls: seq<Url>, edits: Edits) {
    forall i, j | i in edits && j in edits && i != j :: !Overlap(text, urls, i, j)
  }

  ghost predicate AllValid(text: string, urls: seq<Url>, edits: Edits) {
    forall i | i in edits && 0 <= i < |urls| :: SpanOf(text, urls[i]).Some?
  }

  lemma CharacterCopied(text: string, urls: seq<Url>, edits: Edits, pos: nat)
    requires pos < |text| && forall i :: !StartsAt(text, urls, edits, pos, i)
    ensures LeftToRight(text, urls, edits, pos) == [text[pos]] + LeftToRight(text, urls, edits, pos + 1)
  {
  }

  /** Where no span begins, the text is copied. */
  lemma {:induction false} GapCopied(text: string, urls: seq<Url>, edits: Edits, from: nat, to: nat)
    requires from <= to <= |text|
    requires forall i, pos | from <= pos < to :: !StartsAt(text, urls, edits, pos, i)
    ensures LeftToRight(text, urls, edits, from) == text[from..to] + LeftToRight(text, urls, edits, to)
    decreases |text| - from
  {
    hide LeftToRight;
    if from < to {
      CharacterCopied(text, urls, edits, from);
      GapCopied(text, urls, edits, from + 1, to);
      assert text[from..to] == [text[from]] + text[from + 1..to];
    }
  }

  /** Where a span begins, its replacement stands. */
  lemma PieceReplaced(text: string, urls: seq<Url>, edits: Edits, i: int)
    requires i in edits && 0 <= i < |urls| && SpanOf(text, urls[i]).Some? && Disjoint(text, urls, edits)
    ensures var s := SpanOf(text, urls[i]).value;
            LeftToRight(text, urls, edits, s.start) == edits[i] + LeftToRight(text, urls, edits, s.end)
  {
    var s := SpanOf(text, urls[i]).value;
    assert StartsAt(text, urls, edits, s.start, i);
    assert forall j | StartsAt(text, urls, edits, s.start, j) && j != i :: Overlap(text, urls, i, j);
  }

  // Slicing by bytes

  lemma ByteOrder(s: string, i: nat, j: nat)
    requires i <= |s| && j <= |s|
    ensures Bytes(s[..i]) <= Bytes(s[..j]) <==> i <= j
  {
    if i < j {
      OffsetsIncrease(s, i, j);
    } else if j < i {
      OffsetsIncrease(s, j, i);
    }
  }

  /** The character that begins at byte b. */
  function CharIndex(s: string, b: int, k: nat := 0): (i: nat)
    requires k <= |s|
    ensures k <= i <= |s|
    ensures Bytes(s[..i]) == b || (i == |s| && forall j | k <= j <= |s| :: Bytes(s[..j]) != b)
    decreases |s| - k
  {
    if Bytes(s[..k]) == b || k == |s| then k else CharIndex(s, b, k + 1)
  }

  lemma CharIndexOf(s: string, i: nat)
    requires i <= |s|
    ensures CharIndex(s, Bytes(s[..i])) == i
  {
    var k := CharIndex(s, Bytes(s[..i]));
    ByteOrder(s, i, k);
    ByteOrder(s, k, i);
  }

  /** A byte offset into a prefix is the same in every text that continues it. */
  lemma SharedPrefix(s: string, t: string, k: nat, i: nat)
    requires i <= k <= |s| && k <= |t| && s[..k] == t[..k]
    ensures CharIndex(t, Bytes(s[..i])) == i
  {
    assert s[..i] == s[..k][..i] == t[..k][..i] == t[..i];
    CharIndexOf(t, i);
  }

  // The source's way

  /** A replacement at bytes start to end, for the URL at index. */
  datatype Piece = Piece(start: nat, end: nat, value: string, index: int)

  ghost predicate PieceFor(text: string, urls: seq<Url>, edits: Edits, p: Piece) {
    && p.index in edits && 0 <= p.index < |urls| && p.value == edits[p.index]
    && SpanOf(text, urls[p.index]).Some?
    && Span(p.start, p.end) == ByteSpan(text, SpanOf(text, urls[p.index]).value)
  }

  /** One piece for every edit. */
  ghost predicate PiecesFor(text: string, urls: seq<Url>, edits: Edits, ps: seq<Piece>) {
    && (forall a | 0 <= a < |ps| :: PieceFor(text, urls, edits, ps[a]))
    && Distinct(ps)
    && (forall i | i in edits :: HasPiece(ps, i))
  }

  predicate HasPiece(ps: seq<Piece>, i: int) {
    exists a | 0 <= a < |ps| :: ps[a].index == i
  }

  /** The characters of the k-th piece. */
  ghost function CharsOf(text: string, urls: seq<Url>, edits: Edits, ps: seq<Piece>, k: nat): (s: Span)
    requires k < |ps| && PieceFor(text, urls, edits, ps[k])
    ensures s.start < s.end <= |text| && ps[k].start == Bytes(text[..s.start]) && ps[k].end == Bytes(text[..s.end])
  {
    SpanOf(text, urls[ps[k].index]).value
  }

  predicate Distinct(ps: seq<Piece>) {
    forall a, b | 0 <= a < b < |ps| :: ps[a].index != ps[b].index
  }

  predicate Descending(ps: seq<Piece>) {
    forall a, b | 0 <= a < b < |ps| :: ps[a].start >= ps[b].start
  }

  /** sort.Slice by descending start. */
  method SortDescending(ps: seq<Piece>) returns (sorted: seq<Piece>)
    requires Distinct(ps)
    ensures Descending(sorted) && Distinct(sorted)
    ensures forall p :: p in sorted <==> p in ps
  {
    sorted := [];
    for k := 0 to |ps|
      invariant Descending(sorted) && Distinct(sorted)
      invariant forall p :: p in sorted <==> p in ps[..k]
    {
      assert forall p | p in ps[..k] :: p.index != ps[k].index;
      sorted := InsertDescending(sorted, ps[k]);
      assert ps[..k + 1] == ps[..k] + [ps[k]];
    }
    assert ps[..|ps|] == ps;
  }

  method InsertDescending(ps: seq<Piece>, p: Piece) returns (sorted: seq<Piece>)
    requires Descending(ps) && Distinct(ps) && forall q | q in ps :: q.index != p.index
    ensures Descending(sorted) && Distinct(sorted)
    ensures forall q :: q in sorted <==> q == p || q in ps
  {
    var at := 0;
    while at < |ps| && ps[at].start >= p.start
      invariant at <= |ps| && forall a | 0 <= a < at :: ps[a].start >= p.start
    {
      at := at + 1;
    }
    sorted := ps[..at] + [p] + ps[at..];
    InsertedAt(ps, p, at, sorted);
    InsertKeepsOrder(ps, p, at, sorted);
  }

  lemma InsertKeepsOrder(ps: seq<Piece>, p: Piece, at: nat, sorted: seq<Piece>)
    requires Descending(ps) && Distinct(ps) && forall a | 0 <= a < |ps| :: ps[a].index != p.index
    requires at <= |ps| && sorted == ps[..at] + [p] + ps[at..]
    requires forall a | 0 <= a < at :: ps[a].start >= p.start
    requires at < |ps| ==> ps[at].start < p.start
    ensures Descending(sorted) && Distinct(sorted)
  {
    forall a, b | 0 <= a < b < |sorted|
      ensures sorted[a].start >= sorted[b].start && sorted[a].index != sorted[b].index
    {
      if a == at {
        assert sorted[b] == ps[b - 1] && ps[at].start >= ps[b - 1].start;
      } else if b == at {
        assert sorted[a] == ps[a];
      } else {
        var x, y := if a < at then a else a - 1, if b < at then b else b - 1;
        assert sorted[a] == ps[x] && sorted[b] == ps[y] && x < y;
      }
    }
  }

  lemma InsertedAt(ps: seq<Piece>, p: Piece, at: nat, sorted: seq<Piece>)
    requires at <= |ps| && sorted == ps[..at] + [p] + ps[at..]
    ensures |sorted| == |ps| + 1
    ensures forall a | 0 <= a < |sorted| :: sorted[a] == if a < at then ps[a] else if a == at then p else ps[a - 1]
    ensures forall q :: q in sorted <==> q == p || q in ps
  {
    assert ps == ps[..at] + ps[at..];
    forall q ensures q in sorted <==> q == p || q in ps {
      assert q in sorted <==> q in ps[..at] || q == p || q in ps[at..];
      assert q in ps <==> q in ps[..at] || q in ps[at..];
    }
  }

  lemma SortedPieces(text: string, urls: seq<Url>, edits: Edits, ps: seq<Piece>, sorted: seq<Piece>)
    requires PiecesFor(text, urls, edits, ps) && Distinct(sorted)
    requires forall p :: p in sorted <==> p in ps
    ensures PiecesFor(text, urls, edits, sorted)
  {
    forall i | i in edits ensures HasPiece(sorted, i) {
      var a :| 0 <= a < |ps| && ps[a].index == i;
      assert ps[a] in ps;
    }
    forall a | 0 <= a < |sorted| ensures PieceFor(text, urls, edits, sorted[a]) {
      assert sorted[a] in sorted;
    }
  }

  /** Two pieces, the later one first, do not overlap. */
  predicate Separated(ps: seq<Piece>) {
    forall a | 0 < a < |ps| :: ps[a].end <= ps[a - 1].start
  }

  /** Comparing neighbours is enough. */
  lemma {:induction false} SeparatedPairs(text: string, urls: seq<Url>, edits: Edits, ps: seq<Piece>, a: nat, b: nat)
    requires PiecesFor(text, urls, edits, ps) && Separated(ps) && a < b < |ps|
    ensures ps[b].end <= ps[a].start
  {
    hide Denotes, Bytes, CharSpan, SpanOf;
    if a < b - 1 {
      SeparatedPairs(text, urls, edits, ps, a, b - 1);
      var s := CharsOf(text, urls, edits, ps, b - 1);
      ByteOrder(text, s.start, s.end);
    }
  }

  /** Spans overlap in characters exactly when they do in bytes. */
  lemma OverlapInBytes(text: string, urls: seq<Url>, edits: Edits, p: Piece, q: Piece)
    requires PieceFor(text, urls, edits, p) && PieceFor(text, urls, edits, q)
    ensures Overlap(text, urls, p.index, q.index) <==> p.start < q.end && q.start < p.end
    ensures p.start < p.end
  {
    var s, r := SpanOf(text, urls[p.index]).value, SpanOf(text, urls[q.index]).value;
    ByteOrder(text, r.end, s.start);
    ByteOrder(text, s.end, r.start);
    ByteOrder(text, s.end, s.start);
  }

  lemma SeparatedIsDisjoint(text: string, urls: seq<Url>, edits: Edits, ps: seq<Piece>)
    requires PiecesFor(text, urls, edits, ps) && Separated(ps)
    ensures Disjoint(text, urls, edits)
  {
    forall i, j | i in edits && j in edits && i != j ensures !Overlap(text, urls, i, j) {
      assert HasPiece(ps, i) && HasPiece(ps, j);
      var a :| 0 <= a < |ps| && ps[a].index == i;
      var b :| 0 <= b < |ps| && ps[b].index == j;
      OverlapInBytes(text, urls, edits, ps[a], ps[b]);
      if a < b {
        SeparatedPairs(text, urls, edits, ps, a, b);
      } else {
        SeparatedPairs(text, urls, edits, ps, b, a);
      }
    }
  }

  /** The right-to-left splice over byte offsets. */
  method SpliceDescending(text: string, ps: seq<Piece>, ghost urls: seq<Url>, ghost edits: Edits)
    returns (result: string)
    requires PiecesFor(text, urls, edits, ps) && Separated(ps)
    ensures result == LeftToRight(text, urls, edits, 0)
  {
    SeparatedIsDisjoint(text, urls, edits, ps);
    result := text;
    ghost var at := |text|;
    for k := 0 to |ps|
      invariant at == SplicedFrom(text, urls, edits, ps, k)
      invariant result == text[..at] + LeftToRight(text, urls, edits, at)
    {
      ghost var s := CharsOf(text, urls, edits, ps, k);
      SpliceStep(text, urls, edits, ps, k);
      SharedPrefix(text, result, at, s.start);
      SharedPrefix(text, result, at, s.end);
      SplicedOnce(text, result, LeftToRight(text, urls, edits, at), at, s, ps[k].value);
      result := result[..CharIndex(result, ps[k].start)] + ps[k].value + result[CharIndex(result, ps[k].end)..];
      at := s.start;
    }
    NoneBetween(text, urls, edits, ps, |ps|, 0, at);
    GapCopied(text, urls, edits, 0, at);
    assert text[0..at] == text[..at];
  }

  /** The character the first k pieces begin at. */
  ghost function SplicedFrom(text: string, urls: seq<Url>, edits: Edits, ps: seq<Piece>, k: nat): (at: nat)
    requires PiecesFor(text, urls, edits, ps) && k <= |ps|
    ensures at <= |text|
  {
    if k == 0 then |text| else CharsOf(text, urls, edits, ps, k - 1).start
  }

  lemma SplicedOnce(text: string, result: string, rest: string, at: nat, s: Span, value: string)
    requires s.start <= s.end <= at <= |text| && result == text[..at] + rest
    ensures result[..s.start] + value + result[s.end..] == text[..s.start] + (value + text[s.end..at] + rest)
  {
    assert result[..s.start] == text[..s.start];
    assert result[s.end..] == text[s.end..at] + rest;
  }

  /** What the splice of the k-th piece amounts to. */
  lemma SpliceStep(text: string, urls: seq<Url>, edits: Edits, ps: seq<Piece>, k: nat)
    requires PiecesFor(text, urls, edits, ps) && Separated(ps) && Disjoint(text, urls, edits) && k < |ps|
    ensures var s, at := CharsOf(text, urls, edits, ps, k), SplicedFrom(text, urls, edits, ps, k);
            && s.end <= at
            && LeftToRight(text, urls, edits, s.start)
               == ps[k].value + text[s.end..at] + LeftToRight(text, urls, edits, at)
  {
    var s, at := CharsOf(text, urls, edits, ps, k), SplicedFrom(text, urls, edits, ps, k);
    ByteOrder(text, s.end, at);
    NoneBetween(text, urls, edits, ps, k, s.end, at);
    GapCopied(text, urls, edits, s.end, at);
    PieceReplaced(text, urls, edits, ps[k].index);
  }

  /** Between the end of one piece and the start of the one spliced before it, no span begins. */
  lemma NoneBetween(text: string, urls: seq<Url>, edits: Edits, ps: seq<Piece>, k: nat, from: nat, to: nat)
    requires PiecesFor(text, urls, edits, ps) && Separated(ps) && k <= |ps| && from <= |text|
    requires k < |ps| ==> from == CharsOf(text, urls, edits, ps, k).end
    requires to == SplicedFrom(text, urls, edits, ps, k)
    ensures forall i, pos | from <= pos < to :: !StartsAt(text, urls, edits, pos, i)
  {
    forall i, pos | from <= pos < to ensures !StartsAt(text, urls, edits, pos, i) {
      if StartsAt(text, urls, edits, pos, i) {
        assert HasPiece(ps, i);
        var a :| 0 <= a < |ps| && ps[a].index == i;
        if a < k {
          NotBefore(text, urls, edits, ps, k, a);
        } else {
          NotAfter(text, urls, edits, ps, k, a);
        }
      }
    }
  }

  lemma NotBefore(text: string, urls: seq<Url>, edits: Edits, ps: seq<Piece>, k: nat, a: nat)
    requires PiecesFor(text, urls, edits, ps) && Separated(ps) && a < k <= |ps|
    ensures SplicedFrom(text, urls, edits, ps, k) <= CharsOf(text, urls, edits, ps, a).start
  {
    hide Denotes, Bytes, CharSpan, SpanOf;
    var s, r := CharsOf(text, urls, edits, ps, k - 1), CharsOf(text, urls, edits, ps, a);
    if a < k - 1 {
      SeparatedPairs(text, urls, edits, ps, a, k - 1);
      ByteOrder(text, s.end, r.start);
    }
  }

  lemma NotAfter(text: string, urls: seq<Url>, edits: Edits, ps: seq<Piece>, k: nat, a: nat)
    requires PiecesFor(text, urls, edits, ps) && Separated(ps) && k <= a < |ps|
    ensures CharsOf(text, urls, edits, ps, a).start < CharsOf(text, urls, edits, ps, k).end
  {
    var s, r := CharsOf(text, urls, edits, ps, k), CharsOf(text, urls, edits, ps, a);
    if k < a {
      SeparatedPairs(text, urls, edits, ps, k, a);
      ByteOrder(text, r.end, s.start);
    }
  }

  // Trimming

  function TrimLeft(s: string): string {
    if s != "" && IsSpace(s[0]) then TrimLeft(s[1..]) else s
  }

  function TrimRight(s: string): string {
    if s != "" && IsSpace(s[|s| - 1]) then TrimRight(s[..|s| - 1]) else s
  }

  /** strings.TrimSpace. */
  function TrimSpace(s: string): string {
    TrimRight(TrimLeft(s))
  }

  lemma {:induction false} TrimLeftBlank(s: string)
    ensures TrimLeft(s) == "" <==> Blank(s)
    ensures TrimLeft(s) != "" ==> !IsSpace(TrimLeft(s)[0])
  {
    if s != "" && IsSpace(s[0]) {
      TrimLeftBlank(s[1..]);
      assert s == [s[0]] + s[1..];
    } else if s != "" {
      assert s[0] in s;
    }
  }

  lemma {:induction false} TrimRightKeepsHead(s: string)
    requires s != "" && !IsSpace(s[0])
    ensures TrimRight(s) != ""
  {
    if |s| > 1 && IsSpace(s[|s| - 1]) {
      TrimRightKeepsHead(s[..|s| - 1]);
    }
  }

  lemma TrimSpaceBlank(s: string)
    ensures TrimSpace(s) == "" <==> Blank(s)
  {
    TrimLeftBlank(s);
    if TrimLeft(s) != "" {
      TrimRightKeepsHead(TrimLeft(s));
    }
  }

  lemma {:induction false} TrimRightEnds(s: string)
    ensures TrimRight(s) <= s
    ensures TrimRight(s) != "" ==> !IsSpace(TrimRight(s)[|TrimRight(s)| - 1])
  {
    if s != "" && IsSpace(s[|s| - 1]) {
      TrimRightEnds(s[..|s| - 1]);
    }
  }

  /** What TrimSpace leaves, and what it leaves alone: a text with no space at either end. */
  predicate Trimmed(s: string) {
    s != "" ==> !IsSpace(s[0]) && !IsSpace(s[|s| - 1])
  }

  lemma TrimSpaceTrims(s: string)
    ensures Trimmed(TrimSpace(s))
    ensures Trimmed(s) ==> TrimSpace(s) == s
  {
    TrimLeftBlank(s);
    TrimRightEnds(TrimLeft(s));
  }

  // ReplaceURLSpans

  /** The destinations that are used: of a URL that exists, and not blank. */
  function Effective(urls: seq<Url>, destinations: map<int, string>): Edits {
    map i | i in destinations && 0 <= i < |urls| && !Blank(destinations[i]) :: destinations[i]
  }

  /** Visits the destinations in any order, as Go visits a map. It fails exactly when a used span is invalid or two used
      spans overlap, and otherwise gives the left-to-right splice: the order does not matter. */
  method ReplaceURLSpans(text: string, urls: seq<Url>, destinations: map<int, string>) returns (r: Option<string>)
    ensures var used := Effective(urls, destinations);
            && (r.Some? <==> AllValid(text, urls, used) && Disjoint(text, urls, used))
            && (r.Some? ==> r.value == LeftToRight(text, urls, used, 0))
  {
    ghost var used := Effective(urls, destinations);
    var ps := Replacements(text, urls, destinations);
    if ps.None? {
      return None;
    }
    PiecesValid(text, urls, used, ps.value);
    var sorted := SortDescending(ps.value);
    SortedPieces(text, urls, used, ps.value, sorted);
    for k := 0 to |sorted|
      invariant forall a | 0 < a < k :: sorted[a].end <= sorted[a - 1].start
    {
      if k > 0 && sorted[k].end > sorted[k - 1].start {
        OverlapInBytes(text, urls, used, sorted[k], sorted[k - 1]);
        OverlapInBytes(text, urls, used, sorted[k - 1], sorted[k]);
        return None;
      }
    }
    SeparatedIsDisjoint(text, urls, used, sorted);
    var result := SpliceDescending(text, sorted, urls, used);
    r := Some(result);
  }

  /** The used destinations with their bytes; none if a used span is invalid. */
  method Replacements(text: string, urls: seq<Url>, destinations: map<int, string>) returns (r: Option<seq<Piece>>)
    ensures r.None? ==> !AllValid(text, urls, Effective(urls, destinations))
    ensures r.Some? ==> PiecesFor(text, urls, Effective(urls, destinations), r.value)
  {
    ghost var used := Effective(urls, destinations);
    var ps := [];
    var rest := destinations.Keys;
    while rest != {}
      invariant rest <= destinations.Keys
      invariant forall a | 0 <= a < |ps| :: PieceFor(text, urls, used, ps[a]) && ps[a].index !in rest
      invariant Distinct(ps)
      invariant forall i | i in used && i !in rest :: HasPiece(ps, i)
      decreases rest
    {
      var i := Pick(rest);
      rest := rest - {i};
      TrimSpaceBlank(destinations[i]);
      if i < 0 || i >= |urls| || TrimSpace(destinations[i]) == "" {
        continue;
      }
      var start, end, ok := Utf16Span(text, urls[i].offset, urls[i].length);
      if !ok || start > end {
        assert i in used;
        return None;
      }
      ghost var before := ps;
      ps := ps + [Piece(start, end, destinations[i], i)];
      AddsPiece(before, ps, i);
    }
    r := Some(ps);
  }

  /** Any element, as the map's iteration picks it. */
  method Pick<T>(s: set<T>) returns (i: T)
    requires s != {}
    ensures i in s
  {
    i :| i in s;
  }

  lemma AddsPiece(before: seq<Piece>, ps: seq<Piece>, i: int)
    requires |ps| == |before| + 1 && ps[..|before|] == before && ps[|before|].index == i
    ensures HasPiece(ps, i) && forall j | HasPiece(before, j) :: HasPiece(ps, j)
  {
    forall j | HasPiece(before, j) ensures HasPiece(ps, j) {
      var a :| 0 <= a < |before| && before[a].index == j;
      assert ps[a] == before[a];
    }
  }

  lemma PiecesValid(text: string, urls: seq<Url>, edits: Edits, ps: seq<Piece>)
    requires PiecesFor(text, urls, edits, ps)
    ensures AllValid(text, urls, edits)
  {
    forall i | i in edits && 0 <= i < |urls| ensures SpanOf(text, urls[i]).Some? {
      assert HasPiece(ps, i);
    }
  }
}
