/** The text a fingerprint is taken of: the message with every URL in its normal form, whatever its spelling. The digest
    itself is not modelled; facts are about the string before hashing. */
module Fingerprint {
  import opened Utf16Text
  import opened SpanEdit
  import opened Message

  // Normalized text

  /** The substitutions: the normal form of every URL whose raw spelling is not blank and whose span the text has. */
  ghost function NormalEdits(lib: Library, text: string, urls: seq<Url>): Edits {
    map i | 0 <= i < |urls| && !Blank(urls[i].raw) && SpanOf(text, urls[i]).Some? :: lib.normalizeUrl(urls[i].target)
  }

  ghost function Restricted(edits: Edits, kept: set<int>): Edits {
    map i | i in edits && i in kept :: edits[i]
  }

  /** No span left out could be added: each overlaps a kept one. */
  ghost predicate Maximal(text: string, urls: seq<Url>, edits: Edits, kept: set<int>) {
    forall i | i in edits && i !in kept :: exists j | j in kept :: j in edits && Overlap(text, urls, i, j)
  }

  /** What normalizedText promises: substitute a maximal set of spans that do not overlap, trim, apply NFKC. */
  ghost predicate Normalizes(lib: Library, text: string, urls: seq<Url>, kept: set<int>, r: string) {
    var edits := NormalEdits(lib, text, urls);
    if text == "" then r == "" else
      && Disjoint(text, urls, Restricted(edits, kept)) && Maximal(text, urls, edits, kept)
      && r == lib.nfkc(TrimSpace(LeftToRight(text, urls, Restricted(edits, kept), 0)))
  }

  /** With spans that do not overlap, every URL is substituted. */
  lemma DisjointNormalizes(lib: Library, text: string, urls: seq<Url>, kept: set<int>, r: string)
    requires text != "" && Normalizes(lib, text, urls, kept, r)
    requires Disjoint(text, urls, NormalEdits(lib, text, urls))
    ensures r == lib.nfkc(TrimSpace(LeftToRight(text, urls, NormalEdits(lib, text, urls), 0)))
  {
    var edits := NormalEdits(lib, text, urls);
    assert forall i | i in edits :: i in kept;
    assert Restricted(edits, kept) == edits;
  }

  /** For valid disjoint spans this is ReplaceURLSpans with the normal forms as destinations, then trim and NFKC. */
  lemma {:induction false} NormalizesAsReplacement(lib: Library, text: string, urls: seq<Url>, kept: set<int>,
                                                   r: string)
    requires text != "" && Normalizes(lib, text, urls, kept, r)
    requires forall i | 0 <= i < |urls| ::
               !Blank(urls[i].raw) && SpanOf(text, urls[i]).Some? && !Blank(lib.normalizeUrl(urls[i].target))
    ensures var used := Effective(urls, map i | 0 <= i < |urls| :: lib.normalizeUrl(urls[i].target));
            Disjoint(text, urls, used) ==> r == lib.nfkc(TrimSpace(LeftToRight(text, urls, used, 0)))
  {
    var used := Effective(urls, map i | 0 <= i < |urls| :: lib.normalizeUrl(urls[i].target));
    assert used == NormalEdits(lib, text, urls);
    if Disjoint(text, urls, used) {
      DisjointNormalizes(lib, text, urls, kept, r);
    }
  }

  lemma NothingReplaced(text: string, urls: seq<Url>, edits: Edits)
    requires edits == map[]
    ensures LeftToRight(text, urls, edits, 0) == text
  {
    GapCopied(text, urls, edits, 0, |text|);
    assert text[0..|text|] == text;
  }

  method NormalizedText(lib: Library, text: string, urls: seq<Url>) returns (r: string, ghost kept: set<int>)
    ensures Normalizes(lib, text, urls, kept, r)
    ensures text == "" ==> r == ""
    ensures text != "" && Disjoint(text, urls, NormalEdits(lib, text, urls)) ==>
              r == lib.nfkc(TrimSpace(LeftToRight(text, urls, NormalEdits(lib, text, urls), 0)))
  {
    kept := {};
    if text == "" {
      return "", kept;
    }
    ghost var edits := NormalEdits(lib, text, urls);
    var ps := Substitutions(lib, text, urls);
    if |ps| == 0 {
      assert forall i | i in edits :: HasPiece(ps, i);
      assert Restricted(edits, kept) == map[];
      NothingReplaced(text, urls, Restricted(edits, kept));
      r := lib.nfkc(TrimSpace(text));
      return;
    }
    var sorted := SortDescending(ps);
    SortedPieces(text, urls, edits, ps, sorted);
    assert ps[0] in sorted;
    var chosen;
    chosen, kept := KeepSeparated(text, sorted, urls, edits);
    SeparatedIsDisjoint(text, urls, Restricted(edits, kept), chosen);
    var result := SpliceDescending(text, chosen, urls, Restricted(edits, kept));
    r := lib.nfkc(TrimSpace(result));
    if Disjoint(text, urls, edits) {
      DisjointNormalizes(lib, text, urls, kept, r);
    }
  }

  method Substitutions(lib: Library, text: string, urls: seq<Url>) returns (ps: seq<Piece>)
    ensures PiecesFor(text, urls, NormalEdits(lib, text, urls), ps)
  {
    hide HasPiece, Bytes, Denotes;
    ghost var edits := NormalEdits(lib, text, urls);
    ps := [];
    for k := 0 to |urls|
      invariant forall a | 0 <= a < |ps| :: PieceFor(text, urls, edits, ps[a]) && ps[a].index < k
      invariant Distinct(ps)
      invariant forall i | i in edits && i < k :: HasPiece(ps, i)
    {
      TrimSpaceBlank(urls[k].raw);
      if TrimSpace(urls[k].raw) == "" {
        continue;
      }
      var start, end, ok := Utf16Span(text, urls[k].offset, urls[k].length);
      if !ok {
        continue;
      }
      ghost var before := ps;
      ps := ps + [Piece(start, end, lib.normalizeUrl(urls[k].target), k)];
      AddsPiece(before, ps, k);
    }
  }

  /** Goes through the spans from the right and drops those that reach into the last one kept. */
  method KeepSeparated(text: string, ps: seq<Piece>, ghost urls: seq<Url>, ghost edits: Edits)
    returns (chosen: seq<Piece>, ghost kept: set<int>)
    requires PiecesFor(text, urls, edits, ps) && Descending(ps) && |ps| > 0
    ensures PiecesFor(text, urls, Restricted(edits, kept), chosen) && Separated(chosen)
    ensures Maximal(text, urls, edits, kept)
  {
    chosen, kept := [ps[0]], {ps[0].index};
    KeptOneMore([], chosen, {}, kept);
    for k := 1 to |ps|
      invariant Chosen(text, urls, edits, ps, k, chosen, kept)
    {
      if ps[k].end > chosen[|chosen| - 1].start {
        DropOne(text, urls, edits, ps, k, chosen, kept);
        continue;
      }
      KeepOne(text, urls, edits, ps, k, chosen, kept);
      chosen, kept := chosen + [ps[k]], kept + {ps[k].index};
    }
    RestrictedPieces(text, urls, edits, chosen, kept);
    forall i | i in edits && i !in kept ensures Dropped(text, urls, edits, kept, i) {
      assert HasPiece(ps, i);
    }
  }

  ghost predicate Dropped(text: string, urls: seq<Url>, edits: Edits, kept: set<int>, i: int) {
    exists j | j in kept :: j in edits && Overlap(text, urls, i, j)
  }

  /** Of the first k pieces some are chosen, and the others overlap a chosen one. */
  ghost predicate Chosen(text: string, urls: seq<Url>, edits: Edits, ps: seq<Piece>, k: nat, chosen: seq<Piece>,
                         kept: set<int>)
    requires k <= |ps|
  {
    && |chosen| > 0 && Separated(chosen) && Distinct(chosen)
    && (forall a | 0 <= a < |chosen| :: PieceFor(text, urls, edits, chosen[a]) && Among(ps, k, chosen[a]))
    && (forall i :: i in kept <==> HasPiece(chosen, i))
    && (forall b | 0 <= b < k && ps[b].index !in kept :: Dropped(text, urls, edits, kept, ps[b].index))
  }

  predicate Among(ps: seq<Piece>, k: nat, p: Piece)
    requires k <= |ps|
  {
    exists b | 0 <= b < k :: ps[b] == p
  }

  lemma DropOne(text: string, urls: seq<Url>, edits: Edits, ps: seq<Piece>, k: nat, chosen: seq<Piece>, kept: set<int>)
    requires PiecesFor(text, urls, edits, ps) && Descending(ps) && k < |ps|
             && Chosen(text, urls, edits, ps, k, chosen, kept)
    requires ps[k].end > chosen[|chosen| - 1].start
    ensures Chosen(text, urls, edits, ps, k + 1, chosen, kept)
  {
    hide Overlap, PieceFor;
    var last := chosen[|chosen| - 1];
    assert Among(ps, k, last);
    OverlapInBytes(text, urls, edits, ps[k], last);
    OverlapInBytes(text, urls, edits, last, ps[k]);
    assert HasPiece(chosen, last.index);
    assert PieceFor(text, urls, edits, last);
    InEdits(text, urls, edits, last);
    assert Dropped(text, urls, edits, kept, ps[k].index);
    assert forall p | Among(ps, k, p) :: Among(ps, k + 1, p);
  }

  lemma InEdits(text: string, urls: seq<Url>, edits: Edits, p: Piece)
    requires PieceFor(text, urls, edits, p)
    ensures p.index in edits
  {
  }

  lemma KeepOne(text: string, urls: seq<Url>, edits: Edits, ps: seq<Piece>, k: nat, chosen: seq<Piece>, kept: set<int>)
    requires PiecesFor(text, urls, edits, ps) && Descending(ps) && k < |ps|
             && Chosen(text, urls, edits, ps, k, chosen, kept)
    requires ps[k].end <= chosen[|chosen| - 1].start
    ensures Chosen(text, urls, edits, ps, k + 1, chosen + [ps[k]], kept + {ps[k].index})
  {
    hide Overlap, PieceFor, HasPiece, Disjoint;
    var more, now := chosen + [ps[k]], kept + {ps[k].index};
    assert forall p | Among(ps, k, p) :: Among(ps, k + 1, p) && p.index != ps[k].index;
    assert Among(ps, k + 1, ps[k]);
    KeptOneMore(chosen, more, kept, now);
    forall b | 0 <= b < k + 1 && ps[b].index !in now ensures Dropped(text, urls, edits, now, ps[b].index) {
      var j :| j in kept && j in edits && Overlap(text, urls, ps[b].index, j);
      assert j in now;
    }
  }

  lemma KeptOneMore(before: seq<Piece>, chosen: seq<Piece>, was: set<int>, kept: set<int>)
    requires |chosen| == |before| + 1 && chosen[..|before|] == before && kept == was + {chosen[|before|].index}
    requires forall i :: i in was <==> HasPiece(before, i)
    ensures forall i :: i in kept <==> HasPiece(chosen, i)
  {
    AddsPiece(before, chosen, chosen[|before|].index);
    forall i | HasPiece(chosen, i) ensures i in kept {
      var a :| 0 <= a < |chosen| && chosen[a].index == i;
      assert a < |before| ==> before[a] == chosen[a];
    }
  }

  lemma RestrictedPieces(text: string, urls: seq<Url>, edits: Edits, chosen: seq<Piece>, kept: set<int>)
    requires forall a | 0 <= a < |chosen| :: PieceFor(text, urls, edits, chosen[a])
    requires Distinct(chosen) && forall i :: i in kept <==> HasPiece(chosen, i)
    ensures PiecesFor(text, urls, Restricted(edits, kept), chosen)
  {
    assert forall a | 0 <= a < |chosen| :: HasPiece(chosen, chosen[a].index);
  }

  // The string before hashing

  function UrlLines(lib: Library, urls: seq<Url>): string {
    if urls == [] then ""
    else UrlLines(lib, urls[..|urls| - 1]) + "url=" + lib.normalizeUrl(urls[|urls| - 1].target) + "\n"
  }

  function PreHash(lib: Library, m: Input, rule: string, text: string, caption: string, urls: seq<Url>): string {
    "rule=" + rule + "\ntext=" + text + "\ncaption=" + caption + "\nmedia=" + m.mediaKind + "\nmedia_id="
      + m.mediaUniqueId
    + "\nmedia_group=" + m.mediaGroupId + "\n" + UrlLines(lib, urls)
  }

  /** A string that fingerprinting may hash. It is unique for spans that do not overlap. */
  ghost predicate FingerprintOf(lib: Library, m: Input, rule: string, pre: string) {
    exists text, caption, inText, inCaption :: Assembled(lib, m, rule, pre, text, caption, inText, inCaption)
  }

  /** The text and the caption are normalized with the same URLs, and put together. */
  ghost predicate Assembled(lib: Library, m: Input, rule: string, pre: string, text: string, caption: string,
                            inText: set<int>, inCaption: set<int>) {
    && Normalizes(lib, m.text, Urls(lib, m), inText, text)
    && Normalizes(lib, m.caption, Urls(lib, m), inCaption, caption)
    && pre == PreHash(lib, m, rule, text, caption, Urls(lib, m))
  }

  method Fingerprint(lib: Library, m: Input, rule: string) returns (pre: string)
    ensures FingerprintOf(lib, m, rule, pre)
  {
    hide Normalizes, LeftToRight, NormalEdits, UrlsOf, Disjoint;
    var urls := ExtractURLs(lib, m);
    var text, inText := NormalizedText(lib, m.text, urls);
    var caption, inCaption := NormalizedText(lib, m.caption, urls);
    var lines := "";
    for k := 0 to |urls|
      invariant lines == UrlLines(lib, urls[..k])
    {
      assert urls[..k + 1][..k] == urls[..k];
      lines := lines + "url=" + lib.normalizeUrl(urls[k].target) + "\n";
    }
    assert urls[..|urls|] == urls;
    pre := "rule=" + rule + "\ntext=" + text + "\ncaption=" + caption + "\nmedia=" + m.mediaKind + "\nmedia_id="
           + m.mediaUniqueId + "\nmedia_group=" + m.mediaGroupId + "\n" + lines;
    assert Assembled(lib, m, rule, pre, text, caption, inText, inCaption);
  }
}
