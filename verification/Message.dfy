/** Reading a message: the URLs in it, whether it is nothing but links, and the text its fingerprint is taken of. */
module Message {
  import opened Tables
  import opened Utf16Text
  import opened SpanEdit

  datatype EntityKind = UrlEntity | TextLink | OtherEntity

  datatype Entity = Entity(kind: EntityKind, offset: int, length: int, url: string)

  /** The parts of a message that policy reads. Telegram gives a message a text or a caption, not both. */
  datatype Input = Input(chat: int, thread: int, message: int, sender: int, senderName: string,
                         text: string, entities: seq<Entity>, caption: string, captionEntities: seq<Entity>,
                         mediaKind: string, mediaUniqueId: string, mediaGroupId: string, previewDisabled: bool)

  /** What is taken from Go's libraries: URL validation and normal form, NFKC, and the class of punctuation. */
  datatype Library = Library(validUrl: string -> bool, normalizeUrl: string -> string, nfkc: string -> string,
                             isPunct: char -> bool)

  function MessageText(m: Input): string {
    if m.text != "" then m.text else m.caption
  }

  function MessageEntities(m: Input): seq<Entity> {
    if m.text != "" then m.entities else m.captionEntities
  }

  // Targets

  predicate SchemeChar(c: char, first: bool) {
    'a' <= c <= 'z' || 'A' <= c <= 'Z' || (!first && ('0' <= c <= '9' || c == '+' || c == '-' || c == '.'))
  }

  predicate IsSchemeToken(s: string) {
    forall i | 0 <= i < |s| :: SchemeChar(s[i], i == 0)
  }

  predicate HasExplicitScheme(raw: string) {
    var i := FirstOccurrence(raw, "://");
    i.Some? && i.value > 0 && IsSchemeToken(raw[..i.value])
  }

  /** A text up to its first colon is a scheme exactly if "//" follows the colon and it is a letter followed by letters,
      digits, '+', '-' and '.' (section 3.1 of RFC 3986). */
  lemma ExplicitScheme(token: string, rest: string)
    requires ':' !in token
    ensures HasExplicitScheme(token + ("://" + rest))
            <==> token != "" && ('a' <= token[0] <= 'z' || 'A' <= token[0] <= 'Z')
                 && forall c | c in token[1..] ::
                      'a' <= c <= 'z' || 'A' <= c <= 'Z' || '0' <= c <= '9' || c == '+' || c == '-' || c == '.'
  {
    var raw := token + ("://" + rest);
    assert OccursAt(raw, "://", |token|) by {
      assert raw[|token|..|token| + 3] == ("://" + rest)[..3] == "://";
    }
    forall i | 0 <= i < |token| ensures !OccursAt(raw, "://", i) {
      assert raw[i] == token[i] && token[i] in token && "://"[0] == ':';
    }
    assert FirstOccurrence(raw, "://") == Some(|token|);
    assert raw[..|token|] == token;
    if token != "" {
      assert forall i | 0 < i < |token| :: token[1..][i - 1] == token[i] && token[i] in token[1..];
      assert forall c | c in token[1..] :: exists i :: 0 < i < |token| && token[i] == c;
      assert IsSchemeToken(token) <==>
               SchemeChar(token[0], true)
               && forall i | 0 < i < |token| :: SchemeChar(token[i], false);
    }
  }

  function CanonicalTarget(lib: Library, raw: string, schemeless: bool): Option<string> {
    var target := if schemeless && !HasExplicitScheme(raw) then "https://" + raw else raw;
    if lib.validUrl(target) then Some(target) else None
  }

  /** A scheme-less spelling and its HTTPS spelling have the same target. */
  lemma SchemelessMeansHttps(lib: Library, raw: string)
    requires !HasExplicitScheme(raw)
    ensures CanonicalTarget(lib, raw, true) == CanonicalTarget(lib, "https://" + raw, true)
  {
    var s := "https://" + raw;
    assert OccursAt(s, "://", 5) by { assert s[5..8] == "://"; }
    forall m | 0 <= m < 5 ensures !OccursAt(s, "://", m) {
      assert s[m] == "https"[m];
      assert "://"[0] == ':';
    }
    assert FirstOccurrence(s, "://") == Some(5);
    assert s[..5] == "https";
  }

  // Extraction

  /** The URL an entity contributes, if it is accepted. */
  ghost function UrlOf(lib: Library, text: string, e: Entity): Option<Url> {
    if e.kind == OtherEntity then None else
    var span := CharSpan(text, e.offset, e.length);
    if e.kind == UrlEntity && span.None? then None else
    var raw := TrimSpace(if e.kind == UrlEntity then text[span.value.start..span.value.end] else e.url);
    var target := CanonicalTarget(lib, raw, e.kind == UrlEntity);
    if target.None? then None else Some(Url(raw, target.value, e.offset, e.length, e.kind == UrlEntity))
  }

  ghost function UrlsOf(lib: Library, text: string, es: seq<Entity>): seq<Url> {
    if es == [] then [] else
    var u := UrlOf(lib, text, es[|es| - 1]);
    UrlsOf(lib, text, es[..|es| - 1]) + if u.Some? then [u.value] else []
  }

  ghost function Urls(lib: Library, m: Input): seq<Url> {
    if MessageText(m) == "" then [] else UrlsOf(lib, MessageText(m), MessageEntities(m))
  }

  /** The entity's characters are i to j, and read so without the space around them. */
  predicate Reads(text: string, e: Entity, i: nat, j: nat, raw: string) {
    Denotes(text, e.offset, e.length, i, j) && raw == TrimSpace(text[i..j])
  }

  /** Entity e contributes u: a link the user typed, with https before it if it has no scheme, or the link behind a
      text, as it is; in either case without the space around it, valid, and with the entity's span. */
  ghost predicate Contributes(lib: Library, text: string, e: Entity, u: Url) {
    && (e.kind == UrlEntity || e.kind == TextLink) && u.offset == e.offset && u.length == e.length
    && (u.fromText <==> e.kind == UrlEntity) && lib.validUrl(u.target)
    && (e.kind == TextLink ==> u.raw == TrimSpace(e.url) && u.target == u.raw)
    && (e.kind == UrlEntity ==> (exists i: nat, j: nat :: Reads(text, e, i, j, u.raw))
                                && u.target == (if HasExplicitScheme(u.raw) then u.raw else "https://" + u.raw))
  }

  /** The accepted URLs come from entities in the order of the message, and an entity left out contributes nothing. */
  lemma {:induction false} UrlsInOrder(lib: Library, text: string, es: seq<Entity>) returns (picks: seq<nat>)
    ensures |picks| == |UrlsOf(lib, text, es)| && forall i, j | 0 <= i < j < |picks| :: picks[i] < picks[j] < |es|
    ensures forall i | 0 <= i < |picks| ::
             picks[i] < |es|
             && Contributes(lib, text, es[picks[i]], UrlsOf(lib, text, es)[i])
    ensures forall k, u | 0 <= k < |es| && k !in picks :: !Contributes(lib, text, es[k], u)
  {
    picks := [];
    if es != [] {
      var init, e := es[..|es| - 1], es[|es| - 1];
      picks := UrlsInOrder(lib, text, init);
      assert forall k | 0 <= k < |init| :: init[k] == es[k];
      var before := picks;
      UrlContributes(lib, text, e);
      if UrlOf(lib, text, e).Some? {
        picks := picks + [|es| - 1];
      }
      assert forall k | 0 <= k < |init| :: k in picks <==> k in before;
    }
  }

  lemma UrlContributes(lib: Library, text: string, e: Entity)
    ensures forall u :: UrlOf(lib, text, e) == Some(u) <==> Contributes(lib, text, e, u)
  {
    hide HasExplicitScheme, TrimSpace, Units;
    forall i: nat, j: nat, raw | Reads(text, e, i, j, raw) ensures CharSpan(text, e.offset, e.length)
           == Some(Span(i, j)) {
      SpanFound(text, e.offset, e.length, i, j);
    }
    var span := CharSpan(text, e.offset, e.length);
    if span.Some? {
      assert Reads(text, e, span.value.start, span.value.end, TrimSpace(text[span.value.start..span.value.end]));
    }
  }

  /** A caption is read where there is no text. */
  lemma TextOrCaption(lib: Library, m: Input)
    ensures m.text != "" ==> MessageText(m) == m.text && Urls(lib, m) == UrlsOf(lib, m.text, m.entities)
    ensures m.text == "" && m.caption != "" ==>
              MessageText(m) == m.caption && Urls(lib, m) == UrlsOf(lib, m.caption, m.captionEntities)
    ensures m.text == "" && m.caption == "" ==> MessageText(m) == "" && Urls(lib, m) == []
  {}

  method ExtractURLs(lib: Library, m: Input) returns (urls: seq<Url>)
    ensures urls == Urls(lib, m)
  {
    var text, entities := m.text, m.entities;
    if text == "" {
      text, entities := m.caption, m.captionEntities;
    }
    if text == "" {
      return [];
    }
    urls := [];
    for k := 0 to |entities|
      invariant urls == UrlsOf(lib, text, entities[..k])
    {
      var e := entities[k];
      assert entities[..k + 1][..k] == entities[..k];
      if e.kind == OtherEntity {
        continue;
      }
      var value := e.url;
      if e.kind == UrlEntity {
        var start, end, ok := Utf16Span(text, e.offset, e.length);
        if !ok {
          continue;
        }
        SpanInCharacters(text, e.offset, e.length);
        value := text[CharIndex(text, start)..CharIndex(text, end)];
      }
      value := TrimSpace(value);
      var target := CanonicalTarget(lib, value, e.kind == UrlEntity);
      if target.None? {
        continue;
      }
      urls := urls + [Url(value, target.value, e.offset, e.length, e.kind == UrlEntity)];
    }
    assert entities[..|entities|] == entities;
  }

  /** The bytes of a span lead back to its characters. */
  lemma SpanInCharacters(text: string, offset: int, length: int)
    requires CharSpan(text, offset, length).Some?
    ensures var s := CharSpan(text, offset, length).value;
            CharIndex(text, ByteSpan(text, s).start) == s.start && CharIndex(text, ByteSpan(text, s).end) == s.end
  {
    var s := CharSpan(text, offset, length).value;
    CharIndexOf(text, s.start);
    CharIndexOf(text, s.end);
  }

  // Link-only messages

  predicate Inside(k: nat, spans: seq<Span>) {
    exists s | s in spans :: s.start <= k < s.end
  }

  /** The characters outside all spans, in order. */
  function Outside(text: string, spans: seq<Span>): string {
    if text == "" then ""
    else Outside(text[..|text| - 1], spans) + if Inside(|text| - 1, spans) then "" else [text[|text| - 1]]
  }

  lemma {:induction false} OutsideElements(text: string, spans: seq<Span>, p: char -> bool)
    ensures (forall c | c in Outside(text, spans) :: p(c))
            <==> (forall k | 0 <= k < |text| && !Inside(k, spans) :: p(text[k]))
  {
    hide Inside;
    if text != "" {
      var init := text[..|text| - 1];
      OutsideElements(init, spans, p);
      assert forall k | 0 <= k < |init| :: init[k] == text[k];
      assert forall c :: c in Outside(text, spans)
                         <==> c in Outside(init, spans) || (!Inside(|text| - 1, spans) && c == text[|text| - 1]);
    }
  }

  /** removeSpans, on byte spans: marks the characters of each span and keeps the unmarked ones. */
  method RemoveSpans(text: string, spans: seq<Span>, ghost chars: seq<Span>) returns (remaining: string)
    requires |chars| == |spans|
    requires forall i | 0 <= i < |spans| ::
              chars[i].start < chars[i].end <= |text|
              && spans[i] == ByteSpan(text, chars[i])
    ensures remaining == Outside(text, chars)
  {
    var removed := new bool[|text|](_ => false);
    for i := 0 to |spans|
      invariant forall k | 0 <= k < |text| :: removed[k] <==> Inside(k, chars[..i])
    {
      CharIndexOf(text, chars[i].start);
      CharIndexOf(text, chars[i].end);
      var start, end := CharIndex(text, spans[i].start), CharIndex(text, spans[i].end);
      assert chars[..i + 1] == chars[..i] + [chars[i]];
      if start >= end {
        continue;
      }
      for k := start to end
        invariant forall m | 0 <= m < |text| :: removed[m] <==> Inside(m, chars[..i]) || start <= m < k
      {
        removed[k] := true;
      }
    }
    assert chars[..|spans|] == chars;
    remaining := "";
    for k := 0 to |text|
      invariant remaining == Outside(text[..k], chars)
    {
      assert text[..k + 1][..k] == text[..k];
      if !removed[k] {
        remaining := remaining + [text[k]];
      }
    }
    assert text[..|text|] == text;
  }

  /** Character k belongs to the span of an accepted URL. */
  ghost predicate Covered(text: string, urls: seq<Url>, k: nat) {
    exists u | u in urls :: SpanOf(text, u).Some? && SpanOf(text, u).value.start <= k < SpanOf(text, u).value.end
  }

  /** The byte spans of the accepted URLs, and the characters they cover. */
  method AcceptedSpans(text: string, urls: seq<Url>) returns (spans: seq<Span>, ghost chars: seq<Span>)
    ensures |chars| == |spans|
    ensures forall i | 0 <= i < |spans| ::
             chars[i].start < chars[i].end <= |text|
             && spans[i] == ByteSpan(text, chars[i])
    ensures forall k: nat :: Inside(k, chars) <==> Covered(text, urls, k)
  {
    spans, chars := [], [];
    for i := 0 to |urls|
      invariant |chars| == |spans|
      invariant forall a | 0 <= a < |spans| ::
                 chars[a].start < chars[a].end <= |text|
                 && spans[a] == ByteSpan(text, chars[a])
      invariant forall k: nat :: Inside(k, chars) <==> Covered(text, urls[..i], k)
    {
      var start, end, ok := Utf16Span(text, urls[i].offset, urls[i].length);
      CoveredNext(text, urls, i, chars);
      if ok {
        spans, chars := spans + [Span(start, end)], chars + [SpanOf(text, urls[i]).value];
      }
    }
    assert urls[..|urls|] == urls;
  }

  lemma CoveredNext(text: string, urls: seq<Url>, i: nat, chars: seq<Span>)
    requires i < |urls| && forall k: nat :: Inside(k, chars) <==> Covered(text, urls[..i], k)
    ensures var s := SpanOf(text, urls[i]);
            var more := if s.Some? then chars + [s.value] else chars;
            forall k: nat :: Inside(k, more) <==> Covered(text, urls[..i + 1], k)
  {
    var s := SpanOf(text, urls[i]);
    assert urls[..i + 1] == urls[..i] + [urls[i]];
    forall k: nat
      ensures Covered(text, urls[..i + 1], k)
              <==> Covered(text, urls[..i], k) || (s.Some? && s.value.start <= k < s.value.end)
    {
      assert urls[i] in urls[..i + 1];
      assert forall u | u in urls[..i] :: u in urls[..i + 1];
    }
    if s.Some? {
      forall k: nat ensures Inside(k, chars + [s.value]) <==> Inside(k, chars) || s.value.start <= k < s.value.end {
        assert s.value in chars + [s.value];
        assert forall c | c in chars :: c in chars + [s.value];
      }
    }
  }

  /** True exactly for a message without media that has an accepted URL and, outside the spans of its accepted URLs,
      only space and punctuation: the text of a rejected entity counts as content. */
  method IsLinkOnly(lib: Library, m: Input) returns (only: bool)
    ensures only <==> LinkOnly(lib, m)
    ensures only ==> m.mediaKind == "" && Urls(lib, m) != []
    ensures m.mediaKind == "" && Urls(lib, m) != [] ==>
              (only <==> forall k | 0 <= k < |MessageText(m)| && !Covered(MessageText(m), Urls(lib, m), k) ::
                 IsSpace(MessageText(m)[k]) || lib.isPunct(MessageText(m)[k]))
  {
    hide Covered, Inside, SpanOf, UrlsOf;
    if m.mediaKind != "" {
      return false;
    }
    var urls := ExtractURLs(lib, m);
    if |urls| == 0 {
      return false;
    }
    var text := MessageText(m);
    var spans, chars := AcceptedSpans(text, urls);
    var remaining := RemoveSpans(text, spans, chars);
    OutsideElements(text, chars, c => IsSpace(c) || lib.isPunct(c));
    only := true;
    for k := 0 to |remaining|
      invariant forall i | 0 <= i < k :: IsSpace(remaining[i]) || lib.isPunct(remaining[i])
    {
      if !IsSpace(remaining[k]) && !lib.isPunct(remaining[k]) {
        assert remaining[k] in remaining;
        return false;
      }
    }
  }

  ghost predicate LinkOnly(lib: Library, m: Input) {
    var text, urls := MessageText(m), Urls(lib, m);
    && m.mediaKind == "" && urls != []
    && forall k | 0 <= k < |text| && !Covered(text, urls, k) :: IsSpace(text[k]) || lib.isPunct(text[k])
  }
}
