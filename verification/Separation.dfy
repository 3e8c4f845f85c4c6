/** What the string before hashing tells apart. Its fields end with a newline, so fields without one can be read back
    from it; messages that differ in such a field, or in where their URLs lead, have different strings. */
module Separation {
  import opened SpanEdit
  import opened Message
  import opened Fingerprint
  import W = WebAddress

  /** A text without a newline. */
  predicate Line(s: string) {
    '\n' !in s
  }

  /** One field, and what comes after it. */
  function Field(name: string, value: string, rest: string): string {
    name + (value + ("\n" + rest))
  }

  /** A field that is a line can be read back, and so can what comes after a known one. */
  lemma FieldTells(name: string, a: string, s: string, b: string, t: string)
    requires Field(name, a, s) == Field(name, b, t) && (a == b || (Line(a) && Line(b)))
    ensures a == b && s == t
  {
    var x, y := a + ("\n" + s), b + ("\n" + t);
    assert x == Field(name, a, s)[|name|..] == y;
    if Line(a) && Line(b) {
      W.SplitUnique(a, "\n" + s, b, "\n" + t, {'\n'});
    }
    assert ("\n" + s)[1..] == s && ("\n" + t)[1..] == t;
    assert x[|a|..] == "\n" + s && y[|b|..] == "\n" + t;
  }

  /** The normal forms of the targets, in order. */
  function Normals(lib: Library, urls: seq<Url>): seq<string> {
    seq(|urls|, i requires 0 <= i < |urls| => lib.normalizeUrl(urls[i].target))
  }

  /** The URL lines from the first on. */
  lemma {:induction false} UrlLinesFirst(lib: Library, urls: seq<Url>)
    requires urls != []
    ensures UrlLines(lib, urls) == Field("url=", lib.normalizeUrl(urls[0].target), UrlLines(lib, urls[1..]))
  {
    var n, init, last := lib.normalizeUrl(urls[0].target), urls[..|urls| - 1], urls[|urls| - 1];
    if |urls| > 1 {
      UrlLinesFirst(lib, init);
      assert init[1..] == urls[1..][..|urls| - 2] && urls[1..][|urls| - 2] == last;
      FieldExtends("url=", n, UrlLines(lib, init[1..]), "url=", lib.normalizeUrl(last.target));
    } else {
      assert init == [] && urls[1..] == [];
      assert "" + "url=" + n + "\n" == Field("url=", n, "");
    }
  }

  lemma FieldExtends(name: string, value: string, rest: string, next: string, more: string)
    ensures Field(name, value, rest) + next + more + "\n" == Field(name, value, rest + next + more + "\n")
  {}

  /** The URL lines tell the normal forms. */
  lemma {:induction false} UrlLinesTell(lib: Library, urls: seq<Url>, urls': seq<Url>)
    requires UrlLines(lib, urls) == UrlLines(lib, urls')
    requires forall n | n in Normals(lib, urls) + Normals(lib, urls') :: Line(n)
    ensures Normals(lib, urls) == Normals(lib, urls')
  {
    if urls == [] || urls' == [] {
      if urls != [] { UrlLinesFirst(lib, urls); }
      if urls' != [] { UrlLinesFirst(lib, urls'); }
    } else {
      UrlLinesFirst(lib, urls);
      UrlLinesFirst(lib, urls');
      var n, n' := Normals(lib, urls), Normals(lib, urls');
      assert n[0] in n + n' && n'[0] in n + n';
      FieldTells("url=", n[0], UrlLines(lib, urls[1..]), n'[0], UrlLines(lib, urls'[1..]));
      assert Normals(lib, urls[1..]) == n[1..] && Normals(lib, urls'[1..]) == n'[1..];
      assert forall x | x in n[1..] :: x in n;
      assert forall x | x in n'[1..] :: x in n';
      UrlLinesTell(lib, urls[1..], urls'[1..]);
      assert n == [n[0]] + n[1..] && n' == [n'[0]] + n'[1..];
    }
  }

  lemma NextField(head: string, line: string, name: string, value: string, rest: string)
    requires line == "\n" + name
    ensures head + line + value + ("\n" + rest) == head + ("\n" + Field(name, value, rest))
  {}

  /** The string, field by field. */
  lemma PreHashFields(lib: Library, m: Input, rule: string, text: string, caption: string, urls: seq<Url>)
    ensures PreHash(lib, m, rule, text, caption, urls)
            == Field("rule=", rule, Field("text=", text, Field("caption=", caption, Field("media=", m.mediaKind,
                 Field("media_id=", m.mediaUniqueId, Field("media_group=", m.mediaGroupId, UrlLines(lib, urls)))))))
  {
    hide Field, UrlLines;
    var h0, lines := "rule=" + rule, UrlLines(lib, urls);
    var h1 := h0 + "\ntext=" + text;
    var h2 := h1 + "\ncaption=" + caption;
    var h3 := h2 + "\nmedia=" + m.mediaKind;
    var h4 := h3 + "\nmedia_id=" + m.mediaUniqueId;
    var h5 := h4 + "\nmedia_group=" + m.mediaGroupId;
    assert PreHash(lib, m, rule, text, caption, urls) == h5 + "\n" + lines == h5 + ("\n" + lines);
    var f5 := Field("media_group=", m.mediaGroupId, lines);
    NextField(h4, "\nmedia_group=", "media_group=", m.mediaGroupId, lines);
    var f4 := Field("media_id=", m.mediaUniqueId, f5);
    NextField(h3, "\nmedia_id=", "media_id=", m.mediaUniqueId, f5);
    var f3 := Field("media=", m.mediaKind, f4);
    NextField(h2, "\nmedia=", "media=", m.mediaKind, f4);
    var f2 := Field("caption=", caption, f3);
    NextField(h1, "\ncaption=", "caption=", caption, f3);
    NextField(h0, "\ntext=", "text=", text, f2);
    FirstField("rule=", rule, Field("text=", text, f2));
  }

  lemma FirstField(name: string, value: string, rest: string)
    ensures name + value + ("\n" + rest) == Field(name, value, rest)
  {}

  /** Two values of a field that cannot be confused: they are equal, or both are lines. */
  predicate Readable(a: string, b: string) {
    a == b || (Line(a) && Line(b))
  }

  /** Equal strings before hashing come from equal fields and equal normal forms. */
  lemma PreHashTells(lib: Library, m: Input, rule: string, text: string, caption: string, urls: seq<Url>,
                     m': Input, rule': string, text': string, caption': string, urls': seq<Url>)
    requires PreHash(lib, m, rule, text, caption, urls) == PreHash(lib, m', rule', text', caption', urls')
    requires Readable(rule, rule') && Readable(text, text') && Readable(caption, caption')
    requires Readable(m.mediaKind, m'.mediaKind) && Readable(m.mediaUniqueId, m'.mediaUniqueId)
    requires Readable(m.mediaGroupId, m'.mediaGroupId)
    requires forall n | n in Normals(lib, urls) + Normals(lib, urls') :: Line(n)
    ensures rule == rule' && text == text' && caption == caption' && Normals(lib, urls) == Normals(lib, urls')
    ensures m.mediaKind == m'.mediaKind && m.mediaUniqueId == m'.mediaUniqueId && m.mediaGroupId == m'.mediaGroupId
  {
    hide Field, PreHash, UrlLines, Normals;
    PreHashFields(lib, m, rule, text, caption, urls);
    PreHashFields(lib, m', rule', text', caption', urls');
    var f5, f5' := Field("media_group=", m.mediaGroupId, UrlLines(lib, urls)),
                   Field("media_group=", m'.mediaGroupId, UrlLines(lib, urls'));
    var f4, f4' := Field("media_id=", m.mediaUniqueId, f5), Field("media_id=", m'.mediaUniqueId, f5');
    var f3, f3' := Field("media=", m.mediaKind, f4), Field("media=", m'.mediaKind, f4');
    var f2, f2' := Field("caption=", caption, f3), Field("caption=", caption', f3');
    FieldTells("rule=", rule, Field("text=", text, f2), rule', Field("text=", text', f2'));
    FieldTells("text=", text, f2, text', f2');
    FieldTells("caption=", caption, f3, caption', f3');
    FieldTells("media=", m.mediaKind, f4, m'.mediaKind, f4');
    FieldTells("media_id=", m.mediaUniqueId, f5, m'.mediaUniqueId, f5');
    FieldTells("media_group=", m.mediaGroupId, UrlLines(lib, urls), m'.mediaGroupId, UrlLines(lib, urls'));
    UrlLinesTell(lib, urls, urls');
  }

  lemma {:induction false} SpliceIsLine(text: string, urls: seq<Url>, edits: Edits, pos: nat)
    requires pos <= |text| && Line(text) && forall i | i in edits :: Line(edits[i])
    ensures Line(LeftToRight(text, urls, edits, pos))
    decreases |text| - pos
  {
    if pos < |text| {
      if i :| StartsAt(text, urls, edits, pos, i) {
        forall j | StartsAt(text, urls, edits, pos,
                 j) ensures Line(LeftToRight(text, urls, edits, SpanOf(text, urls[j]).value.end)) {
          SpliceIsLine(text, urls, edits, SpanOf(text, urls[j]).value.end);
        }
      } else {
        SpliceIsLine(text, urls, edits, pos + 1);
      }
    }
  }

  lemma {:induction false} TrimmedIsLine(s: string)
    requires Line(s)
    ensures Line(TrimSpace(s))
  {
    TrimLeftIsLine(s);
    TrimRightEnds(TrimLeft(s));
    assert forall c | c in TrimSpace(s) :: c in TrimLeft(s);
  }

  lemma {:induction false} TrimLeftIsLine(s: string)
    requires Line(s)
    ensures Line(TrimLeft(s))
  {
    if s != "" && IsSpace(s[0]) {
      TrimLeftIsLine(s[1..]);
    }
  }

  /** NFKC makes no newlines. */
  ghost predicate KeepsLines(lib: Library) {
    forall s :: Line(s) ==> Line(lib.nfkc(s))
  }

  lemma NormalizedIsLine(lib: Library, text: string, urls: seq<Url>, kept: set<int>, r: string)
    requires KeepsLines(lib) && Line(text) && (forall n | n in Normals(lib, urls) :: Line(n))
    requires Normalizes(lib, text, urls, kept, r)
    ensures Line(r)
  {
    var edits := Restricted(NormalEdits(lib, text, urls), kept);
    forall i | i in edits ensures Line(edits[i]) {
      assert edits[i] == Normals(lib, urls)[i];
    }
    SpliceIsLine(text, urls, edits, 0);
    TrimmedIsLine(LeftToRight(text, urls, edits, 0));
  }

  /** The fields of a message that reach the string, and the normal forms, are lines. */
  ghost predicate OneLine(lib: Library, m: Input, rule: string) {
    && Line(rule) && Line(m.text) && Line(m.caption)
    && Line(m.mediaKind) && Line(m.mediaUniqueId) && Line(m.mediaGroupId)
    && forall n | n in Normals(lib, Urls(lib, m)) :: Line(n)
  }

  /** One-line messages that lead to different places, carry different media or fall under different rules are never
      fingerprinted alike. */
  lemma FingerprintTells(lib: Library, m: Input, rule: string, m': Input, rule': string, pre: string)
    requires KeepsLines(lib) && OneLine(lib, m, rule) && OneLine(lib, m', rule')
    requires FingerprintOf(lib, m, rule, pre) && FingerprintOf(lib, m', rule', pre)
    ensures rule == rule' && Normals(lib, Urls(lib, m)) == Normals(lib, Urls(lib, m'))
    ensures m.mediaKind == m'.mediaKind && m.mediaUniqueId == m'.mediaUniqueId && m.mediaGroupId == m'.mediaGroupId
  {
    hide PreHash, Normalizes, Urls, Normals, Line;
    var text, caption, inText, inCaption :| Assembled(lib, m, rule, pre, text, caption, inText, inCaption);
    var text', caption', inText', inCaption' :| Assembled(lib, m', rule', pre, text', caption', inText', inCaption');
    NormalizedIsLine(lib, m.text, Urls(lib, m), inText, text);
    NormalizedIsLine(lib, m.caption, Urls(lib, m), inCaption, caption);
    NormalizedIsLine(lib, m'.text, Urls(lib, m'), inText', text');
    NormalizedIsLine(lib, m'.caption, Urls(lib, m'), inCaption', caption');
    PreHashTells(lib, m, rule, text, caption, Urls(lib, m), m', rule', text', caption', Urls(lib, m'));
  }

  /** Nor do they depend on anything else: the same content has the same strings, whoever sends it and wherever. */
  lemma ContentDetermines(lib: Library, m: Input, m': Input, rule: string, pre: string)
    requires m.text == m'.text && m.entities == m'.entities && m.caption == m'.caption
    requires m.captionEntities == m'.captionEntities && m.mediaKind == m'.mediaKind
    requires m.mediaUniqueId == m'.mediaUniqueId && m.mediaGroupId == m'.mediaGroupId
    ensures FingerprintOf(lib, m, rule, pre) ==> FingerprintOf(lib, m', rule, pre)
  {
    hide Normalizes, UrlsOf;
    if FingerprintOf(lib, m, rule, pre) {
      var text, caption, inText, inCaption :| Assembled(lib, m, rule, pre, text, caption, inText, inCaption);
      assert Assembled(lib, m', rule, pre, text, caption, inText, inCaption);
    }
  }

  /** Texts that NFKC makes equal are fingerprinted alike, if they have no links, or only such as have no spelling. */
  lemma NormalFormsDecide(lib: Library, m: Input, m': Input, rule: string, pre: string)
    requires Urls(lib, m) == Urls(lib, m') && (forall u | u in Urls(lib, m) :: Blank(u.raw))
    requires m.text != "" && m'.text != ""
    requires lib.nfkc(TrimSpace(m.text)) == lib.nfkc(TrimSpace(m'.text))
    requires m.caption == m'.caption && m.mediaKind == m'.mediaKind
    requires m.mediaUniqueId == m'.mediaUniqueId && m.mediaGroupId == m'.mediaGroupId
    ensures FingerprintOf(lib, m, rule, pre) ==> FingerprintOf(lib, m', rule, pre)
  {
    if FingerprintOf(lib, m, rule, pre) {
      var text, caption, inText, inCaption :| Assembled(lib, m, rule, pre, text, caption, inText, inCaption);
      NothingReplaced(m.text, Urls(lib, m), Restricted(NormalEdits(lib, m.text, Urls(lib, m)), inText));
      NothingReplaced(m'.text, Urls(lib, m), Restricted(NormalEdits(lib, m'.text, Urls(lib, m)), inText));
      assert Assembled(lib, m', rule, pre, text, caption, inText, inCaption);
    }
  }
}
