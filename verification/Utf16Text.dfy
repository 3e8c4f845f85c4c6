/** Text positions. Telegram counts UTF-16 code units, Go slices bytes of UTF-8; a text is its sequence of Unicode
    scalar values, and both kinds of offset are sums of widths over a prefix. */
module Utf16Text {
  import opened Tables

  /** Length of a scalar value in UTF-8 (RFC 3629, section 3). */
  function ByteWidth(c: char): nat {
    if c < 0x80 as char then 1 else if c < 0x800 as char then 2 else if c <= 0xffff as char then 3 else 4
  }

  /** Length of a scalar value in UTF-16 (RFC 2781, section 2.1). */
  function UnitWidth(c: char): nat {
    if c > 0xffff as char then 2 else 1
  }

  /** The widths by code point, as the two standards tabulate them. */
  lemma Widths(c: char)
    ensures var p := c as int;
            && UnitWidth(c) == (if p < 0x10000 then 1 else 2)
            && ByteWidth(c) == (if p <= 0x7f then 1 else if p <= 0x7ff then 2 else if p <= 0xffff then 3 else 4)
  {}

  function Bytes(s: string): nat {
    if s == "" then 0 else Bytes(s[..|s| - 1]) + ByteWidth(s[|s| - 1])
  }

  function Units(s: string): nat {
    if s == "" then 0 else Units(s[..|s| - 1]) + UnitWidth(s[|s| - 1])
  }

  lemma PrefixStep(s: string, k: nat)
    requires k < |s|
    ensures Bytes(s[..k + 1]) == Bytes(s[..k]) + ByteWidth(s[k])
    ensures Units(s[..k + 1]) == Units(s[..k]) + UnitWidth(s[k])
  {
    assert s[..k + 1][..k] == s[..k];
  }

  /** Longer prefixes have larger offsets, in both measures. */
  lemma {:induction false} OffsetsIncrease(s: string, i: nat, j: nat)
    requires i < j <= |s|
    ensures Bytes(s[..i]) < Bytes(s[..j]) && Units(s[..i]) < Units(s[..j])
  {
    PrefixStep(s, j - 1);
    if i < j - 1 {
      OffsetsIncrease(s, i, j - 1);
    }
  }

  lemma {:induction false} UnitsConcat(s: string, t: string)
    ensures Units(s + t) == Units(s) + Units(t)
  {
    if t == "" {
      assert s + t == s;
    } else {
      UnitsConcat(s, t[..|t| - 1]);
      assert (s + t)[..|s + t| - 1] == s + t[..|t| - 1];
    }
  }

  // Spans

  /** Characters i to j of the text are the entity at this offset and length. */
  predicate Denotes(text: string, offset: int, length: int, i: nat, j: nat) {
    && i < j <= |text|
    && Units(text[..i]) == offset && Units(text[..j]) == offset + length
  }

  lemma BoundaryUnique(text: string, i: nat, j: nat)
    requires i <= |text| && j <= |text| && Units(text[..i]) == Units(text[..j])
    ensures i == j
  {
    if i < j {
      OffsetsIncrease(text, i, j);
    } else if j < i {
      OffsetsIncrease(text, j, i);
    }
  }

  datatype Span = Span(start: nat, end: nat)

  /** The characters of an entity, if it has any. */
  ghost function CharSpan(text: string, offset: int, length: int): (s: Option<Span>)
    ensures s.Some? ==> Denotes(text, offset, length, s.value.start, s.value.end)
    ensures s.None? ==> forall i: nat, j: nat :: !Denotes(text, offset, length, i, j)
  {
    if exists i: nat, j: nat :: Denotes(text, offset, length, i, j) then
      var i: nat, j: nat :| Denotes(text, offset, length, i, j);
      Some(Span(i, j))
    else None
  }

  lemma SpanFound(text: string, offset: int, length: int, i: nat, j: nat)
    requires Denotes(text, offset, length, i, j)
    ensures CharSpan(text, offset, length) == Some(Span(i, j))
  {
    hide Units;
    var s := CharSpan(text, offset, length).value;
    BoundaryUnique(text, i, s.start);
    BoundaryUnique(text, j, s.end);
  }

  /** The bytes of the same characters. */
  function ByteSpan(text: string, s: Span): Span
    requires s.start <= s.end <= |text|
  {
    Span(Bytes(text[..s.start]), Bytes(text[..s.end]))
  }

  /** utf16Span: succeeds exactly on offsets that are character boundaries of the text with something between them, and
      then returns the byte offsets of those very boundaries. */
  method Utf16Span(text: string, offset: int, length: int) returns (start: int, end: int, ok: bool)
    ensures ok <==> CharSpan(text, offset, length).Some?
    ensures ok ==> 0 <= start < end && Span(start, end) == ByteSpan(text, CharSpan(text, offset, length).value)
  {
    if offset < 0 || length <= 0 {
      forall i: nat, j: nat ensures !Denotes(text, offset, length, i, j) {
        if i < j <= |text| { OffsetsIncrease(text, i, j); }
      }
      return 0, 0, false;
    }
    var units, byteIndex, k := 0, 0, 0;
    start, end := -1, -1;
    ghost var i: nat, j: nat := 0, 0;
    while k < |text| && end == -1
      invariant k <= |text| && byteIndex == Bytes(text[..k]) && units == Units(text[..k])
      invariant start == -1 ==> forall m | 0 <= m < k :: Units(text[..m]) != offset
      invariant start != -1 ==> i < |text| && i < k && Units(text[..i]) == offset && start == Bytes(text[..i])
      invariant end == -1 ==> forall m | 0 <= m <= k :: Units(text[..m]) != offset + length
      invariant end != -1 ==> 0 < k && j == k && units == offset + length && end == byteIndex
      decreases |text| - k, end == -1
    {
      PrefixStep(text, k);
      if units == offset {
        start, i := byteIndex, k;
      }
      units := units + UnitWidth(text[k]);
      byteIndex, k := byteIndex + ByteWidth(text[k]), k + 1;
      if units == offset + length {
        end, j := byteIndex, k;
      }
    }
    ghost var found := start != -1 && end != -1;
    if found {
      OffsetsIncrease(text, i, j);
    }
    assert end == -1 ==> text[..k] == text;
    if start == -1 && units == offset {
      start := Bytes(text);
    }
    if end == -1 && units == offset + length {
      end := Bytes(text);
    }
    ok := start >= 0 && end > start;
    assert ok <==> found;
    if ok {
      SpanFound(text, offset, length, i, j);
    } else {
      forall p: nat, q: nat ensures !Denotes(text, offset, length, p, q) {
        if Denotes(text, offset, length, p, q) && end != -1 {
          BoundaryUnique(text, q, k);
        }
      }
    }
  }

  // Mentions

  predicate OccursAt(text: string, name: string, k: nat) {
    k + |name| <= |text| && text[k..k + |name|] == name
  }

  /** strings.Cut: where a name first occurs. */
  function FirstOccurrence(text: string, name: string, from: nat := 0): (k: Option<nat>)
    requires from <= |text|
    ensures k.Some? ==> from <= k.value && OccursAt(text, name, k.value)
    ensures k.Some? ==> forall m | from <= m < k.value :: !OccursAt(text, name, m)
    ensures k.None? ==> forall m | from <= m <= |text| :: !OccursAt(text, name, m)
    decreases |text| - from
  {
    if OccursAt(text, name, from) then Some(from)
    else if from == |text| then None
    else FirstOccurrence(text, name, from + 1)
  }

  method Utf16Units(value: string) returns (units: nat)
    ensures units == Units(value)
  {
    units := 0;
    for k := 0 to |value|
      invariant units == Units(value[..k])
    {
      PrefixStep(value, k);
      units := units + if value[k] > 0xffff as char then 2 else 1;
    }
    assert value[..|value|] == value;
  }

  datatype Mention = Mention(offset: int, length: int, user: int)

  /** responseEntities: the mention, if any, denotes exactly the first occurrence of the sender's name. */
  method ResponseEntities(text: string, senderName: string, senderId: int) returns (mention: Option<Mention>)
    ensures mention.Some? <==> senderId > 0 && senderName != "" && exists k :: OccursAt(text, senderName, k)
    ensures mention.Some? ==>
              var s := CharSpan(text, mention.value.offset, mention.value.length);
              && s.Some? && text[s.value.start..s.value.end] == senderName
              && (forall m | 0 <= m < s.value.start :: !OccursAt(text, senderName, m))
              && mention.value.user == senderId
  {
    if senderId <= 0 || senderName == "" {
      return None;
    }
    var k := FirstOccurrence(text, senderName);
    if k.None? {
      return None;
    }
    var offset := Utf16Units(text[..k.value]);
    var length := Utf16Units(senderName);
    MentionDenotes(text, senderName, k.value);
    mention := Some(Mention(offset, length, senderId));
  }

  /** UTF-16 units of what precedes a name, and of the name, denote the name. */
  lemma MentionDenotes(text: string, name: string, k: nat)
    requires name != "" && OccursAt(text, name, k)
    ensures CharSpan(text, Units(text[..k]), Units(name)) == Some(Span(k, k + |name|))
  {
    hide Units;
    NameUnits(text, name, k);
    assert |name| > 0;
    SpanFound(text, Units(text[..k]), Units(name), k, k + |name|);
  }

  lemma NameUnits(text: string, name: string, k: nat)
    requires OccursAt(text, name, k)
    ensures Units(text[..k + |name|]) == Units(text[..k]) + Units(name)
  {
    assert text[..k + |name|] == text[..k] + name;
    UnitsConcat(text[..k], name);
  }
}
