/** The viewer-count caption of the fullscreen overlay (`StreamVideoOverlayNode.update(participantCount:)`):
    the caption is split into one number segment per digit character and one text segment per
    maximal run of other characters, the text segments numbered 0, 1, 2, ... in order. */
module ParticipantsLabel {
  import opened SwiftTypes
  import opened CountLabel

  /** The caption shown for `count` viewers: the "no viewers" string for zero, otherwise the
      localised viewer count. Both strings are localisation, passed in. */
  function Label(count: int32, noViewers: string, viewerCount: int32 -> string): (caption: string)
    ensures count == 0 ==> caption == noViewers
    ensures count != 0 ==> caption == viewerCount(count)
  {
    if count == 0 then noViewers else viewerCount(count)
  }

  /** No character of `s` has a whole-number value. */
  predicate NoValue(s: string, wholeNumberValue: WholeNumberValue)
  {
    forall k :: 0 <= k < |s| ==> wholeNumberValue(s[k]).None?
  }

  /** A number segment is a single character carrying that character's value; a text
      segment is a non-empty run of characters that have none. */
  predicate Shaped(segment: Segment, wholeNumberValue: WholeNumberValue)
  {
    match segment
    case Number(value, text) => |text| == 1 && wholeNumberValue(text[0]) == Some(value)
    case Text(_, text) => text != [] && NoValue(text, wholeNumberValue)
  }

  /** The number of text segments. */
  function TextCount(segments: seq<Segment>): nat
  {
    if segments == [] then 0 else (if segments[0].Text? then 1 else 0) + TextCount(segments[1..])
  }

  /** No two text segments are adjacent, so every text segment is a maximal run. */
  predicate Separated(segments: seq<Segment>)
  {
    forall i :: 0 <= i < |segments| - 1 ==> !(segments[i].Text? && segments[i + 1].Text?)
  }

  /** Text segments are numbered `base`, `base` + 1, ... in output order. */
  predicate IndexedFrom(segments: seq<Segment>, base: nat)
  {
    forall i :: 0 <= i < |segments| && segments[i].Text? ==> segments[i].index == base + TextCount(segments[..i])
  }

  /** `segments` is a segmentation of `caption` as the overlay builds it. */
  predicate Tokenizes(caption: string, segments: seq<Segment>, wholeNumberValue: WholeNumberValue, base: nat)
  {
    && Concat(segments) == caption
    && (forall i :: 0 <= i < |segments| ==> Shaped(segments[i], wholeNumberValue))
    && Separated(segments)
    && IndexedFrom(segments, base)
  }

  lemma {:induction false} TextCountAppend(segments: seq<Segment>, s: Segment)
    ensures TextCount(segments + [s]) == TextCount(segments) + if s.Text? then 1 else 0
  {
    if segments != [] {
      assert (segments + [s])[1..] == segments[1..] + [s];
      TextCountAppend(segments[1..], s);
    }
  }

  /** Appending a segment keeps the numbering of the earlier ones. */
  lemma AppendIndexed(segments: seq<Segment>, s: Segment)
    requires IndexedFrom(segments, 0)
    requires s.Text? ==> s.index == TextCount(segments)
    ensures IndexedFrom(segments + [s], 0)
  {
    var extended := segments + [s];
    forall i | 0 <= i < |extended| && extended[i].Text?
      ensures extended[i].index == TextCount(extended[..i])
    {
      if i < |segments| {
        assert extended[..i] == segments[..i];
      } else {
        assert extended[..i] == segments;
      }
    }
  }

  /** The state of the overlay's loop after `i` characters: the segments emitted so far
      followed by the pending run of non-digits spell the caption's first `i` characters, and
      `index` is the number the next text segment gets. */
  predicate Progress(caption: string, i: nat, segments: seq<Segment>, accumulated: string, index: nat,
                     wholeNumberValue: WholeNumberValue)
  {
    && i <= |caption|
    && Concat(segments) + accumulated == caption[..i]
    && (forall j :: 0 <= j < |segments| ==> Shaped(segments[j], wholeNumberValue))
    && Separated(segments)
    && IndexedFrom(segments, 0)
    && index == TextCount(segments)
    && NoValue(accumulated, wholeNumberValue)
    && (segments != [] ==> segments[|segments| - 1].Number?)
  }

  /** Appending a well-shaped segment that does not put two text segments side by side
      keeps the segments well-shaped, separated and numbered. */
  lemma AppendSegment(segments: seq<Segment>, s: Segment, wholeNumberValue: WholeNumberValue)
    requires forall j :: 0 <= j < |segments| ==> Shaped(segments[j], wholeNumberValue)
    requires Separated(segments) && IndexedFrom(segments, 0)
    requires Shaped(s, wholeNumberValue)
    requires s.Text? ==> s.index == TextCount(segments) && (segments == [] || segments[|segments| - 1].Number?)
    ensures var extended := segments + [s];
            && (forall j :: 0 <= j < |extended| ==> Shaped(extended[j], wholeNumberValue))
            && Separated(extended)
            && IndexedFrom(extended, 0)
            && TextCount(extended) == TextCount(segments) + (if s.Text? then 1 else 0)
            && Concat(extended) == Concat(segments) + s.text
  {
    var extended := segments + [s];
    ConcatAppend(segments, s);
    TextCountAppend(segments, s);
    AppendIndexed(segments, s);
    forall j | 0 <= j < |extended| ensures Shaped(extended[j], wholeNumberValue) {
      if j < |segments| { assert extended[j] == segments[j]; }
    }
    forall j | 0 <= j < |extended| - 1 ensures !(extended[j].Text? && extended[j + 1].Text?) {
      assert extended[j] == segments[j];
    }
  }

  /** Flushing a non-empty pending run emits one text segment with the next number. */
  lemma FlushRun(caption: string, i: nat, segments: seq<Segment>, accumulated: string, index: nat,
                 wholeNumberValue: WholeNumberValue)
    requires Progress(caption, i, segments, accumulated, index, wholeNumberValue)
    requires accumulated != []
    ensures var flushed := segments + [Text(index, accumulated)];
            && Concat(flushed) == caption[..i]
            && (forall j :: 0 <= j < |flushed| ==> Shaped(flushed[j], wholeNumberValue))
            && Separated(flushed)
            && IndexedFrom(flushed, 0)
            && index + 1 == TextCount(flushed)
  {
    AppendSegment(segments, Text(index, accumulated), wholeNumberValue);
  }

  /** A digit is emitted as its own number segment. */
  lemma PushDigit(caption: string, i: nat, segments: seq<Segment>, index: nat, value: nat,
                  wholeNumberValue: WholeNumberValue)
    requires i < |caption| && wholeNumberValue(caption[i]) == Some(value)
    requires Concat(segments) == caption[..i]
    requires forall j :: 0 <= j < |segments| ==> Shaped(segments[j], wholeNumberValue)
    requires Separated(segments) && IndexedFrom(segments, 0) && index == TextCount(segments)
    ensures Progress(caption, i + 1, segments + [Number(value, [caption[i]])], "", index, wholeNumberValue)
  {
    var digit := Number(value, [caption[i]]);
    var pushed := segments + [digit];
    assert Concat(pushed) + "" == caption[..i + 1] by {
      ConcatAppend(segments, digit);
      TakeOneMore(caption, i);
    }
    assert && (forall j :: 0 <= j < |pushed| ==> Shaped(pushed[j], wholeNumberValue))
           && Separated(pushed) && IndexedFrom(pushed, 0) && index == TextCount(pushed) by {
      AppendSegment(segments, digit, wholeNumberValue);
    }
    assert NoValue("", wholeNumberValue);
  }

  /** A non-digit joins the pending run. */
  lemma Accumulate(caption: string, i: nat, segments: seq<Segment>, accumulated: string, index: nat,
                   wholeNumberValue: WholeNumberValue)
    requires Progress(caption, i, segments, accumulated, index, wholeNumberValue)
    requires i < |caption| && wholeNumberValue(caption[i]).None?
    ensures Progress(caption, i + 1, segments, accumulated + [caption[i]], index, wholeNumberValue)
  {
    TakeOneMore(caption, i);
  }

  /** The loop of `update(participantCount:)`: a digit flushes the pending run of other
      characters as a text segment and becomes a number segment; the last run is flushed
      after the loop. */
  method Tokenize(caption: string, wholeNumberValue: WholeNumberValue) returns (segments: seq<Segment>)
    ensures Tokenizes(caption, segments, wholeNumberValue, 0)
  {
    segments := [];
    var accumulated: string := "";
    var index: nat := 0;
    for i := 0 to |caption|
      invariant Progress(caption, i, segments, accumulated, index, wholeNumberValue)
    {
      var c := caption[i];
      match wholeNumberValue(c)
      case Some(value) =>
        if accumulated != [] {
          FlushRun(caption, i, segments, accumulated, index, wholeNumberValue);
          segments := segments + [Text(index, accumulated)];
          accumulated := "";
          index := index + 1;
        }
        PushDigit(caption, i, segments, index, value, wholeNumberValue);
        segments := segments + [Number(value, [c])];
      case None =>
        Accumulate(caption, i, segments, accumulated, index, wholeNumberValue);
        accumulated := accumulated + [c];
    }
    assert caption[..|caption|] == caption;
    if accumulated != [] {
      FlushRun(caption, |caption|, segments, accumulated, index, wholeNumberValue);
      segments := segments + [Text(index, accumulated)];
    }
  }

  /** The segmentation without its first segment segments the rest of the caption, its text
      numbering moved on past the first segment. */
  lemma Tail(caption: string, segments: seq<Segment>, wholeNumberValue: WholeNumberValue, base: nat)
    requires segments != [] && Tokenizes(caption, segments, wholeNumberValue, base)
    ensures |segments[0].text| <= |caption| && caption[..|segments[0].text|] == segments[0].text
    ensures Tokenizes(caption[|segments[0].text|..], segments[1..], wholeNumberValue,
                      base + if segments[0].Text? then 1 else 0)
  {
    var head, rest := segments[0], segments[1..];
    var next := base + if head.Text? then 1 else 0;
    assert caption == head.text + Concat(rest);
    assert caption[|head.text|..] == Concat(rest);
    forall i | 0 <= i < |rest| && rest[i].Text?
      ensures rest[i].index == next + TextCount(rest[..i])
    {
      assert segments[i + 1] == rest[i];
      assert segments[..i + 1][1..] == rest[..i];
    }
    forall i | 0 <= i < |rest| ensures Shaped(rest[i], wholeNumberValue) {
      assert rest[i] == segments[i + 1];
    }
    forall i | 0 <= i < |rest| - 1 ensures !(rest[i].Text? && rest[i + 1].Text?) {
      assert rest[i] == segments[i + 1] && rest[i + 1] == segments[i + 2];
    }
  }

  /** A segmentation with these properties is unique: the properties say everything the
      overlay's loop decides. */
  lemma {:induction false} TokenizationUnique(caption: string, s1: seq<Segment>, s2: seq<Segment>,
                                              wholeNumberValue: WholeNumberValue, base: nat)
    requires Tokenizes(caption, s1, wholeNumberValue, base)
    requires Tokenizes(caption, s2, wholeNumberValue, base)
    ensures s1 == s2
    decreases |caption|
  {
    EmptyOnlyForEmpty(caption, s1, wholeNumberValue, base);
    EmptyOnlyForEmpty(caption, s2, wholeNumberValue, base);
    if caption != [] {
      var h1, h2 := s1[0], s2[0];
      assert Shaped(h1, wholeNumberValue) && Shaped(h2, wholeNumberValue);
      Tail(caption, s1, wholeNumberValue, base);
      Tail(caption, s2, wholeNumberValue, base);
      assert caption[0] == h1.text[0] == h2.text[0];
      if h1.Number? || h2.Number? {
        assert h1.Number? && h2.Number?;
        assert h1.text == [caption[0]] == h2.text;
      } else {
        HeadRunMaximal(caption, s1, s2, wholeNumberValue, base);
        HeadRunMaximal(caption, s2, s1, wholeNumberValue, base);
        assert h1.text == caption[..|h1.text|] == h2.text;
        assert s1[..0] == [] == s2[..0];
      }
      assert h1 == h2;
      TokenizationUnique(caption[|h1.text|..], s1[1..], s2[1..], wholeNumberValue,
                         base + if h1.Text? then 1 else 0);
      assert s1 == [h1] + s1[1..];
      assert s2 == [h2] + s2[1..];
    }
  }

  /** Only the empty caption has no segments. */
  lemma EmptyOnlyForEmpty(caption: string, segments: seq<Segment>, wholeNumberValue: WholeNumberValue, base: nat)
    requires Tokenizes(caption, segments, wholeNumberValue, base)
    ensures segments == [] <==> caption == []
  {
    if segments != [] {
      assert Shaped(segments[0], wholeNumberValue);
      assert caption == segments[0].text + Concat(segments[1..]);
    }
  }

  /** A leading text segment is a maximal run: no other segmentation's leading run is longer. */
  lemma HeadRunMaximal(caption: string, s1: seq<Segment>, s2: seq<Segment>,
                       wholeNumberValue: WholeNumberValue, base: nat)
    requires s1 != [] && s2 != [] && s1[0].Text? && s2[0].Text?
    requires Tokenizes(caption, s1, wholeNumberValue, base)
    requires Tokenizes(caption, s2, wholeNumberValue, base)
    ensures |s2[0].text| <= |s1[0].text|
  {
    var t1, t2 := s1[0].text, s2[0].text;
    Tail(caption, s1, wholeNumberValue, base);
    Tail(caption, s2, wholeNumberValue, base);
    if |t1| < |caption| {
      var rest := s1[1..];
      assert Concat(rest) == caption[|t1|..];
      assert Shaped(s1[1], wholeNumberValue) && !s1[1].Text?;
      assert caption[|t1|] == rest[0].text[0];
    }
    assert Shaped(s2[0], wholeNumberValue);
    assert forall k :: 0 <= k < |t2| ==> t2[k] == caption[k];
  }
}
