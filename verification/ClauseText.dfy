/** Splitting a text at its circled paragraph numbers. */
module ClauseText {
  datatype Part = Part(number: nat, text: string)

  /** The circled numbers one to twenty. */
  predicate IsMarker(c: char) { '\U{2460}' <= c <= '\U{2473}' }

  function MarkerNumber(c: char): (number: nat)
    requires IsMarker(c)
    ensures 1 <= number <= 20
  {
    c as int - '\U{2460}' as int + 1
  }

  /** The position of the first marker at or after `i`, or the end of the text. */
  function NextMarker(value: string, i: nat): (position: nat)
    requires i <= |value|
    ensures i <= position <= |value|
    ensures position < |value| ==> IsMarker(value[position])
    ensures forall k | i <= k < position :: !IsMarker(value[k])
    decreases |value| - i
  {
    if i < |value| && !IsMarker(value[i]) then NextMarker(value, i + 1) else i
  }

  predicate AtMarker(value: string, i: nat) {
    i <= |value| && (i < |value| ==> IsMarker(value[i]))
  }

  function PartsFrom(value: string, i: nat): seq<Part>
    requires AtMarker(value, i)
    decreases |value| - i
  {
    if i == |value| then []
    else
      var end := NextMarker(value, i + 1);
      [Part(MarkerNumber(value[i]), value[i..end])] + PartsFrom(value, end)
  }

  /** The text cut at its markers. */
  function ParagraphSlices(value: string): seq<Part> { PartsFrom(value, NextMarker(value, 0)) }

  /** Normalizing a slice of a text that is itself normalized removes the space at its end. */
  function Trimmed(s: string): (trimmed: string)
    ensures trimmed <= s && (trimmed != "" ==> trimmed[|trimmed| - 1] != ' ')
    ensures forall k | |trimmed| <= k < |s| :: s[k] == ' '
  {
    if s != "" && s[|s| - 1] == ' ' then Trimmed(s[..|s| - 1]) else s
  }

  function AllTrimmed(slices: seq<Part>): (parts: seq<Part>)
    ensures |parts| == |slices|
    ensures forall k | 0 <= k < |parts| :: parts[k] == Part(slices[k].number, Trimmed(slices[k].text))
  {
    seq(|slices|, k requires 0 <= k < |slices| => Part(slices[k].number, Trimmed(slices[k].text)))
  }

  /** The paragraphs of a text: its slices, each without the space at its end. */
  function ParagraphParts(value: string): seq<Part> { AllTrimmed(ParagraphSlices(value)) }

  lemma {:induction false} TrimmedKeepsStart(s: string)
    requires s != "" && IsMarker(s[0])
    ensures Trimmed(s) != "" && Trimmed(s)[0] == s[0]
  {
  }

  /** A slice that begins at a marker is never empty once trimmed. */
  lemma OneMoreTrimmed(slices: seq<Part>, value: string, start: nat, end: nat)
    requires start < end <= |value| && IsMarker(value[start])
    ensures var slice := Part(MarkerNumber(value[start]), value[start..end]);
            && Trimmed(slice.text) != ""
            && AllTrimmed(slices + [slice]) == AllTrimmed(slices) + [Part(slice.number, Trimmed(slice.text))]
  {
    TrimmedKeepsStart(value[start..end]);
  }

  lemma {:induction false} OneMorePart(value: string, parts: seq<Part>, i: nat, end: nat)
    requires i < |value| && IsMarker(value[i]) && end == NextMarker(value, i + 1)
    ensures parts + PartsFrom(value, i) == parts + [Part(MarkerNumber(value[i]), value[i..end])] + PartsFrom(value, end)
    ensures end == |value| ==> PartsFrom(value, end) == []
  {
  }

  /** The positions of the markers from `i` on. */
  function MarkersFrom(value: string, i: nat): seq<nat>
    requires AtMarker(value, i)
    decreases |value| - i
  {
    if i == |value| then [] else [i] + MarkersFrom(value, NextMarker(value, i + 1))
  }

  /** Each marker is followed by the next one in the list, the last by the end of the text. */
  lemma {:induction false} MarkerStep(value: string, i: nat, k: nat)
    requires AtMarker(value, i) && k < |MarkersFrom(value, i)|
    ensures var matches := MarkersFrom(value, i);
            && matches[0] == i && matches[k] < |value| && IsMarker(value[matches[k]])
            && NextMarker(value, matches[k] + 1) == if k + 1 < |matches| then matches[k + 1] else |value|
    decreases |value| - i
  {
    hide NextMarker;
    var next := NextMarker(value, i + 1);
    var matches, rest := MarkersFrom(value, i), MarkersFrom(value, next);
    assert matches == [i] + rest;
    if k > 0 {
      MarkerStep(value, next, k - 1);
      assert matches[k] == rest[k - 1];
    } else if rest != [] {
      MarkerStep(value, next, 0);
    }
  }

  method FindMarkers(value: string) returns (matches: seq<nat>)
    ensures matches == MarkersFrom(value, NextMarker(value, 0))
  {
    hide NextMarker;
    matches := [];
    var i := NextMarker(value, 0);
    while i < |value|
      invariant AtMarker(value, i) && matches + MarkersFrom(value, i) == MarkersFrom(value, NextMarker(value, 0))
      decreases |value| - i
    {
      var next := NextMarker(value, i + 1);
      assert matches + ([i] + MarkersFrom(value, next)) == matches + [i] + MarkersFrom(value, next);
      matches := matches + [i];
      i := next;
    }
  }

  /** The slices at the first `index` markers are taken, the rest is still to come. */
  ghost predicate SlicedUpTo(value: string, matches: seq<nat>, index: nat, slices: seq<Part>) {
    && matches == MarkersFrom(value, NextMarker(value, 0)) && index <= |matches|
    && (index < |matches| ==> AtMarker(value, matches[index]))
    && slices + (if index < |matches| then PartsFrom(value, matches[index]) else []) == ParagraphSlices(value)
  }

  lemma {:induction false} NothingSliced(value: string, matches: seq<nat>)
    requires matches == MarkersFrom(value, NextMarker(value, 0))
    ensures SlicedUpTo(value, matches, 0, [])
  {
    hide NextMarker;
    if matches != [] { MarkerStep(value, NextMarker(value, 0), 0); }
  }

  lemma OneMoreSlice(value: string, matches: seq<nat>, index: nat, slices: seq<Part>)
    requires index < |matches| && SlicedUpTo(value, matches, index, slices)
    ensures var start, end := matches[index], if index + 1 < |matches| then matches[index + 1] else |value|;
            && start < end <= |value| && IsMarker(value[start])
            && SlicedUpTo(value, matches, index + 1, slices + [Part(MarkerNumber(value[start]), value[start..end])])
  {
    hide PartsFrom, NextMarker, MarkersFrom, ParagraphSlices;
    var start, end := matches[index], if index + 1 < |matches| then matches[index + 1] else |value|;
    MarkerStep(value, NextMarker(value, 0), index);
    OneMorePart(value, slices, start, end);
  }

  /** Each part runs from its marker to the next one. */
  method SplitParagraphs(value: string) returns (parts: seq<Part>)
    ensures parts == ParagraphParts(value)
  {
    var matches := FindMarkers(value);
    parts := [];
    ghost var slices: seq<Part> := [];
    NothingSliced(value, matches);
    hide PartsFrom, NextMarker, MarkersFrom, Trimmed, AllTrimmed, ParagraphSlices, ParagraphParts, SlicedUpTo;
    for index := 0 to |matches|
      invariant SlicedUpTo(value, matches, index, slices) && parts == AllTrimmed(slices)
    {
      OneMoreSlice(value, matches, index, slices);
      var start, end := matches[index], if index + 1 < |matches| then matches[index + 1] else |value|;
      OneMoreTrimmed(slices, value, start, end);
      var paragraph := Trimmed(value[start..end]);
      if paragraph != "" {
        parts := parts + [Part(MarkerNumber(value[start]), paragraph)];
      }
      slices := slices + [Part(MarkerNumber(value[start]), value[start..end])];
    }
    AllSliced(value, matches, slices);
  }

  lemma AllSliced(value: string, matches: seq<nat>, slices: seq<Part>)
    requires SlicedUpTo(value, matches, |matches|, slices)
    ensures ParagraphParts(value) == AllTrimmed(slices)
  {
    assert slices + [] == slices;
  }

  // ---------------------------------------------------------------- the slices partition the text

  function Joined(parts: seq<Part>): string {
    if parts == [] then "" else parts[0].text + Joined(parts[1..])
  }

  ghost predicate OneMarker(part: Part) {
    && |part.text| > 0 && IsMarker(part.text[0]) && part.number == MarkerNumber(part.text[0])
    && forall k | 1 <= k < |part.text| :: !IsMarker(part.text[k])
  }

  lemma {:induction false} PartsFromPartition(value: string, i: nat)
    requires AtMarker(value, i)
    ensures Joined(PartsFrom(value, i)) == value[i..]
    ensures forall part | part in PartsFrom(value, i) :: OneMarker(part)
    decreases |value| - i
  {
    if i < |value| {
      var end := NextMarker(value, i + 1);
      PartsFromPartition(value, end);
      var parts := PartsFrom(value, i);
      assert parts[1..] == PartsFrom(value, end);
      assert value[i..end] + value[end..] == value[i..];
    }
  }

  /** The parts are exactly the text from its first marker on, cut at every marker. */
  lemma {:induction false} PartsPartition(value: string)
    ensures Joined(ParagraphSlices(value)) == value[NextMarker(value, 0)..]
    ensures forall part | part in ParagraphSlices(value) :: OneMarker(part)
    ensures ParagraphSlices(value) == [] <==> forall k | 0 <= k < |value| :: !IsMarker(value[k])
  {
    PartsFromPartition(value, NextMarker(value, 0));
  }

  /** A part is its slice without the space at the end: it holds the slice's one marker, at its start. */
  lemma PartsAreTrimmedSlices(value: string, k: nat)
    requires k < |ParagraphParts(value)|
    ensures var part, slice := ParagraphParts(value)[k], ParagraphSlices(value)[k];
            && OneMarker(part) && part.number == slice.number && part.text <= slice.text
            && part.text[|part.text| - 1] != ' '
            && forall j | |part.text| <= j < |slice.text| :: slice.text[j] == ' '
  {
    PartsPartition(value);
    hide PartsFrom, NextMarker, Trimmed;
    var slice := ParagraphSlices(value)[k];
    assert slice in ParagraphSlices(value);
    TrimmedKeepsStart(slice.text);
  }

  lemma {:induction false} NextMarkerShift(prefix: string, value: string, i: nat)
    requires i <= |value|
    ensures NextMarker(prefix + value, |prefix| + i) == |prefix| + NextMarker(value, i)
    decreases |value| - i
  {
    if i < |value| && !IsMarker(value[i]) { NextMarkerShift(prefix, value, i + 1); }
  }

  lemma {:induction false} PartsShift(prefix: string, value: string, i: nat)
    requires AtMarker(value, i)
    ensures PartsFrom(prefix + value, |prefix| + i) == PartsFrom(value, i)
    decreases |value| - i
  {
    hide NextMarker, PartsFrom;
    var whole := prefix + value;
    if i == |value| {
      NoParts(whole);
      NoParts(value);
    } else {
      var end := NextMarker(value, i + 1);
      NextMarkerShift(prefix, value, i + 1);
      PartsShift(prefix, value, end);
      assert whole[|prefix| + i] == value[i];
      assert whole[|prefix| + i..|prefix| + end] == value[i..end];
      UnfoldParts(whole, |prefix| + i);
      UnfoldParts(value, i);
    }
  }

  lemma {:induction false} NoParts(value: string)
    ensures PartsFrom(value, |value|) == []
  {
  }

  lemma UnfoldParts(value: string, i: nat)
    requires i < |value| && IsMarker(value[i])
    ensures var end := NextMarker(value, i + 1);
            PartsFrom(value, i) == [Part(MarkerNumber(value[i]), value[i..end])] + PartsFrom(value, end)
  {
  }

  lemma {:induction false} JoinedSplit(parts: seq<Part>)
    requires parts != []
    ensures Joined(parts) == parts[0].text + Joined(parts[1..])
  {
  }

  /** Splitting undoes joining, so a text can be cut in only one way. */
  lemma {:induction false} SplitOfJoined(parts: seq<Part>)
    requires forall part | part in parts :: OneMarker(part)
    ensures ParagraphSlices(Joined(parts)) == parts
  {
    if parts == [] {
      assert Joined(parts) == "";
    } else {
      hide Joined, PartsFrom, NextMarker, OneMarker;
      var head, rest := parts[0], Joined(parts[1..]);
      SplitOfJoined(parts[1..]);
      JoinedSplit(parts);
      JoinedStartsAtMarker(parts);
      JoinedStartsAtMarker(parts[1..]);
      assert OneMarker(head);
      FirstPart(head, rest);
      PartsShift(head.text, rest, 0);
      assert parts == [head] + parts[1..];
    }
  }

  lemma FirstPart(head: Part, rest: string)
    requires OneMarker(head) && AtMarker(rest, 0)
    ensures var whole := head.text + rest;
            NextMarker(whole, 0) == 0 && PartsFrom(whole, 0) == [head] + PartsFrom(whole, |head.text|)
  {
    var whole := head.text + rest;
    hide NextMarker;
    assert forall k | 1 <= k < |head.text| :: whole[k] == head.text[k];
    assert rest != "" ==> whole[|head.text|] == rest[0];
    assert NextMarker(whole, 1) == |head.text|;
    assert whole[0..|head.text|] == head.text;
    StartsAtMarker(whole);
  }

  lemma {:induction false} StartsAtMarker(value: string)
    requires value != "" && IsMarker(value[0])
    ensures NextMarker(value, 0) == 0
  {
  }

  lemma {:induction false} JoinedStartsAtMarker(parts: seq<Part>)
    requires forall part | part in parts :: OneMarker(part)
    ensures AtMarker(Joined(parts), 0) && NextMarker(Joined(parts), 0) == 0
  {
    if parts != [] { assert OneMarker(parts[0]); }
  }
}
