/** Finding links in one masked line. */
module MarkdownLinks {
  import opened Options
  import opened MarkdownCode

  // ---------------------------------------------------------------- closing brackets

  predicate Unescaped(text: string, i: nat, c: char)
    requires i < |text|
  {
    text[i] == c && !IsEscaped(text, i)
  }

  method FindClosingBracket(text: string, start: nat) returns (found: Option<nat>)
    requires start <= |text|
    ensures found.Some? ==> start <= found.value < |text| && Unescaped(text, found.value, ']')
    ensures forall k | start <= k < (if found.Some? then found.value else |text|) :: !Unescaped(text, k, ']')
  {
    hide IsEscaped;
    var index := start;
    while index < |text|
      invariant start <= index <= |text| && forall k | start <= k < index :: !Unescaped(text, k, ']')
    {
      var escaped := CheckEscaped(text, index);
      if text[index] == ']' && !escaped { return Some(index); }
      index := index + 1;
    }
    return None;
  }

  /** Nesting depth before position `i`, starting at one inside an opening parenthesis. */
  function Depth(text: string, start: nat, i: nat): int
    requires start <= i <= |text|
  {
    if i == start then 1
    else Depth(text, start, i - 1)
         + if Unescaped(text, i - 1, '(') then 1 else if Unescaped(text, i - 1, ')') then -1 else 0
  }

  /** The parenthesis at `k` brings the depth to zero for the first time. */
  predicate Closes(text: string, start: nat, k: nat)
    requires start <= |text|
  {
    start <= k < |text| && Depth(text, start, k + 1) == 0 && forall j | start <= j <= k :: Depth(text, start, j) > 0
  }

  method FindClosingParenthesis(text: string, start: nat) returns (found: Option<nat>)
    requires start <= |text|
    ensures found.Some? ==> Closes(text, start, found.value) && Unescaped(text, found.value, ')')
    ensures found.None? ==> forall j | start <= j <= |text| :: Depth(text, start, j) > 0
  {
    hide IsEscaped;
    var depth, index := 1, start;
    while index < |text|
      invariant start <= index <= |text| && depth == Depth(text, start, index) > 0
      invariant forall j | start <= j <= index :: Depth(text, start, j) > 0
      decreases |text| - index
    {
      var character := text[index];
      var escaped := CheckEscaped(text, index);
      assert Depth(text, start, index + 1)
        == depth + if Unescaped(text, index, '(') then 1 else if Unescaped(text, index, ')') then -1 else 0;
      if escaped {
        index := index + 1;
        continue;
      }
      if character == '(' {
        depth := depth + 1;
      } else if character == ')' {
        depth := depth - 1;
        if depth == 0 { return Some(index); }
      }
      index := index + 1;
    }
    return None;
  }

  // ---------------------------------------------------------------- links

  datatype Link = Link(caption: string, target: string, isImage: bool, column: nat)

  datatype Span = Span(start: nat, end: nat)

  /** Text functions of the extractor whose content does not matter here. */
  datatype Texts = Texts(unescape: string -> string, extractTarget: string -> string, referenceKey: string -> string)

  /** A line, its masked form of the same length, and the reference definitions of the document. */
  datatype Source = Source(line: string, masked: string, texts: Texts, definitions: map<string, string>) {
    ghost predicate Valid() { |line| == |masked| }
  }

  predicate ImageAt(masked: string, i: nat)
    requires i < |masked|
  {
    masked[i] == '!' && i + 1 < |masked| && masked[i + 1] == '['
  }

  /** The position of the opening bracket of a link that may start at `i`. */
  function BracketAt(masked: string, i: nat): (bracket: Option<nat>)
    requires i < |masked|
    ensures bracket.Some? ==> i <= bracket.value < |masked| && masked[bracket.value] == '['
  {
    if ImageAt(masked, i) then Some(i + 1) else if masked[i] == '[' then Some(i) else None
  }

  /** The label runs from its bracket to the first unescaped closing bracket. */
  predicate LabelEnds(masked: string, bracket: nat, labelEnd: nat) {
    && bracket < labelEnd < |masked| && Unescaped(masked, labelEnd, ']')
    && forall k | bracket < k < labelEnd :: !Unescaped(masked, k, ']')
  }

  predicate Starts(masked: string, cursor: nat, c: char) {
    cursor < |masked| && masked[cursor] == c
  }

  predicate Defined(definitions: map<string, string>, key: string, target: string) {
    key in definitions && definitions[key] == target
  }

  /** After the label: a parenthesised destination, a bracketed reference, or nothing, and what
      the link then points to. */
  ghost predicate Resolves(s: Source, caption: string, cursor: nat, target: string, end: nat)
    requires s.Valid()
  {
    if Starts(s.masked, cursor, '(') then
      cursor + 1 < end <= |s.masked| && Closes(s.masked, cursor + 1, end - 1) && target == s.texts.extractTarget(s.line[cursor + 1..end - 1])
    else if Starts(s.masked, cursor, '[') then
      cursor + 1 < end <= |s.masked| && LabelEnds(s.masked, cursor, end - 1)
      && Defined(s.definitions, s.texts.referenceKey(if end == cursor + 2 then caption else s.line[cursor + 1..end - 1]), target)
    else cursor == end <= |s.masked| && Defined(s.definitions, s.texts.referenceKey(caption), target)
  }

  ghost predicate Unresolvable(s: Source, caption: string, cursor: nat)
    requires s.Valid()
  {
    forall target, end :: !Resolves(s, caption, cursor, target, end)
  }

  function Caption(s: Source, bracket: nat, labelEnd: nat): string
    requires s.Valid() && bracket < labelEnd <= |s.masked|
  {
    s.texts.unescape(s.line[bracket + 1..labelEnd])
  }

  /** `link` is the link whose first character is at `span.start`. */
  ghost predicate LinkAt(s: Source, span: Span, link: Link)
    requires s.Valid()
  {
    && span.start < |s.masked| && BracketAt(s.masked, span.start).Some?
    && var bracket := BracketAt(s.masked, span.start).value;
       !IsEscaped(s.masked, bracket)
       && exists labelEnd | bracket < labelEnd < span.end && LabelEnds(s.masked, bracket, labelEnd) ::
            Resolves(s, Caption(s, bracket, labelEnd), labelEnd + 1, link.target, span.end)
            && link == Link(Caption(s, bracket, labelEnd), link.target, ImageAt(s.masked, span.start), span.start + 1)
  }

  /** A bracket pair that points nowhere. */
  ghost predicate DeadLabel(s: Source, bracket: nat, labelEnd: nat)
    requires s.Valid()
  {
    && LabelEnds(s.masked, bracket, labelEnd) && Unescaped(s.masked, bracket, '[')
    && Unresolvable(s, Caption(s, bracket, labelEnd), labelEnd + 1)
  }

  ghost predicate InDeadLabel(s: Source, i: nat)
    requires s.Valid()
  {
    exists bracket: nat, labelEnd: nat | bracket <= i <= labelEnd :: DeadLabel(s, bracket, labelEnd)
  }

  predicate Covered(spans: seq<Span>, i: nat) {
    exists span | span in spans :: span.start <= i < span.end
  }

  /** No link starts at `i`. */
  ghost predicate NoLinkAt(s: Source, i: nat)
    requires s.Valid()
  {
    forall end, link :: !LinkAt(s, Span(i, end), link)
  }

  /** Links are disjoint, in order, and found wherever they are: a position before `from` lies
      inside a link, in a dead label, or starts no link. */
  ghost predicate Extracted(s: Source, links: seq<Link>, spans: seq<Span>, from: nat)
    requires s.Valid()
  {
    && |links| == |spans|
    && (forall a | 0 <= a < |spans| :: LinkAt(s, spans[a], links[a]) && spans[a].start < spans[a].end <= from)
    && (forall a, b | 0 <= a < b < |spans| :: spans[a].end <= spans[b].start)
    && (forall i | 0 <= i < from :: Covered(spans, i) || InDeadLabel(s, i) || NoLinkAt(s, i))
  }

  /** The destination after a label: its target, if there is one, and where it ends. */
  method FindDestination(s: Source, caption: string, cursor: nat) returns (target: Option<string>, end: nat)
    requires s.Valid() && cursor <= |s.masked|
    ensures target.Some? ==> Resolves(s, caption, cursor, target.value, end) && cursor <= end <= |s.masked|
    ensures target.None? ==> Unresolvable(s, caption, cursor)
  {
    hide IsEscaped, Depth;
    target, end := None, cursor;
    if cursor < |s.masked| && s.masked[cursor] == '(' {
      var closing := FindClosingParenthesis(s.masked, cursor + 1);
      if closing.Some? {
        target, end := Some(s.texts.extractTarget(s.line[cursor + 1..closing.value])), closing.value + 1;
      } else {
        NeverCloses(s.masked, cursor + 1);
      }
    } else if cursor < |s.masked| && s.masked[cursor] == '[' {
      var referenceEnd := FindClosingBracket(s.masked, cursor + 1);
      if referenceEnd.Some? {
        var reference := s.line[cursor + 1..referenceEnd.value];
        var key := s.texts.referenceKey(if reference == "" then caption else reference);
        target, end := if key in s.definitions then Some(s.definitions[key]) else None, referenceEnd.value + 1;
        ReferenceEnds(s, caption, cursor, referenceEnd.value);
      }
    } else {
      var key := s.texts.referenceKey(caption);
      target := if key in s.definitions then Some(s.definitions[key]) else None;
    }
  }

  lemma NeverCloses(text: string, start: nat)
    requires start <= |text| && forall j | start <= j <= |text| :: Depth(text, start, j) > 0
    ensures forall k :: !Closes(text, start, k)
  {
    hide Depth;
  }

  /** A bracketed reference ends at one place only. */
  lemma ReferenceEnds(s: Source, caption: string, cursor: nat, referenceEnd: nat)
    requires s.Valid() && Starts(s.masked, cursor, '[') && LabelEnds(s.masked, cursor, referenceEnd)
    ensures forall target, end | Resolves(s, caption, cursor, target, end) :: end == referenceEnd + 1
  {
    hide IsEscaped;
  }

  lemma LabelInBounds(masked: string, bracket: nat)
    ensures forall k: nat | LabelEnds(masked, bracket, k) :: bracket < k < |masked|
  {
    hide IsEscaped;
  }

  lemma LabelEndsOnce(masked: string, bracket: nat, a: nat, b: nat)
    requires LabelEnds(masked, bracket, a) && LabelEnds(masked, bracket, b)
    ensures a == b
  {
    hide IsEscaped;
  }

  method FindLabelEnd(masked: string, bracket: nat) returns (labelEnd: Option<nat>)
    requires bracket < |masked|
    ensures labelEnd.Some? ==> bracket < labelEnd.value < |masked| && LabelEnds(masked, bracket, labelEnd.value)
    ensures labelEnd.None? ==> forall k :: !LabelEnds(masked, bracket, k)
  {
    labelEnd := FindClosingBracket(masked, bracket + 1);
  }

  method ExtractLineLinks(s: Source) returns (links: seq<Link>, spans: seq<Span>)
    requires s.Valid()
    ensures Extracted(s, links, spans, |s.masked|)
  {
    links, spans := [], [];
    var index := 0;
    hide IsEscaped, LabelEnds, Resolves, Unresolvable, Extracted;
    NothingExtracted(s);
    while index < |s.masked|
      invariant index <= |s.masked| && Extracted(s, links, spans, index)
      decreases |s.masked| - index
    {
      var found := BracketAt(s.masked, index);
      if found.None? {
        SkipOne(s, links, spans, index);
        index := index + 1;
        continue;
      }
      var bracket := found.value;
      var escaped := CheckEscaped(s.masked, bracket);
      if escaped {
        SkipBracket(s, links, spans, index, bracket);
        index := bracket + 1;
        continue;
      }
      var labelEnd := FindLabelEnd(s.masked, bracket);
      if labelEnd.None? {
        SkipBracket(s, links, spans, index, bracket);
        index := bracket + 1;
        continue;
      }
      var caption := s.texts.unescape(s.line[bracket + 1..labelEnd.value]);
      var cursor := labelEnd.value + 1;
      var target, end := FindDestination(s, caption, cursor);
      if target.None? {
        SkipLabel(s, links, spans, index, bracket, labelEnd.value);
        index := cursor;
        continue;
      }
      OneMoreLink(s, links, spans, index, bracket, labelEnd.value, target.value, end);
      links := links + [Link(caption, target.value, ImageAt(s.masked, index), index + 1)];
      spans := spans + [Span(index, end)];
      index := end;
    }
  }

  lemma NothingExtracted(s: Source)
    requires s.Valid()
    ensures Extracted(s, [], [], 0)
  {
  }

  lemma SkipOne(s: Source, links: seq<Link>, spans: seq<Span>, index: nat)
    requires s.Valid() && index < |s.masked| && Extracted(s, links, spans, index) && BracketAt(s.masked, index).None?
    ensures Extracted(s, links, spans, index + 1)
  {
    hide IsEscaped, LabelEnds, Resolves, InDeadLabel, Covered, ImageAt, BracketAt;
    assert NoLinkAt(s, index);
  }

  /** A bracket that is escaped or never closed starts no link, with or without its exclamation mark. */
  lemma SkipBracket(s: Source, links: seq<Link>, spans: seq<Span>, index: nat, bracket: nat)
    requires s.Valid() && index < |s.masked| && Extracted(s, links, spans, index) && BracketAt(s.masked, index) == Some(bracket)
    requires IsEscaped(s.masked, bracket) || forall k :: !LabelEnds(s.masked, bracket, k)
    ensures Extracted(s, links, spans, bracket + 1)
  {
    hide IsEscaped, LabelEnds, Resolves, InDeadLabel, Covered, NoLinkAt;
    NoLinkFrom(s, index, bracket);
    if index < bracket {
      assert BracketAt(s.masked, bracket) == Some(bracket);
      NoLinkFrom(s, bracket, bracket);
    }
  }

  lemma NoLinkFrom(s: Source, index: nat, bracket: nat)
    requires s.Valid() && index < |s.masked| && BracketAt(s.masked, index) == Some(bracket)
    requires IsEscaped(s.masked, bracket) || forall k :: !LabelEnds(s.masked, bracket, k)
    ensures NoLinkAt(s, index)
  {
    hide IsEscaped, LabelEnds, Resolves;
  }

  lemma SkipLabel(s: Source, links: seq<Link>, spans: seq<Span>, index: nat, bracket: nat, labelEnd: nat)
    requires s.Valid() && index < |s.masked| && Extracted(s, links, spans, index) && BracketAt(s.masked, index) == Some(bracket)
    requires DeadLabel(s, bracket, labelEnd)
    ensures Extracted(s, links, spans, labelEnd + 1)
  {
    NoDeadLink(s, index, bracket, labelEnd);
    LabelInBounds(s.masked, bracket);
    hide DeadLabel, LinkAt, Covered, NoLinkAt, ImageAt;
    forall i: nat | bracket <= i < labelEnd + 1
      ensures InDeadLabel(s, i)
    {
      assert DeadLabel(s, bracket, labelEnd);
    }
  }

  lemma NoDeadLink(s: Source, index: nat, bracket: nat, labelEnd: nat)
    requires s.Valid() && index < |s.masked| && BracketAt(s.masked, index) == Some(bracket)
    requires DeadLabel(s, bracket, labelEnd)
    ensures NoLinkAt(s, index)
  {
    hide IsEscaped, LabelEnds, Resolves;
    LabelInBounds(s.masked, bracket);
    forall end: nat, link
      ensures !LinkAt(s, Span(index, end), link)
    {
      if LinkAt(s, Span(index, end), link) {
        var other :| bracket < other < end && LabelEnds(s.masked, bracket, other)
          && Resolves(s, Caption(s, bracket, other), other + 1, link.target, end);
        LabelEndsOnce(s.masked, bracket, labelEnd, other);
      }
    }
  }

  lemma OneMoreLink(s: Source, links: seq<Link>, spans: seq<Span>, index: nat, bracket: nat, labelEnd: nat, target: string, end: nat)
    requires s.Valid() && index < |s.masked| && Extracted(s, links, spans, index) && BracketAt(s.masked, index) == Some(bracket)
    requires !IsEscaped(s.masked, bracket) && LabelEnds(s.masked, bracket, labelEnd) && labelEnd < end <= |s.masked|
    requires Resolves(s, Caption(s, bracket, labelEnd), labelEnd + 1, target, end)
    ensures Extracted(s, links + [Link(Caption(s, bracket, labelEnd), target, ImageAt(s.masked, index), index + 1)],
                      spans + [Span(index, end)], end)
  {
    hide IsEscaped, LabelEnds, Resolves, InDeadLabel, NoLinkAt;
    LabelInBounds(s.masked, bracket);
    var span, link := Span(index, end), Link(Caption(s, bracket, labelEnd), target, ImageAt(s.masked, index), index + 1);
    assert LinkAt(s, span, link);
    hide LinkAt;
    var more := spans + [span];
    assert span in more && forall x | x in spans :: x in more;
  }

  /** What starts at a position is determined: a link there has one end and one target. */
  lemma LinkIsUnique(s: Source, start: nat, end: nat, end': nat, link: Link, link': Link)
    requires s.Valid() && LinkAt(s, Span(start, end), link) && LinkAt(s, Span(start, end'), link')
    ensures end == end' && link == link'
  {
    hide IsEscaped, Resolves;
    var bracket := BracketAt(s.masked, start).value;
    var a :| bracket < a < end && LabelEnds(s.masked, bracket, a) && Resolves(s, Caption(s, bracket, a), a + 1, link.target, end);
    var b :| bracket < b < end' && LabelEnds(s.masked, bracket, b) && Resolves(s, Caption(s, bracket, b), b + 1, link'.target, end');
    LabelEndsOnce(s.masked, bracket, a, b);
    ResolvesOnce(s, Caption(s, bracket, a), a + 1, link.target, end, link'.target, end');
  }

  lemma ResolvesOnce(s: Source, caption: string, cursor: nat, target: string, end: nat, target': string, end': nat)
    requires s.Valid() && Resolves(s, caption, cursor, target, end) && Resolves(s, caption, cursor, target', end')
    ensures end == end' && target == target'
  {
    hide IsEscaped, Depth;
    if Starts(s.masked, cursor, '(') {
      ClosesOnce(s.masked, cursor + 1, end - 1, end' - 1);
    } else if Starts(s.masked, cursor, '[') {
      LabelEndsOnce(s.masked, cursor, end - 1, end' - 1);
    }
  }

  lemma ClosesOnce(text: string, start: nat, a: nat, b: nat)
    requires start <= |text| && Closes(text, start, a) && Closes(text, start, b)
    ensures a == b
  {
    hide Depth;
    assert Depth(text, start, a + 1) == 0 && Depth(text, start, b + 1) == 0;
  }
}
