/** Fenced regions of a document, and how its opening fences differ from section 4.5 of CommonMark. */
module MarkdownFences {
  import opened Options

  // ---------------------------------------------------------------- fence lines

  /** A line holds no line break. */
  datatype Fence = Fence(character: char, length: nat, language: string)

  /** The first position, from `i` on, that does not hold `c`. */
  function RunEnd(line: string, i: nat, c: char): (end: nat)
    requires i <= |line|
    ensures i <= end <= |line| && (end < |line| ==> line[end] != c)
    ensures forall k | i <= k < end :: line[k] == c
    decreases |line| - i
  {
    if i < |line| && line[i] == c then RunEnd(line, i + 1, c) else i
  }

  function Indent(line: string): (indent: nat)
    ensures indent <= |line| && (indent < |line| ==> line[indent] != ' ') && forall k | 0 <= k < indent :: line[k] == ' '
  {
    RunEnd(line, 0, ' ')
  }

  predicate FenceCharacter(c: char) { c == '`' || c == '~' }

  /** At most three spaces, then at least three backticks or at least three tildes. */
  predicate Opens(line: string) {
    && Indent(line) <= 3 && Indent(line) < |line| && FenceCharacter(line[Indent(line)])
    && RunEnd(line, Indent(line), line[Indent(line)]) - Indent(line) >= 3
  }

  /** What follows the fence, the info string. */
  function Info(line: string): string
    requires Opens(line)
  {
    line[RunEnd(line, Indent(line), line[Indent(line)])..]
  }

  /** The opening pattern of the code; `language` takes the first word of the info string. */
  function Opening(line: string, language: string -> string): Option<Fence> {
    if Opens(line)
    then Some(Fence(line[Indent(line)], RunEnd(line, Indent(line), line[Indent(line)]) - Indent(line), language(Info(line))))
    else None
  }

  /** At most three spaces, at least as many fence characters, and then only spaces and tabs. */
  predicate Closes(line: string, c: char, length: nat) {
    var indent := Indent(line);
    var end := RunEnd(line, indent, c);
    indent <= 3 && end - indent >= length && forall k | end <= k < |line| :: line[k] == ' ' || line[k] == '\t'
  }

  /** A line opens a fence exactly when three equal fence characters follow at most three spaces. */
  lemma OpensMeans(line: string)
    ensures Opens(line) <==> exists i | 0 <= i <= 3 && i + 3 <= |line| ::
              (forall k | 0 <= k < i :: line[k] == ' ') && FenceCharacter(line[i]) && line[i] == line[i + 1] == line[i + 2]
  {
    forall i | 0 <= i <= 3 && i + 3 <= |line| && (forall k | 0 <= k < i :: line[k] == ' ') && FenceCharacter(line[i])
      && line[i] == line[i + 1] == line[i + 2]
      ensures Opens(line)
    {
      assert Indent(line) == i;
      assert RunEnd(line, i, line[i]) >= i + 3;
    }
    if Opens(line) {
      var i := Indent(line);
      assert line[i] == line[i + 1] == line[i + 2];
    }
  }

  // ---------------------------------------------------------------- section 4.5 of CommonMark

  /** A code fence of the standard: up to three spaces of indentation and a whole sequence of at least
      three backticks or tildes; the info string of a backtick fence holds no backtick. */
  ghost predicate StandardFence(line: string, indent: nat, c: char, length: nat) {
    && indent <= 3 && length >= 3 && indent + length <= |line| && FenceCharacter(c)
    && (forall k | 0 <= k < indent :: line[k] == ' ')
    && (forall k | indent <= k < indent + length :: line[k] == c)
    && (indent + length < |line| ==> line[indent + length] != c)
    && (c == '`' ==> '`' !in line[indent + length..])
  }

  /** The line opens `fence` by the standard. */
  ghost predicate StandardOpens(line: string, language: string -> string, fence: Fence) {
    exists indent: nat :: StandardFence(line, indent, fence.character, fence.length)
      && fence.language == language(line[indent + fence.length..])
  }

  /** A backtick fence whose info string holds a backtick. */
  predicate TickedInfo(line: string) { Opens(line) && line[Indent(line)] == '`' && '`' in Info(line) }

  function StandardOpening(line: string, language: string -> string): Option<Fence> {
    if TickedInfo(line) then None else Opening(line, language)
  }

  lemma {:induction false} StandardFenceIsOpening(line: string, indent: nat, c: char, length: nat)
    requires StandardFence(line, indent, c, length)
    ensures Opens(line) && indent == Indent(line) && c == line[indent] && indent + length == RunEnd(line, indent, c)
    ensures !TickedInfo(line)
  {
    assert line[indent] == c;
    assert Indent(line) == indent && RunEnd(line, indent, c) == indent + length;
  }

  lemma StandardOpeningMeans(line: string, language: string -> string, fence: Fence)
    ensures StandardOpening(line, language) == Some(fence) <==> StandardOpens(line, language, fence)
  {
    if StandardOpens(line, language, fence) {
      var indent: nat :| StandardFence(line, indent, fence.character, fence.length) && fence.language == language(line[indent + fence.length..]);
      StandardFenceIsOpening(line, indent, fence.character, fence.length);
    }
    if StandardOpening(line, language) == Some(fence) {
      assert StandardFence(line, Indent(line), fence.character, fence.length);
    }
  }

  /** The code and the standard agree on a line exactly when it is not a backtick fence with a backtick
      in its info string. */
  lemma OpenersAgree(line: string, language: string -> string)
    ensures (forall fence :: Opening(line, language) == Some(fence) <==> StandardOpens(line, language, fence)) <==> !TickedInfo(line)
  {
    forall fence
      ensures StandardOpening(line, language) == Some(fence) <==> StandardOpens(line, language, fence)
    {
      StandardOpeningMeans(line, language, fence);
    }
    if TickedInfo(line) {
      var fence := Opening(line, language).value;
      assert !StandardOpens(line, language, fence);
    }
  }

  /** A closing fence of the standard: up to three spaces, at least as many of the fence characters as the
      opening fence has, and then only spaces and tabs. */
  ghost predicate StandardClosing(line: string, c: char, length: nat, indent: nat, closing: nat) {
    && indent <= 3 && closing >= length && indent + closing <= |line|
    && (forall k | 0 <= k < indent :: line[k] == ' ')
    && (forall k | indent <= k < indent + closing :: line[k] == c)
    && (forall k | indent + closing <= k < |line| :: line[k] == ' ' || line[k] == '\t')
  }

  ghost predicate StandardCloses(line: string, c: char, length: nat) {
    exists indent: nat, closing: nat :: StandardClosing(line, c, length, indent, closing)
  }

  /** The closing pattern of the code is the closing fence of the standard. */
  lemma ClosersAgree(line: string, c: char, length: nat)
    requires FenceCharacter(c) && length >= 1
    ensures Closes(line, c, length) <==> StandardCloses(line, c, length)
  {
    if Closes(line, c, length) {
      var indent := Indent(line);
      assert StandardClosing(line, c, length, indent, RunEnd(line, indent, c) - indent);
    }
    if StandardCloses(line, c, length) {
      var indent: nat, closing: nat :| StandardClosing(line, c, length, indent, closing);
      assert line[indent] == c;
      assert Indent(line) == indent;
      assert RunEnd(line, indent, c) == indent + closing by {
        assert forall k | indent <= k < indent + closing :: line[k] == c;
        assert indent + closing < |line| ==> line[indent + closing] != c;
      }
    }
  }

  const TICKED_LINE := "``` a`b"

  /** A line that opens a fence for the code and none by the standard. */
  lemma TickedLineOpens(language: string -> string)
    ensures Opening(TICKED_LINE, language) == Some(Fence('`', 3, language(" a`b")))
    ensures forall fence :: !StandardOpens(TICKED_LINE, language, fence)
  {
    var line := TICKED_LINE;
    assert Indent(line) == 0 && RunEnd(line, 3, '`') == 3 && RunEnd(line, 2, '`') == 3 && RunEnd(line, 1, '`') == 3;
    assert line[3..] == " a`b" && line[3..][2] == '`';
    forall fence
      ensures !StandardOpens(line, language, fence)
    {
      StandardOpeningMeans(line, language, fence);
    }
  }

  // ---------------------------------------------------------------- regions

  datatype Region = Region(start: nat, end: nat, closed: bool, language: string)

  datatype CommandBlock = CommandBlock(language: string, lines: seq<string>, startLine: nat)

  const COMMAND_LANGUAGES: set<string> := {"powershell", "pwsh", "bash", "sh", "shell", "console", "text"}

  /** What opens and what closes a region. */
  datatype Patterns = Patterns(opens: string -> Option<Fence>, closes: (string, char, nat) -> bool)

  function CodePatterns(language: string -> string): Patterns { Patterns((line: string) => Opening(line, language), Closes) }

  ghost function StandardPatterns(language: string -> string): Patterns {
    Patterns((line: string) => StandardOpening(line, language),
             (line: string, c: char, length: nat) => StandardCloses(line, c, length))
  }

  function CloseFrom(lines: seq<string>, p: Patterns, fence: Fence, i: nat): (close: nat)
    requires i <= |lines|
    ensures i <= close <= |lines|
    ensures close < |lines| ==> p.closes(lines[close], fence.character, fence.length)
    ensures forall k | i <= k < close :: !p.closes(lines[k], fence.character, fence.length)
    decreases |lines| - i
  {
    if i < |lines| && !p.closes(lines[i], fence.character, fence.length) then CloseFrom(lines, p, fence, i + 1) else i
  }

  /** `region` runs from an opening fence to its first closing fence, or to the end of the document. */
  ghost predicate FencedRegion(lines: seq<string>, p: Patterns, region: Region) {
    && region.start < region.end <= |lines| && p.opens(lines[region.start]).Some?
    && var fence := p.opens(lines[region.start]).value;
       var close := CloseFrom(lines, p, fence, region.start + 1);
       && region.language == fence.language && region.closed == (close < |lines|)
       && region.end == if close < |lines| then close + 1 else |lines|
  }

  function Range(start: nat, end: nat): (range: set<nat>)
    ensures forall k :: k in range <==> start <= k < end
    decreases end - start
  {
    if start < end then {start} + Range(start + 1, end) else {}
  }

  predicate Inside(regions: seq<Region>, k: int) {
    exists r | r in regions :: r.start <= k < r.end
  }

  /** The lines strictly inside a region: without its fences. */
  function InsideEnd(region: Region): int { if region.closed then region.end - 1 else region.end }

  function RegionAt(lines: seq<string>, p: Patterns, start: nat): (region: Region)
    requires start < |lines| && p.opens(lines[start]).Some?
    ensures region.start == start && start < region.end <= |lines|
  {
    var fence := p.opens(lines[start]).value;
    var close := CloseFrom(lines, p, fence, start + 1);
    Region(start, if close < |lines| then close + 1 else |lines|, close < |lines|, fence.language)
  }

  /** The fenced regions from line `i` on. */
  function Regions(lines: seq<string>, p: Patterns, i: nat): (regions: seq<Region>)
    requires i <= |lines|
    decreases |lines| - i
  {
    if i == |lines| then []
    else if p.opens(lines[i]).None? then Regions(lines, p, i + 1)
    else [RegionAt(lines, p, i)] + Regions(lines, p, RegionAt(lines, p, i).end)
  }

  /** An empty slice where the bounds are out of order. */
  function Slice(lines: seq<string>, start: int, end: int): seq<string> {
    if 0 <= start <= end <= |lines| then lines[start..end] else []
  }

  function BlockIn(lines: seq<string>, region: Region): CommandBlock {
    CommandBlock(region.language, Slice(lines, region.start + 1, InsideEnd(region)), region.start + 2)
  }

  /** The insides of the regions in a command language, in order. */
  function Commands(lines: seq<string>, regions: seq<Region>): seq<CommandBlock> {
    if regions == [] then []
    else Command(lines, regions[0]) + Commands(lines, regions[1..])
  }

  /** Regions are in order and disjoint, each runs to its first closing fence, and no line outside
      them opens one. */
  ghost predicate Partitioned(lines: seq<string>, p: Patterns, regions: seq<Region>, i: nat) {
    && (forall r | r in regions :: FencedRegion(lines, p, r) && i <= r.start)
    && (forall a, b | 0 <= a < b < |regions| :: regions[a].end <= regions[b].start)
    && (forall k | i <= k < |lines| && !Inside(regions, k) :: p.opens(lines[k]).None?)
  }

  lemma {:induction false} RegionsAreFenced(lines: seq<string>, p: Patterns, i: nat)
    requires i <= |lines|
    ensures Partitioned(lines, p, Regions(lines, p, i), i)
    decreases |lines| - i
  {
    hide Partitioned, FencedRegion;
    if i == |lines| {
      NoRegion(lines, p);
    } else if p.opens(lines[i]).None? {
      RegionsAreFenced(lines, p, i + 1);
      NoFence(lines, p, Regions(lines, p, i + 1), i);
    } else {
      RegionsAreFenced(lines, p, RegionAt(lines, p, i).end);
      FirstRegion(lines, p, Regions(lines, p, RegionAt(lines, p, i).end), i);
    }
  }

  lemma NoRegion(lines: seq<string>, p: Patterns)
    ensures Partitioned(lines, p, [], |lines|)
  {
  }

  lemma NoFence(lines: seq<string>, p: Patterns, regions: seq<Region>, i: nat)
    requires i < |lines| && p.opens(lines[i]).None? && Partitioned(lines, p, regions, i + 1)
    ensures Partitioned(lines, p, regions, i)
  {
    hide FencedRegion;
  }

  lemma FirstRegion(lines: seq<string>, p: Patterns, rest: seq<Region>, i: nat)
    requires i < |lines| && p.opens(lines[i]).Some? && Partitioned(lines, p, rest, RegionAt(lines, p, i).end)
    ensures Partitioned(lines, p, [RegionAt(lines, p, i)] + rest, i)
  {
    var first := RegionAt(lines, p, i);
    assert FencedRegion(lines, p, first);
    hide FencedRegion, RegionAt, Inside;
    var regions := [first] + rest;
    assert forall r :: r in regions <==> r == first || r in rest;
    assert forall a, b | 0 <= a < b < |regions| :: regions[a].end <= regions[b].start by {
      assert forall b | 0 < b < |regions| :: regions[b] in rest;
    }
    InsideFirst(first, rest);
  }

  lemma InsideFirst(first: Region, rest: seq<Region>)
    ensures forall k :: Inside([first] + rest, k) <==> first.start <= k < first.end || Inside(rest, k)
  {
    var regions := [first] + rest;
    assert first in regions && forall r | r in rest :: r in regions;
  }

  /** Each command block is the inside of a region in a command language, and each such region
      gives its block. */
  lemma {:induction false} CommandsAreInsides(lines: seq<string>, regions: seq<Region>)
    ensures forall block | block in Commands(lines, regions) ::
              exists r | r in regions :: r.language in COMMAND_LANGUAGES && block == BlockIn(lines, r)
    ensures forall r | r in regions && r.language in COMMAND_LANGUAGES :: BlockIn(lines, r) in Commands(lines, regions)
  {
    if regions != [] {
      CommandsAreInsides(lines, regions[1..]);
      assert regions[0] in regions && forall r | r in regions[1..] :: r in regions;
    }
  }

  /** The block a region gives: its language, the lines between its fences, and the number of the first
      of them, counted from one. */
  ghost predicate Fills(lines: seq<string>, region: Region, block: CommandBlock) {
    var end := if region.closed then region.end - 1 else region.end;
    && region.language in {"powershell", "pwsh", "bash", "sh", "shell", "console", "text"}
    && block == CommandBlock(region.language, if 0 <= region.start + 1 <= end <= |lines| then lines[region.start + 1..end] else [],
                             region.start + 2)
  }

  /** The blocks are those of the regions at `at`, in their order: exactly the regions in a command
      language. */
  ghost predicate BlocksAt(lines: seq<string>, regions: seq<Region>, blocks: seq<CommandBlock>, at: seq<nat>) {
    && |at| == |blocks|
    && (forall k | 0 <= k < |at| :: at[k] < |regions| && Fills(lines, regions[at[k]], blocks[k]))
    && (forall k, l | 0 <= k < l < |at| :: at[k] < at[l])
    && (forall i | 0 <= i < |regions| ::
          i in at <==> regions[i].language in {"powershell", "pwsh", "bash", "sh", "shell", "console", "text"})
  }

  lemma {:induction false} CommandsInOrder(lines: seq<string>, regions: seq<Region>) returns (at: seq<nat>)
    ensures BlocksAt(lines, regions, Commands(lines, regions), at)
  {
    at := [];
    if regions == [] {
      assert Commands(lines, regions) == [];
    } else {
      var most, last := regions[..|regions| - 1], regions[|regions| - 1];
      var before := CommandsInOrder(lines, most);
      CommandsSplit(lines, most, last);
      assert most + [last] == regions;
      at := before + if last.language in COMMAND_LANGUAGES then [|most|] else [];
      BlocksMore(lines, most, last, Commands(lines, most), before);
    }
  }

  lemma BlocksMore(lines: seq<string>, regions: seq<Region>, last: Region, blocks: seq<CommandBlock>, at: seq<nat>)
    requires BlocksAt(lines, regions, blocks, at)
    ensures BlocksAt(lines, regions + [last], blocks + Command(lines, last),
                     at + if last.language in COMMAND_LANGUAGES then [|regions|] else [])
  {
    var more := at + if last.language in COMMAND_LANGUAGES then [|regions|] else [];
    assert |regions| !in at;
    assert last.language in COMMAND_LANGUAGES ==> Fills(lines, last, BlockIn(lines, last));
    hide Fills, BlockIn;
    assert forall i :: i in more <==> i in at || (i == |regions| && last.language in COMMAND_LANGUAGES);
  }

  function Command(lines: seq<string>, region: Region): seq<CommandBlock> {
    if region.language in COMMAND_LANGUAGES then [BlockIn(lines, region)] else []
  }

  lemma {:induction false} CommandsSplit(lines: seq<string>, some: seq<Region>, last: Region)
    ensures Commands(lines, some + [last]) == Commands(lines, some) + Command(lines, last)
  {
    hide BlockIn, Command;
    var all := some + [last];
    if some == [] {
      assert all == [last] && all[1..] == [];
    } else {
      assert all[0] == some[0] && all[1..] == some[1..] + [last];
      CommandsSplit(lines, some[1..], last);
      SplitOff(Command(lines, some[0]), Commands(lines, some[1..]), Command(lines, last));
    }
  }

  method FenceRangesAndCommands(lines: seq<string>, language: string -> string) returns (blocked: set<nat>, blocks: seq<CommandBlock>)
    ensures forall k :: k in blocked <==> Inside(Regions(lines, CodePatterns(language), 0), k)
    ensures blocks == Commands(lines, Regions(lines, CodePatterns(language), 0))
  {
    ghost var p := CodePatterns(language);
    blocked, blocks := {}, [];
    var index := 0;
    ghost var done: seq<Region> := [];
    NothingInside(lines);
    NothingLeft(lines, p);
    hide Commands, Inside, Opening, Closes, CloseFrom, CodePatterns, Range, RegionAt, BlockIn, Command, Regions;
    while index < |lines|
      invariant index <= |lines| && Regions(lines, p, 0) == done + Regions(lines, p, index)
      invariant forall k :: k in blocked <==> Inside(done, k)
      invariant blocks == Commands(lines, done)
      decreases |lines| - index
    {
      var opening := Opening(lines[index], language);
      NextRegion(lines, language, index);
      if opening.None? {
        index := index + 1;
        continue;
      }
      var fence := opening.value;
      var closingIndex := FindClosing(lines, language, fence, index + 1);
      var contentEnd := if closingIndex < |lines| then closingIndex else |lines|;
      ghost var region := RegionAt(lines, p, index);
      blocked := blocked + Range(index, if closingIndex < |lines| then closingIndex + 1 else |lines|);
      if fence.language in COMMAND_LANGUAGES {
        blocks := blocks + [CommandBlock(fence.language, lines[index + 1..contentEnd], index + 2)];
      }
      OneMoreRegion(lines, done, region);
      SplitOff(done, [region], Regions(lines, p, region.end));
      index := if closingIndex < |lines| then closingIndex + 1 else |lines|;
      done := done + [region];
    }
    assert done == Regions(lines, p, 0);
  }

  /** What the next line adds to the regions. */
  lemma NextRegion(lines: seq<string>, language: string -> string, index: nat)
    requires index < |lines|
    ensures var p, opening := CodePatterns(language), Opening(lines[index], language);
            && p.opens(lines[index]) == opening
            && (opening.None? ==> Regions(lines, p, index) == Regions(lines, p, index + 1))
            && (opening.Some? ==>
                  var region, close := RegionAt(lines, p, index), CloseFrom(lines, p, opening.value, index + 1);
                  var content := if close < |lines| then close else |lines|;
                  && Regions(lines, p, index) == [region] + Regions(lines, p, region.end)
                  && region.end == (if close < |lines| then close + 1 else |lines|)
                  && Command(lines, region)
                     == if opening.value.language in COMMAND_LANGUAGES
                        then [CommandBlock(opening.value.language, lines[index + 1..content], index + 2)] else [])
  {
    hide Opening, CloseFrom, Closes;
  }

  method FindClosing(lines: seq<string>, language: string -> string, fence: Fence, start: nat) returns (closing: nat)
    requires start <= |lines|
    ensures closing == CloseFrom(lines, CodePatterns(language), fence, start)
  {
    closing := start;
    while closing < |lines| && !Closes(lines[closing], fence.character, fence.length)
      invariant start <= closing <= |lines|
      invariant CloseFrom(lines, CodePatterns(language), fence, start) == CloseFrom(lines, CodePatterns(language), fence, closing)
    {
      closing := closing + 1;
    }
  }

  lemma {:induction false} NothingLeft(lines: seq<string>, p: Patterns)
    ensures Regions(lines, p, |lines|) == []
  {
  }

  lemma {:induction false} NothingInside(lines: seq<string>)
    ensures Commands(lines, []) == [] && forall k :: !Inside([], k)
  {
  }

  lemma SplitOff<T>(done: seq<T>, next: seq<T>, rest: seq<T>)
    ensures done + (next + rest) == (done + next) + rest
  {
  }

  lemma {:induction false} OneMoreRegion(lines: seq<string>, done: seq<Region>, region: Region)
    ensures forall k :: Inside(done + [region], k) <==> Inside(done, k) || region.start <= k < region.end
    ensures Commands(lines, done + [region])
            == Commands(lines, done) + Command(lines, region)
  {
    hide BlockIn, Command, Commands;
    var more := done + [region];
    assert region in more && forall r | r in done :: r in more;
    CommandsSplit(lines, done, region);
  }

  // ---------------------------------------------------------------- the code and the standard on a document

  /** Every backtick fence whose info string holds a backtick, from line `i` on, is inside one of `regions`. */
  ghost predicate TickedInside(lines: seq<string>, regions: seq<Region>, i: nat) {
    forall k | i <= k < |lines| && TickedInfo(lines[k]) :: Inside(regions, k)
  }

  lemma {:induction false} SameClosing(lines: seq<string>, language: string -> string, fence: Fence, i: nat)
    requires i <= |lines| && FenceCharacter(fence.character) && fence.length >= 1
    ensures CloseFrom(lines, CodePatterns(language), fence, i) == CloseFrom(lines, StandardPatterns(language), fence, i)
    decreases |lines| - i
  {
    hide Closes, StandardCloses;
    if i < |lines| {
      ClosersAgree(lines[i], fence.character, fence.length);
      SameClosing(lines, language, fence, i + 1);
    }
  }

  lemma OpenedFence(line: string, language: string -> string)
    requires Opening(line, language).Some?
    ensures FenceCharacter(Opening(line, language).value.character) && Opening(line, language).value.length >= 3
    ensures StandardOpening(line, language) == if TickedInfo(line) then None else Opening(line, language)
  {
  }

  /** A line before all of `regions` is inside none. */
  lemma {:induction false} RegionsStartAt(lines: seq<string>, p: Patterns, i: nat, k: nat)
    requires k < i <= |lines|
    ensures !Inside(Regions(lines, p, i), k)
  {
    hide Regions, FencedRegion;
    RegionsAreFenced(lines, p, i);
  }

  lemma {:induction false} RegionsAgreeFrom(lines: seq<string>, language: string -> string, i: nat)
    requires i <= |lines| && TickedInside(lines, Regions(lines, StandardPatterns(language), i), i)
    ensures Regions(lines, CodePatterns(language), i) == Regions(lines, StandardPatterns(language), i)
    decreases |lines| - i
  {
    hide Opening, TickedInfo, Closes, CloseFrom, StandardCloses, StandardOpening, Inside, RegionAt;
    var code, standard := CodePatterns(language), StandardPatterns(language);
    if i == |lines| {
    } else if code.opens(lines[i]).None? {
      NoCodeOpening(lines[i], language);
      RegionsAgreeFrom(lines, language, i + 1);
    } else {
      OpenedFence(lines[i], language);
      if TickedInfo(lines[i]) { TickedIsSkipped(lines, language, i); }
      SameRegion(lines, language, i);
      var first := RegionAt(lines, standard, i);
      InsideFirst(first, Regions(lines, standard, first.end));
      RegionsAgreeFrom(lines, language, first.end);
    }
  }

  /** The standard passes over a ticked line that is in no region yet. */
  lemma {:induction false} TickedIsSkipped(lines: seq<string>, language: string -> string, i: nat)
    requires i < |lines| && TickedInfo(lines[i])
    ensures !Inside(Regions(lines, StandardPatterns(language), i), i)
  {
    hide Opening, TickedInfo, Closes, CloseFrom, StandardCloses, Inside, RegionAt;
    RegionsStartAt(lines, StandardPatterns(language), i + 1, i);
  }

  lemma NoCodeOpening(line: string, language: string -> string)
    requires Opening(line, language).None?
    ensures StandardOpening(line, language).None?
  {
  }

  lemma SameRegion(lines: seq<string>, language: string -> string, i: nat)
    requires i < |lines| && Opening(lines[i], language).Some? && !TickedInfo(lines[i])
    ensures StandardOpening(lines[i], language) == Opening(lines[i], language)
    ensures RegionAt(lines, CodePatterns(language), i) == RegionAt(lines, StandardPatterns(language), i)
  {
    hide Opening, TickedInfo, Closes, CloseFrom, StandardCloses;
    OpenedFence(lines[i], language);
    SameClosing(lines, language, Opening(lines[i], language).value, i + 1);
  }

  /** The code finds the regions of the standard exactly when every backtick fence whose info string holds a
      backtick lies inside a region of the standard. */
  lemma {:induction false} RegionsAgree(lines: seq<string>, language: string -> string)
    ensures Regions(lines, CodePatterns(language), 0) == Regions(lines, StandardPatterns(language), 0)
            <==> TickedInside(lines, Regions(lines, StandardPatterns(language), 0), 0)
  {
    hide TickedInside, Regions;
    if TickedInside(lines, Regions(lines, StandardPatterns(language), 0), 0) { RegionsAgreeFrom(lines, language, 0); }
    TickedInCode(lines, language);
  }

  /** Every ticked line is in a region of the code: it opens one if it is in none. */
  lemma {:induction false} TickedInCode(lines: seq<string>, language: string -> string)
    ensures TickedInside(lines, Regions(lines, CodePatterns(language), 0), 0)
  {
    hide Opens, Closes, Regions, FencedRegion, Inside;
    RegionsAreFenced(lines, CodePatterns(language), 0);
  }

  /** A document of which the code makes one region and the standard none. */
  lemma TickedDocument(language: string -> string)
    ensures Regions([TICKED_LINE], CodePatterns(language), 0) == [Region(0, 1, false, language(" a`b"))]
    ensures Regions([TICKED_LINE], StandardPatterns(language), 0) == []
  {
    hide Opening, Closes, StandardCloses, StandardOpens, TickedInfo;
    TickedLineOpens(language);
    TickedLineIsTicked();
    NothingLeft([TICKED_LINE], CodePatterns(language));
    NothingLeft([TICKED_LINE], StandardPatterns(language));
  }

  lemma TickedLineIsTicked()
    ensures TickedInfo(TICKED_LINE)
  {
    assert Indent(TICKED_LINE) == 0 && RunEnd(TICKED_LINE, 3, '`') == 3 && RunEnd(TICKED_LINE, 2, '`') == 3;
    assert RunEnd(TICKED_LINE, 1, '`') == 3 && TICKED_LINE[3..][2] == '`';
  }
}
