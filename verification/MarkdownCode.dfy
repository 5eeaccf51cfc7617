/** Masking inline code in one line of Markdown. */
module MarkdownCode {
  // ---------------------------------------------------------------- escapes

  /** The number of backslashes right before `i`. */
  function Backslashes(text: string, i: nat): (count: nat)
    requires i <= |text|
    ensures count <= i
    ensures forall k | i - count <= k < i :: text[k] == '\\'
    ensures count < i ==> text[i - count - 1] != '\\'
  {
    if i > 0 && text[i - 1] == '\\' then Backslashes(text, i - 1) + 1 else 0
  }

  predicate IsEscaped(text: string, i: nat)
    requires i <= |text|
  {
    Backslashes(text, i) % 2 == 1
  }

  method CheckEscaped(text: string, index: nat) returns (escaped: bool)
    requires index <= |text|
    ensures escaped == IsEscaped(text, index)
  {
    var backslashes, cursor := 0, index;
    while cursor > 0 && text[cursor - 1] == '\\'
      invariant 0 <= cursor <= index && backslashes + Backslashes(text, cursor) == Backslashes(text, index)
    {
      backslashes, cursor := backslashes + 1, cursor - 1;
    }
    escaped := backslashes % 2 == 1;
  }

  // ---------------------------------------------------------------- spans of code

  /** The end of the run of backticks from `i`. */
  function RunEnd(line: string, i: nat): (end: nat)
    requires i <= |line|
    ensures i <= end <= |line|
    ensures forall k | i <= k < end :: line[k] == '`'
    ensures end < |line| ==> line[end] != '`'
    decreases |line| - i
  {
    if i < |line| && line[i] == '`' then RunEnd(line, i + 1) else i
  }

  predicate TicksAt(line: string, p: nat, n: nat) {
    p + n <= |line| && forall k | p <= k < p + n :: line[k] == '`'
  }

  /** The first place, from `i` on, where `n` backticks stand, or the length of the line plus one. */
  function FindTicks(line: string, n: nat, i: nat): (p: nat)
    requires i <= |line| + 1
    ensures i <= p <= |line| + 1
    ensures p <= |line| ==> TicksAt(line, p, n)
    ensures forall q | i <= q < p && q <= |line| :: !TicksAt(line, q, n)
    decreases |line| + 1 - i
  {
    if i <= |line| && !TicksAt(line, i, n) then FindTicks(line, n, i + 1) else i
  }

  predicate OpensAt(line: string, i: nat)
    requires i < |line|
  {
    line[i] == '`' && !IsEscaped(line, i)
  }

  /** The end of the code span that opens at `i`: the next stretch of as many backticks closes it. */
  function SpanEnd(line: string, i: nat): (end: nat)
    requires i < |line| && OpensAt(line, i)
    ensures i < RunEnd(line, i) < end
    ensures end <= |line| ==> line[end - 1] == '`'
  {
    var run := RunEnd(line, i);
    var closing := FindTicks(line, run - i, run);
    if closing > |line| then |line| + 1 else closing + (run - i)
  }

  /** A code span opens at `i` and is closed. */
  predicate CodeAt(line: string, i: nat)
    requires i < |line|
  {
    OpensAt(line, i) && SpanEnd(line, i) <= |line|
  }

  /** Where the scan stands next: past a code span, past an unclosed run, or one character on. */
  function ScanNext(line: string, i: nat): (next: nat)
    requires i < |line|
    ensures i < next <= |line|
  {
    if CodeAt(line, i) then SpanEnd(line, i) else if OpensAt(line, i) then RunEnd(line, i) else i + 1
  }

  function Blank(n: nat): (blank: string)
    ensures |blank| == n && forall k | 0 <= k < n :: blank[k] == ' '
  {
    seq(n, _ => ' ')
  }

  function Piece(line: string, i: nat): (piece: string)
    requires i < |line|
    ensures |piece| == ScanNext(line, i) - i
  {
    if CodeAt(line, i) then Blank(ScanNext(line, i) - i) else line[i..ScanNext(line, i)]
  }

  /** The rest of the line from `i`, with its code spans blanked. */
  function MaskFrom(line: string, i: nat): (masked: string)
    requires i <= |line|
    ensures |masked| == |line| - i
    decreases |line| - i
  {
    if i == |line| then "" else Piece(line, i) + MaskFrom(line, ScanNext(line, i))
  }

  /** One step of the scan: is there a code span at `index`, and where does the scan go on? */
  method Scan(line: string, index: nat) returns (code: bool, next: nat)
    requires index < |line|
    ensures code == CodeAt(line, index) && next == ScanNext(line, index)
  {
    var escaped := CheckEscaped(line, index);
    if line[index] != '`' || escaped { return false, index + 1; }
    var endOfRun, after := RunEnd(line, index), SpanEnd(line, index);
    if after > |line| { return false, endOfRun; }
    return true, after;
  }

  method MaskInlineCode(line: string) returns (masked: string)
    ensures masked == MaskFrom(line, 0)
  {
    masked := line;
    var index := 0;
    hide MaskFrom, ScanNext, CodeAt;
    while index < |line|
      invariant index <= |line| == |masked| && masked[index..] == line[index..]
      invariant masked[..index] + MaskFrom(line, index) == MaskFrom(line, 0)
      decreases |line| - index
    {
      var code, next := Scan(line, index);
      Written(line, masked, index);
      if code {
        masked := masked[..index] + Blank(next - index) + masked[next..];
      }
      index := next;
    }
    NothingToMask(line);
    assert masked[..index] == masked;
  }

  lemma {:induction false} NothingToMask(line: string)
    ensures MaskFrom(line, |line|) == ""
  {
  }

  lemma Splice(line: string, masked: string, i: nat, next: nat, piece: string)
    requires i < next <= |line| == |masked| && masked[i..] == line[i..] && |piece| == next - i
    ensures var after := masked[..i] + piece + masked[next..];
            && |after| == |line| && after[next..] == line[next..] && after[..next] == masked[..i] + piece
            && (piece == line[i..next] ==> after == masked)
  {
    var after := masked[..i] + piece + masked[next..];
    assert masked[next..] == masked[i..][next - i..] && line[next..] == line[i..][next - i..];
    assert masked[i..next] == masked[i..][..next - i] && line[i..][..next - i] == line[i..next];
    assert masked == masked[..i] + masked[i..next] + masked[next..];
  }

  /** Writing the next piece over the line keeps the rest of the line as it was. */
  lemma Written(line: string, masked: string, i: nat)
    requires i < |line| == |masked| && masked[i..] == line[i..]
    ensures var next := ScanNext(line, i);
            var after := if CodeAt(line, i) then masked[..i] + Blank(next - i) + masked[next..] else masked;
            && |after| == |line| && after[next..] == line[next..]
            && after[..next] + MaskFrom(line, next) == masked[..i] + MaskFrom(line, i)
  {
    hide MaskFrom, ScanNext, CodeAt, Blank;
    UnfoldMask(line, i);
    var next, piece := ScanNext(line, i), Piece(line, i);
    assert piece == if CodeAt(line, i) then Blank(next - i) else line[i..next];
    hide Piece;
    Splice(line, masked, i, next, piece);
    Regroup(masked[..i], piece, MaskFrom(line, next));
  }

  lemma Regroup(a: string, b: string, c: string)
    ensures a + (b + c) == a + b + c
  {
  }

  lemma {:induction false} UnfoldMask(line: string, i: nat)
    requires i < |line|
    ensures MaskFrom(line, i) == Piece(line, i) + MaskFrom(line, ScanNext(line, i))
  {
  }

  // ---------------------------------------------------------------- what masking changes

  /** Position `k` lies in a code span that opens at or after `i`. */
  ghost predicate InSpan(line: string, i: nat, k: nat) {
    exists a | i <= a < |line| :: CodeAt(line, a) && a <= k < SpanEnd(line, a)
  }

  /** Masking keeps the length and changes nothing but characters of code spans, which become blanks. */
  lemma {:induction false} MaskingChangesOnlySpans(line: string, i: nat, k: nat)
    requires i <= k < |line|
    ensures MaskFrom(line, i)[k - i] == line[k] || (MaskFrom(line, i)[k - i] == ' ' && InSpan(line, i, k))
    decreases |line| - i
  {
    hide OpensAt, SpanEnd;
    UnfoldMask(line, i);
    var next := ScanNext(line, i);
    hide MaskFrom;
    if k >= next {
      MaskingChangesOnlySpans(line, next, k);
    }
  }

  // ---------------------------------------------------------------- exactly what masking changes

  /** The backslashes before `a` are even in number. */
  predicate Unescaped(line: string, a: nat)
    requires a <= |line|
  {
    exists b | 0 <= b <= a :: b % 2 == 0 && (forall k | a - b <= k < a :: line[k] == '\\') && (b == a || line[a - b - 1] != '\\')
  }

  /** The whole run of backticks from `a` ends at `r`. */
  predicate RunFrom(line: string, a: nat, r: nat) {
    a < r <= |line| && (forall k | a <= k < r :: line[k] == '`') && (r < |line| ==> line[r] != '`')
  }

  /** The first `n` backticks in a row behind `r` end at `e`. */
  predicate ClosesAt(line: string, r: nat, n: nat, e: nat) {
    r + n <= e <= |line| && TicksAt(line, e - n, n) && forall q | r <= q < e - n :: !TicksAt(line, q, n)
  }

  /** A code span from `a` to `e`: an unescaped run of backticks, of any length, and the next place where
      as many stand. */
  ghost predicate Span(line: string, a: nat, e: nat) {
    a <= |line| && Unescaped(line, a) && exists r: nat :: RunFrom(line, a, r) && ClosesAt(line, r, r - a, e)
  }

  lemma {:induction false} CountOf(line: string, a: nat, b: nat)
    requires b <= a <= |line| && (forall k | a - b <= k < a :: line[k] == '\\') && (b == a || line[a - b - 1] != '\\')
    ensures Backslashes(line, a) == b
  {
    if b > 0 { CountOf(line, a - 1, b - 1); }
  }

  lemma EscapedMeans(line: string, a: nat)
    requires a <= |line|
    ensures Unescaped(line, a) <==> !IsEscaped(line, a)
  {
    hide Backslashes;
    if b: nat :| b <= a && b % 2 == 0 && (forall k | a - b <= k < a :: line[k] == '\\') && (b == a || line[a - b - 1] != '\\') {
      CountOf(line, a, b);
    }
  }

  lemma {:induction false} OneRunEnd(line: string, a: nat, r: nat)
    requires RunFrom(line, a, r)
    ensures RunEnd(line, a) == r
    decreases r - a
  {
    if a + 1 < r { OneRunEnd(line, a + 1, r); }
  }

  lemma {:induction false} FirstTicks(line: string, n: nat, i: nat, p: nat)
    requires i <= p && TicksAt(line, p, n) && forall q | i <= q < p :: !TicksAt(line, q, n)
    ensures FindTicks(line, n, i) == p
    decreases p - i
  {
    hide TicksAt;
    assert p <= |line| by { PlaceInLine(line, p, n); }
    if i < p { FirstTicks(line, n, i + 1, p); }
  }

  lemma PlaceInLine(line: string, p: nat, n: nat)
    requires TicksAt(line, p, n)
    ensures p + n <= |line|
  {
  }

  lemma SpanIsCode(line: string, a: nat, r: nat, e: nat)
    requires a <= |line| && Unescaped(line, a) && RunFrom(line, a, r) && ClosesAt(line, r, r - a, e)
    ensures CodeAt(line, a) && e == SpanEnd(line, a)
  {
    hide IsEscaped, Unescaped, TicksAt, RunEnd, FindTicks;
    EscapedMeans(line, a);
    OneRunEnd(line, a, r);
    FirstTicks(line, r - a, r, e - (r - a));
  }

  lemma CodeIsSpan(line: string, a: nat)
    requires a < |line| && CodeAt(line, a)
    ensures Span(line, a, SpanEnd(line, a))
  {
    hide IsEscaped, Unescaped, TicksAt, RunEnd, FindTicks;
    EscapedMeans(line, a);
    var r := RunEnd(line, a);
    assert RunFrom(line, a, r) && ClosesAt(line, r, r - a, SpanEnd(line, a));
  }

  /** The scan takes exactly the code spans for code. */
  lemma SpanMeans(line: string, a: nat, e: nat)
    ensures Span(line, a, e) <==> a < |line| && CodeAt(line, a) && e == SpanEnd(line, a)
  {
    if a < |line| && CodeAt(line, a) { CodeIsSpan(line, a); }
    if Span(line, a, e) {
      hide CodeAt, SpanEnd, Unescaped, ClosesAt;
      var r: nat :| RunFrom(line, a, r) && ClosesAt(line, r, r - a, e);
      SpanIsCode(line, a, r, e);
    }
  }

  /** The scan from `i` comes to stand at `k`. */
  predicate Reached(line: string, i: nat, k: nat)
    decreases |line| - i
  {
    i == k || (i < |line| && i < k && Reached(line, ScanNext(line, i), k))
  }

  /** From `b` the scan passes to `c`: behind the code span, behind a run nothing closes, or one on. */
  ghost predicate Passes(line: string, b: nat, c: nat)
    requires b < |line|
  {
    if exists e: nat :: Span(line, b, e) then Span(line, b, c)
    else if line[b] == '`' && Unescaped(line, b) then RunFrom(line, b, c)
    else c == b + 1
  }

  lemma PassesMeans(line: string, b: nat, c: nat)
    requires b < |line|
    ensures Passes(line, b, c) <==> c == ScanNext(line, b)
  {
    hide IsEscaped, Unescaped, SpanEnd, Span;
    EscapedMeans(line, b);
    if CodeAt(line, b) { SpanMeans(line, b, SpanEnd(line, b)); }
    SpanMeans(line, b, c);
    if e: nat :| Span(line, b, e) { SpanMeans(line, b, e); }
    if RunFrom(line, b, c) { OneRunEnd(line, b, c); }
  }

  /** Two places of one scan do not overlap: the earlier one passes to the later or before it. */
  lemma {:induction false} ReachedFrom(line: string, i: nat, a: nat)
    requires i <= a <= |line|
    ensures Reached(line, i, a) <==> forall b | i <= b < a && Reached(line, i, b) :: ScanNext(line, b) <= a
    decreases |line| - i
  {
    hide ScanNext;
    if i < a {
      var next := ScanNext(line, i);
      assert forall b | i < b :: Reached(line, i, b) <==> Reached(line, next, b);
      ReachedOn(line, next);
      if next <= a { ReachedFrom(line, next, a); }
    }
  }

  lemma {:induction false} ReachedOn(line: string, i: nat)
    ensures forall b: nat | Reached(line, i, b) :: i <= b
  {
  }

  /** The scan stands exactly at the places that it does not pass over. */
  lemma {:induction false} ReachedIff(line: string, a: nat)
    requires a <= |line|
    ensures Reached(line, 0, a) <==> forall b: nat, c: nat | b < a && Reached(line, 0, b) && Passes(line, b, c) :: c <= a
  {
    hide Reached, Passes, ScanNext;
    ReachedFrom(line, 0, a);
    forall b: nat, c: nat | b < a ensures Passes(line, b, c) <==> c == ScanNext(line, b) { PassesMeans(line, b, c); }
    assert forall b: nat | b < a :: Passes(line, b, ScanNext(line, b));
  }

  /** Position `k` lies in a code span that the scan from `i` comes to at `a`. */
  predicate CodeFrom(line: string, i: nat, a: nat, k: nat) {
    a < |line| && Reached(line, i, a) && CodeAt(line, a) && a <= k < SpanEnd(line, a)
  }

  lemma CodeStep(line: string, i: nat, k: nat)
    requires i <= k < |line|
    ensures var next := ScanNext(line, i);
            (exists a: nat :: CodeFrom(line, i, a, k)) <==>
              if k < next then CodeAt(line, i) else exists a: nat :: CodeFrom(line, next, a, k)
  {
    hide OpensAt, SpanEnd;
    var next := ScanNext(line, i);
    hide ScanNext, CodeAt, Reached;
    if CodeAt(line, i) && k < next { ReachedItself(line, i); assert CodeFrom(line, i, i, k); }
    if a: nat :| CodeFrom(line, i, a, k) {
      ReachedStep(line, i, a);
      if a != i { assert CodeFrom(line, next, a, k); }
    }
    if a: nat :| CodeFrom(line, next, a, k) {
      ReachedStep(line, i, a);
      assert CodeFrom(line, i, a, k);
    }
  }

  lemma {:induction false} ReachedItself(line: string, i: nat)
    requires i < |line|
    ensures Reached(line, i, i)
    ensures CodeAt(line, i) ==> ScanNext(line, i) == SpanEnd(line, i)
  {
  }

  lemma {:induction false} ReachedStep(line: string, i: nat, a: nat)
    requires i < |line|
    ensures Reached(line, i, a) <==> a == i || Reached(line, ScanNext(line, i), a)
    ensures Reached(line, ScanNext(line, i), a) ==> ScanNext(line, i) <= a
    ensures CodeAt(line, i) ==> ScanNext(line, i) == SpanEnd(line, i)
  {
    hide OpensAt, SpanEnd;
  }

  lemma {:induction false} MaskedNow(line: string, i: nat, k: nat)
    requires i <= k < |line|
    ensures var next := ScanNext(line, i);
            MaskFrom(line, i)[k - i] == if k >= next then MaskFrom(line, next)[k - next] else if CodeAt(line, i) then ' ' else line[k]
  {
    UnfoldMask(line, i);
    hide CodeAt, MaskFrom, ScanNext;
  }

  lemma {:induction false} MaskedAt(line: string, i: nat, k: nat)
    requires i <= k < |line|
    ensures MaskFrom(line, i)[k - i] == if exists a: nat :: CodeFrom(line, i, a, k) then ' ' else line[k]
    decreases |line| - i
  {
    hide CodeAt, MaskFrom, CodeFrom, ScanNext;
    MaskedNow(line, i, k);
    CodeStep(line, i, k);
    var next := ScanNext(line, i);
    if k >= next {
      MaskedAt(line, next, k);
    }
  }

  /** Position `k` lies in a code span the scan comes to. */
  ghost predicate InCode(line: string, k: nat) {
    exists a: nat, e: nat :: a <= |line| && Reached(line, 0, a) && Span(line, a, e) && a <= k < e
  }

  /** Masking blanks exactly the code spans that the scan comes to, delimiters included. */
  lemma {:induction false} MaskingMeans(line: string, k: nat)
    requires k < |line|
    ensures MaskFrom(line, 0)[k] == if InCode(line, k) then ' ' else line[k]
  {
    hide MaskFrom, CodeFrom, InCode;
    MaskedAt(line, 0, k);
    InCodeMeans(line, k);
  }

  lemma InCodeMeans(line: string, k: nat)
    ensures InCode(line, k) <==> exists a: nat :: CodeFrom(line, 0, a, k)
  {
    hide OpensAt, SpanEnd, Reached, Span;
    if InCode(line, k) {
      var a: nat, e: nat :| a <= |line| && Reached(line, 0, a) && Span(line, a, e) && a <= k < e;
      SpanMeans(line, a, e);
      assert CodeFrom(line, 0, a, k);
    }
    if a: nat :| CodeFrom(line, 0, a, k) {
      SpanMeans(line, a, SpanEnd(line, a));
    }
  }

  // ---------------------------------------------------------------- masking twice changes nothing

  lemma {:induction false} BlankRun(masked: string, i: nat, after: nat)
    requires i <= after <= |masked| && forall k | i <= k < after :: masked[k] == ' '
    requires MaskFrom(masked, after) == masked[after..]
    ensures MaskFrom(masked, i) == masked[i..]
    decreases after - i
  {
    hide MaskFrom, ScanNext, CodeAt;
    if i < after {
      BlankRun(masked, i + 1, after);
      BlankStep(masked, i);
      PieceKept(masked, i, i + 1);
    }
  }

  lemma BlankStep(masked: string, i: nat)
    requires i < |masked| && masked[i] == ' '
    ensures ScanNext(masked, i) == i + 1 && !CodeAt(masked, i)
  {
  }

  lemma {:induction false} SameRunEnd(line: string, masked: string, i: nat)
    requires i <= |line| == |masked|
    requires forall k | i <= k < RunEnd(line, i) :: masked[k] == '`'
    requires RunEnd(line, i) < |line| ==> masked[RunEnd(line, i)] != '`'
    ensures RunEnd(masked, i) == RunEnd(line, i)
    decreases |line| - i
  {
    if i < |line| && line[i] == '`' { SameRunEnd(line, masked, i + 1); }
  }

  /** A run that nothing closes in the line is not closed in the masked line either. */
  lemma {:induction false} UnclosedRun(line: string, masked: string, i: nat)
    requires i < |line| == |masked| && OpensAt(line, i) && !CodeAt(line, i) && Backslashes(masked, i) == Backslashes(line, i)
    requires forall k | i <= k < RunEnd(line, i) :: masked[k] == '`'
    requires RunEnd(line, i) < |line| ==> masked[RunEnd(line, i)] != '`'
    requires forall k | i <= k < |line| && masked[k] == '`' :: line[k] == '`'
    ensures OpensAt(masked, i) && !CodeAt(masked, i) && ScanNext(masked, i) == RunEnd(line, i)
  {
    hide Backslashes, RunEnd, FindTicks;
    var end := RunEnd(line, i);
    SameRunEnd(line, masked, i);
    var closing := FindTicks(masked, end - i, end);
    if closing <= |line| { FewerTicks(line, masked, closing, end - i); }
    assert FindTicks(line, end - i, end) > |line|;
  }

  lemma FewerTicks(line: string, masked: string, p: nat, n: nat)
    requires |line| == |masked| && TicksAt(masked, p, n)
    requires forall k | p <= k < |line| && masked[k] == '`' :: line[k] == '`'
    ensures TicksAt(line, p, n)
  {
  }

  /** `masked` is some text of length `i` followed by the masked rest of the line. */
  ghost predicate MaskedFrom(line: string, masked: string, i: nat)
    requires i <= |line|
  {
    |masked| == |line| && masked[i..] == MaskFrom(line, i) && Backslashes(masked, i) == Backslashes(line, i)
  }

  lemma {:induction false} MaskedRest(line: string, masked: string, i: nat)
    requires i < |line| && |masked| == |line| && masked[i..] == MaskFrom(line, i)
    ensures masked[i..ScanNext(line, i)] == Piece(line, i) && masked[ScanNext(line, i)..] == MaskFrom(line, ScanNext(line, i))
    ensures forall k | i <= k < |line| && masked[k] == '`' :: line[k] == '`'
  {
    UnfoldMask(line, i);
    var next := ScanNext(line, i);
    forall k | i <= k < |line| && masked[k] == '`'
      ensures line[k] == '`'
    {
      MaskingChangesOnlySpans(line, i, k);
      assert masked[k] == masked[i..][k - i];
    }
    hide MaskFrom, ScanNext, Piece;
    assert masked[i..next] == masked[i..][..next - i];
    assert masked[next..] == masked[i..][next - i..];
  }

  /** Scanning what is masked changes nothing more. */
  lemma {:induction false} NothingLeft(line: string, masked: string, i: nat)
    requires i <= |line| && MaskedFrom(line, masked, i)
    ensures MaskFrom(masked, i) == masked[i..]
    decreases |line| - i
  {
    if i < |line| {
      MaskedRest(line, masked, i);
      var next := ScanNext(line, i);
      if CodeAt(line, i) {
        AfterCode(line, masked, i);
        NothingLeft(line, masked, next);
        BlankRun(masked, i, next);
      } else {
        if OpensAt(line, i) { AfterUnclosed(line, masked, i); } else { AfterOne(line, masked, i); }
        NothingLeft(line, masked, next);
        PieceKept(masked, i, next);
      }
    }
  }

  lemma {:induction false} PieceKept(masked: string, i: nat, next: nat)
    requires i < |masked| && next == ScanNext(masked, i) && !CodeAt(masked, i) && MaskFrom(masked, next) == masked[next..]
    ensures MaskFrom(masked, i) == masked[i..]
  {
    UnfoldMask(masked, i);
    hide MaskFrom, ScanNext, CodeAt;
    assert masked[i..] == masked[i..next] + masked[next..];
  }

  lemma {:induction false} AfterCode(line: string, masked: string, i: nat)
    requires i < |line| && CodeAt(line, i) && |masked| == |line| && masked[i..ScanNext(line, i)] == Piece(line, i)
    ensures var next := ScanNext(line, i);
            && (forall k | i <= k < next :: masked[k] == ' ')
            && Backslashes(masked, next) == 0 == Backslashes(line, next)
  {
    var next := ScanNext(line, i);
    forall k | i <= k < next
      ensures masked[k] == ' '
    {
      assert masked[k] == masked[i..next][k - i];
    }
  }

  lemma AfterOne(line: string, masked: string, i: nat)
    requires i < |line| && !OpensAt(line, i) && |masked| == |line| && Backslashes(masked, i) == Backslashes(line, i)
    requires masked[i..ScanNext(line, i)] == Piece(line, i)
    ensures Backslashes(masked, i + 1) == Backslashes(line, i + 1)
    ensures ScanNext(line, i) == ScanNext(masked, i) == i + 1 && !CodeAt(masked, i)
  {
    assert masked[i] == masked[i..i + 1][0] == line[i];
  }

  lemma {:induction false} AfterUnclosed(line: string, masked: string, i: nat)
    requires i < |line| && OpensAt(line, i) && !CodeAt(line, i) && |masked| == |line| && Backslashes(masked, i) == Backslashes(line, i)
    requires masked[i..ScanNext(line, i)] == Piece(line, i)
    requires forall k | i <= k < |line| && masked[k] == '`' :: line[k] == '`'
    ensures var next := ScanNext(line, i);
            && Backslashes(masked, next) == 0 == Backslashes(line, next)
            && !CodeAt(masked, i) && ScanNext(masked, i) == next
  {
    var next := ScanNext(line, i);
    forall k | i <= k < next
      ensures masked[k] == '`'
    {
      assert masked[k] == masked[i..next][k - i] == line[k];
    }
    UnclosedRun(line, masked, i);
  }

  /** Masking is idempotent. */
  lemma {:induction false} MaskingTwice(line: string)
    ensures MaskFrom(MaskFrom(line, 0), 0) == MaskFrom(line, 0)
  {
    var masked := MaskFrom(line, 0);
    assert masked[0..] == masked;
    NothingLeft(line, masked, 0);
  }
}
