/** Resolving a documentation link against the repository, and the script paths of commands. */
module PathResolution {
  import opened Options

  datatype Resolved = Path(components: seq<string>) | DocumentItself | Backslash | Absolute | Escape

  // ---------------------------------------------------------------- paths as text

  function Split(text: string): (components: seq<string>)
    ensures |components| > 0
  {
    if text == "" then [""]
    else
      var rest := Split(text[1..]);
      if text[0] == '/' then [""] + rest else [[text[0]] + rest[0]] + rest[1..]
  }

  function Slashed(components: seq<string>): string {
    if components == [] then "" else if |components| == 1 then components[0] else components[0] + "/" + Slashed(components[1..])
  }

  /** The components are the text between its slashes. */
  lemma {:induction false} SplitMeans(text: string)
    ensures Slashed(Split(text)) == text
    ensures forall c | c in Split(text) :: '/' !in c
  {
    if text != "" {
      SplitMeans(text[1..]);
      var rest := Split(text[1..]);
      if text[0] == '/' {
        assert ([""] + rest)[1..] == rest;
        assert Slashed([""] + rest) == "/" + text[1..];
      } else {
        var components := [[text[0]] + rest[0]] + rest[1..];
        assert components[1..] == rest[1..];
        assert Slashed(components) == [text[0]] + Slashed(rest);
        assert forall c | c in rest[1..] :: c in rest;
        assert rest[0] in rest;
      }
    }
  }

  predicate Trivial(component: string) { component == "" || component == "." }

  function Meaningful(components: seq<string>): (kept: seq<string>)
    ensures forall c | c in kept :: c in components && !Trivial(c)
  {
    if components == [] then []
    else Meaningful(components[..|components| - 1]) + if Trivial(components[|components| - 1]) then [] else [components[|components| - 1]]
  }

  /** The parts of a relative path object: empty and "." components vanish. */
  function PathParts(text: string): seq<string> { Meaningful(Split(text)) }

  predicate Letter(c: char) { 'a' <= c <= 'z' || 'A' <= c <= 'Z' }

  predicate AbsoluteText(text: string) {
    || (text != "" && text[0] == '/')
    || (|text| >= 3 && Letter(text[0]) && text[1] == ':' && (text[2] == '/' || text[2] == '\\'))
  }

  // ---------------------------------------------------------------- the stack

  /** The stack after the components, or nothing once a ".." found it empty. */
  function Stack(base: seq<string>, components: seq<string>, n: nat): Option<seq<string>>
    requires n <= |components|
  {
    if n == 0 then Some(base)
    else
      var before, c := Stack(base, components, n - 1), components[n - 1];
      if before.None? || Trivial(c) then before
      else if c == ".." then (if before.value == [] then None else Some(before.value[..|before.value| - 1]))
      else Some(before.value + [c])
  }

  /** `decode` undoes percent escapes; `directory` is the directory of the document. */
  method ResolveRepositoryPath(directory: seq<string>, target: string, decode: string -> string) returns (resolved: Resolved)
    ensures resolved == Resolution(directory, decode(target))
  {
    var decoded := decode(target);
    if '\\' in decoded { return Backslash; }
    if AbsoluteText(decoded) { return Absolute; }
    if decoded == "" { return DocumentItself; }
    var stack, components := directory, Split(decoded);
    for n := 0 to |components|
      invariant Stack(directory, components, n) == Some(stack)
    {
      var component := components[n];
      if Trivial(component) { continue; }
      if component == ".." {
        if stack == [] {
          StuckStack(directory, components, n + 1, |components|);
          return Escape;
        }
        stack := stack[..|stack| - 1];
        continue;
      }
      stack := stack + [component];
    }
    if stack == [] { return Escape; }
    return Path(stack);
  }

  lemma {:induction false} StuckStack(base: seq<string>, components: seq<string>, n: nat, m: nat)
    requires n <= m <= |components| && Stack(base, components, n).None?
    ensures Stack(base, components, m).None?
  {
    if n < m { StuckStack(base, components, n, m - 1); }
  }

  lemma PartsAreMeaningful(target: string)
    ensures forall i | 0 <= i < |PathParts(target)| :: !Trivial(PathParts(target)[i])
  {
    var parts := PathParts(target);
    assert forall i | 0 <= i < |parts| :: parts[i] in parts;
  }

  method SafeScriptPath(target: string) returns (path: Option<seq<string>>)
    ensures path == if '\\' in target || AbsoluteText(target) then None else NonEmpty(Walk([], PathParts(target)))
  {
    hide AbsoluteText, PathParts;
    if '\\' in target || AbsoluteText(target) { return None; }
    var stack: seq<string>, parts := [], PathParts(target);
    PartsAreMeaningful(target);
    for n := 0 to |parts|
      invariant Stack([], parts, n) == Some(stack)
    {
      var component := parts[n];
      if component == ".." {
        if stack == [] {
          StuckStack([], parts, n + 1, |parts|);
          return None;
        }
        stack := stack[..|stack| - 1];
      } else {
        stack := stack + [component];
      }
    }
    return if stack == [] then None else Some(stack);
  }

  // ---------------------------------------------------------------- the walk without a stack

  /** How far below the start the walk stands after `n` components. */
  function Height(base: seq<string>, components: seq<string>, n: nat): int
    requires n <= |components|
  {
    if n == 0 then |base|
    else Height(base, components, n - 1)
         + if Trivial(components[n - 1]) then 0 else if components[n - 1] == ".." then -1 else 1
  }

  /** Some prefix of the walk climbs above the root. */
  ghost predicate Climbs(base: seq<string>, components: seq<string>) {
    exists n | 0 <= n <= |components| :: Height(base, components, n) < 0
  }

  /** Reading backwards, every ".." cancels the nearest name before it that is not yet cancelled. */
  function Kept(components: seq<string>, cancelled: nat): seq<string> {
    if components == [] then []
    else
      var most, c := components[..|components| - 1], components[|components| - 1];
      if Trivial(c) then Kept(most, cancelled)
      else if c == ".." then Kept(most, cancelled + 1)
      else if cancelled > 0 then Kept(most, cancelled - 1)
      else Kept(most, 0) + [c]
  }

  /** The names left by cancelling `cancelled` more, given that the base holds no "..". */
  function Names(base: seq<string>, cancelled: nat): seq<string> {
    if cancelled <= |base| then base[..|base| - cancelled] else []
  }

  ghost predicate Plain(base: seq<string>) {
    forall c | c in base :: !Trivial(c) && c != ".."
  }

  lemma {:induction false} KeptOfPlain(base: seq<string>, cancelled: nat)
    requires Plain(base)
    ensures Kept(base, cancelled) == Names(base, cancelled)
  {
    if base != [] {
      assert base[|base| - 1] in base;
      var most := base[..|base| - 1];
      assert Plain(most);
      if cancelled > 0 { KeptOfPlain(most, cancelled - 1); } else { KeptOfPlain(most, 0); }
    }
  }

  /** While the walk never climbs, the stack is what the backward reading keeps, and its size is the
      height of the walk. */
  lemma {:induction false} StackIsKept(base: seq<string>, components: seq<string>, n: nat, cancelled: nat)
    requires n <= |components| && Plain(base) && Stack(base, components, n).Some?
    ensures |Stack(base, components, n).value| == Height(base, components, n)
    ensures cancelled <= |Stack(base, components, n).value| ==>
              Kept(base + components[..n], cancelled) == Names(Stack(base, components, n).value, cancelled)
    ensures Plain(Stack(base, components, n).value)
  {
    var walked := base + components[..n];
    if n == 0 {
      assert walked == base;
      KeptOfPlain(base, cancelled);
    } else {
      var c := components[n - 1];
      var before := Stack(base, components, n - 1).value;
      assert walked[..|walked| - 1] == base + components[..n - 1];
      assert walked[|walked| - 1] == c;
      if Trivial(c) {
        StackIsKept(base, components, n - 1, cancelled);
      } else if c == ".." {
        StackIsKept(base, components, n - 1, cancelled + 1);
      } else {
        StackIsKept(base, components, n - 1, if cancelled > 0 then cancelled - 1 else 0);
      }
    }
  }

  lemma {:induction false} ClimbingFails(base: seq<string>, components: seq<string>, m: nat, n: nat)
    requires m <= n <= |components| && Plain(base) && Height(base, components, m) < 0
    ensures Stack(base, components, n).None?
  {
    if Stack(base, components, m).Some? { StackIsKept(base, components, m, 0); }
    StuckStack(base, components, m, n);
  }

  lemma {:induction false} FailureClimbs(base: seq<string>, components: seq<string>, n: nat) returns (m: nat)
    requires n <= |components| && Plain(base) && Stack(base, components, n).None?
    ensures m <= n && Height(base, components, m) < 0
  {
    if Stack(base, components, n - 1).None? {
      m := FailureClimbs(base, components, n - 1);
    } else {
      StackIsKept(base, components, n - 1, 0);
      m := n;
    }
  }

  /** The reference meaning: escape if the walk climbs above the root or ends there, otherwise the
      names that are not cancelled. */
  function Walk(base: seq<string>, components: seq<string>): Option<seq<string>> {
    Stack(base, components, |components|)
  }

  function NonEmpty(path: Option<seq<string>>): Option<seq<string>> {
    if path == Some([]) then None else path
  }

  function Resolution(directory: seq<string>, decoded: string): Resolved {
    if '\\' in decoded then Backslash
    else if AbsoluteText(decoded) then Absolute
    else if decoded == "" then DocumentItself
    else
      var path := NonEmpty(Walk(directory, Split(decoded)));
      if path.None? then Escape else Path(path.value)
  }

  /** A relative target escapes exactly when some prefix of its walk climbs above the root or the walk
      ends at the root; otherwise it resolves to the names that no later ".." cancels, none of them
      empty, "." or "..". */
  lemma {:induction false} ResolutionMeans(directory: seq<string>, decoded: string)
    requires Plain(directory) && '\\' !in decoded && !AbsoluteText(decoded) && decoded != ""
    ensures var components := Split(decoded);
            && (Resolution(directory, decoded).Escape? <==>
                  Climbs(directory, components) || Height(directory, components, |components|) == 0)
            && (Resolution(directory, decoded).Path? ==>
                  Resolution(directory, decoded).components == Kept(directory + components, 0)
                  && Plain(Resolution(directory, decoded).components))
  {
    var components := Split(decoded);
    var stack := Stack(directory, components, |components|);
    if stack.None? {
      var m := FailureClimbs(directory, components, |components|);
    }
    if Climbs(directory, components) {
      var m: nat :| m <= |components| && Height(directory, components, m) < 0;
      ClimbingFails(directory, components, m, |components|);
    }
    if stack.Some? {
      StackIsKept(directory, components, |components|, 0);
      assert components[..|components|] == components;
      hide Stack, Height, Kept, Split, AbsoluteText;
      assert |stack.value| == Height(directory, components, |components|);
      assert Names(stack.value, 0) == stack.value;
    }
  }

  /** What is refused before any walk: a backslash, then an absolute path of either kind of system; a
      target without text is the document itself. */
  lemma RefusalsMean(directory: seq<string>, decoded: string)
    ensures var absolute := "/" <= decoded
              || (|decoded| >= 3 && ('a' <= decoded[0] <= 'z' || 'A' <= decoded[0] <= 'Z') && decoded[1] == ':' && decoded[2] in "/\\");
            && (Resolution(directory, decoded).Backslash? <==> '\\' in decoded)
            && (Resolution(directory, decoded).Absolute? <==> '\\' !in decoded && absolute)
            && (Resolution(directory, decoded).DocumentItself? <==> decoded == "")
  {
    hide Split, Walk;
  }

  /** Dropping trivial components does not change the walk. */
  lemma {:induction false} WalkOfMeaningful(base: seq<string>, components: seq<string>)
    ensures Walk(base, Meaningful(components)) == Walk(base, components)
  {
    if components != [] {
      var most, c := components[..|components| - 1], components[|components| - 1];
      WalkOfMeaningful(base, most);
      StackOfPrefix(base, most, [c], |most|);
      assert components == most + [c];
      var kept := Meaningful(most);
      if Trivial(c) {
        assert Meaningful(components) == kept;
      } else {
        StackOfPrefix(base, kept, [c], |kept|);
        assert Meaningful(components) == kept + [c];
        assert Stack(base, kept + [c], |kept|) == Stack(base, most, |most|);
        assert (kept + [c])[|kept|] == c;
      }
    }
  }

  lemma {:induction false} StackOfPrefix(base: seq<string>, some: seq<string>, more: seq<string>, n: nat)
    requires n <= |some|
    ensures Stack(base, some + more, n) == Stack(base, some, n)
  {
    if n > 0 { StackOfPrefix(base, some, more, n - 1); }
  }

  /** For a document at the root, link resolution and script-path resolution agree on every
      non-empty target without percent escapes. */
  lemma ResolversAgree(target: string)
    requires target != ""
    ensures Resolution([], target).Path? <==>
            '\\' !in target && !AbsoluteText(target) && NonEmpty(Walk([], PathParts(target))).Some?
    ensures Resolution([], target).Path? ==> NonEmpty(Walk([], PathParts(target))) == Some(Resolution([], target).components)
  {
    WalkOfMeaningful([], Split(target));
  }
}
