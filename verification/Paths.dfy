/**
 * Windows paths: normalisation and containment (internal/safety/classify.go,
 * internal/workspace/workspace_windows.go).
 */
module Paths {
  import opened Basics

  const SEP := '\\'

  // ----- Splitting and joining at the separator

  function Split(s: string): (r: seq<string>)
    ensures r != []
  {
    if s == [] then [""]
    else
      var r := Split(s[1..]);
      if s[0] == SEP then [""] + r else [[s[0]] + r[0]] + r[1..]
  }

  function Join(parts: seq<string>): string {
    if parts == [] then ""
    else if |parts| == 1 then parts[0]
    else parts[0] + [SEP] + Join(parts[1..])
  }

  predicate Plain(part: string) {
    SEP !in part
  }

  lemma {:induction false} SplitPlain(part: string, rest: string)
    requires Plain(part)
    ensures Split(part) == [part]
    ensures Split(part + [SEP] + rest) == [part] + Split(rest)
    decreases |part|
  {
    if part == [] {
      assert part + [SEP] + rest == [SEP] + rest;
    } else {
      SplitPlain(part[1..], rest);
      assert (part + [SEP] + rest)[1..] == part[1..] + [SEP] + rest;
      assert [part[0]] + part[1..] == part;
    }
  }

  lemma {:induction false} SplitJoin(parts: seq<string>)
    requires parts != [] && forall p | p in parts :: Plain(p)
    ensures Split(Join(parts)) == parts
    decreases |parts|
  {
    SplitPlain(parts[0], Join(parts[1..]));
    if |parts| > 1 {
      SplitJoin(parts[1..]);
      assert parts == [parts[0]] + parts[1..];
    } else {
      assert parts == [parts[0]];
    }
  }

  lemma {:induction false} SplitParts(s: string)
    ensures forall p | p in Split(s) :: Plain(p) && forall c | c in p :: c in s
    decreases |s|
  {
    if s != [] {
      SplitParts(s[1..]);
      assert Split(s[1..])[0] in Split(s[1..]);
    }
  }

  // ----- Normalisation

  function Backslashes(path: string): string {
    seq(|path|, i requires 0 <= i < |path| => if path[i] == '/' then SEP else path[i])
  }

  function TrimRight(s: string, slashToo: bool): string {
    if s != [] && (Last(s) == SEP || (slashToo && Last(s) == '/')) then TrimRight(Init(s), slashToo) else s
  }

  function Push(stack: seq<string>, part: string): seq<string> {
    if part == "" || part == "." then stack
    else if part == ".." && stack != [] && Last(stack) != ".." then Init(stack)
    else stack + [part]
  }

  function Resolved(parts: seq<string>): seq<string> {
    if parts == [] then [] else Push(Resolved(Init(parts)), Last(parts))
  }

  function Normalized(path: string): string {
    Join(Resolved(Split(TrimRight(Backslashes(path), false))))
  }

  /** `normalizeWindowsPath`, with its loop over the parts. */
  method NormalizeWindowsPath(path: string) returns (r: string)
    ensures r == Normalized(path)
  {
    hide Split, Join, TrimRight;
    var parts := Split(TrimRight(Backslashes(path), false));
    var stack: seq<string> := [];
    for i := 0 to |parts|
      invariant stack == Resolved(parts[..i])
    {
      var part := parts[i];
      assert Init(parts[..i + 1]) == parts[..i];
      if part == "" || part == "." {
        continue;
      }
      if part == ".." {
        if |stack| > 0 && stack[|stack| - 1] != ".." {
          stack := stack[..|stack| - 1];
          continue;
        }
        stack := stack + [".."];
      } else {
        stack := stack + [part];
      }
    }
    assert parts[..|parts|] == parts;
    r := Join(stack);
  }

  predicate Component(part: string) {
    part != "" && part != "." && Plain(part) && '/' !in part
  }

  /** Only proper components, and `..` only in front. */
  predicate Clean(parts: seq<string>) {
    && (forall p | p in parts :: Component(p))
    && forall i, j | 0 <= i < j < |parts| && parts[j] == ".." :: parts[i] == ".."
  }

  lemma {:induction false} PushKeepsClean(stack: seq<string>, part: string)
    requires Clean(stack) && Plain(part) && '/' !in part
    ensures Clean(Push(stack, part))
  {
    if part != "" && part != "." && part == ".." && stack != [] && Last(stack) == ".." {
      var n := |stack| - 1;
      assert forall i | 0 <= i < n :: stack[i] == ".." by {
        forall i | 0 <= i < n ensures stack[i] == ".." {
          assert stack[n] == "..";
        }
      }
    }
  }

  lemma {:induction false} ResolvedIsClean(parts: seq<string>)
    requires forall p | p in parts :: Plain(p) && '/' !in p
    ensures Clean(Resolved(parts))
    decreases |parts|
  {
    if parts != [] {
      ResolvedIsClean(Init(parts));
      PushKeepsClean(Resolved(Init(parts)), Last(parts));
    }
  }

  lemma {:induction false} CleanIsResolved(parts: seq<string>)
    requires Clean(parts)
    ensures Resolved(parts) == parts
    decreases |parts|
  {
    if parts != [] {
      var stack, part := Init(parts), Last(parts);
      assert Clean(stack);
      CleanIsResolved(stack);
      InitLast(parts);
      assert part in parts;
      if part == ".." && stack != [] {
        assert parts[|parts| - 1] == ".." && parts[|stack| - 1] == "..";
      }
    }
  }

  /** A joined clean path ends in no separator and holds no forward slash. */
  lemma {:induction false} JoinedIsTight(parts: seq<string>)
    requires forall p | p in parts :: Component(p)
    ensures '/' !in Join(parts)
    ensures parts != [] ==> Join(parts) != [] && Last(Join(parts)) != SEP && Last(Join(parts)) != '/'
    decreases |parts|
  {
    if |parts| == 1 {
      assert parts[0] in parts;
    } else if |parts| > 1 {
      assert parts[0] in parts;
      JoinedIsTight(parts[1..]);
      assert Last(Join(parts)) == Last(Join(parts[1..]));
    }
  }

  /** The normalised path is clean: `..` only in front, and nothing left to resolve. */
  lemma {:induction false} NormalizedIsClean(path: string)
    ensures exists parts :: Clean(parts) && Normalized(path) == Join(parts)
  {
    var parts := CleanParts(path);
  }

  lemma {:induction false} CleanParts(path: string) returns (parts: seq<string>)
    ensures Clean(parts) && Normalized(path) == Join(parts)
  {
    var q := TrimRight(Backslashes(path), false);
    TrimKeepsChars(Backslashes(path), false);
    SplitParts(q);
    parts := Resolved(Split(q));
    ResolvedIsClean(Split(q));
  }

  lemma {:induction false} TrimKeepsChars(s: string, slashToo: bool)
    ensures forall c | c in TrimRight(s, slashToo) :: c in s
    ensures TrimRight(s, slashToo) <= s
    decreases |s|
  {
    if s != [] && TrimRight(s, slashToo) != s {
      TrimKeepsChars(Init(s), slashToo);
    }
  }

  /** Normalising twice is normalising once. */
  lemma {:induction false} NormalizeIsIdempotent(path: string)
    ensures Normalized(Normalized(path)) == Normalized(path)
  {
    var parts := CleanParts(path);
    hide Split, Join, Component;
    var r := Join(parts);
    assert forall p | p in parts :: Component(p) && Plain(p) by { ComponentsArePlain(parts); }
    JoinedIsTight(parts);
    assert Backslashes(r) == r;
    CleanIsResolved(parts);
    if parts == [] {
      NothingJoined();
    } else {
      SplitJoin(parts);
    }
  }

  lemma {:induction false} ComponentsArePlain(parts: seq<string>)
    requires Clean(parts)
    ensures forall p | p in parts :: Component(p) && Plain(p)
  {}

  lemma {:induction false} NothingJoined()
    ensures Join([]) == "" && Resolved(Split("")) == []
  {
    assert Split("") == [""];
    assert Init([""]) == [] && Last([""]) == "";
  }

  // ----- What a path means

  /** The directory reached by following the parts from `dir`, where the parent of the root is the root. */
  function Walk(dir: seq<string>, parts: seq<string>): seq<string> {
    if parts == [] then dir else Go(Walk(dir, Init(parts)), Last(parts))
  }

  function Go(dir: seq<string>, part: string): seq<string> {
    if part == "" || part == "." then dir
    else if part == ".." then if dir == [] then dir else Init(dir)
    else dir + [part]
  }

  lemma {:induction false} PushThenGo(dir: seq<string>, stack: seq<string>, part: string)
    requires forall p | p in stack :: p != "" && p != "."
    ensures Walk(dir, Push(stack, part)) == Go(Walk(dir, stack), part)
  {
    if part == ".." && stack != [] && Last(stack) != ".." {
      var before := Walk(dir, Init(stack));
      assert Last(stack) in stack;
      assert Init(before + [Last(stack)]) == before;
    } else if part != "" && part != "." {
      assert Init(stack + [part]) == stack;
    }
  }

  /** Normalising a relative path changes no meaning: from every directory both forms lead to the same place. */
  lemma {:induction false} ResolvingKeepsTheWay(dir: seq<string>, parts: seq<string>)
    requires forall p | p in parts :: Plain(p) && '/' !in p
    ensures Walk(dir, Resolved(parts)) == Walk(dir, parts)
    decreases |parts|
  {
    if parts != [] {
      ResolvingKeepsTheWay(dir, Init(parts));
      ResolvedIsClean(Init(parts));
      PushThenGo(dir, Resolved(Init(parts)), Last(parts));
    }
  }

  /** How far the parts lead below where they start; negative once they lead above it. */
  function Depth(parts: seq<string>): int {
    if parts == [] then 0
    else
      var part := Last(parts);
      Depth(Init(parts)) + if part == "" || part == "." then 0 else if part == ".." then -1 else 1
  }

  ghost predicate ClimbsOut(parts: seq<string>) {
    exists k | 0 <= k <= |parts| :: Depth(parts[..k]) < 0
  }

  lemma {:induction false} ClimbsOutStep(parts: seq<string>)
    requires parts != []
    ensures ClimbsOut(parts) <==> ClimbsOut(Init(parts)) || Depth(parts) < 0
  {
    var n := |parts|;
    assert parts[..n] == parts;
    assert forall k | 0 <= k < n :: Init(parts)[..k] == parts[..k];
  }

  /** The normalised form starts with `..` exactly when some part of the way leads above the start. */
  lemma {:induction false} LeadingUpIffClimbsOut(parts: seq<string>)
    requires forall p | p in parts :: Plain(p) && '/' !in p
    ensures Resolved(parts) != [] && Resolved(parts)[0] == ".." <==> ClimbsOut(parts)
    ensures !ClimbsOut(parts) ==> |Resolved(parts)| == Depth(parts) && ".." !in Resolved(parts)
    decreases |parts|
  {
    if parts == [] {
      assert forall k | 0 <= k <= |parts| :: parts[..k] == [];
    } else {
      LeadingUpIffClimbsOut(Init(parts));
      ResolvedIsClean(Init(parts));
      ClimbsOutStep(parts);
    }
  }

  // ----- Containment

  function Fold(c: char): char {
    if 'A' <= c <= 'Z' then c + 32 as char else c
  }

  function FoldAll(s: string): (r: string)
    ensures |r| == |s|
  {
    seq(|s|, i requires 0 <= i < |s| => Fold(s[i]))
  }

  /** Case-insensitive equality of ASCII text. */
  predicate EqualFold(a: string, b: string) {
    FoldAll(a) == FoldAll(b)
  }

  predicate IsWithinRoot(root: string, path: string) {
    EqualFold(root, path) ||
    (|path| > |root| && EqualFold(path[..|root|], root) && (path[|root|] == SEP || path[|root|] == '/'))
  }

  predicate SamePath(a: string, b: string) {
    EqualFold(TrimRight(a, true), TrimRight(b, true))
  }

  predicate ContainsPath(root: string, target: string) {
    var r, t := TrimRight(root, true), TrimRight(target, true);
    SamePath(r, t) || (|t| > |r| && EqualFold(t[..|r|], r) && (t[|r|] == SEP || t[|r|] == '/'))
  }

  /** The components of a are the first components of b exactly when b is a, or goes on after a with a separator. */
  lemma {:induction false} ComponentPrefix(a: string, b: string)
    ensures Split(a) <= Split(b) <==> b == a || (|b| > |a| && b[..|a|] == a && b[|a|] == SEP)
    decreases |a|
  {
    if a == [] {
      EmptyPrefix(b);
    } else if b == [] {
      assert !(Split(a) <= Split(b)) by { EmptySplitOnlyForEmpty(a); }
    } else {
      ComponentPrefix(a[1..], b[1..]);
      var x, y := Split(a[1..]), Split(b[1..]);
      if a[0] == b[0] {
        SameHeadPrefix(a, b);
        assert b == a <==> b[1..] == a[1..] by {
          assert a == [a[0]] + a[1..] && b == [b[0]] + b[1..];
        }
        if |b| > |a| {
          assert b[1..][..|a| - 1] == b[..|a|][1..];
          assert b[..|a|] == [b[0]] + b[..|a|][1..] && a == [a[0]] + a[1..];
        }
      } else {
        HeadsDiffer(a, b);
      }
    }
  }

  lemma {:induction false} EmptyPrefix(b: string)
    ensures Split([]) <= Split(b) <==> b == [] || b[0] == SEP
  {
    if b != [] && b[0] == SEP {
      assert Split(b)[..1] == [""];
    }
    if b != [] && b[0] != SEP {
      assert Split(b)[0][0] == b[0];
    }
  }

  lemma {:induction false} EmptySplitOnlyForEmpty(a: string)
    requires a != []
    ensures !(Split(a) <= [""])
  {
    if a[0] == SEP {
      assert |Split(a)| > 1;
    } else {
      assert Split(a)[0][0] == a[0];
    }
  }

  lemma {:induction false} SameHeadPrefix(a: string, b: string)
    requires a != [] && b != [] && a[0] == b[0]
    ensures Split(a) <= Split(b) <==> Split(a[1..]) <= Split(b[1..])
  {
    var x, y := Split(a[1..]), Split(b[1..]);
    if a[0] == SEP {
      assert Split(a)[1..] == x && Split(b)[1..] == y;
      if x <= y {
        assert Split(b)[..|x| + 1] == [""] + y[..|x|];
      }
      if Split(a) <= Split(b) {
        assert y[..|x|] == Split(b)[..|x| + 1][1..];
      }
    } else {
      assert Split(a)[0][1..] == x[0] && Split(b)[0][1..] == y[0];
      assert Split(a)[1..] == x[1..] && Split(b)[1..] == y[1..];
      if x <= y {
        assert forall i | 0 <= i < |x| :: Split(a)[i] == Split(b)[i];
      }
      if Split(a) <= Split(b) {
        assert forall i | 0 <= i < |x| :: x[i] == y[i];
      }
    }
  }

  lemma {:induction false} HeadsDiffer(a: string, b: string)
    requires a != [] && b != [] && a[0] != b[0]
    ensures !(Split(a) <= Split(b)) || (a[0] == SEP && b == [])
    ensures b[..1] != a[..1]
  {
    assert Split(a)[0] != Split(b)[0] by {
      assert a[0] != SEP ==> Split(a)[0][0] == a[0];
      assert b[0] != SEP ==> Split(b)[0][0] == b[0];
    }
  }

  lemma {:induction false} FoldKeepsSeparators(s: string)
    ensures forall i | 0 <= i < |s| :: FoldAll(s)[i] == SEP <==> s[i] == SEP
    ensures forall k | 0 <= k <= |s| :: FoldAll(s[..k]) == FoldAll(s)[..k]
  {}

  /** The path with the separator that would follow the first n characters written as a backslash. */
  function AtBoundary(path: string, n: nat): string {
    if n < |path| && path[n] == '/' then path[n := SEP] else path
  }

  /** Being within the root is a test on folded components, whichever separator follows the root. */
  lemma {:induction false} WithinRootIsComponentPrefix(root: string, path: string)
    ensures IsWithinRoot(root, path) <==> Split(FoldAll(root)) <= Split(FoldAll(AtBoundary(path, |root|)))
    ensures '/' !in path ==> AtBoundary(path, |root|) == path
  {
    hide Split, Fold;
    var same := AtBoundary(path, |root|);
    assert |same| == |path| && (|root| <= |path| ==> same[..|root|] == path[..|root|]);
    ComponentPrefix(FoldAll(root), FoldAll(same));
    FoldKeepsSeparators(same);
    SlashIsNoLetter(path);
    if |root| == |path| {
      assert same == path;
    }
  }

  lemma {:induction false} SlashIsNoLetter(s: string)
    ensures Fold('/') == '/' && Fold(SEP) == SEP
    ensures forall i | 0 <= i < |s| :: FoldAll(s)[i] == '/' <==> s[i] == '/'
  {}

  lemma {:induction false} TrimTwice(s: string)
    ensures TrimRight(TrimRight(s, true), true) == TrimRight(s, true)
    decreases |s|
  {
    if s != [] && TrimRight(s, true) != s {
      TrimTwice(Init(s));
    }
  }

  /** The same for the resolved paths of the workspace, whose trailing separators do not count. */
  lemma {:induction false} ContainsIsComponentPrefix(root: string, target: string)
    ensures var r, t := TrimRight(root, true), TrimRight(target, true);
            ContainsPath(root, target) <==> Split(FoldAll(r)) <= Split(FoldAll(AtBoundary(t, |r|)))
  {
    hide Split, Fold;
    TrimTwice(root);
    TrimTwice(target);
    hide TrimRight;
    WithinRootIsComponentPrefix(TrimRight(root, true), TrimRight(target, true));
  }

  // ----- Letters and ends

  predicate IsSeparator(c: char) {
    c == '\\' || c == '/'
  }

  /** The same ASCII letter in either case, or the same character. */
  predicate SameLetter(c: char, d: char) {
    || c == d
    || ('A' <= c <= 'Z' && d as int == c as int + 32)
    || ('A' <= d <= 'Z' && c as int == d as int + 32)
  }

  lemma {:induction false} FoldIffSameLetter(c: char, d: char)
    ensures Fold(c) == Fold(d) <==> SameLetter(c, d)
  {}

  /** Trimming takes all separators off the end and nothing else. */
  lemma {:induction false} TrimTakesSeparators(s: string)
    ensures var r := TrimRight(s, true);
            && r <= s && (r != [] ==> !IsSeparator(Last(r)))
            && forall i | |r| <= i < |s| :: IsSeparator(s[i])
    decreases |s|
  {
    if s != [] && IsSeparator(Last(s)) {
      TrimTakesSeparators(Init(s));
    }
  }

  /** Two paths are the same exactly when, without their last separators, they agree letter by letter. */
  lemma {:induction false} SamePathIff(a: string, b: string)
    ensures var r, t := TrimRight(a, true), TrimRight(b, true);
            SamePath(a, b) <==> |r| == |t| && forall i | 0 <= i < |r| :: SameLetter(r[i], t[i])
  {
    var r, t := TrimRight(a, true), TrimRight(b, true);
    hide TrimRight, Fold, SameLetter;
    forall c, d ensures Fold(c) == Fold(d) <==> SameLetter(c, d) {
      FoldIffSameLetter(c, d);
    }
    if SamePath(a, b) {
      assert |FoldAll(r)| == |FoldAll(t)|;
      forall i | 0 <= i < |r| ensures SameLetter(r[i], t[i]) {
        assert FoldAll(r)[i] == FoldAll(t)[i];
      }
    }
  }

  // ----- Splitting what was joined

  lemma {:induction false} SplitFirst(c: char, s: string)
    ensures Split([c] + s) == if c == SEP then [""] + Split(s) else [[c] + Split(s)[0]] + Split(s)[1..]
    ensures Split([]) == [""]
  {
    assert ([c] + s)[1..] == s;
  }

  lemma {:induction false} SplitAtSeparator(a: string, b: string)
    ensures Split(a + [SEP] + b) == Split(a) + Split(b)
    decreases |a|
  {
    hide Split;
    if a == [] {
      SplitFirst(SEP, b);
      assert a + [SEP] + b == [SEP] + b;
    } else {
      var c, rest := a[0], a[1..];
      SplitAtSeparator(rest, b);
      SplitFirst(c, rest);
      SplitFirst(c, rest + [SEP] + b);
      assert a == [c] + rest && a + [SEP] + b == [c] + (rest + [SEP] + b);
      var x, y := Split(rest), Split(b);
      assert (x + y)[1..] == x[1..] + y;
    }
  }

  lemma {:induction false} JoinSplit(s: string)
    ensures Join(Split(s)) == s
    decreases |s|
  {
    if s != [] {
      JoinSplit(s[1..]);
      var r := Split(s[1..]);
      if s[0] == SEP {
        assert ([""] + r)[1..] == r;
      } else {
        assert ([[s[0]] + r[0]] + r[1..])[1..] == r[1..];
      }
      assert s == [s[0]] + s[1..];
    }
  }

  lemma {:induction false} SplitIsInjective(a: string, b: string)
    requires Split(a) == Split(b)
    ensures a == b
  {
    JoinSplit(a);
    JoinSplit(b);
  }

  // ----- The way of a whole path

  lemma {:induction false} WalkOn(dir: seq<string>, a: seq<string>, b: seq<string>)
    ensures Walk(dir, a + b) == Walk(Walk(dir, a), b)
    decreases |b|
  {
    if b == [] {
      assert a + b == a;
    } else {
      assert Init(a + b) == a + Init(b) && Last(a + b) == Last(b);
      WalkOn(dir, a, Init(b));
    }
  }

  /** Separators at the end of a path lead nowhere. */
  lemma {:induction false} TrimmedWay(dir: seq<string>, s: string)
    ensures Walk(dir, Split(TrimRight(s, false))) == Walk(dir, Split(s))
    decreases |s|
  {
    if s != [] && Last(s) == SEP {
      var t := Init(s);
      TrimmedWay(dir, t);
      SplitAtSeparator(t, "");
      assert t + [SEP] + "" == s && Split("") == [""];
      WalkOn(dir, Split(t), [""]);
      assert Walk(Walk(dir, Split(t)), [""]) == Walk(dir, Split(t)) by {
        assert Init([""]) == [] && Last([""]) == "";
      }
    }
  }

  /** From every directory the normalised path leads where the path leads, with either kind of separator. */
  lemma {:induction false} NormalizedKeepsTheWay(dir: seq<string>, path: string)
    ensures Walk(dir, Split(Normalized(path))) == Walk(dir, Split(Backslashes(path)))
  {
    var q := TrimRight(Backslashes(path), false);
    TrimKeepsChars(Backslashes(path), false);
    SplitParts(q);
    ResolvingKeepsTheWay(dir, Split(q));
    TrimmedWay(dir, Backslashes(path));
    ResolvedIsClean(Split(q));
    ComponentsArePlain(Resolved(Split(q)));
    hide Split, Walk, Join, Resolved;
    var parts := Resolved(Split(q));
    if parts == [] {
      NothingLeads(dir);
    } else {
      SplitJoin(parts);
    }
  }

  lemma {:induction false} NothingLeads(dir: seq<string>)
    ensures Walk(dir, Split(Join([]))) == dir == Walk(dir, [])
  {
    assert Split("") == [""] && Init([""]) == [] && Last([""]) == "";
  }
}
