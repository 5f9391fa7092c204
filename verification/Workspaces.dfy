/** Resolving a path inside the workspace (internal/workspace/workspace_windows.go). */
module Workspaces {
  import opened Basics
  import opened Paths

  // ----- The file system, as far as it is asked

  datatype Presence = Found | Missing | Failed
  datatype Place = Place(path: string, identity: nat)

  /** Answers of the file system. Directories are component lists below the volume root. */
  datatype FileSystem = FileSystem(
    lstat: seq<string> -> Presence,
    evalSymlinks: seq<string> -> Option<seq<string>>,
    finalPath: seq<string> -> Option<Place>)

  datatype Workspace = Workspace(root: seq<string>, bound: Place)

  datatype Error = Unbound | Escape

  // ----- The lexical check

  function PartsOf(path: string): (r: seq<string>) {
    Split(Backslashes(path))
  }

  predicate StartsWithSeparator(path: string) {
    path != [] && (path[0] == SEP || path[0] == '/')
  }

  /** The components of the cleaned path. A leading separator makes `..` stop at the top. */
  function Cleaned(path: string): seq<string> {
    if StartsWithSeparator(path) then Walk([], PartsOf(path)) else Resolved(PartsOf(path))
  }

  /** `validateRelativePath`; `named` says that the path is absolute or has a volume name. */
  predicate RelativePath(path: string, named: bool) {
    0 as char !in path && !named && !(Cleaned(path) != [] && Cleaned(path)[0] == "..")
  }

  lemma {:induction false} PartsArePlain(path: string)
    ensures forall p | p in PartsOf(path) :: Plain(p) && '/' !in p
  {
    SplitParts(Backslashes(path));
  }

  predicate Below(parts: seq<string>) {
    forall p | p in parts :: Component(p) && p != ".."
  }

  lemma {:induction false} WalkStaysBelow(parts: seq<string>)
    requires forall p | p in parts :: Plain(p) && '/' !in p
    ensures Below(Walk([], parts))
    decreases |parts|
  {
    if parts != [] {
      WalkStaysBelow(Init(parts));
    }
  }

  /** A path is refused for climbing out exactly when some prefix of it leads above the workspace root. */
  lemma {:induction false} RelativeIffStaysBelow(path: string, named: bool)
    ensures RelativePath(path, named) <==>
            0 as char !in path && !named && (StartsWithSeparator(path) || !ClimbsOut(PartsOf(path)))
    ensures RelativePath(path, named) ==> Below(Cleaned(path))
  {
    PartsArePlain(path);
    WalkStaysBelow(PartsOf(path));
    LeadingUpIffClimbsOut(PartsOf(path));
    ResolvedIsClean(PartsOf(path));
    hide Walk, Resolved, Split;
    var clean := Cleaned(path);
    assert clean != [] ==> clean[0] in clean;
  }

  // ----- The deepest existing ancestor

  /** The number of components of the deepest existing ancestor, if the search reaches one. */
  function Deepest(fs: FileSystem, current: seq<string>): (r: Option<nat>)
    ensures r.Some? ==> r.value <= |current|
    decreases |current|
  {
    match fs.lstat(current)
    case Found => Some(|current|)
    case Failed => None
    case Missing => if current == [] then None else Deepest(fs, Init(current))
  }

  ghost predicate MissingBeyond(fs: FileSystem, candidate: seq<string>, depth: nat) {
    forall k | depth < k <= |candidate| :: fs.lstat(candidate[..k]) == Missing
  }

  /** The search stops at the longest prefix that is not missing, and succeeds exactly when that one is there. */
  lemma {:induction false} DeepestIsLongestPresent(fs: FileSystem, candidate: seq<string>, depth: nat)
    requires depth <= |candidate|
    ensures Deepest(fs, candidate) == Some(depth)
            <==> fs.lstat(candidate[..depth]) == Found && MissingBeyond(fs, candidate, depth)
    decreases |candidate|
  {
    var n := |candidate|;
    assert candidate[..n] == candidate;
    if depth < n {
      var shorter := Init(candidate);
      DeepestIsLongestPresent(fs, shorter, depth);
      assert forall k | 0 <= k < n :: shorter[..k] == candidate[..k];
    }
  }

  /** `deepestExistingAncestor`. */
  method DeepestExistingAncestor(fs: FileSystem, candidate: seq<string>)
    returns (r: Result<seq<string>, Error>, suffix: seq<string>)
    ensures r.Ok? <==> Deepest(fs, candidate).Some?
    ensures r.Ok? ==> r.value + suffix == candidate && Deepest(fs, candidate) == Some(|r.value|)
    ensures r.Err? ==> r.error == Escape
  {
    var current := candidate;
    suffix := [];
    while true
      invariant current + suffix == candidate
      invariant Deepest(fs, current) == Deepest(fs, candidate)
      decreases |current|
    {
      var presence := fs.lstat(current);
      if presence == Found {
        return Ok(current), suffix;
      } else if presence == Failed {
        return Err(Escape), [];
      }
      if current == [] {
        return Err(Escape), [];
      }
      InitLast(current);
      suffix := [Last(current)] + suffix;
      current := Init(current);
    }
  }

  // ----- Resolve

  /** Joining the real ancestor and the components that do not exist yet. */
  function JoinBelow(base: string, suffix: seq<string>): string {
    if suffix == [] then base
    else if base != [] && Last(base) == SEP then base + Join(suffix)
    else base + [SEP] + Join(suffix)
  }

  predicate IsBound(w: Workspace, place: Option<Place>) {
    place.Some? && place.value.identity == w.bound.identity && SamePath(w.bound.path, place.value.path)
  }

  /** The real place of a directory, if both questions about it are answered. */
  function PlaceOf(fs: FileSystem, dir: seq<string>): Option<Place> {
    match fs.evalSymlinks(dir)
    case None => None
    case Some(target) => fs.finalPath(target)
  }

  /** What `Resolve` answers; `checked` is the answer for the root when the binding is checked. */
  function Resolution(w: Workspace, checked: Option<Place>, fs: FileSystem, path: string,
                      named: bool): Result<string, Error> {
    if !IsBound(w, checked) then Err(Unbound)
    else if !RelativePath(path, named) then Err(Escape)
    else
      var candidate := w.root + Cleaned(path);
      match Deepest(fs, candidate)
      case None => Err(Escape)
      case Some(n) =>
        match PlaceOf(fs, candidate[..n])
        case None => Err(Escape)
        case Some(place) =>
          if ContainsPath(w.bound.path, place.path) then Ok(JoinBelow(place.path, candidate[n..]))
          else Err(Escape)
  }

  method Resolve(w: Workspace, checked: Option<Place>, fs: FileSystem, path: string, named: bool)
    returns (r: Result<string, Error>)
    ensures r == Resolution(w, checked, fs, path, named)
  {
    hide Join, Split, ContainsPath, SamePath, Cleaned, RelativePath;
    if !IsBound(w, checked) {
      return Err(Unbound);
    }
    if !RelativePath(path, named) {
      return Err(Escape);
    }
    ghost var candidate := w.root + Cleaned(path);
    var ancestor, suffix := DeepestExistingAncestor(fs, w.root + Cleaned(path));
    if ancestor.Err? {
      return Err(Escape);
    }
    assert candidate[..|ancestor.value|] == ancestor.value && candidate[|ancestor.value|..] == suffix;
    var target := fs.evalSymlinks(ancestor.value);
    if target.None? {
      return Err(Escape);
    }
    var place := fs.finalPath(target.value);
    if place.None? {
      return Err(Escape);
    }
    if !ContainsPath(w.bound.path, place.value.path) {
      return Err(Escape);
    }
    r := Ok(JoinBelow(place.value.path, suffix));
  }

  lemma {:induction false} TrimEnds(s: string)
    ensures TrimRight(s, true) <= s
    ensures |s| > |TrimRight(s, true)| ==> s[|TrimRight(s, true)|] == SEP || s[|TrimRight(s, true)|] == '/'
    decreases |s|
  {
    if s != [] && TrimRight(s, true) != s {
      TrimEnds(Init(s));
    }
  }

  /** Components joined below a contained place are contained, whatever that place looks like. */
  lemma {:induction false} JoinBelowStaysInside(root: string, base: string, suffix: seq<string>)
    requires ContainsPath(root, base) && Below(suffix)
    ensures ContainsPath(root, JoinBelow(base, suffix))
  {
    if suffix != [] {
      var r, t, whole := TrimRight(root, true), TrimRight(base, true), JoinBelow(base, suffix);
      JoinedIsTight(suffix);
      assert Last(whole) == Last(Join(suffix));
      hide Join, Fold;
      TrimTwice(root);
      TrimTwice(base);
      TrimEnds(base);
      assert TrimRight(whole, true) == whole && TrimRight(TrimRight(whole, true), true) == whole;
      assert t <= whole && |t| < |whole|;
      assert whole[|t|] == SEP || whole[|t|] == '/' by {
        if |base| == |t| && base != [] {
          assert t == base;
          TrimEnds(Init(base));
          assert Last(base) != SEP;
        }
      }
      assert |r| <= |t| && EqualFold(t[..|r|], r) by {
        if EqualFold(r, t) {
          assert |FoldAll(r)| == |FoldAll(t)|;
          assert t[..|r|] == t;
        }
      }
      assert whole[..|r|] == t[..|r|];
    }
  }

  /** Whatever the file system answers, a path that `Resolve` returns lies within the bound root. */
  lemma {:induction false} ResolveStaysInside(w: Workspace, checked: Option<Place>, fs: FileSystem, path: string,
                                              named: bool)
    requires Below(w.root)
    ensures var r := Resolution(w, checked, fs, path, named); r.Ok? ==> ContainsPath(w.bound.path, r.value)
  {
    hide Join, Split, ContainsPath, SamePath, RelativePath;
    var r := Resolution(w, checked, fs, path, named);
    if r.Ok? {
      RelativeIffStaysBelow(path, named);
      var candidate := w.root + Cleaned(path);
      var n := Deepest(fs, candidate).value;
      assert forall p | p in candidate :: Component(p) && p != "..";
      assert Below(candidate[n..]);
      JoinBelowStaysInside(w.bound.path, PlaceOf(fs, candidate[..n]).value.path, candidate[n..]);
    }
  }

  // ----- What is resolved

  predicate AllPlain(parts: seq<string>) {
    forall p | p in parts :: Plain(p)
  }

  /** Following names leads below. */
  lemma {:induction false} WalkNames(dir: seq<string>, names: seq<string>)
    requires forall p | p in names :: p != "" && p != "." && p != ".."
    ensures Walk(dir, names) == dir + names
    decreases |names|
  {
    if names == [] {
      assert dir + names == dir;
    } else {
      assert forall p | p in Init(names) :: p in names;
      WalkNames(dir, Init(names));
      assert Last(names) in names;
      assert dir + Init(names) + [Last(names)] == dir + names;
    }
  }

  /** An accepted path is cleaned to the way it leads from the top. */
  lemma {:induction false} CleanedIsTheWay(path: string, named: bool)
    requires RelativePath(path, named)
    ensures Cleaned(path) == Walk([], PartsOf(path))
  {
    PartsArePlain(path);
    RelativeIffStaysBelow(path, named);
    if !StartsWithSeparator(path) {
      ResolvingKeepsTheWay([], PartsOf(path));
      hide Walk, Resolved, PartsOf;
      WalkNames([], Cleaned(path));
      assert [] + Cleaned(path) == Cleaned(path);
    }
  }

  /** The place without the separator it may end in. */
  function Bare(place: string): string {
    if place != [] && Last(place) == '\\' then Init(place) else place
  }

  /** The result names the real place of what is there, and below it exactly what is missing. */
  predicate Names(result: string, place: string, missing: seq<string>) {
    if missing == [] then result == place else Split(result) == Split(Bare(place)) + missing
  }

  lemma {:induction false} JoinedNames(base: string, suffix: seq<string>, result: string)
    requires AllPlain(suffix)
    ensures Names(result, base, suffix) <==> result == JoinBelow(base, suffix)
  {
    if suffix != [] {
      hide Join, Split;
      SplitAtSeparator(Bare(base), Join(suffix));
      SplitJoin(suffix);
      assert base == Bare(base) || base == Bare(base) + [SEP];
      assert JoinBelow(base, suffix) == Bare(base) + [SEP] + Join(suffix);
      if Names(result, base, suffix) {
        SplitIsInjective(result, JoinBelow(base, suffix));
      }
    }
  }

  /** The longest prefix of the candidate that is not missing is there, lies inside, and the result goes on from it. */
  ghost predicate Reaches(w: Workspace, fs: FileSystem, candidate: seq<string>, n: nat, result: string)
    requires n <= |candidate|
  {
    && fs.lstat(candidate[..n]) == Found && MissingBeyond(fs, candidate, n)
    && fs.evalSymlinks(candidate[..n]).Some?
    && var place := fs.finalPath(fs.evalSymlinks(candidate[..n]).value);
    && place.Some? && ContainsPath(w.bound.path, place.value.path)
    && Names(result, place.value.path, candidate[n..])
  }

  /** The root is still the directory it was bound to. */
  predicate StillBound(w: Workspace, checked: Option<Place>) {
    checked.Some? && checked.value.identity == w.bound.identity && SamePath(w.bound.path, checked.value.path)
  }

  /**
   * A path is resolved exactly when the binding holds, the path is relative, and from the root the way it leads ends
   * inside; the result has exactly the components of the real place of what is there, and those that are missing.
   */
  lemma {:induction false} ResolvesIff(w: Workspace, checked: Option<Place>, fs: FileSystem, path: string,
                                       named: bool, result: string)
    requires AllPlain(w.root)
    ensures Resolution(w, checked, fs, path, named) == Ok(result) <==>
            && StillBound(w, checked) && RelativePath(path, named)
            && var candidate := w.root + Walk([], PartsOf(path));
               exists n | 0 <= n <= |candidate| :: Reaches(w, fs, candidate, n, result)
  {
    hide Join, Split, ContainsPath, SamePath, RelativePath, Cleaned, Deepest, Names, JoinBelow, Walk, PartsOf;
    if RelativePath(path, named) {
      CleanedIsTheWay(path, named);
      var candidate := w.root + Cleaned(path);
      CandidateIsPlain(w.root, path, named);
      forall n | 0 <= n <= |candidate|
        ensures Deepest(fs, candidate) == Some(n)
                <==> fs.lstat(candidate[..n]) == Found && MissingBeyond(fs, candidate, n)
      {
        DeepestIsLongestPresent(fs, candidate, n);
      }
      forall base, n | 0 <= n <= |candidate|
        ensures Names(result, base, candidate[n..]) <==> result == JoinBelow(base, candidate[n..])
      {
        JoinedNames(base, candidate[n..], result);
      }
      var d := Deepest(fs, candidate);
      if d.Some? && Resolution(w, checked, fs, path, named) == Ok(result) {
        assert Reaches(w, fs, candidate, d.value, result);
      }
    }
  }

  lemma {:induction false} CandidateIsPlain(root: seq<string>, path: string, named: bool)
    requires AllPlain(root) && RelativePath(path, named)
    ensures var candidate := root + Cleaned(path); forall n | 0 <= n <= |candidate| :: AllPlain(candidate[n..])
  {
    RelativeIffStaysBelow(path, named);
    hide Cleaned, RelativePath;
    var candidate := root + Cleaned(path);
    assert AllPlain(candidate);
  }
}
