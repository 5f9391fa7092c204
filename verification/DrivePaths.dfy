/**
 * What normalising does to a path that starts at a drive or a share, where `..` stops
 * (internal/safety/classify.go).
 */
module DrivePaths {
  import opened Basics
  import opened Paths

  // ----- Parts of a rooted path

  /** The parts `normalizeWindowsPath` loops over. */
  function PathParts(path: string): (r: seq<string>)
    ensures r != []
  {
    Split(TrimRight(Backslashes(path), false))
  }

  predicate AllPlain(parts: seq<string>) {
    forall p | p in parts :: Plain(p) && '/' !in p
  }

  /** Names that stay in place: neither empty nor dots. */
  predicate Names(parts: seq<string>) {
    forall p | p in parts :: Component(p) && p != ".."
  }

  /** The path is leading separators, a drive or a share, and the way from there. */
  predicate Rooted(path: string, blanks: seq<string>, drive: seq<string>, rest: seq<string>) {
    && PathParts(path) == blanks + drive + rest
    && (forall p | p in blanks :: p == "") && drive != [] && Names(drive)
  }

  /** Where a rooted path really leads: above the drive there is nothing. */
  function RealPlace(drive: seq<string>, rest: seq<string>): seq<string> {
    drive + Walk([], rest)
  }

  lemma {:induction false} PathPartsArePlain(path: string)
    ensures AllPlain(PathParts(path))
  {
    var trimmed := TrimRight(Backslashes(path), false);
    TrimKeepsChars(Backslashes(path), false);
    SplitParts(trimmed);
    assert '/' !in Backslashes(path);
  }

  /** A drive letter, a colon and a separator make a rooted path. */
  predicate DrivePath(path: string) {
    && |path| >= 3 && ('A' <= path[0] <= 'Z' || 'a' <= path[0] <= 'z') && path[1] == ':'
    && (path[2] == SEP || path[2] == '/')
  }

  lemma {:induction false} TrimKeepsFront(s: string, n: nat)
    requires 0 < n <= |s| && s[n - 1] != SEP
    ensures n <= |TrimRight(s, false)| && TrimRight(s, false)[..n] == s[..n]
    decreases |s|
  {
    if TrimRight(s, false) != s {
      assert |s| != n;
      TrimKeepsFront(Init(s), n);
    }
  }

  lemma {:induction false} TrimmedBefore(s: string, n: nat)
    requires 0 < n < |s| && s[n] == SEP && s[n - 1] != SEP
    ensures var t := TrimRight(s, false); n <= |t| && t[..n] == s[..n] && (|t| > n ==> t[n] == SEP)
  {
    TrimKeepsFront(s, n);
    TrimKeepsChars(s, false);
  }

  lemma {:induction false} DriveFirst(path: string)
    requires DrivePath(path)
    ensures Rooted(path, [], [path[..2]], PathParts(path)[1..])
    ensures ':' in path[..2]
  {
    var s := Backslashes(path);
    assert s[..2] == path[..2] && s[2] == SEP;
    TrimmedBefore(s, 2);
    var t, d := TrimRight(s, false), path[..2];
    hide TrimRight, Backslashes;
    assert d[0] != SEP && d[1] == ':' && Plain(d) && Component(d);
    if |t| > 2 {
      assert t == d + [SEP] + t[3..];
      SplitPlain(d, t[3..]);
    } else {
      assert t == d;
      SplitPlain(d, "");
    }
    assert [] + [d] + PathParts(path)[1..] == PathParts(path);
    assert path[..2][1] == ':';
  }

  // ----- Depths

  /** The lowest point of the way, never above its start. */
  function Lowest(parts: seq<string>): int {
    if parts == [] then 0 else Min(Lowest(Init(parts)), Depth(parts))
  }

  lemma {:induction false} ClimbsOutIffLow(parts: seq<string>)
    ensures ClimbsOut(parts) <==> Lowest(parts) < 0
    ensures Lowest(parts) <= 0 && Lowest(parts) <= Depth(parts)
    decreases |parts|
  {
    if parts == [] {
      assert forall k | 0 <= k <= |parts| :: parts[..k] == [];
    } else {
      ClimbsOutIffLow(Init(parts));
      ClimbsOutStep(parts);
    }
  }

  /** Every step above the start is lost, so the place is as deep as the way climbed from its lowest point. */
  lemma {:induction false} WalkLength(parts: seq<string>)
    ensures |Walk([], parts)| == Depth(parts) - Lowest(parts)
    decreases |parts|
  {
    if parts != [] {
      WalkLength(Init(parts));
      ClimbsOutIffLow(Init(parts));
    }
  }

  lemma {:induction false} NamesDepth(drive: seq<string>)
    requires Names(drive)
    ensures Depth(drive) == |drive| && Lowest(drive) == 0
    decreases |drive|
  {
    if drive != [] {
      assert Last(drive) in drive;
      NamesDepth(Init(drive));
    }
  }

  lemma {:induction false} DepthBelowDrive(drive: seq<string>, rest: seq<string>)
    requires Names(drive)
    ensures Depth(drive + rest) == |drive| + Depth(rest)
    ensures Lowest(drive + rest) == Min(0, |drive| + Lowest(rest))
    decreases |rest|
  {
    NamesDepth(drive);
    if rest == [] {
      assert drive + rest == drive;
    } else {
      assert Init(drive + rest) == drive + Init(rest) && Last(drive + rest) == Last(rest);
      DepthBelowDrive(drive, Init(rest));
      ClimbsOutIffLow(Init(rest));
    }
  }

  // ----- Normal forms

  lemma {:induction false} WalkNames(names: seq<string>)
    requires Names(names)
    ensures Walk([], names) == names
    decreases |names|
  {
    if names != [] {
      assert Last(names) in names;
      WalkNames(Init(names));
      InitLast(names);
    }
  }

  lemma {:induction false} NamesResolved(drive: seq<string>)
    requires Names(drive)
    ensures Resolved(drive) == drive
  {
    assert forall i | 0 <= i < |drive| :: drive[i] in drive;
    CleanIsResolved(drive);
  }

  /** While the way stays below the drive, resolving leaves the drive alone. */
  lemma {:induction false} ResolvedBelow(drive: seq<string>, rest: seq<string>)
    requires Names(drive) && AllPlain(rest) && !ClimbsOut(rest)
    ensures Resolved(drive + rest) == drive + Resolved(rest)
    decreases |rest|
  {
    if rest == [] {
      assert drive + rest == drive;
      NamesResolved(drive);
    } else {
      var before := Init(rest);
      assert Init(drive + rest) == drive + before && Last(drive + rest) == Last(rest);
      ClimbsOutStep(rest);
      ResolvedBelow(drive, before);
      LeadingUpIffClimbsOut(before);
      LeadingUpIffClimbsOut(rest);
      var stack := Resolved(before);
      UpNeedsName(stack, Last(rest));
      PushBelow(drive, stack, Last(rest));
    }
  }

  lemma {:induction false} UpNeedsName(stack: seq<string>, part: string)
    requires ".." !in stack && ".." !in Push(stack, part)
    ensures part == ".." ==> stack != [] && Last(stack) != ".."
  {
    assert stack != [] ==> Last(stack) in stack;
    assert ".." in [".."];
  }

  lemma {:induction false} PushBelow(drive: seq<string>, stack: seq<string>, part: string)
    requires part == ".." ==> stack != [] && Last(stack) != ".."
    ensures Push(drive + stack, part) == drive + Push(stack, part)
  {
    if part == ".." {
      assert Last(drive + stack) == Last(stack) && Init(drive + stack) == drive + Init(stack);
    } else {
      assert drive + stack + [part] == drive + (stack + [part]);
    }
  }

  /**
   * The normal form keeps the drive in front and leads to the same place exactly when the way never climbs above
   * the drive. Otherwise it is not left as it is, as its comment says, but loses the drive.
   */
  lemma {:induction false} RootedFormIff(drive: seq<string>, rest: seq<string>)
    requires drive != [] && Names(drive) && AllPlain(rest)
    ensures Resolved(drive + rest) == RealPlace(drive, rest) <==> !ClimbsOut(rest)
  {
    if ClimbsOut(rest) {
      DepthBelowDrive(drive, rest);
      ClimbsOutIffLow(rest);
      ClimbsOutIffLow(drive + rest);
      WalkLength(rest);
      LeadingUpIffClimbsOut(drive + rest);
      assert drive[0] in drive && RealPlace(drive, rest)[0] == drive[0];
    } else {
      ResolvedBelow(drive, rest);
      ResolvingKeepsTheWay([], rest);
      LeadingUpIffClimbsOut(rest);
      ResolvedIsClean(rest);
      WalkNames(Resolved(rest));
    }
  }

  lemma {:induction false} BlanksResolved(blanks: seq<string>, parts: seq<string>)
    requires forall p | p in blanks :: p == ""
    ensures Resolved(blanks + parts) == Resolved(parts)
    decreases |blanks| + |parts|
  {
    if parts == [] {
      assert blanks + parts == blanks;
      if blanks != [] {
        assert Last(blanks) in blanks && forall p | p in Init(blanks) :: p in blanks;
        BlanksResolved(Init(blanks), []);
        assert Init(blanks) + [] == Init(blanks);
      }
    } else {
      assert Init(blanks + parts) == blanks + Init(parts) && Last(blanks + parts) == Last(parts);
      BlanksResolved(blanks, Init(parts));
    }
  }

  // ----- Containment

  function FoldEach(parts: seq<string>): seq<string> {
    seq(|parts|, i requires 0 <= i < |parts| => FoldAll(parts[i]))
  }

  lemma {:induction false} FoldJoined(parts: seq<string>)
    ensures FoldAll(Join(parts)) == Join(FoldEach(parts))
    decreases |parts|
  {
    if |parts| == 1 {
      assert FoldEach(parts) == [FoldAll(parts[0])];
    } else if |parts| > 1 {
      FoldJoined(parts[1..]);
      FoldOfThree(parts[0], Join(parts[1..]));
      assert FoldEach(parts) == [FoldAll(parts[0])] + FoldEach(parts[1..]);
    }
  }

  lemma {:induction false} FoldOfThree(a: string, b: string)
    ensures FoldAll(a + [SEP] + b) == FoldAll(a) + [SEP] + FoldAll(b)
  {}

  lemma {:induction false} FoldedArePlain(parts: seq<string>)
    requires forall p | p in parts :: Component(p)
    ensures forall p | p in FoldEach(parts) :: Plain(p) && p != ""
  {
    forall p | p in FoldEach(parts) ensures Plain(p) && p != "" {
      var i :| 0 <= i < |parts| && FoldAll(parts[i]) == p;
      assert Component(parts[i]);
      FoldKeepsSeparators(parts[i]);
    }
  }

  /** On joined components, being within the root is a prefix test on the folded components. */
  lemma {:induction false} WithinIsFoldedPrefix(root: seq<string>, parts: seq<string>)
    requires root != [] && (forall p | p in root :: Component(p)) && forall p | p in parts :: Component(p)
    ensures IsWithinRoot(Join(root), Join(parts)) <==> FoldEach(root) <= FoldEach(parts)
  {
    JoinedIsTight(parts);
    FoldJoined(root);
    FoldJoined(parts);
    FoldedArePlain(root);
    FoldedArePlain(parts);
    hide Split, Join, FoldAll, IsWithinRoot, Component;
    WithinRootIsComponentPrefix(Join(root), Join(parts));
    SplitJoin(FoldEach(root));
    if parts == [] {
      NoParts();
      assert FoldEach(root)[0] in FoldEach(root);
    } else {
      SplitJoin(FoldEach(parts));
    }
  }

  lemma {:induction false} NoParts()
    ensures Join([]) == "" && FoldAll("") == "" && Split("") == [""] && FoldEach([]) == []
  {}

  /** The normal form of a rooted path, part by part. */
  lemma {:induction false} RootedNormalForm(path: string, blanks: seq<string>, drive: seq<string>, rest: seq<string>)
    requires Rooted(path, blanks, drive, rest)
    ensures Normalized(path) == Join(Resolved(drive + rest))
    ensures AllPlain(rest) && forall p | p in Resolved(drive + rest) :: Component(p)
  {
    PathPartsArePlain(path);
    assert blanks + drive + rest == blanks + (drive + rest);
    BlanksResolved(blanks, drive + rest);
    assert forall p | p in drive + rest :: p in PathParts(path);
    ResolvedIsClean(drive + rest);
  }

  /**
   * Judging a path by its normal form is exact as long as neither it nor the root climbs above its drive: the path
   * is judged within the root exactly when it really leads there.
   */
  lemma {:induction false} JudgedIffReal(root: string, rb: seq<string>, rd: seq<string>, rr: seq<string>,
                                         path: string, pb: seq<string>, pd: seq<string>, pr: seq<string>)
    requires Rooted(root, rb, rd, rr) && Rooted(path, pb, pd, pr) && !ClimbsOut(rr) && !ClimbsOut(pr)
    ensures IsWithinRoot(Normalized(root), Normalized(path))
            <==> FoldEach(RealPlace(rd, rr)) <= FoldEach(RealPlace(pd, pr))
  {
    RootedNormalForm(root, rb, rd, rr);
    RootedNormalForm(path, pb, pd, pr);
    RootedFormIff(rd, rr);
    RootedFormIff(pd, pr);
    hide Rooted, Normalized, IsWithinRoot, FoldEach, ClimbsOut, Component;
    WithinIsFoldedPrefix(RealPlace(rd, rr), RealPlace(pd, pr));
  }

  lemma {:induction false} JoinedEnds(parts: seq<string>)
    requires AllPlain(parts) && parts != [] && Last(parts) != ""
    ensures '/' !in Join(parts) && Join(parts) != "" && Last(Join(parts)) != SEP
    decreases |parts|
  {
    assert parts[0] in parts && Last(parts) in parts;
    if |parts| > 1 {
      JoinedEnds(parts[1..]);
      assert Last(Join(parts)) == Last(Join(parts[1..]));
    }
  }

  /** Plain parts joined with separators are the parts of that path again. */
  lemma {:induction false} PartsOfJoined(parts: seq<string>)
    requires AllPlain(parts) && parts != [] && Last(parts) != ""
    ensures PathParts(Join(parts)) == parts
  {
    JoinedEnds(parts);
    SplitJoin(parts);
    hide Split, Join;
    assert Backslashes(Join(parts)) == Join(parts);
  }

  /** The judgement about the path is right for this root. */
  predicate JudgedRight(
    root: string, rd: seq<string>, rr: seq<string>, path: string, pd: seq<string>, pr: seq<string>)
  {
    IsWithinRoot(Normalized(root), Normalized(path)) <==> FoldEach(RealPlace(rd, rr)) <= FoldEach(RealPlace(pd, pr))
  }

  /** The judgement about the path is right for every root that does not climb above its own drive. */
  ghost predicate AlwaysJudgedRight(path: string, pd: seq<string>, pr: seq<string>) {
    forall root: string, rb: seq<string>, rd: seq<string>, rr: seq<string> ::
      Rooted(root, rb, rd, rr) && !ClimbsOut(rr) ==> JudgedRight(root, rd, rr, path, pd, pr)
  }

  /** A drive or share and names below it make a rooted path that does not climb. */
  lemma {:induction false} NamesAreRooted(drive: seq<string>, names: seq<string>)
    requires drive != [] && Names(drive) && Names(names)
    ensures Rooted(Join(drive + names), [], drive, names)
    ensures !ClimbsOut(names) && RealPlace(drive, names) == drive + names
  {
    var parts := drive + names;
    assert Last(parts) in parts && AllPlain(parts) && [] + drive + names == parts;
    PartsOfJoined(parts);
    NamesDepth(names);
    ClimbsOutIffLow(names);
    WalkNames(names);
  }

  lemma {:induction false} WalkIsNames(parts: seq<string>)
    requires AllPlain(parts)
    ensures Names(Walk([], parts))
    decreases |parts|
  {
    if parts != [] {
      assert Last(parts) in parts && forall p | p in Init(parts) :: p in parts;
      WalkIsNames(Init(parts));
    }
  }

  lemma {:induction false} FoldKeepsUp(s: string)
    ensures FoldAll(s) == ".." <==> s == ".."
  {
    if FoldAll(s) == ".." {
      assert |s| == 2;
      assert FoldAll(s)[0] == Fold(s[0]) && FoldAll(s)[1] == Fold(s[1]);
      assert s[0] == '.' && s[1] == '.';
    }
  }

  /** The normal form of a climbing path does not even begin with the place it really leads to. */
  lemma {:induction false} ClimbedFormDiffers(drive: seq<string>, rest: seq<string>)
    requires drive != [] && Names(drive) && AllPlain(rest) && ClimbsOut(rest)
    ensures !(FoldEach(RealPlace(drive, rest)) <= FoldEach(Resolved(drive + rest)))
  {
    var place, form := RealPlace(drive, rest), Resolved(drive + rest);
    DepthBelowDrive(drive, rest);
    ClimbsOutIffLow(rest);
    ClimbsOutIffLow(drive + rest);
    WalkLength(rest);
    LeadingUpIffClimbsOut(drive + rest);
    assert drive[0] in drive && place[0] == drive[0];
    FoldKeepsUp(drive[0]);
    hide Resolved, Walk, FoldAll, ClimbsOut;
    if FoldEach(place) <= FoldEach(form) {
      assert |FoldEach(place)| == |place| && |FoldEach(form)| == |form|;
      assert FoldEach(place)[0] == FoldEach(form)[0];
      FoldKeepsUp(form[0]);
    }
  }

  /** The judgement about a rooted path is right for every root exactly when the path does not climb above its drive. */
  lemma {:induction false} AlwaysRightIff(path: string, pb: seq<string>, pd: seq<string>, pr: seq<string>)
    requires Rooted(path, pb, pd, pr)
    ensures AlwaysJudgedRight(path, pd, pr) <==> !ClimbsOut(pr)
  {
    RootedNormalForm(path, pb, pd, pr);
    if ClimbsOut(pr) {
      WalkIsNames(pr);
      var root, names := Join(pd + Walk([], pr)), Walk([], pr);
      NamesAreRooted(pd, names);
      RootedNormalForm(root, [], pd, names);
      RootedFormIff(pd, names);
      ClimbedFormDiffers(pd, pr);
      hide Rooted, Normalized, IsWithinRoot, FoldEach, Component, Resolved, ClimbsOut, Walk, Join;
      WithinIsFoldedPrefix(pd + names, Resolved(pd + pr));
      assert !JudgedRight(root, pd, names, path, pd, pr);
      assert Rooted(root, [], pd, names);
    } else {
      forall root: string, rb: seq<string>, rd: seq<string>, rr: seq<string>
        | Rooted(root, rb, rd, rr) && !ClimbsOut(rr)
        ensures JudgedRight(root, rd, rr, path, pd, pr)
      {
        JudgedIffReal(root, rb, rd, rr, path, pb, pd, pr);
      }
    }
  }

  // ----- Drive letters

  predicate NoColon(parts: seq<string>) {
    forall p | p in parts :: ':' !in p
  }

  lemma {:induction false} ResolvedSources(parts: seq<string>)
    ensures forall p | p in Resolved(parts) :: p in parts
    decreases |parts|
  {
    if parts != [] {
      ResolvedSources(Init(parts));
    }
  }

  /** A resolved way that starts with the drive's name, where no other name has a colon, never lost the drive. */
  lemma {:induction false} LostDriveStaysLost(drive: string, rest: seq<string>)
    requires Names([drive]) && AllPlain(rest) && NoColon(rest) && ClimbsOut(rest)
    ensures var r := Resolved([drive] + rest); r == [] || ':' !in r[0]
    decreases |rest|
  {
    var before := Init(rest);
    ClimbsOutStep(rest);
    assert Init([drive] + rest) == [drive] + before && Last([drive] + rest) == Last(rest);
    assert Last(rest) in rest;
    if ClimbsOut(before) {
      LostDriveStaysLost(drive, before);
    } else {
      ResolvedBelow([drive], before);
      LeadingUpIffClimbsOut(before);
      assert [drive] + Resolved(before) == [drive];
    }
  }

  lemma {:induction false} FoldKeepsColon(s: string)
    ensures ':' in FoldAll(s) <==> ':' in s
  {
    assert forall i | 0 <= i < |s| :: FoldAll(s)[i] == ':' <==> s[i] == ':';
    if ':' in s {
      var i :| 0 <= i < |s| && s[i] == ':';
      assert FoldAll(s)[i] == ':';
    }
  }

  /**
   * For drive letters, the comment's promise holds of file names, which have no colon: a path is judged within the
   * root exactly when it really leads there without climbing above its drive.
   */
  lemma {:induction false} DrivePathWithinIff(root: string, path: string)
    requires DrivePath(root) && DrivePath(path)
    requires var rest := PathParts(root)[1..]; !ClimbsOut(rest)
    requires var rest := PathParts(path)[1..]; ClimbsOut(rest) ==> NoColon(rest)
    ensures var rr, pr := PathParts(root)[1..], PathParts(path)[1..];
            IsWithinRoot(Normalized(root), Normalized(path))
            <==> !ClimbsOut(pr) && FoldEach(RealPlace([root[..2]], rr)) <= FoldEach(RealPlace([path[..2]], pr))
  {
    DriveFirst(root);
    DriveFirst(path);
    var rr, pr := PathParts(root)[1..], PathParts(path)[1..];
    hide DrivePath, PathParts, ClimbsOut;
    if ClimbsOut(pr) {
      ClimbedIsOutside(root, path, rr, pr);
    } else {
      JudgedIffReal(root, [], [root[..2]], rr, path, [], [path[..2]], pr);
    }
  }

  lemma {:induction false} ClimbedIsOutside(root: string, path: string, rr: seq<string>, pr: seq<string>)
    requires |root| >= 2 && |path| >= 2 && ':' in root[..2]
    requires Rooted(root, [], [root[..2]], rr) && Rooted(path, [], [path[..2]], pr)
    requires !ClimbsOut(rr) && ClimbsOut(pr) && NoColon(pr)
    ensures !IsWithinRoot(Normalized(root), Normalized(path))
  {
    var rd, pd := root[..2], path[..2];
    RootedNormalForm(root, [], [rd], rr);
    RootedNormalForm(path, [], [pd], pr);
    assert Names([pd]);
    LostDriveStaysLost(pd, pr);
    RootedFormIff([rd], rr);
    var r, p := Resolved([rd] + rr), Resolved([pd] + pr);
    assert r[0] == rd;
    hide Rooted, Normalized, IsWithinRoot, ClimbsOut, Component, Resolved;
    WithinIsFoldedPrefix(r, p);
    FoldKeepsColon(rd);
    if FoldEach(r) <= FoldEach(p) {
      assert FoldEach(r)[0] == FoldEach(p)[0];
      FoldKeepsColon(p[0]);
    }
  }

  // ----- Where the promise fails

  lemma {:induction false} ClimbTwice(s: string, h: string)
    requires Names([s, h])
    ensures Resolved([s, h, "..", ".."]) == [] && Walk([], ["..", ".."]) == []
  {
    NamesResolved([s, h]);
    assert Last([s, h]) in [s, h] && Last([s]) in [s, h];
    assert Init([s, h, ".."]) == [s, h] && Init([s, h]) == [s] && Init([s]) == [];
    assert Resolved([s, h, ".."]) == [s];
    assert Init([s, h, "..", ".."]) == [s, h, ".."];
    assert Walk([], [".."]) == [] && Init(["..", ".."]) == [".."];
  }

  lemma {:induction false} NamesAfter(before: seq<string>, names: seq<string>)
    requires Names(names)
    ensures Resolved(before) == [] ==> Resolved(before + names) == names
    ensures Walk([], before) == [] ==> Walk([], before + names) == names
    decreases |names|
  {
    if names == [] {
      assert before + names == before;
    } else {
      var part := Last(names);
      assert part in names && forall p | p in Init(names) :: p in names;
      NamesAfter(before, Init(names));
      assert Init(before + names) == before + Init(names) && Last(before + names) == part;
      InitLast(names);
    }
  }

  /** A way that climbs above the share and goes on with names: its normal form has only these names. */
  lemma {:induction false} ClimbAndGoOn(blanks: seq<string>, share: seq<string>, ups: seq<string>, below: seq<string>)
    requires (forall p | p in blanks :: p == "") && share != [] && Names(share) && AllPlain(ups)
    requires below != [] && Names(below) && Resolved(share + ups) == [] && Walk([], ups) == []
    ensures var path := Join(blanks + share + (ups + below));
            && Rooted(path, blanks, share, ups + below)
            && Normalized(path) == Join(below) && RealPlace(share, ups + below) == share + below
  {
    var parts := blanks + share + (ups + below);
    assert AllPlain(parts);
    assert Last(parts) == Last(below) && Last(below) in below;
    hide Join, Walk, Resolved, PathParts, Normalized;
    PartsOfJoined(parts);
    RootedNormalForm(Join(parts), blanks, share, ups + below);
    assert share + (ups + below) == (share + ups) + below;
    NamesAfter(share + ups, below);
    NamesAfter(ups, below);
  }

  lemma {:induction false} FoldedPrefixAt(a: seq<string>, b: seq<string>, i: nat)
    requires FoldEach(a) <= FoldEach(b) && i < |a|
    ensures i < |b| && FoldAll(a[i]) == FoldAll(b[i])
  {
    assert |FoldEach(a)| == |a| && |FoldEach(b)| == |b|;
    assert FoldEach(a)[i] == FoldEach(b)[i];
  }

  lemma {:induction false} SameIsWithin(path: string)
    ensures IsWithinRoot(path, path)
  {}

  /** So such a way can pass for one below the same share again, or below a drive, if a name could be the drive's. */
  lemma {:induction false} ClimbPassesForWithin(blanks: seq<string>, share: seq<string>, ups: seq<string>, w: string)
    requires (forall p | p in blanks :: p == "") && share != [] && Names(share) && AllPlain(ups) && Names([w])
    requires Resolved(share + ups) == [] && Walk([], ups) == [] && FoldAll(w) != FoldAll(share[0])
    ensures var root, path := Join(blanks + share + [w]), Join(blanks + share + (ups + (share + [w])));
            && Rooted(root, blanks, share, [w]) && Rooted(path, blanks, share, ups + (share + [w]))
            && IsWithinRoot(Normalized(root), Normalized(path))
            && !(FoldEach(RealPlace(share, [w])) <= FoldEach(RealPlace(share, ups + (share + [w]))))
  {
    var below := share + [w];
    assert w in [w] && Names(below) && AllPlain(blanks + share + [w]);
    ClimbAndGoOn(blanks, share, ups, below);
    WalkNames([w]);
    NamesResolved(below);
    hide Join, Walk, Resolved, PathParts, Normalized, IsWithinRoot, FoldEach, Names, AllPlain, Component;
    PartsOfJoined(blanks + share + [w]);
    RootedNormalForm(Join(blanks + share + [w]), blanks, share, [w]);
    SameIsWithin(Join(below));
    var place := share + below;
    assert below[|share|] == w && place[|share|] == share[0];
    if FoldEach(below) <= FoldEach(place) {
      FoldedPrefixAt(below, place, |share|);
    }
  }

  /** For one: `\\s\h\..\..\s\h\w` is judged within `\\s\h\w`, but leads to `\\s\h\s\h\w`. */
  lemma {:induction false} ShareClimbExample(s: string, h: string, w: string)
    requires Names([s, h]) && Names([w]) && FoldAll(w) != FoldAll(s)
    ensures var share, rest := [s, h], ["..", ".."] + ([s, h] + [w]);
            var root, path := Join(["", ""] + share + [w]), Join(["", ""] + share + rest);
            && Rooted(root, ["", ""], share, [w]) && Rooted(path, ["", ""], share, rest)
            && IsWithinRoot(Normalized(root), Normalized(path))
            && !(FoldEach(RealPlace(share, [w])) <= FoldEach(RealPlace(share, rest)))
  {
    ClimbTwice(s, h);
    hide Join, Walk, Resolved, PathParts, Normalized, IsWithinRoot, FoldEach, Rooted;
    assert [s, h] + ["..", ".."] == [s, h, "..", ".."];
    ClimbPassesForWithin(["", ""], [s, h], ["..", ".."], w);
  }
}
