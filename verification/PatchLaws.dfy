/** What a patch does to a file, line by line, and how it composes from its hunks. */
module PatchLaws {
  import opened Basics
  import opened Lines
  import opened Patch
  import opened Apply

  // ----- Exact splice

  /** Line i (0-based) lies below the first k hunks and above the others. */
  predicate InGap(hunks: seq<Hunk>, k: nat, i: int) {
    && k <= |hunks|
    && (k > 0 ==> hunks[k - 1].endLine <= i)
    && (k < |hunks| ==> i < hunks[k].startLine - 1)
  }

  predicate InHunk(hunks: seq<Hunk>, k: nat, i: int) {
    k < |hunks| && hunks[k].startLine - 1 <= i < hunks[k].endLine
  }

  /** Where the first new line of hunk k lands (0-based). */
  function Landing(hunks: seq<Hunk>, k: nat): int
    requires k < |hunks|
  {
    hunks[k].startLine - 1 + Shift(hunks[..k])
  }

  lemma {:induction false} GapAbove(hunks: seq<Hunk>, total: nat, k: nat, i: int)
    requires ValidHunks(hunks, total) && hunks != [] && InGap(hunks, k, i)
    ensures k <= |hunks|
    ensures k == |hunks| ==> Last(hunks).endLine <= i
    ensures k < |hunks| ==> InGap(Init(hunks), k, i) && i < Last(hunks).startLine - 1
  {
    assert k < |hunks| - 1 ==> Before(hunks[k], Last(hunks));
  }

  lemma {:induction false} AroundHunk(top: seq<RawLine>, h: Hunk, term: Term, lines: seq<RawLine>, at: nat)
    requires 0 <= h.endLine <= |lines| && at < |top| + |h.newLines| + |lines| - h.endLine
    ensures |NewLines(h, term)| == |h.newLines|
    ensures (top + NewLines(h, term) + lines[h.endLine..])[at] ==
            if at < |top| then top[at]
            else if at < |top| + |h.newLines| then RawLine(h.newLines[at - |top|], term)
            else lines[at - |top| - |h.newLines| + h.endLine]
  {}

  /** The lines of a splice around its last hunk. */
  lemma {:induction false} SpliceAt(lines: seq<RawLine>, hunks: seq<Hunk>, term: Term, top: seq<RawLine>, at: nat)
    requires ValidHunks(hunks, |lines|) && hunks != [] && at < |lines| + Shift(hunks)
    requires WellPlaced(Last(hunks), |lines|) && ValidHunks(Init(hunks), Last(hunks).startLine - 1)
    requires top == Splice(lines[..Last(hunks).startLine - 1], Init(hunks), term)
    ensures var h := Last(hunks);
            Splice(lines, hunks, term)[at] ==
            if at < |top| then top[at]
            else if at < |top| + |h.newLines| then RawLine(h.newLines[at - |top|], term)
            else lines[at - |top| - |h.newLines| + h.endLine]
  {
    hide ValidHunks, Splice, Shift, NewLines;
    InitLast(hunks);
    var h := Last(hunks);
    SpliceSnoc(lines, Init(hunks), h, term);
    assert |Splice(lines, hunks, term)| == |lines| + Shift(hunks);
    NewLinesLength(h, term);
    AroundHunk(top, h, term, lines, at);
  }

  lemma {:induction false} ShiftByLast(hunks: seq<Hunk>)
    requires hunks != []
    ensures Shift(hunks) == Shift(Init(hunks)) + |Last(hunks).newLines| - |Last(hunks).oldLines|
  {}

  lemma {:induction false} KeptBelowLast(lines: seq<RawLine>, hunks: seq<Hunk>, term: Term, i: nat)
    requires ValidHunks(hunks, |lines|) && hunks != [] && Last(hunks).endLine <= i < |lines|
    ensures 0 <= i + Shift(hunks) < |lines| + Shift(hunks)
    ensures Splice(lines, hunks, term)[i + Shift(hunks)] == lines[i]
  {
    ValidInit(hunks, |lines|);
    ShiftBounded(hunks, |lines|, i);
    ShiftByLast(hunks);
    hide ValidHunks, Splice, Shift;
    var top := Splice(lines[..Last(hunks).startLine - 1], Init(hunks), term);
    SpliceAt(lines, hunks, term, top, i + Shift(hunks));
  }

  lemma {:induction false} KeptAboveLast(lines: seq<RawLine>, hunks: seq<Hunk>, term: Term, top: seq<RawLine>, at: nat)
    requires ValidHunks(hunks, |lines|) && hunks != []
    requires WellPlaced(Last(hunks), |lines|) && ValidHunks(Init(hunks), Last(hunks).startLine - 1)
    requires top == Splice(lines[..Last(hunks).startLine - 1], Init(hunks), term) && at < |top|
    ensures at < |lines| + Shift(hunks) && Splice(lines, hunks, term)[at] == top[at]
  {
    ShiftByLast(hunks);
    hide ValidHunks, Splice, Shift;
    SpliceAt(lines, hunks, term, top, at);
  }

  lemma {:induction false} LastPlace(hunks: seq<Hunk>, total: nat)
    requires ValidHunks(hunks, total) && hunks != []
    ensures WellPlaced(Last(hunks), total) && ValidHunks(Init(hunks), Last(hunks).startLine - 1)
    ensures 1 <= Last(hunks).startLine <= total + 1 && |Init(hunks)| == |hunks| - 1
  {
    ValidInit(hunks, total);
  }

  lemma {:induction false} NothingSpliced(lines: seq<RawLine>, term: Term)
    ensures ValidHunks([], |lines|) && Splice(lines, [], term) == lines && Shift([]) == 0
  {}

  lemma {:induction false} SpliceKeepsGaps(lines: seq<RawLine>, hunks: seq<Hunk>, term: Term, k: nat, i: nat)
    requires ValidHunks(hunks, |lines|) && i < |lines| && InGap(hunks, k, i)
    ensures 0 <= i + Shift(hunks[..k]) < |lines| + Shift(hunks)
    ensures Splice(lines, hunks, term)[i + Shift(hunks[..k])] == lines[i]
    decreases |hunks|
  {
    hide *;
    GapLength(hunks, k, i);
    if hunks == [] {
      NothingSpliced(lines, term);
      assert hunks[..k] == [];
    } else {
      GapAbove(hunks, |lines|, k, i);
      if k == |hunks| {
        assert hunks[..k] == hunks;
        KeptBelowLast(lines, hunks, term, i);
      } else {
        LastPlace(hunks, |lines|);
        TakeOfInit(hunks, k);
        var upper := lines[..Last(hunks).startLine - 1];
        SpliceKeepsGaps(upper, Init(hunks), term, k, i);
        KeptAboveLast(lines, hunks, term, Splice(upper, Init(hunks), term), i + Shift(hunks[..k]));
      }
    }
  }

  lemma {:induction false} GapLength(hunks: seq<Hunk>, k: nat, i: int)
    requires InGap(hunks, k, i)
    ensures k <= |hunks|
  {}

  lemma {:induction false} TakeOfInit<T>(s: seq<T>, k: nat)
    requires k < |s|
    ensures |Init(s)| == |s| - 1 && Init(s)[..k] == s[..k]
  {}

  /** Below the last hunk, lines keep a place of their own. */
  lemma {:induction false} ShiftBounded(hunks: seq<Hunk>, total: nat, i: nat)
    requires ValidHunks(hunks, total) && hunks != [] && Last(hunks).endLine <= i
    ensures var h := Last(hunks);
            i + Shift(hunks) >= h.startLine - 1 + Shift(Init(hunks)) + |h.newLines| >= |h.newLines|
  {
    ValidInit(hunks, total);
    LengthStaysNatural(Init(hunks), Last(hunks).startLine - 1);
  }

  lemma {:induction false} LengthStaysNatural(hunks: seq<Hunk>, total: nat)
    requires ValidHunks(hunks, total)
    ensures total + Shift(hunks) >= 0
    decreases |hunks|
  {
    if hunks != [] {
      ValidInit(hunks, total);
      LengthStaysNatural(Init(hunks), Last(hunks).startLine - 1);
    }
  }

  lemma {:induction false} PlacedByLast(lines: seq<RawLine>, hunks: seq<Hunk>, term: Term, j: nat)
    requires ValidHunks(hunks, |lines|) && hunks != [] && j < |Last(hunks).newLines|
    ensures var at := Landing(hunks, |hunks| - 1) + j;
            0 <= at < |lines| + Shift(hunks) && Splice(lines, hunks, term)[at] == RawLine(Last(hunks).newLines[j], term)
  {
    LastPlace(hunks, |lines|);
    ShiftBounded(hunks, |lines|, |lines|);
    LengthStaysNatural(Init(hunks), Last(hunks).startLine - 1);
    hide ValidHunks, Splice, Shift;
    var top := Splice(lines[..Last(hunks).startLine - 1], Init(hunks), term);
    SpliceAt(lines, hunks, term, top, Landing(hunks, |hunks| - 1) + j);
  }

  lemma {:induction false} SameLanding(hunks: seq<Hunk>, k: nat)
    requires k < |hunks| - 1
    ensures |Init(hunks)| == |hunks| - 1 && Init(hunks)[k] == hunks[k] && Landing(Init(hunks), k) == Landing(hunks, k)
  {
    TakeOfInit(hunks, k);
  }

  lemma {:induction false} SplicePlacesNewLines(lines: seq<RawLine>, hunks: seq<Hunk>, term: Term, k: nat, j: nat)
    requires ValidHunks(hunks, |lines|) && k < |hunks| && j < |hunks[k].newLines|
    ensures 0 <= Landing(hunks, k) + j < |lines| + Shift(hunks)
    ensures Splice(lines, hunks, term)[Landing(hunks, k) + j] == RawLine(hunks[k].newLines[j], term)
    decreases |hunks|
  {
    hide *;
    InitLast(hunks);
    LastPlace(hunks, |lines|);
    if k == |hunks| - 1 {
      PlacedByLast(lines, hunks, term, j);
    } else {
      SameLanding(hunks, k);
      var upper := lines[..Last(hunks).startLine - 1];
      SplicePlacesNewLines(upper, Init(hunks), term, k, j);
      KeptAboveLast(lines, hunks, term, Splice(upper, Init(hunks), term), Landing(hunks, k) + j);
    }
  }

  lemma {:induction false} Locate(hunks: seq<Hunk>, total: nat, i: nat) returns (k: nat)
    requires ValidHunks(hunks, total) && i < total
    ensures InGap(hunks, k, i) || InHunk(hunks, k, i)
    decreases |hunks|
  {
    k := |hunks|;
    if hunks != [] && i < Last(hunks).endLine {
      ValidInit(hunks, total);
      if i >= Last(hunks).startLine - 1 {
        return |hunks| - 1;
      }
      k := Locate(Init(hunks), Last(hunks).startLine - 1, i);
    }
  }

  lemma {:induction false} OnlyOnePlace(hunks: seq<Hunk>, total: nat, i: nat, k: nat, m: nat)
    requires ValidHunks(hunks, total) && i < total
    requires InGap(hunks, k, i)
    ensures !InHunk(hunks, m, i)
  {
    assert m + 1 < k ==> Before(hunks[m], hunks[k - 1]) && hunks[k - 1] in hunks;
    assert k < m < |hunks| ==> Before(hunks[k], hunks[m]);
  }

  /**
   * The result of a patch, line by line: a line no hunk touches is still there, moved by what the hunks
   * above it added, with its own terminator - unless it ended the file unterminated and lines now follow it.
   */
  lemma {:induction false} UntouchedLineSurvives(lines: seq<RawLine>, hunks: seq<Hunk>, k: nat, i: nat)
    requires FileShape(lines) && ValidHunks(hunks, |lines|) && i < |lines| && InGap(hunks, k, i)
    ensures 0 <= i + Shift(hunks[..k]) < |Patched(lines, hunks)|
    ensures Patched(lines, hunks)[i + Shift(hunks[..k])] ==
            if i == |lines| - 1 && AppendsBelowOpenEnd(lines, hunks)
            then WithTerm(lines[i], FirstTerm(lines)) else lines[i]
  {
    hide Splice, FirstTerm;
    SpliceKeepsGaps(Opened(lines, hunks), hunks, FirstTerm(lines), k, i);
    if ReplacesOpenEnd(lines, hunks) {
      GapIsNotLast(lines, hunks, k, i);
    }
  }

  /** When the last hunk replaces the end of the file, a surviving line is not the last line. */
  lemma {:induction false} GapIsNotLast(lines: seq<RawLine>, hunks: seq<Hunk>, k: nat, i: nat)
    requires ValidHunks(hunks, |lines|) && i < |lines| && InGap(hunks, k, i)
    requires ReplacesOpenEnd(lines, hunks)
    ensures i + Shift(hunks[..k]) < |lines| + Shift(hunks) - 1
  {
    var h, above := Last(hunks), Init(hunks);
    ValidInit(hunks, |lines|);
    assert hunks[..k] == above[..k];
    assert k < |above| ==> Before(hunks[k], h);
    SpliceKeepsGaps(lines[..h.startLine - 1], above, Lf, k, i);
  }

  /** Each new line of each hunk is in the result, with the file's terminator unless it ends an open-ended file. */
  lemma {:induction false} NewLineLands(lines: seq<RawLine>, hunks: seq<Hunk>, k: nat, j: nat)
    requires FileShape(lines) && ValidHunks(hunks, |lines|) && k < |hunks| && j < |hunks[k].newLines|
    ensures 0 <= Landing(hunks, k) + j < |Patched(lines, hunks)|
    ensures Patched(lines, hunks)[Landing(hunks, k) + j] ==
            RawLine(hunks[k].newLines[j],
                    if k == |hunks| - 1 && j == |hunks[k].newLines| - 1
                        && OpenEnded(lines) && hunks[k].startLine <= |lines| == hunks[k].endLine
                    then NoTerm else FirstTerm(lines))
  {
    hide Splice, FirstTerm;
    var h, above := Last(hunks), Init(hunks);
    ValidInit(hunks, |lines|);
    SplicePlacesNewLines(Opened(lines, hunks), hunks, FirstTerm(lines), k, j);
    if k == |above| {
      assert hunks[..k] == above;
    } else {
      assert hunks[..k] == above[..k];
      SplicePlacesNewLines(lines[..h.startLine - 1], above, FirstTerm(lines), k, j);
    }
  }

  lemma {:induction false} ShapeOfParts(a: seq<RawLine>, h: Hunk, term: Term, c: seq<RawLine>)
    requires term != NoTerm && FileShape(c)
    requires AllTerminated(a) || (FileShape(a) && h.newLines == [] && c == [])
    ensures FileShape(a + NewLines(h, term) + c)
  {
    if AllTerminated(a) {
      assert AllTerminated(a + NewLines(h, term));
    } else {
      assert a + NewLines(h, term) + c == a;
    }
  }

  /** Above the end of the file, or in a closed file, the last hunk's upper lines are terminated. */
  lemma {:induction false} UpperTerminated(lines: seq<RawLine>, h: Hunk)
    requires FileShape(lines) && WellPlaced(h, |lines|)
    ensures FileShape(lines[h.endLine..])
    ensures h.startLine <= |lines| || !OpenEnded(lines) ==> AllTerminated(lines[..h.startLine - 1])
    ensures h.startLine == |lines| + 1 ==> lines[..h.startLine - 1] == lines && lines[h.endLine..] == []
  {}

  lemma {:induction false} AppendShape(lines: seq<RawLine>, hunks: seq<Hunk>)
    requires ValidHunks(hunks, |lines|) && hunks != [] && !AppendsBelowOpenEnd(lines, hunks)
    ensures Last(hunks).startLine <= |lines| || !OpenEnded(lines)
            || (Last(hunks).startLine == |lines| + 1 && Last(hunks).newLines == [])
    ensures !AppendsBelowOpenEnd(lines, Init(hunks))
  {
    assert Last(hunks) in hunks;
    assert |hunks| >= 2 ==> Before(Last(Init(hunks)), Last(hunks));
  }

  lemma {:induction false} SpliceKeepsFileShape(lines: seq<RawLine>, hunks: seq<Hunk>, term: Term)
    requires FileShape(lines) && ValidHunks(hunks, |lines|) && term != NoTerm
    requires !AppendsBelowOpenEnd(lines, hunks)
    ensures FileShape(Splice(lines, hunks, term))
    decreases |hunks|
  {
    if hunks == [] {
      assert Splice(lines, hunks, term) == lines;
    } else {
      hide Splice, ValidHunks, AppendsBelowOpenEnd, OpenEnded, FileShape, NewLines, AllTerminated;
      var h, above := Last(hunks), Init(hunks);
      ValidInit(hunks, |lines|);
      InitLast(hunks);
      SpliceSnoc(lines, above, h, term);
      UpperTerminated(lines, h);
      AppendShape(lines, hunks);
      if h.startLine <= |lines| || !OpenEnded(lines) {
        SpliceTerminated(lines[..h.startLine - 1], above, term);
      } else {
        SpliceKeepsFileShape(lines, above, term);
      }
      ShapeOfParts(Splice(lines[..h.startLine - 1], above, term), h, term, lines[h.endLine..]);
    }
  }

  /** Only the last line of the result can be unterminated. */
  lemma {:induction false} ResultKeepsFileShape(lines: seq<RawLine>, hunks: seq<Hunk>)
    requires FileShape(lines) && ValidHunks(hunks, |lines|)
    ensures FileShape(Patched(lines, hunks))
  {
    hide Splice;
    if AppendsBelowOpenEnd(lines, hunks) {
      SpliceTerminated(Opened(lines, hunks), hunks, FirstTerm(lines));
    } else {
      SpliceKeepsFileShape(lines, hunks, FirstTerm(lines));
    }
  }

  lemma {:induction false} PatchedIsSplice(lines: seq<RawLine>, hunks: seq<Hunk>)
    requires ValidHunks(hunks, |lines|) && !OpenEnded(lines)
    ensures Patched(lines, hunks) == Splice(lines, hunks, FirstTerm(lines))
  {}

  // ----- The end of the file

  /** Neither the last line nor the place below it is touched; an empty hunk there touches nothing. */
  predicate LeavesEnd(hunks: seq<Hunk>, total: nat) {
    forall h | h in hunks :: h.endLine < total || (h.startLine == total + 1 && h.newLines == [])
  }

  /** Some lines are replaced, the last one among them, by at least one other. */
  predicate ReplacesEnd(h: Hunk, total: nat) {
    h.startLine <= total == h.endLine && h.newLines != []
  }

  lemma {:induction false} LeavesEndInit(hunks: seq<Hunk>, total: nat)
    requires ValidHunks(hunks, total) && hunks != []
    ensures LeavesEnd(hunks, total) <==>
            Last(hunks).endLine < total
            || (Last(hunks).startLine == total + 1 && Last(hunks).newLines == [] && LeavesEnd(Init(hunks), total))
  {
    InitLast(hunks);
    ValidInit(hunks, total);
    var h, above := Last(hunks), Init(hunks);
    assert h in hunks && forall g | g in above :: g in hunks && WellPlaced(g, h.startLine - 1);
    if !LeavesEnd(hunks, total) && !(h.endLine >= total && !(h.startLine == total + 1 && h.newLines == [])) {
      var g :| g in hunks && !(g.endLine < total || (g.startLine == total + 1 && g.newLines == []));
      assert g in above;
    }
  }

  /** Splicing terminated lines into a file leaves its end open exactly when it does not touch it. */
  lemma {:induction false} SpliceEndsOpenIff(lines: seq<RawLine>, hunks: seq<Hunk>, term: Term)
    requires FileShape(lines) && ValidHunks(hunks, |lines|) && term != NoTerm
    ensures OpenEnded(Splice(lines, hunks, term)) <==> OpenEnded(lines) && LeavesEnd(hunks, |lines|)
    decreases |hunks|
  {
    if hunks != [] {
      var h, above := Last(hunks), Init(hunks);
      ValidInit(hunks, |lines|);
      LeavesEndInit(hunks, |lines|);
      SpliceSnoc(lines, above, h, term);
      InitLast(hunks);
      UpperTerminated(lines, h);
      var upper := lines[..h.startLine - 1];
      SpliceEndsOpenIff(upper, above, term);
      hide Splice, LeavesEnd, ValidHunks, AllTerminated;
      NewLinesLength(h, term);
      EndOfParts(Splice(upper, above, term), NewLines(h, term), lines[h.endLine..]);
      if h.endLine == |lines| && h.newLines == [] && h.startLine <= |lines| {
        ShortenedIsClosed(lines, h.startLine - 1);
      }
    }
  }

  lemma {:induction false} EndOfParts(a: seq<RawLine>, b: seq<RawLine>, c: seq<RawLine>)
    ensures OpenEnded(a + b + c) <==> if c != [] then OpenEnded(c) else if b != [] then OpenEnded(b) else OpenEnded(a)
  {}

  lemma {:induction false} ShortenedIsClosed(lines: seq<RawLine>, n: nat)
    requires FileShape(lines) && n < |lines|
    ensures !OpenEnded(lines[..n])
  {}

  /**
   * The patched file ends without a terminator exactly when the file did and either the hunks leave its end alone
   * or the last one replaces it.
   */
  lemma {:induction false} EndStaysOpenIff(lines: seq<RawLine>, hunks: seq<Hunk>)
    requires FileShape(lines) && ValidHunks(hunks, |lines|)
    ensures OpenEnded(Patched(lines, hunks)) <==>
            && lines != [] && Last(lines).term == NoTerm
            && (LeavesEnd(hunks, |lines|) || (hunks != [] && ReplacesEnd(Last(hunks), |lines|)))
  {
    var term := FirstTerm(lines);
    if hunks != [] {
      ValidInit(hunks, |lines|);
      LeavesEndInit(hunks, |lines|);
    }
    hide Splice, ValidHunks, LeavesEnd;
    if AppendsBelowOpenEnd(lines, hunks) {
      SpliceTerminated(Opened(lines, hunks), hunks, term);
    } else {
      SpliceEndsOpenIff(lines, hunks, term);
    }
  }
}
