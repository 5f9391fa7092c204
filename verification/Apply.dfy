/** Applying validated hunks to the lines of a file (applyHunks in internal/filetools/patch.go). */
module Apply {
  import opened Basics
  import opened Lines
  import opened Patch

  /** The shape every split file has: only the last line can lack its terminator. */
  predicate FileShape(lines: seq<RawLine>) {
    forall i | 0 <= i < |lines| - 1 :: lines[i].term != NoTerm
  }

  predicate AllTerminated(lines: seq<RawLine>) {
    forall l | l in lines :: l.term != NoTerm
  }

  predicate OpenEnded(lines: seq<RawLine>) {
    lines != [] && Last(lines).term == NoTerm
  }

  function NewLines(h: Hunk, term: Term): (r: seq<RawLine>) {
    seq(|h.newLines|, j requires 0 <= j < |h.newLines| => RawLine(h.newLines[j], term))
  }

  lemma {:induction false} NewLinesLength(h: Hunk, term: Term)
    ensures |NewLines(h, term)| == |h.newLines|
  {}

  /** Each hunk's range replaced by its new lines, all with the terminator `term`. */
  function Splice(lines: seq<RawLine>, hunks: seq<Hunk>, term: Term): (r: seq<RawLine>)
    requires ValidHunks(hunks, |lines|)
    ensures |r| == |lines| + Shift(hunks)
    decreases |hunks|
  {
    if hunks == [] then lines
    else
      var h := Last(hunks);
      ValidInit(hunks, |lines|);
      Splice(lines[..h.startLine - 1], Init(hunks), term) + NewLines(h, term) + lines[h.endLine..]
  }

  /** How far the lines below the hunks have moved. */
  function Shift(hunks: seq<Hunk>): int {
    if hunks == [] then 0 else Shift(Init(hunks)) + Last(hunks).Delta()
  }

  function WithTerm(line: RawLine, term: Term): RawLine {
    RawLine(line.text, term)
  }

  function RetermLast(lines: seq<RawLine>, term: Term): (r: seq<RawLine>)
    ensures |r| == |lines|
  {
    if lines == [] then [] else Init(lines) + [WithTerm(Last(lines), term)]
  }

  /** The last hunk adds lines below an unterminated last line. */
  predicate AppendsBelowOpenEnd(lines: seq<RawLine>, hunks: seq<Hunk>) {
    OpenEnded(lines) && hunks != [] && Last(hunks).startLine == |lines| + 1 && Last(hunks).newLines != []
  }

  /** The last hunk replaces an unterminated last line. */
  predicate ReplacesOpenEnd(lines: seq<RawLine>, hunks: seq<Hunk>) {
    && OpenEnded(lines) && hunks != []
    && Last(hunks).endLine == |lines| && Last(hunks).oldLines != [] && Last(hunks).newLines != []
  }

  /** The file a hunk list starts from: its last line is closed when lines are added below it. */
  function Opened(lines: seq<RawLine>, hunks: seq<Hunk>): (r: seq<RawLine>)
    ensures |r| == |lines|
  {
    if AppendsBelowOpenEnd(lines, hunks) then RetermLast(lines, FirstTerm(lines)) else lines
  }

  function Patched(lines: seq<RawLine>, hunks: seq<Hunk>): (r: seq<RawLine>)
    requires ValidHunks(hunks, |lines|)
    ensures |r| == |lines| + Shift(hunks)
  {
    var out := Splice(Opened(lines, hunks), hunks, FirstTerm(lines));
    if ReplacesOpenEnd(lines, hunks) then RetermLast(out, NoTerm) else out
  }

  /** Every hunk's old lines are the file's current texts in its range. */
  predicate ContextOk(lines: seq<RawLine>, hunks: seq<Hunk>)
    requires ValidHunks(hunks, |lines|)
  {
    forall h | h in hunks :: HunkMatches(lines, h)
  }

  predicate HunkMatches(lines: seq<RawLine>, h: Hunk)
    requires WellPlaced(h, |lines|)
  {
    forall i | 0 <= i < |h.oldLines| :: lines[h.startLine - 1 + i].text == h.oldLines[i]
  }

  // ----- Facts about splicing

  /** Lines below all hunks are carried over. */
  lemma {:induction false} SpliceSuffix(lines: seq<RawLine>, below: seq<RawLine>, hunks: seq<Hunk>, term: Term)
    requires ValidHunks(hunks, |lines|)
    ensures ValidHunks(hunks, |lines + below|)
    ensures Splice(lines + below, hunks, term) == Splice(lines, hunks, term) + below
  {
    var all := lines + below;
    assert ValidHunks(hunks, |all|) by {
      forall h | h in hunks ensures WellPlaced(h, |all|) {
        assert WellPlaced(h, |lines|);
      }
    }
    if hunks != [] {
      var h := Last(hunks);
      ValidInit(hunks, |lines|);
      assert all[..h.startLine - 1] == lines[..h.startLine - 1];
      assert all[h.endLine..] == lines[h.endLine..] + below;
    }
  }

  /** Splicing terminated lines gives terminated lines. */
  lemma {:induction false} SpliceTerminated(lines: seq<RawLine>, hunks: seq<Hunk>, term: Term)
    requires ValidHunks(hunks, |lines|) && AllTerminated(lines) && term != NoTerm
    ensures AllTerminated(Splice(lines, hunks, term))
    decreases |hunks|
  {
    if hunks != [] {
      var h := Last(hunks);
      ValidInit(hunks, |lines|);
      SpliceTerminated(lines[..h.startLine - 1], Init(hunks), term);
    }
  }

  /** When the last hunk takes the last line, that line does not matter. */
  lemma {:induction false} SpliceIgnoresTakenEnd(lines: seq<RawLine>, other: seq<RawLine>, hunks: seq<Hunk>, term: Term)
    requires ValidHunks(hunks, |lines|) && hunks != [] && |lines| == |other| > 0
    requires Last(hunks).endLine == |lines| && Last(hunks).oldLines != []
    requires Init(lines) == Init(other)
    ensures Splice(lines, hunks, term) == Splice(other, hunks, term)
  {
    var h := Last(hunks);
    assert h in hunks;
    assert lines[..h.startLine - 1] == Init(lines)[..h.startLine - 1];
    assert other[..h.startLine - 1] == Init(other)[..h.startLine - 1];
    assert lines[h.endLine..] == other[h.endLine..] == [];
  }

  /** When the last hunk takes an unterminated last line, what is left is terminated. */
  lemma {:induction false} TakenEndIsTerminated(lines: seq<RawLine>, hunks: seq<Hunk>, term: Term)
    requires FileShape(lines) && ValidHunks(hunks, |lines|) && hunks != [] && term != NoTerm
    requires Last(hunks).endLine == |lines| && Last(hunks).oldLines != []
    ensures AllTerminated(Splice(lines, hunks, term))
  {
    var h := Last(hunks);
    ValidInit(hunks, |lines|);
    SpliceTerminated(lines[..h.startLine - 1], Init(hunks), term);
  }

  /** When no hunk takes the last line, it ends the result. */
  lemma {:induction false} KeptEnd(lines: seq<RawLine>, hunks: seq<Hunk>, term: Term)
    requires ValidHunks(hunks, |lines|) && lines != []
    requires hunks == [] || Last(hunks).endLine < |lines|
    ensures ValidHunks(hunks, |lines| - 1)
    ensures Splice(lines, hunks, term) == Splice(Init(lines), hunks, term) + [Last(lines)]
  {
    forall h | h in hunks ensures WellPlaced(h, |lines| - 1) {
      var i :| 0 <= i < |hunks| && hunks[i] == h;
      assert i < |hunks| - 1 ==> Before(h, Last(hunks));
      assert WellPlaced(Last(hunks), |lines|);
    }
    assert lines == Init(lines) + [Last(lines)];
    SpliceSuffix(Init(lines), [Last(lines)], hunks, term);
  }

  // ----- The loop of applyHunks

  /** Closing an unterminated last result line before new lines are added, as the loop does. */
  function Close(lines: seq<RawLine>, h: Hunk, result: seq<RawLine>, term: Term): seq<RawLine> {
    if OpenEnded(lines) && result != [] && h.newLines != [] && Last(result).term == NoTerm
    then RetermLast(result, term) else result
  }

  /** Above the end of the file there is nothing to close. */
  lemma {:induction false} NothingToClose(lines: seq<RawLine>, hunks: seq<Hunk>, h: Hunk, term: Term)
    requires FileShape(lines) && 1 <= h.startLine <= |lines| && term != NoTerm
    requires ValidHunks(hunks, h.startLine - 1)
    ensures var result := Splice(lines[..h.startLine - 1], hunks, term); Close(lines, h, result, term) == result
  {
    SpliceTerminated(lines[..h.startLine - 1], hunks, term);
  }

  /** Closing the copied end of the file is splicing into the file with its end closed. */
  lemma {:induction false} ClosingTheEnd(lines: seq<RawLine>, hunks: seq<Hunk>, h: Hunk, term: Term)
    requires FileShape(lines) && OpenEnded(lines) && h.newLines != [] && term != NoTerm
    requires ValidHunks(hunks, |lines|)
    requires hunks != [] ==> Last(hunks).startLine <= |lines|
    ensures Close(lines, h, Splice(lines, hunks, term), term) == Splice(RetermLast(lines, term), hunks, term)
  {
    hide Splice;
    var closed := RetermLast(lines, term);
    assert Init(closed) == Init(lines);
    assert hunks != [] ==> WellPlaced(Last(hunks), |lines|);
    if hunks != [] && Last(hunks).endLine == |lines| {
      SpliceIgnoresTakenEnd(lines, closed, hunks, term);
      TakenEndIsTerminated(lines, hunks, term);
    } else {
      KeptEnd(lines, hunks, term);
      KeptEnd(closed, hunks, term);
    }
  }

  lemma {:induction false} ClosingOpensTheSplice(lines: seq<RawLine>, hunks: seq<Hunk>)
    requires FileShape(lines) && ValidHunks(hunks, |lines|) && hunks != []
    ensures WellPlaced(Last(hunks), |lines|)
    ensures ValidHunks(Init(hunks), Last(hunks).startLine - 1)
    ensures var h, term := Last(hunks), FirstTerm(lines);
            Close(lines, h, Splice(lines[..h.startLine - 1], Init(hunks), term), term)
            == Splice(Opened(lines, hunks)[..h.startLine - 1], Init(hunks), term)
  {
    hide Splice;
    var h, term, rest := Last(hunks), FirstTerm(lines), Init(hunks);
    ValidInit(hunks, |lines|);
    if h.startLine <= |lines| {
      NothingToClose(lines, rest, h, term);
    } else {
      assert lines[..h.startLine - 1] == lines && Opened(lines, hunks)[..h.startLine - 1] == Opened(lines, hunks);
      if AppendsBelowOpenEnd(lines, hunks) {
        assert rest != [] ==> Before(hunks[|hunks| - 2], hunks[|hunks| - 1]);
        ClosingTheEnd(lines, rest, h, term);
      }
    }
  }

  lemma {:induction false} LastHunkCompletes(lines: seq<RawLine>, hunks: seq<Hunk>, result: seq<RawLine>)
    requires FileShape(lines) && ValidHunks(hunks, |lines|) && hunks != []
    requires WellPlaced(Last(hunks), |lines|) && ValidHunks(Init(hunks), Last(hunks).startLine - 1)
    requires result == Close(lines, Last(hunks),
                             Splice(lines[..Last(hunks).startLine - 1], Init(hunks), FirstTerm(lines)),
                             FirstTerm(lines))
                       + NewLines(Last(hunks), FirstTerm(lines))
    ensures var h := Last(hunks);
            (if ReplacesOpenEnd(lines, hunks) then RetermLast(result, NoTerm) else result) + lines[h.endLine..]
            == Patched(lines, hunks)
  {
    var h := Last(hunks);
    var start := Opened(lines, hunks);
    ValidInit(hunks, |lines|);
    ClosingOpensTheSplice(lines, hunks);
    assert start[h.endLine..] == lines[h.endLine..];
    if ReplacesOpenEnd(lines, hunks) {
      assert lines[h.endLine..] == [];
      assert Splice(start, hunks, FirstTerm(lines)) == result;
    }
  }

  lemma {:induction false} ValidPrefix(hunks: seq<Hunk>, total: nat, k: nat)
    requires ValidHunks(hunks, total) && k < |hunks|
    ensures WellPlaced(hunks[k], total)
    ensures ValidHunks(hunks[..k], hunks[k].startLine - 1)
    ensures forall g | g in hunks[..k] :: Before(g, hunks[k])
    ensures k < |hunks| - 1 ==> hunks[k].startLine <= total && hunks[k].endLine < hunks[k + 1].startLine
  {
    assert hunks[..k + 1][..k] == hunks[..k];
    forall h | h in hunks[..k + 1] ensures WellPlaced(h, total) {
      assert h in hunks;
    }
    ValidInit(hunks[..k + 1], total);
    if k < |hunks| - 1 {
      assert Before(hunks[k], hunks[k + 1]) && hunks[k + 1] in hunks;
    }
  }

  /** Where the hunks up to the k-th leave the result when the copy cursor stands at line `cursor`. */
  predicate CopiedTo(lines: seq<RawLine>, hunks: seq<Hunk>, k: nat, cursor: int, result: seq<RawLine>) {
    && k <= |hunks| && 1 <= cursor <= |lines| + 1
    && ValidHunks(hunks[..k], cursor - 1)
    && result == Splice(lines[..cursor - 1], hunks[..k], FirstTerm(lines))
  }

  lemma {:induction false} CopyLine(lines: seq<RawLine>, hunks: seq<Hunk>, k: nat, cursor: int, result: seq<RawLine>)
    requires CopiedTo(lines, hunks, k, cursor, result) && cursor <= |lines|
    ensures CopiedTo(lines, hunks, k, cursor + 1, result + [lines[cursor - 1]])
  {
    assert lines[..cursor] == lines[..cursor - 1] + [lines[cursor - 1]];
    SpliceSuffix(lines[..cursor - 1], [lines[cursor - 1]], hunks[..k], FirstTerm(lines));
  }

  lemma {:induction false} SpliceSnoc(lines: seq<RawLine>, hunks: seq<Hunk>, h: Hunk, term: Term)
    requires ValidHunks(hunks + [h], |lines|) && WellPlaced(h, |lines|) && ValidHunks(hunks, h.startLine - 1)
    ensures Splice(lines, hunks + [h], term)
            == Splice(lines[..h.startLine - 1], hunks, term) + NewLines(h, term) + lines[h.endLine..]
  {
    assert Init(hunks + [h]) == hunks;
  }

  lemma {:induction false} AddHunk(lines: seq<RawLine>, hunks: seq<Hunk>, k: nat, result: seq<RawLine>)
    requires ValidHunks(hunks, |lines|) && k < |hunks|
    requires CopiedTo(lines, hunks, k, hunks[k].startLine, result)
    ensures CopiedTo(lines, hunks, k + 1, hunks[k].endLine + 1, result + NewLines(hunks[k], FirstTerm(lines)))
  {
    hide Splice, ValidHunks, FirstTerm;
    var h := hunks[k];
    ValidPrefix(hunks, |lines|, k);
    assert hunks[..k + 1] == hunks[..k] + [h];
    ValidBelow(hunks[..k], h);
    SpliceSnoc(lines[..h.endLine], hunks[..k], h, FirstTerm(lines));
    TakeTwice(lines, h.startLine - 1, h.endLine);
    assert lines[..h.endLine][h.endLine..] == [];
  }

  /** A list valid above a hunk extends by that hunk when the file ends with it. */
  lemma {:induction false} ValidBelow(hunks: seq<Hunk>, h: Hunk)
    requires 1 <= h.startLine <= h.endLine + 1 && |h.oldLines| == h.endLine - h.startLine + 1
    requires ValidHunks(hunks, h.startLine - 1) && (forall g | g in hunks :: Before(g, h))
    ensures ValidHunks(hunks + [h], h.endLine)
  {
    forall g | g in hunks ensures WellPlaced(g, h.endLine) {
      assert WellPlaced(g, h.startLine - 1);
    }
    assert hunks != [] ==> Last(hunks) in hunks;
    ValidSnoc(hunks, h, h.endLine);
  }

  /** The first line, from the top, whose text is not what its hunk expects. */
  ghost predicate FirstConflict(lines: seq<RawLine>, hunks: seq<Hunk>, line: int)
    requires ValidHunks(hunks, |lines|)
  {
    && (exists h | h in hunks :: ConflictsAt(lines, h, line))
    && forall h, n | h in hunks && ConflictsAt(lines, h, n) :: line <= n
  }

  predicate ConflictsAt(lines: seq<RawLine>, h: Hunk, line: int)
    requires WellPlaced(h, |lines|)
  {
    h.startLine <= line <= h.endLine && lines[line - 1].text != h.oldLines[line - h.startLine]
  }

  /** The lines a finished hunk leaves: the state for the next hunk, or the whole patched file above the rest. */
  lemma {:induction false} HunkDone(lines: seq<RawLine>, hunks: seq<Hunk>, k: nat, copied: seq<RawLine>,
                                    result: seq<RawLine>)
    requires FileShape(lines) && ValidHunks(hunks, |lines|) && k < |hunks|
    requires CopiedTo(lines, hunks, k, hunks[k].startLine, copied)
    requires result == Close(lines, hunks[k], copied, FirstTerm(lines)) + NewLines(hunks[k], FirstTerm(lines))
    ensures WellPlaced(hunks[k], |lines|)
    ensures k < |hunks| - 1 ==> CopiedTo(lines, hunks, k + 1, hunks[k].endLine + 1, result)
    ensures k == |hunks| - 1 ==>
              (if ReplacesOpenEnd(lines, hunks) then RetermLast(result, NoTerm) else result) + lines[hunks[k].endLine..]
              == Patched(lines, hunks)
  {
    ValidPrefix(hunks, |lines|, k);
    if k < |hunks| - 1 {
      NothingToClose(lines, hunks[..k], hunks[k], FirstTerm(lines));
      AddHunk(lines, hunks, k, copied);
    } else {
      assert Init(hunks) == hunks[..k];
      LastHunkCompletes(lines, hunks, result);
    }
  }

  lemma {:induction false} NoConflictAbove(lines: seq<RawLine>, h: Hunk, line: int, n: int)
    requires WellPlaced(h, |lines|)
    requires forall i | 0 <= i < |h.oldLines| && h.startLine + i < line ::
               lines[h.startLine - 1 + i].text == h.oldLines[i]
    ensures n < line ==> !ConflictsAt(lines, h, n)
  {
    if h.startLine <= n <= h.endLine && n < line {
      assert lines[h.startLine - 1 + (n - h.startLine)].text == h.oldLines[n - h.startLine];
    }
  }

  /** The top-most mismatch of the first hunk with one is the first conflict of the patch. */
  lemma {:induction false} ConflictIsFirst(lines: seq<RawLine>, hunks: seq<Hunk>, k: nat, line: int)
    requires ValidHunks(hunks, |lines|) && k < |hunks|
    requires forall j | 0 <= j < k :: WellPlaced(hunks[j], |lines|) && HunkMatches(lines, hunks[j])
    requires WellPlaced(hunks[k], |lines|) && ConflictsAt(lines, hunks[k], line)
    requires forall i | 0 <= i < line - hunks[k].startLine ::
               lines[hunks[k].startLine - 1 + i].text == hunks[k].oldLines[i]
    ensures FirstConflict(lines, hunks, line) && !ContextOk(lines, hunks)
  {
    assert hunks[k] in hunks;
    forall h, n | h in hunks && ConflictsAt(lines, h, n) ensures line <= n {
      var j :| 0 <= j < |hunks| && hunks[j] == h;
      if j > k {
        assert Before(hunks[k], hunks[j]);
      } else if j == k {
        NoConflictAbove(lines, h, line, n);
      }
    }
    assert !HunkMatches(lines, hunks[k]) by {
      assert lines[hunks[k].startLine - 1 + (line - hunks[k].startLine)].text
             != hunks[k].oldLines[line - hunks[k].startLine];
    }
  }

  lemma {:induction false} NothingCopied(lines: seq<RawLine>, hunks: seq<Hunk>)
    ensures CopiedTo(lines, hunks, 0, 1, [])
    ensures hunks == [] ==> ValidHunks(hunks, |lines|) && Patched(lines, hunks) == [] + lines[0..]
  {
    assert lines[..0] == [];
  }

  lemma {:induction false} OpenEndTest(lines: seq<RawLine>)
    ensures OpenEnded(lines) <==> |lines| > 0 && lines[|lines| - 1].term == NoTerm
  {}

  /** Hunk k starts at or below the line the copy cursor stands at. */
  lemma {:induction false} StartsBelow(lines: seq<RawLine>, hunks: seq<Hunk>, k: nat)
    requires ValidHunks(hunks, |lines|) && k < |hunks|
    ensures WellPlaced(hunks[k], |lines|)
    ensures 1 <= hunks[k].startLine && 0 <= hunks[k].endLine <= |lines|
    ensures k > 0 ==> hunks[k - 1].endLine < hunks[k].startLine
  {
    ValidPrefix(hunks, |lines|, k);
    if k > 0 {
      ValidPrefix(hunks, |lines|, k - 1);
    }
  }

  /**
   * One round of the loop of `applyHunks`: copy up to the hunk, close an open end, check the context, add the new
   * lines.
   */
  method ApplyHunk(lines: seq<RawLine>, hunks: seq<Hunk>, hi: nat, start: int, soFar: seq<RawLine>,
                   term: Term, noTrailingNewline: bool)
    returns (r: Result<seq<RawLine>, PatchError>, cursor: int)
    requires FileShape(lines) && ValidHunks(hunks, |lines|) && hi < |hunks|
    requires forall j | 0 <= j < hi :: WellPlaced(hunks[j], |lines|) && HunkMatches(lines, hunks[j])
    requires 1 <= start <= hunks[hi].startLine && CopiedTo(lines, hunks, hi, start, soFar)
    requires term == FirstTerm(lines) && noTrailingNewline == OpenEnded(lines)
    ensures 1 <= cursor == hunks[hi].endLine + 1 <= |lines| + 1 && WellPlaced(hunks[hi], |lines|)
    ensures r.Ok? <==> HunkMatches(lines, hunks[hi])
    ensures r.Ok? && hi < |hunks| - 1 ==> CopiedTo(lines, hunks, hi + 1, cursor, r.value)
    ensures r.Ok? && hi == |hunks| - 1 ==> r.value + lines[cursor - 1..] == Patched(lines, hunks)
    ensures r.Err? ==> r.error.Conflict? && FirstConflict(lines, hunks, r.error.line) && !ContextOk(lines, hunks)
  {
    hide Splice, Patched, CopiedTo, FirstConflict, FirstTerm, ContextOk;
    var h, result := hunks[hi], soFar;
    cursor := h.endLine + 1;
    StartsBelow(lines, hunks, hi);
    for at := start to h.startLine
      invariant CopiedTo(lines, hunks, hi, at, result)
    {
      CopyLine(lines, hunks, hi, at, result);
      result := result + [lines[at - 1]];
    }
    ghost var copied := result;
    if noTrailingNewline && |result| > 0 && |h.newLines| > 0 && result[|result| - 1].term == NoTerm {
      result := result[|result| - 1 := RawLine(result[|result| - 1].text, term)];
    }
    ghost var closed := result;
    assert closed == Close(lines, h, copied, term);
    for i := 0 to |h.oldLines|
      invariant forall j | 0 <= j < i :: lines[h.startLine - 1 + j].text == h.oldLines[j]
    {
      if lines[h.startLine - 1 + i].text != h.oldLines[i] {
        ConflictIsFirst(lines, hunks, hi, h.startLine + i);
        return Err(Conflict(h.startLine + i)), cursor;
      }
    }
    for j := 0 to |h.newLines|
      invariant result == closed + NewLines(h, term)[..j]
    {
      result := result + [RawLine(h.newLines[j], term)];
    }
    assert NewLines(h, term)[..|h.newLines|] == NewLines(h, term);
    HunkDone(lines, hunks, hi, copied, result);
    if hi == |hunks| - 1 && h.endLine >= h.startLine && h.endLine == |lines| && noTrailingNewline && |h.newLines| > 0 {
      result := result[|result| - 1 := RawLine(result[|result| - 1].text, NoTerm)];
    }
    r := Ok(result);
  }

  lemma {:induction false} AllMatch(lines: seq<RawLine>, hunks: seq<Hunk>)
    requires ValidHunks(hunks, |lines|)
    requires forall j | 0 <= j < |hunks| :: WellPlaced(hunks[j], |lines|) && HunkMatches(lines, hunks[j])
    ensures ContextOk(lines, hunks)
  {}

  /** The whole of `applyHunks`. */
  method ApplyHunks(lines: seq<RawLine>, hunks: seq<Hunk>) returns (r: Result<seq<RawLine>, PatchError>)
    requires FileShape(lines) && ValidHunks(hunks, |lines|)
    ensures r.Ok? <==> ContextOk(lines, hunks)
    ensures r.Ok? ==> r.value == Patched(lines, hunks)
    ensures r.Err? ==> r.error.Conflict? && FirstConflict(lines, hunks, r.error.line)
  {
    hide *;
    var term := FileTerminator(lines);
    OpenEndTest(lines);
    var noTrailingNewline := |lines| > 0 && lines[|lines| - 1].term == NoTerm;
    var result: seq<RawLine> := [];
    var cursor := 1;
    NothingCopied(lines, hunks);
    for hi := 0 to |hunks|
      invariant cursor == if hi == 0 then 1 else hunks[hi - 1].endLine + 1
      invariant 1 <= cursor <= |lines| + 1
      invariant forall j | 0 <= j < hi :: WellPlaced(hunks[j], |lines|) && HunkMatches(lines, hunks[j])
      invariant hi < |hunks| ==> CopiedTo(lines, hunks, hi, cursor, result)
      invariant hi == |hunks| ==> result + lines[cursor - 1..] == Patched(lines, hunks)
    {
      StartsBelow(lines, hunks, hi);
      var round;
      round, cursor := ApplyHunk(lines, hunks, hi, cursor, result, term, noTrailingNewline);
      if round.Err? {
        return Err(round.error);
      }
      result := round.value;
    }
    AllMatch(lines, hunks);
    while cursor <= |lines|
      invariant 1 <= cursor <= |lines| + 1
      invariant result + lines[cursor - 1..] == Patched(lines, hunks)
    {
      MoveOne(result, lines, cursor - 1);
      result := result + [lines[cursor - 1]];
      cursor := cursor + 1;
    }
    return Ok(result);
  }
}
