/** Taking a patch back with its inverse hunks. */
module Undo {
  import opened Basics
  import opened Lines
  import opened Patch
  import opened Apply
  import opened PatchLaws
  import opened PatchFile

  function InverseHunk(h: Hunk, shift: int): Hunk {
    var at := h.startLine + shift;
    Hunk(at, at + |h.newLines| - 1, h.newLines, h.oldLines)
  }

  /** Old and new lines swapped, each start moved by what the hunks above it added. */
  function Inverse(hunks: seq<Hunk>): (r: seq<Hunk>)
    ensures |r| == |hunks|
  {
    if hunks == [] then [] else Inverse(Init(hunks)) + [InverseHunk(Last(hunks), Shift(Init(hunks)))]
  }

  lemma {:induction false} InverseAt(hunks: seq<Hunk>, k: nat)
    requires k < |hunks|
    ensures Inverse(hunks)[k] == InverseHunk(hunks[k], Shift(hunks[..k]))
    decreases |hunks|
  {
    if k < |hunks| - 1 {
      InverseAt(Init(hunks), k);
      assert Init(hunks)[..k] == hunks[..k];
    }
  }

  /** Consecutive hunks either leave a line between them or the upper one adds lines. */
  predicate Separable(hunks: seq<Hunk>) {
    forall k | 0 <= k < |hunks| - 1 :: hunks[k].endLine + 1 < hunks[k + 1].startLine || hunks[k].newLines != []
  }

  lemma {:induction false} InverseFits(h: Hunk, shift: int, total: nat)
    requires WellPlaced(h, total) && h.startLine - 1 + shift >= 0
    ensures total + shift + h.Delta() >= 0
    ensures WellPlaced(InverseHunk(h, shift), total + shift + h.Delta())
  {}

  lemma {:induction false} SeparableIsEnough(hunks: seq<Hunk>, total: nat)
    requires ValidHunks(hunks, total) && Separable(hunks)
    ensures total + Shift(hunks) >= 0 && ValidHunks(Inverse(hunks), total + Shift(hunks))
    decreases |hunks|
  {
    if hunks != [] {
      var h, above := Last(hunks), Init(hunks);
      ValidInit(hunks, total);
      LengthStaysNatural(above, h.startLine - 1);
      SeparableIsEnough(above, h.startLine - 1);
      InverseFits(h, Shift(above), total);
      var inv, size := Inverse(above), total + Shift(hunks);
      forall g | g in inv ensures WellPlaced(g, size) {
        assert WellPlaced(g, h.startLine - 1 + Shift(above));
      }
      if above != [] {
        assert Before(Last(above), h);
        assert hunks[|above| - 1].endLine + 1 < hunks[|above|].startLine || hunks[|above| - 1].newLines != [];
        assert Last(above) in hunks;
      }
      ValidSnoc(inv, InverseHunk(h, Shift(above)), size);
    }
  }

  /** The inverse hunks pass validation exactly when the hunks are separable. */
  lemma {:induction false} InverseValidIffSeparable(hunks: seq<Hunk>, total: nat)
    requires ValidHunks(hunks, total)
    ensures total + Shift(hunks) >= 0
    ensures ValidHunks(Inverse(hunks), total + Shift(hunks)) <==> Separable(hunks)
  {
    LengthStaysNatural(hunks, total);
    if Separable(hunks) {
      SeparableIsEnough(hunks, total);
    }
    if ValidHunks(Inverse(hunks), total + Shift(hunks)) {
      InverseNeedsSeparable(hunks, total, total + Shift(hunks));
    }
  }

  /** Valid inverse hunks come from separable hunks, whatever file they are checked against. */
  lemma {:induction false} InverseNeedsSeparable(hunks: seq<Hunk>, total: nat, size: nat)
    requires ValidHunks(hunks, total) && ValidHunks(Inverse(hunks), size)
    ensures Separable(hunks)
  {
    forall k | 0 <= k < |hunks| - 1
      ensures hunks[k].endLine + 1 < hunks[k + 1].startLine || hunks[k].newLines != []
    {
      InverseAt(hunks, k);
      InverseAt(hunks, k + 1);
      assert Before(Inverse(hunks)[k], Inverse(hunks)[k + 1]) && Before(hunks[k], hunks[k + 1]);
      assert Init(hunks[..k + 1]) == hunks[..k] && Last(hunks[..k + 1]) == hunks[k];
      assert hunks[k] in hunks;
    }
  }

  lemma {:induction false} InverseIsSorted(hunks: seq<Hunk>, total: nat)
    requires ValidHunks(hunks, total)
    ensures SortedByStart(Inverse(hunks))
    decreases |hunks|
  {
    if hunks != [] {
      ValidInit(hunks, total);
      InverseIsSorted(Init(hunks), Last(hunks).startLine - 1);
      if |hunks| >= 2 {
        var p := Last(Init(hunks));
        assert Before(p, Last(hunks)) && p in hunks && WellPlaced(p, total);
        InverseAt(Init(hunks), |hunks| - 2);
        assert Init(hunks)[..|hunks| - 2] == Init(Init(hunks));
      }
    }
  }

  // ----- Splicing back

  lemma {:induction false} InverseSnoc(hunks: seq<Hunk>)
    requires hunks != []
    ensures Inverse(hunks) == Inverse(Init(hunks)) + [InverseHunk(Last(hunks), Shift(Init(hunks)))]
  {}

  /** The patched file around the last hunk, where the last inverse hunk stands. */
  lemma {:induction false} AroundLast(lines: seq<RawLine>, hunks: seq<Hunk>, term: Term)
    requires ValidHunks(hunks, |lines|) && hunks != []
    requires WellPlaced(Last(hunks), |lines|) && ValidHunks(Init(hunks), Last(hunks).startLine - 1)
    ensures var h, top := Last(hunks), Splice(lines[..Last(hunks).startLine - 1], Init(hunks), term);
            var after, inv := Splice(lines, hunks, term), InverseHunk(h, Shift(Init(hunks)));
            && WellPlaced(inv, |after|)
            && after[..inv.startLine - 1] == top && after[inv.endLine..] == lines[h.endLine..]
  {
    hide ValidHunks, NewLines;
    var h, top := Last(hunks), Splice(lines[..Last(hunks).startLine - 1], Init(hunks), term);
    InitLast(hunks);
    SpliceSnoc(lines, Init(hunks), h, term);
    NewLinesLength(h, term);
    ThreeParts(top, NewLines(h, term), lines[h.endLine..]);
    InverseFits(h, Shift(Init(hunks)), |lines|);
    hide Splice;
  }

  /** The last inverse hunk puts the last hunk's old lines back and leaves the rest to the others. */
  lemma {:induction false} SpliceBackLast(lines: seq<RawLine>, hunks: seq<Hunk>, term: Term, back: Term)
    requires ValidHunks(hunks, |lines|) && Separable(hunks) && hunks != []
    requires WellPlaced(Last(hunks), |lines|) && ValidHunks(Init(hunks), Last(hunks).startLine - 1)
    requires ValidHunks(Inverse(Init(hunks)), |Splice(lines[..Last(hunks).startLine - 1], Init(hunks), term)|)
    ensures ValidHunks(Inverse(hunks), |Splice(lines, hunks, term)|)
    ensures Splice(Splice(lines, hunks, term), Inverse(hunks), back)
            == Splice(Splice(lines[..Last(hunks).startLine - 1], Init(hunks), term), Inverse(Init(hunks)), back)
               + NewLines(InverseHunk(Last(hunks), Shift(Init(hunks))), back) + lines[Last(hunks).endLine..]
  {
    SeparableIsEnough(hunks, |lines|);
    InverseSnoc(hunks);
    AroundLast(lines, hunks, term);
    hide Splice, ValidHunks, Separable, NewLines, Inverse, Shift, InverseHunk;
    var inv := InverseHunk(Last(hunks), Shift(Init(hunks)));
    SpliceSnoc(Splice(lines, hunks, term), Inverse(Init(hunks)), inv, back);
  }

  /** Line i (0-based) is among those the hunks replace. */
  predicate Touched(hunks: seq<Hunk>, i: int) {
    exists h | h in hunks :: h.startLine - 1 <= i < h.endLine
  }

  /** The lines of the file, the replaced ones with the terminator `term`. */
  function Retermed(lines: seq<RawLine>, hunks: seq<Hunk>, term: Term): (r: seq<RawLine>)
    ensures |r| == |lines|
  {
    seq(|lines|, i requires 0 <= i < |lines| => if Touched(hunks, i) then WithTerm(lines[i], term) else lines[i])
  }

  /** The last hunk's lines among the retermed ones. */
  lemma {:induction false} RetermedLast(lines: seq<RawLine>, hunks: seq<Hunk>, term: Term, shift: int)
    requires ValidHunks(hunks, |lines|) && hunks != [] && ContextOk(lines, hunks)
    requires WellPlaced(Last(hunks), |lines|)
    ensures var h := Last(hunks);
            Retermed(lines, hunks, term)
            == Retermed(lines[..h.startLine - 1], Init(hunks), term) + NewLines(InverseHunk(h, shift), term)
               + lines[h.endLine..]
  {
    var h, above := Last(hunks), Init(hunks);
    assert h in hunks && HunkMatches(lines, h);
    forall i | 0 <= i < |lines|
      ensures Touched(hunks, i) <==> (h.startLine - 1 <= i < h.endLine) || (i < h.startLine - 1 && Touched(above, i))
    {
      TouchedLast(hunks, |lines|, i);
    }
    hide Touched, ValidHunks, ContextOk;
    var a, b := Retermed(lines[..h.startLine - 1], above, term), NewLines(InverseHunk(h, shift), term);
    assert |a| == h.startLine - 1 && |b| == |h.oldLines|;
    assert forall j | 0 <= j < |b| :: b[j] == RawLine(h.oldLines[j], term);
    assert forall j | 0 <= j < |b| :: b[j] == WithTerm(lines[h.startLine - 1 + j], term);
    assert Retermed(lines, hunks, term) == a + b + lines[h.endLine..];
  }

  lemma {:induction false} TouchedLast(hunks: seq<Hunk>, total: nat, i: int)
    requires ValidHunks(hunks, total) && hunks != []
    ensures var h := Last(hunks);
            Touched(hunks, i)
            <==> (h.startLine - 1 <= i < h.endLine) || (i < h.startLine - 1 && Touched(Init(hunks), i))
  {
    var h, above := Last(hunks), Init(hunks);
    ValidInit(hunks, total);
    assert forall g :: g in hunks <==> g in above || g == h;
    assert forall g | g in above :: WellPlaced(g, h.startLine - 1);
  }

  lemma {:induction false} AboveKeepsContext(lines: seq<RawLine>, hunks: seq<Hunk>)
    requires ValidHunks(hunks, |lines|) && Separable(hunks) && ContextOk(lines, hunks) && hunks != []
    ensures WellPlaced(Last(hunks), |lines|)
    ensures ValidHunks(Init(hunks), Last(hunks).startLine - 1) && Separable(Init(hunks))
    ensures ContextOk(lines[..Last(hunks).startLine - 1], Init(hunks))
  {
    ValidInit(hunks, |lines|);
    var a := lines[..Last(hunks).startLine - 1];
    forall g | g in Init(hunks) ensures WellPlaced(g, |a|) && HunkMatches(a, g) {
      assert HunkMatches(lines, g);
    }
  }

  /** Splicing back the inverse hunks restores every line; the replaced ones get the terminator of the way back. */
  lemma {:induction false} SpliceBack(lines: seq<RawLine>, hunks: seq<Hunk>, term: Term, back: Term)
    requires ValidHunks(hunks, |lines|) && Separable(hunks) && ContextOk(lines, hunks)
    ensures ValidHunks(Inverse(hunks), |Splice(lines, hunks, term)|)
    ensures Splice(Splice(lines, hunks, term), Inverse(hunks), back) == Retermed(lines, hunks, back)
    decreases |hunks|
  {
    hide *;
    if hunks == [] {
      NothingSpliced(lines, term);
      NothingSpliced(lines, back);
      NoInverse(lines, back);
    } else {
      LastPlace(hunks, |lines|);
      AboveKeepsContext(lines, hunks);
      SpliceBack(lines[..Last(hunks).startLine - 1], Init(hunks), term, back);
      SpliceBackLast(lines, hunks, term, back);
      RetermedLast(lines, hunks, back, Shift(Init(hunks)));
    }
  }

  lemma {:induction false} NoInverse(lines: seq<RawLine>, term: Term)
    ensures Inverse([]) == [] && Retermed(lines, [], term) == lines
  {
    assert forall i | 0 <= i < |lines| :: !Touched([], i);
  }

  /** The patched file shows the new lines where the k-th inverse hunk expects them. */
  lemma {:induction false} InverseMatches(lines: seq<RawLine>, hunks: seq<Hunk>, term: Term, k: nat)
    requires ValidHunks(hunks, |lines|) && k < |hunks|
    requires WellPlaced(Inverse(hunks)[k], |Splice(lines, hunks, term)|)
    ensures HunkMatches(Splice(lines, hunks, term), Inverse(hunks)[k])
  {
    InverseAt(hunks, k);
    hide Splice, ValidHunks, Inverse, WellPlaced, Shift;
    var after, inv := Splice(lines, hunks, term), Inverse(hunks)[k];
    forall j | 0 <= j < |inv.oldLines| ensures after[inv.startLine - 1 + j].text == inv.oldLines[j] {
      SplicePlacesNewLines(lines, hunks, term, k, j);
    }
  }

  lemma {:induction false} InverseContext(lines: seq<RawLine>, hunks: seq<Hunk>, term: Term)
    requires ValidHunks(hunks, |lines|) && Separable(hunks)
    ensures ValidHunks(Inverse(hunks), |Splice(lines, hunks, term)|)
    ensures ContextOk(Splice(lines, hunks, term), Inverse(hunks))
  {
    SeparableIsEnough(hunks, |lines|);
    var after, inverse := Splice(lines, hunks, term), Inverse(hunks);
    assert forall g | g in inverse :: WellPlaced(g, |after|);
    hide Splice, ValidHunks, Separable, Inverse, WellPlaced, HunkMatches;
    forall k | 0 <= k < |hunks| ensures HunkMatches(after, inverse[k]) {
      assert inverse[k] in inverse;
      InverseMatches(lines, hunks, term, k);
    }
  }
}
