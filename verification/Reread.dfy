/** What a later read of a patched file sees: the patched lines, if their texts and the end of the file survive. */
module Reread {
  import opened Basics
  import opened Lines
  import opened Patch
  import opened Apply
  import opened PatchLaws
  import opened PatchFile

  predicate FromHunks(l: RawLine, hunks: seq<Hunk>, term: Term) {
    l.term == term && exists h | h in hunks :: l.text in h.newLines
  }

  /** A spliced file holds nothing but lines of the file and new lines of the hunks. */
  lemma {:induction false} SpliceSources(lines: seq<RawLine>, hunks: seq<Hunk>, term: Term)
    requires ValidHunks(hunks, |lines|)
    ensures forall l | l in Splice(lines, hunks, term) :: l in lines || FromHunks(l, hunks, term)
    decreases |hunks|
  {
    if hunks != [] {
      var h, above := Last(hunks), Init(hunks);
      ValidInit(hunks, |lines|);
      var upper := lines[..h.startLine - 1];
      SpliceSources(upper, above, term);
      assert h in hunks;
      forall l | l in Splice(lines, hunks, term) ensures l in lines || FromHunks(l, hunks, term) {
        if l in NewLines(h, term) {
          assert l.text in h.newLines;
        } else if FromHunks(l, above, term) {
          var g :| g in above && l.text in g.newLines;
          assert g in hunks;
        }
      }
    }
  }

  /** New texts that survive being written with the terminator `term` and split again. */
  predicate CleanTexts(hunks: seq<Hunk>, term: Term) {
    forall h, t | h in hunks && t in h.newLines :: LF !in t && (term == Lf ==> !EndsInCr(t))
  }

  /** The last line, unterminated and now empty, leaves no byte. */
  predicate LosesEmptyEnd(lines: seq<RawLine>, hunks: seq<Hunk>) {
    ReplacesOpenEnd(lines, hunks) && Last(Last(hunks).newLines) == []
  }

  /** The unterminated last line ends in CR and gets a bare LF when lines are added below it. */
  predicate ClosesCr(lines: seq<RawLine>, hunks: seq<Hunk>) {
    && AppendsBelowOpenEnd(lines, hunks) && FirstTerm(lines) == Lf && EndsInCr(Last(lines).text)
    && (|hunks| == 1 || hunks[|hunks| - 2].endLine < |lines|)
  }

  predicate TextOk(l: RawLine) {
    LF !in l.text && (l.term == Lf ==> !EndsInCr(l.text))
  }

  predicate TextsOk(lines: seq<RawLine>) {
    forall l | l in lines :: TextOk(l)
  }

  lemma {:induction false} SpliceTextsOk(lines: seq<RawLine>, hunks: seq<Hunk>, term: Term)
    requires ValidHunks(hunks, |lines|) && TextsOk(lines) && CleanTexts(hunks, term)
    ensures TextsOk(Splice(lines, hunks, term))
  {
    hide Splice, ValidHunks;
    SpliceSources(lines, hunks, term);
  }

  /** When the hunk before an insertion at the end takes the last line, closing that line changes nothing. */
  lemma {:induction false} TakenBeforeAppend(lines: seq<RawLine>, hunks: seq<Hunk>)
    requires ValidHunks(hunks, |lines|) && AppendsBelowOpenEnd(lines, hunks)
    requires |hunks| >= 2 && hunks[|hunks| - 2].endLine >= |lines|
    ensures Patched(lines, hunks) == Splice(lines, hunks, FirstTerm(lines))
  {
    ValidInit(hunks, |lines|);
    var above, term := Init(hunks), FirstTerm(lines);
    var closed := RetermLast(lines, term);
    ValidInit(above, |lines|);
    assert Before(hunks[|hunks| - 2], hunks[|hunks| - 1]);
    SpliceIgnoresTakenEnd(lines, closed, above, term);
    assert lines[..|lines|] == lines && closed[..|lines|] == closed;
  }

  // ----- Texts that do not survive

  /** The line that the j-th new text of hunk k becomes. */
  function Landed(lines: seq<RawLine>, hunks: seq<Hunk>, k: nat, j: nat): RawLine
    requires k < |hunks| && j < |hunks[k].newLines|
  {
    RawLine(hunks[k].newLines[j],
            if k == |hunks| - 1 && j == |hunks[k].newLines| - 1
                && OpenEnded(lines) && hunks[k].startLine <= |lines| == hunks[k].endLine
            then NoTerm else FirstTerm(lines))
  }

  /** No new text holds a line feed, and none is written with a carriage return before a bare line feed. */
  predicate WrittenClean(lines: seq<RawLine>, hunks: seq<Hunk>) {
    forall k, j | 0 <= k < |hunks| && 0 <= j < |hunks[k].newLines| :: TextOk(Landed(lines, hunks, k, j))
  }

  lemma {:induction false} CleanBelowOpenEnd(lines: seq<RawLine>, hunks: seq<Hunk>, k: nat)
    requires ValidHunks(hunks, |lines|) && WrittenClean(lines, hunks)
    requires k <= |hunks| && (k == |hunks| ==> !ReplacesOpenEnd(lines, hunks))
    ensures CleanTexts(hunks[..k], FirstTerm(lines))
  {
    forall h, t | h in hunks[..k] && t in h.newLines
      ensures LF !in t && (FirstTerm(lines) == Lf ==> !EndsInCr(t))
    {
      var m :| 0 <= m < k && hunks[m] == h;
      var j :| 0 <= j < |h.newLines| && h.newLines[j] == t;
      assert TextOk(Landed(lines, hunks, m, j)) && WellPlaced(h, |lines|);
    }
  }

  lemma {:induction false} TextsOkConcat(a: seq<RawLine>, b: seq<RawLine>)
    ensures TextsOk(a + b) <==> TextsOk(a) && TextsOk(b)
  {
    assert forall l | l in a :: l in a + b;
    assert forall l | l in b :: l in a + b;
  }

  /** Where an open end is replaced, the last text need not be followed by a line feed. */
  lemma {:induction false} ReplacedEndTextsOk(lines: seq<RawLine>, hunks: seq<Hunk>)
    requires ValidHunks(hunks, |lines|) && TextsOk(lines) && WrittenClean(lines, hunks) && ReplacesOpenEnd(lines, hunks)
    ensures TextsOk(Patched(lines, hunks))
  {
    ReplacingIsNotAppending(lines, hunks);
    ValidInit(hunks, |lines|);
    CleanBelowOpenEnd(lines, hunks, |hunks| - 1);
    var h, term := Last(hunks), FirstTerm(lines);
    var upper := lines[..h.startLine - 1];
    assert forall l | l in upper :: l in lines;
    SpliceTextsOk(upper, Init(hunks), term);
    var top, new', n := Splice(upper, Init(hunks), term), NewLines(h, term), |h.newLines| - 1;
    assert lines[h.endLine..] == [];
    assert Splice(lines, hunks, term) == top + new';
    hide Splice, ValidHunks;
    assert Init(top + new') == top + new'[..n] && Last(top + new').text == h.newLines[n];
    forall l | l in new'[..n] ensures TextOk(l) {
      var j :| 0 <= j < n && new'[j] == l;
      assert TextOk(Landed(lines, hunks, |hunks| - 1, j));
    }
    assert TextOk(Landed(lines, hunks, |hunks| - 1, n));
    TextsOkConcat(top, new'[..n]);
    TextsOkConcat(top + new'[..n], [WithTerm(Last(top + new'), NoTerm)]);
  }

  /** Outside the CR corner, every patched line keeps its text when it is written and split. */
  lemma {:induction false} PatchedTextsOk(lines: seq<RawLine>, hunks: seq<Hunk>)
    requires ValidHunks(hunks, |lines|) && TextsOk(lines) && WrittenClean(lines, hunks)
    requires !ClosesCr(lines, hunks)
    ensures TextsOk(Patched(lines, hunks))
  {
    hide Splice, ValidHunks, WrittenClean;
    var term := FirstTerm(lines);
    if ReplacesOpenEnd(lines, hunks) {
      ReplacedEndTextsOk(lines, hunks);
    } else {
      CleanBelowOpenEnd(lines, hunks, |hunks|);
      assert hunks[..|hunks|] == hunks;
      if AppendsBelowOpenEnd(lines, hunks) && term == Lf && EndsInCr(Last(lines).text) {
        TakenBeforeAppend(lines, hunks);
        SpliceTextsOk(lines, hunks, term);
      } else {
        assert lines != [] ==> Last(lines) in lines;
        SpliceTextsOk(Opened(lines, hunks), hunks, term);
      }
    }
  }

  /** A patched file whose texts survive was written clean. */
  lemma {:induction false} SurvivingIsClean(lines: seq<RawLine>, hunks: seq<Hunk>)
    requires FileShape(lines) && ValidHunks(hunks, |lines|) && TextsOk(Patched(lines, hunks))
    ensures WrittenClean(lines, hunks)
  {
    hide Patched;
    forall k, j | 0 <= k < |hunks| && 0 <= j < |hunks[k].newLines| ensures TextOk(Landed(lines, hunks, k, j)) {
      NewLineLands(lines, hunks, k, j);
      assert Patched(lines, hunks)[Landing(hunks, k) + j] == Landed(lines, hunks, k, j);
    }
  }

  /** Texts that keep their shape make a canonical list, except for an empty unterminated last line. */
  lemma {:induction false} CanonicalIff(after: seq<RawLine>)
    requires FileShape(after) && TextsOk(after)
    ensures Canonical(after) <==> !(after != [] && Last(after) == RawLine([], NoTerm))
    ensures after != [] ==> Canonical(Init(after))
  {
    assert forall i | 0 <= i < |after| :: TextOk(after[i]);
    if after != [] && Last(after) == RawLine([], NoTerm) {
      assert !CanonicalLine(after[|after| - 1], true);
    }
  }

  /** How the patched file ends. */
  lemma {:induction false} EmptyEndIff(lines: seq<RawLine>, hunks: seq<Hunk>)
    requires Canonical(lines) && ValidHunks(hunks, |lines|)
    ensures var after := Patched(lines, hunks);
            after != [] && Last(after) == RawLine([], NoTerm) <==> LosesEmptyEnd(lines, hunks)
  {
    var term, after := FirstTerm(lines), Patched(lines, hunks);
    if ReplacesOpenEnd(lines, hunks) {
      ValidInit(hunks, |lines|);
      var h := Last(hunks);
      assert after[|after| - 1].text == h.newLines[|h.newLines| - 1];
    } else {
      var from := Opened(lines, hunks);
      forall l | l in from ensures l != RawLine([], NoTerm) {
        var i :| 0 <= i < |from| && from[i] == l;
        assert CanonicalLine(lines[i], i == |lines| - 1);
      }
      hide Splice;
      SpliceSources(from, hunks, term);
      assert after != [] ==> Last(after) in after;
    }
  }

  lemma {:induction false} ClosedCrIsNotCanonical(lines: seq<RawLine>, hunks: seq<Hunk>)
    requires FileShape(lines) && ValidHunks(hunks, |lines|) && ClosesCr(lines, hunks)
    ensures !Canonical(Patched(lines, hunks))
  {
    var k, i := |hunks| - 1, |lines| - 1;
    assert InGap(hunks, k, i) by {
      forall g | 0 <= g < k ensures hunks[g].endLine <= i {
        assert Before(hunks[g], hunks[k]);
        if g < k - 1 {
          assert Before(hunks[g], hunks[k - 1]);
        }
      }
    }
    UntouchedLineSurvives(lines, hunks, k, i);
    var at := i + Shift(hunks[..k]);
    assert !CanonicalLine(Patched(lines, hunks)[at], at == |Patched(lines, hunks)| - 1);
  }

  lemma {:induction false} CanonicalTextsOk(lines: seq<RawLine>)
    requires Canonical(lines)
    ensures TextsOk(lines)
  {
    forall l | l in lines ensures TextOk(l) {
      var i :| 0 <= i < |lines| && lines[i] == l;
      assert CanonicalLine(lines[i], i == |lines| - 1);
    }
  }

  /**
   * Reading the patched file back gives exactly the patched lines, if and only if the new texts are written clean,
   * no unterminated last line was replaced by an empty one, and none ending in CR was closed with a bare LF.
   */
  lemma {:induction false} RereadIff(data: seq<byte>, hunks: seq<Hunk>)
    requires ValidHunks(hunks, |Split(data)|)
    ensures var lines := Split(data);
            var after := Patched(lines, hunks);
            Split(Join(after)) == after
            <==> WrittenClean(lines, hunks) && !LosesEmptyEnd(lines, hunks) && !ClosesCr(lines, hunks)
  {
    hide Split, Patched, ValidHunks, WrittenClean;
    var lines := Split(data);
    var after := Patched(lines, hunks);
    SplitHasFileShape(data);
    SplitThenJoin(data);
    CanonicalTextsOk(lines);
    RoundTripIffCanonical(after);
    if Canonical(after) {
      CanonicalTextsOk(after);
      SurvivingIsClean(lines, hunks);
      if ClosesCr(lines, hunks) {
        ClosedCrIsNotCanonical(lines, hunks);
      }
    }
    if WrittenClean(lines, hunks) && !ClosesCr(lines, hunks) {
      PatchedTextsOk(lines, hunks);
    }
    ResultKeepsFileShape(lines, hunks);
    EmptyEndIff(lines, hunks);
    if TextsOk(after) {
      CanonicalIff(after);
    }
  }

  /** Where the empty last line is lost, exactly the other lines are read back, if they are written clean. */
  lemma {:induction false} EmptyEndIsLost(data: seq<byte>, hunks: seq<Hunk>)
    requires ValidHunks(hunks, |Split(data)|) && LosesEmptyEnd(Split(data), hunks)
    ensures var after := Patched(Split(data), hunks);
            after != [] && (Split(Join(after)) == Init(after) <==> WrittenClean(Split(data), hunks))
  {
    hide Split, Patched, ValidHunks, WrittenClean;
    var lines := Split(data);
    SplitHasFileShape(data);
    SplitThenJoin(data);
    CanonicalTextsOk(lines);
    ReplacingIsNotAppending(lines, hunks);
    ResultKeepsFileShape(lines, hunks);
    var after := Patched(lines, hunks);
    EmptyEndIff(lines, hunks);
    LostByJoin(after);
    RoundTripIffCanonical(Init(after));
    if WrittenClean(lines, hunks) {
      PatchedTextsOk(lines, hunks);
      CanonicalIff(after);
    }
    if Canonical(Init(after)) {
      CanonicalTextsOk(Init(after));
      TextsOkConcat(Init(after), [Last(after)]);
      InitLast(after);
      SurvivingIsClean(lines, hunks);
    }
  }

  lemma {:induction false} LostByJoin(after: seq<RawLine>)
    requires after != [] && Last(after) == RawLine([], NoTerm)
    ensures Join(after) == Join(Init(after))
  {
    InitLast(after);
    JoinAppend(Init(after), [Last(after)]);
    JoinCons(Last(after), []);
    assert [Last(after)] + [] == [Last(after)] && Join([Last(after)]) == [];
  }

  lemma {:induction false} ReplacingIsNotAppending(lines: seq<RawLine>, hunks: seq<Hunk>)
    requires ReplacesOpenEnd(lines, hunks) && ValidHunks(hunks, |lines|)
    ensures !AppendsBelowOpenEnd(lines, hunks)
  {
    ValidInit(hunks, |lines|);
  }
}
