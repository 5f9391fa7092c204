/** Applying a hunk list at once against applying its hunks one at a time from the bottom of the file. */
module PatchSteps {
  import opened Basics
  import opened Lines
  import opened Patch
  import opened Apply
  import opened PatchLaws

  lemma {:induction false} SingleValid(hunks: seq<Hunk>, total: nat)
    requires ValidHunks(hunks, total) && hunks != []
    ensures ValidHunks([Last(hunks)], total)
  {
    assert Last(hunks) in hunks;
  }

  /** The lines from the last hunk downwards, after the patch. */
  function Tail(lines: seq<RawLine>, hunks: seq<Hunk>): seq<RawLine>
    requires ValidHunks(hunks, |lines|) && hunks != []
  {
    var h := Last(hunks);
    ValidInit(hunks, |lines|);
    var lower := NewLines(h, FirstTerm(lines)) + Opened(lines, hunks)[h.endLine..];
    if ReplacesOpenEnd(lines, hunks) then RetermLast(lower, NoTerm) else lower
  }

  lemma {:induction false} RetermAppend(a: seq<RawLine>, b: seq<RawLine>, term: Term)
    requires b != []
    ensures RetermLast(a + b, term) == a + RetermLast(b, term)
  {}

  /** A patch is the patch of the lines above its last hunk followed by that hunk's tail. */
  lemma {:induction false} PatchedFromLast(lines: seq<RawLine>, hunks: seq<Hunk>)
    requires ValidHunks(hunks, |lines|) && hunks != []
    ensures WellPlaced(Last(hunks), |lines|) && ValidHunks(Init(hunks), Last(hunks).startLine - 1)
    ensures Patched(lines, hunks)
            == Splice(Opened(lines, hunks)[..Last(hunks).startLine - 1], Init(hunks), FirstTerm(lines))
                + Tail(lines, hunks)
  {
    hide FirstTerm, RetermLast, Splice;
    ValidInit(hunks, |lines|);
    var start, h, term := Opened(lines, hunks), Last(hunks), FirstTerm(lines);
    var top, lower := Splice(start[..h.startLine - 1], Init(hunks), term), NewLines(h, term) + start[h.endLine..];
    assert Init(hunks) + [h] == hunks;
    SpliceSnoc(start, Init(hunks), h, term);
    assert Splice(start, hunks, term) == top + lower;
    if ReplacesOpenEnd(lines, hunks) {
      RetermAppend(top, lower, NoTerm);
    }
  }

  /** The last hunk alone: the lines above it are kept. */
  lemma {:induction false} PatchedByLast(lines: seq<RawLine>, hunks: seq<Hunk>)
    requires ValidHunks(hunks, |lines|) && hunks != []
    ensures ValidHunks([Last(hunks)], |lines|) && WellPlaced(Last(hunks), |lines|)
    ensures Patched(lines, [Last(hunks)]) == Opened(lines, hunks)[..Last(hunks).startLine - 1] + Tail(lines, hunks)
  {
    hide FirstTerm;
    ValidInit(hunks, |lines|);
    SingleValid(hunks, |lines|);
    var one := [Last(hunks)];
    assert Init(one) == [];
    PatchedFromLast(lines, one);
    assert Tail(lines, one) == Tail(lines, hunks);
  }

  /** What is left to do after the last hunk is still valid. */
  lemma {:induction false} RestStaysValid(lines: seq<RawLine>, hunks: seq<Hunk>)
    requires ValidHunks(hunks, |lines|) && hunks != []
    ensures ValidHunks([Last(hunks)], |lines|)
    ensures ValidHunks(Init(hunks), |Patched(lines, [Last(hunks)])|)
  {
    hide Tail, Opened, FirstTerm;
    PatchedByLast(lines, hunks);
    ValidInit(hunks, |lines|);
    var above := Opened(lines, hunks)[..Last(hunks).startLine - 1];
    SpliceSuffix(above, Tail(lines, hunks), Init(hunks), Lf);
  }

  function BottomUp(lines: seq<RawLine>, hunks: seq<Hunk>): seq<RawLine>
    requires ValidHunks(hunks, |lines|)
    decreases |hunks|
  {
    if hunks == [] then lines
    else
      RestStaysValid(lines, hunks);
      BottomUp(Patched(lines, [Last(hunks)]), Init(hunks))
  }

  /** Every step of the bottom-up application finds its own context. */
  predicate StepsMatch(lines: seq<RawLine>, hunks: seq<Hunk>)
    requires ValidHunks(hunks, |lines|)
    decreases |hunks|
  {
    hunks == [] ||
    (RestStaysValid(lines, hunks);
     && ContextOk(lines, [Last(hunks)])
     && StepsMatch(Patched(lines, [Last(hunks)]), Init(hunks)))
  }

  /**
   * The one shape in which the two disagree: the last hunk has no lines at all and stands below an
   * unterminated last line that the hunk before it replaces.
   */
  predicate HidesOpenEnd(lines: seq<RawLine>, hunks: seq<Hunk>) {
    && |hunks| >= 2 && Last(hunks).Empty() && Last(hunks).startLine == |lines| + 1
    && ReplacesOpenEnd(lines, Init(hunks))
  }

  lemma {:induction false} FirstTermKept(lines: seq<RawLine>, hunks: seq<Hunk>)
    requires FileShape(lines) && ValidHunks(hunks, |lines|) && |hunks| >= 2
    ensures ValidHunks([Last(hunks)], |lines|)
    ensures FirstTerm(Patched(lines, [Last(hunks)])) == FirstTerm(lines)
  {
    PatchedByLast(lines, hunks);
    assert Before(hunks[0], Last(hunks)) && hunks[0] in hunks && WellPlaced(hunks[0], |lines|);
    var after := Patched(lines, [Last(hunks)]);
    assert after[0] == Opened(lines, hunks)[0];
    if |lines| == 1 && lines[0].term == NoTerm && !AppendsBelowOpenEnd(lines, hunks) {
      assert after == lines;
    }
  }

  lemma {:induction false} StepKeepsContext(lines: seq<RawLine>, hunks: seq<Hunk>)
    requires ValidHunks(hunks, |lines|) && hunks != []
    ensures ValidHunks([Last(hunks)], |lines|) && ValidHunks(Init(hunks), |Patched(lines, [Last(hunks)])|)
    ensures ContextOk(lines, hunks)
            <==> ContextOk(lines, [Last(hunks)]) && ContextOk(Patched(lines, [Last(hunks)]), Init(hunks))
  {
    hide Patched, Tail, FirstTerm;
    RestStaysValid(lines, hunks);
    PatchedByLast(lines, hunks);
    ValidInit(hunks, |lines|);
    var after, h := Patched(lines, [Last(hunks)]), Last(hunks);
    assert forall i | 0 <= i < h.startLine - 1 :: after[i].text == lines[i].text;
    assert hunks == Init(hunks) + [h];
    forall g | g in Init(hunks) ensures HunkMatches(lines, g) <==> HunkMatches(after, g) {
      assert WellPlaced(g, h.startLine - 1);
    }
  }

  lemma {:induction false} StepsMatchIffContextOk(lines: seq<RawLine>, hunks: seq<Hunk>)
    requires ValidHunks(hunks, |lines|)
    ensures StepsMatch(lines, hunks) <==> ContextOk(lines, hunks)
    decreases |hunks|
  {
    if hunks != [] {
      hide ContextOk;
      StepKeepsContext(lines, hunks);
      StepsMatchIffContextOk(Patched(lines, [Last(hunks)]), Init(hunks));
    } else {
      assert ContextOk(lines, hunks);
    }
  }

  /** After the last hunk the others have nothing to close, so they only splice - unless the end was hidden. */
  lemma {:induction false} RestOnlySplices(lines: seq<RawLine>, hunks: seq<Hunk>)
    requires FileShape(lines) && ValidHunks(hunks, |lines|) && |hunks| >= 2
    ensures ValidHunks([Last(hunks)], |lines|) && ValidHunks(Init(hunks), |Patched(lines, [Last(hunks)])|)
    ensures var after := Patched(lines, [Last(hunks)]);
            && !AppendsBelowOpenEnd(after, Init(hunks))
            && (ReplacesOpenEnd(after, Init(hunks)) <==> HidesOpenEnd(lines, hunks))
  {
    hide FirstTerm;
    RestStaysValid(lines, hunks);
    PatchedByLast(lines, hunks);
    var above := Init(hunks);
    assert Before(Last(above), Last(hunks)) && Last(above) in hunks && WellPlaced(Last(above), |lines|);
    assert Last(hunks) in hunks;
  }

  lemma {:induction false} StepIsSplice(lines: seq<RawLine>, hunks: seq<Hunk>)
    requires FileShape(lines) && ValidHunks(hunks, |lines|) && |hunks| >= 2
    ensures ValidHunks([Last(hunks)], |lines|) && ValidHunks(Init(hunks), |Patched(lines, [Last(hunks)])|)
    ensures var after := Patched(lines, [Last(hunks)]);
            Splice(after, Init(hunks), FirstTerm(after)) == Patched(lines, hunks)
  {
    hide Patched, Splice, Tail, FirstTerm, Opened;
    RestStaysValid(lines, hunks);
    PatchedByLast(lines, hunks);
    PatchedFromLast(lines, hunks);
    FirstTermKept(lines, hunks);
    SpliceSuffix(Opened(lines, hunks)[..Last(hunks).startLine - 1], Tail(lines, hunks), Init(hunks), FirstTerm(lines));
  }

  /** One step from the bottom agrees with the whole patch exactly when no open end is hidden. */
  lemma {:induction false} StepAgrees(lines: seq<RawLine>, hunks: seq<Hunk>)
    requires FileShape(lines) && ValidHunks(hunks, |lines|) && |hunks| >= 2
    ensures ValidHunks([Last(hunks)], |lines|) && ValidHunks(Init(hunks), |Patched(lines, [Last(hunks)])|)
    ensures Patched(Patched(lines, [Last(hunks)]), Init(hunks)) == Patched(lines, hunks)
            <==> !HidesOpenEnd(lines, hunks)
  {
    hide Splice, FirstTerm;
    RestOnlySplices(lines, hunks);
    StepIsSplice(lines, hunks);
    ResultKeepsFileShape(lines, [Last(hunks)]);
    var after := Patched(lines, [Last(hunks)]);
    if HidesOpenEnd(lines, hunks) {
      var h := Last(Init(hunks));
      NewLineLands(lines, hunks, |hunks| - 2, |h.newLines| - 1);
      NewLineLands(after, Init(hunks), |hunks| - 2, |h.newLines| - 1);
      assert Init(hunks)[..|hunks| - 2] == hunks[..|hunks| - 2];
    }
  }

  /**
   * Simultaneous and bottom-up application give the same lines and terminators, exactly unless an empty
   * hunk hides the replaced open end of the file.
   */
  lemma {:induction false} BottomUpIffNotHidden(lines: seq<RawLine>, hunks: seq<Hunk>)
    requires FileShape(lines) && ValidHunks(hunks, |lines|)
    ensures BottomUp(lines, hunks) == Patched(lines, hunks) <==> !HidesOpenEnd(lines, hunks)
  {
    if |hunks| == 1 {
      assert hunks == [Last(hunks)];
    } else if |hunks| >= 2 {
      BottomUpFromStep(lines, hunks);
      StepAgrees(lines, hunks);
    }
  }

  /** The steps after the first never meet a hidden end. */
  lemma {:induction false} BottomUpFromStep(lines: seq<RawLine>, hunks: seq<Hunk>)
    requires FileShape(lines) && ValidHunks(hunks, |lines|) && hunks != []
    ensures ValidHunks([Last(hunks)], |lines|) && ValidHunks(Init(hunks), |Patched(lines, [Last(hunks)])|)
    ensures BottomUp(lines, hunks) == Patched(Patched(lines, [Last(hunks)]), Init(hunks))
    decreases |hunks|
  {
    RestStaysValid(lines, hunks);
    var after, above := Patched(lines, [Last(hunks)]), Init(hunks);
    SingleValid(hunks, |lines|);
    ResultKeepsFileShape(lines, [Last(hunks)]);
    if above == [] {
      assert Patched(after, above) == after;
    } else if |above| == 1 {
      assert above == [Last(above)] && Init(above) == [];
      RestStaysValid(after, above);
      assert BottomUp(after, above) == BottomUp(Patched(after, [Last(above)]), []);
    } else if |above| >= 2 {
      BottomUpFromStep(after, above);
      StepAgrees(after, above);
      NotHiddenAfterStep(lines, hunks);
    }
  }

  lemma {:induction false} NotHiddenAfterStep(lines: seq<RawLine>, hunks: seq<Hunk>)
    requires ValidHunks(hunks, |lines|) && |hunks| >= 2
    ensures ValidHunks([Last(hunks)], |lines|)
    ensures !HidesOpenEnd(Patched(lines, [Last(hunks)]), Init(hunks))
  {
    hide Tail, FirstTerm;
    PatchedByLast(lines, hunks);
    assert Before(Last(Init(hunks)), Last(hunks));
  }

  /** With no empty hunk in the list the two always agree. */
  lemma {:induction false} NonEmptyHunksCommute(lines: seq<RawLine>, hunks: seq<Hunk>)
    requires FileShape(lines) && ValidHunks(hunks, |lines|)
    requires forall h | h in hunks :: !h.Empty()
    ensures BottomUp(lines, hunks) == Patched(lines, hunks)
    ensures StepsMatch(lines, hunks) <==> ContextOk(lines, hunks)
  {
    BottomUpIffNotHidden(lines, hunks);
    StepsMatchIffContextOk(lines, hunks);
    assert hunks != [] ==> Last(hunks) in hunks;
  }

  /** The end that gets lost: replacing the unterminated only line, with an empty hunk below it. */
  lemma {:induction false} HiddenEndExample()
    ensures var lines := [RawLine([97], NoTerm)];
            var hunks := [Hunk(1, 1, [[97]], [[98]]), Hunk(2, 1, [], [])];
            && FileShape(lines) && ValidHunks(hunks, |lines|) && ContextOk(lines, hunks)
            && Patched(lines, hunks) == [RawLine([98], Lf)]
            && BottomUp(lines, hunks) == [RawLine([98], NoTerm)]
  {
    var lines := [RawLine([97], NoTerm)];
    var h := Hunk(1, 1, [[97]], [[98]]);
    var e := Hunk(2, 1, [], []);
    var hunks := [h, e];
    assert Before(h, e);
    assert FirstTerm(lines) == Lf;
    assert Init(hunks) == [h] && Init([h]) == [];
    NewLineLands(lines, hunks, 0, 0);
    assert hunks[..0] == [];
    assert Shift([h]) == 0 && Shift(hunks) == 0;
    BottomUpFromStep(lines, hunks);
    PatchedByLast(lines, hunks);
    assert Patched(lines, [e]) == lines;
    NewLineLands(lines, [h], 0, 0);
    assert [h][..0] == [];
  }
}
