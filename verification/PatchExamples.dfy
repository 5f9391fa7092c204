/** Inputs on which undoing or rereading a patch fails. */
module PatchExamples {
  import opened Basics
  import opened Lines
  import opened Patch
  import opened Apply
  import opened PatchFile
  import opened PatchLaws
  import opened Reread
  import opened Undo

  const A: byte := 97
  const B: byte := 98
  const C: byte := 99

  lemma {:induction false} OneLine(text: Text, rest: seq<byte>)
    requires LF !in text && !EndsInCr(text)
    ensures Split(text + [LF] + rest) == [RawLine(text, Lf)] + Split(rest)
  {
    SplitFirstLine(text, rest);
  }

  lemma {:induction false} TwoLinesRead(x: seq<byte>, y: seq<byte>)
    requires LF !in x && LF !in y
    ensures Split(x + [LF] + (y + [LF])) == [Terminated(x), Terminated(y)]
  {
    SplitFirstLine(x, y + [LF]);
    SplitFirstLine(y, []);
    SplitEmpty();
    hide Split;
    assert y + [LF] + [] == y + [LF];
  }

  lemma {:induction false} PlainAndCr(a: byte)
    requires a != CR
    ensures Terminated([a]) == RawLine([a], Lf) && Terminated([a, CR]) == RawLine([a], CrLf)
  {
    assert [a, CR][..1] == [a];
  }

  /** Accepted hunks that are already in order. */
  lemma {:induction false} Accepted(data: seq<byte>, hunks: seq<Hunk>, lines: seq<RawLine>)
    requires Split(data) == lines && hunks != [] && SortedByStart(hunks)
    requires ValidHunks(hunks, |lines|) && ContextOk(lines, hunks)
    ensures PatchOutcome(data, hunks, Ok(Join(Patched(lines, hunks))))
  {
    SortsAgree(hunks, SortByStart(hunks), |lines|);
  }

  lemma {:induction false} Refused(data: seq<byte>, hunks: seq<Hunk>)
    requires hunks != [] && SortedByStart(hunks) && !ValidHunks(hunks, |Split(data)|)
    ensures PatchOutcome(data, hunks, Err(InvalidArgument))
  {
    SortsAgree(hunks, SortByStart(hunks), |Split(data)|);
  }

  lemma {:induction false} SpliceOne(lines: seq<RawLine>, h: Hunk, term: Term)
    requires WellPlaced(h, |lines|)
    ensures ValidHunks([h], |lines|)
    ensures Splice(lines, [h], term) == lines[..h.startLine - 1] + NewLines(h, term) + lines[h.endLine..]
  {
    assert [] + [h] == [h];
    SpliceSnoc(lines, [], h, term);
    assert Splice(lines[..h.startLine - 1], [], term) == lines[..h.startLine - 1];
  }

  lemma {:induction false} JoinTwo(a: RawLine, b: RawLine)
    ensures Join([a]) == a.Bytes() && Join([a, b]) == a.Bytes() + b.Bytes()
  {
    JoinCons(a, []);
    JoinCons(b, []);
    JoinCons(a, [b]);
    assert [a] + [] == [a] && [b] + [] == [b] && [a] + [b] == [a, b];
  }

  /** One hunk in a file with a terminated end. */
  lemma {:induction false} OneHunk(lines: seq<RawLine>, h: Hunk)
    requires WellPlaced(h, |lines|)
    ensures ValidHunks([h], |lines|) && SortedByStart([h])
    ensures !OpenEnded(lines) ==>
              Patched(lines, [h]) == lines[..h.startLine - 1] + NewLines(h, FirstTerm(lines)) + lines[h.endLine..]
    ensures ContextOk(lines, [h]) <==> HunkMatches(lines, h)
  {
    assert forall g :: g in [h] <==> g == h;
    assert Init([h]) == [] && Last([h]) == h;
    SpliceOne(lines, h, FirstTerm(lines));
  }

  lemma {:induction false} OneLinePatch(lines: seq<RawLine>, h: Hunk)
    requires WellPlaced(h, |lines|) && |lines| <= 1 && h.startLine == 1 && h.endLine == |lines| && AllTerminated(lines)
    ensures Patched(lines, [h]) == NewLines(h, FirstTerm(lines))
  {
    OneHunk(lines, h);
    assert lines != [] ==> Last(lines) in lines;
    hide Patched, NewLines;
    assert lines[..0] == [] && lines[|lines|..] == [];
    assert [] + NewLines(h, FirstTerm(lines)) + [] == NewLines(h, FirstTerm(lines));
  }

  // ----- An inverse that is refused

  /** Deleting line 1 and replacing line 2: both inverse hunks start at line 1. */
  function TouchingHunks(): seq<Hunk> {
    [Hunk(1, 1, [[A]], []), Hunk(2, 2, [[B]], [[C]])]
  }

  lemma {:induction false} TouchingLines()
    ensures Split([A, LF, B, LF]) == [RawLine([A], Lf), RawLine([B], Lf)]
  {
    TwoLinesRead([A], [B]);
    PlainAndCr(A);
    PlainAndCr(B);
    hide *;
    assert [A] + [LF] + ([B] + [LF]) == [A, LF, B, LF];
  }

  lemma {:induction false} TouchingHunksAreValid()
    ensures ValidHunks(TouchingHunks(), 2) && SortedByStart(TouchingHunks()) && !Separable(TouchingHunks())
    ensures ContextOk([RawLine([A], Lf), RawLine([B], Lf)], TouchingHunks())
  {
    var lines, g, h := [RawLine([A], Lf), RawLine([B], Lf)], Hunk(1, 1, [[A]], []), Hunk(2, 2, [[B]], [[C]]);
    assert TouchingHunks() == [g, h] && Before(g, h);
    assert forall x :: x in [g, h] <==> x == g || x == h;
    assert TouchingHunks()[0] == g && TouchingHunks()[1] == h && g.endLine + 1 == h.startLine && g.newLines == [];
    assert WellPlaced(g, 2) && WellPlaced(h, 2) && HunkMatches(lines, g) && HunkMatches(lines, h);
  }

  lemma {:induction false} TouchingSplice()
    requires ValidHunks(TouchingHunks(), 2)
    ensures Splice([RawLine([A], Lf), RawLine([B], Lf)], TouchingHunks(), Lf) == [RawLine([C], Lf)]
  {
    var lines, g, h := [RawLine([A], Lf), RawLine([B], Lf)], Hunk(1, 1, [[A]], []), Hunk(2, 2, [[B]], [[C]]);
    var top := [RawLine([A], Lf)];
    SpliceOne(top, g, Lf);
    assert NewLines(g, Lf) == [] && NewLines(h, Lf) == [RawLine([C], Lf)];
    assert [g] + [h] == TouchingHunks() && lines[..1] == top && lines[2..] == [] && top[..0] == [] && top[1..] == [];
    hide Splice, NewLines, ValidHunks, TouchingHunks;
    SpliceSnoc(lines, [g], h, Lf);
  }

  lemma {:induction false} TouchingPatch()
    ensures ValidHunks(TouchingHunks(), 2)
    ensures Patched([RawLine([A], Lf), RawLine([B], Lf)], TouchingHunks()) == [RawLine([C], Lf)]
  {
    TouchingHunksAreValid();
    TouchingSplice();
    hide Splice, ValidHunks, TouchingHunks;
    PatchedIsSplice([RawLine([A], Lf), RawLine([B], Lf)], TouchingHunks());
  }

  lemma {:induction false} RefusedInverseExample()
    ensures PatchOutcome([A, LF, B, LF], TouchingHunks(), Ok([C, LF]))
    ensures PatchOutcome([C, LF], Inverse(TouchingHunks()), Err(InvalidArgument))
  {
    TouchingLines();
    TouchingHunksAreValid();
    TouchingPatch();
    var lines, hunks := [RawLine([A], Lf), RawLine([B], Lf)], TouchingHunks();
    hide Split, ValidHunks, Patched, ContextOk, Separable, TouchingHunks, PatchOutcome, Inverse, SortedByStart;
    Accepted([A, LF, B, LF], hunks, lines);
    InverseIsSorted(hunks, 2);
    InverseValidIffSeparable(hunks, 2);
    OneLine([C], []);
    SplitEmpty();
    assert [C] + [LF] + [] == [C, LF] && Join([RawLine([C], Lf)]) == [C, LF];
    assert |Patched(lines, hunks)| == 2 + Shift(hunks);
    Refused([C, LF], Inverse(hunks));
  }

  // ----- A CR LF file that was emptied

  lemma {:induction false} CrLfLine()
    ensures Split([A, CR, LF]) == [RawLine([A], CrLf)] && Split([]) == []
  {
    SplitFirstLine([A, CR], []);
    SplitEmpty();
    hide Split;
    assert [A, CR] + [LF] + [] == [A, CR, LF] && [A, CR][..1] == [A];
  }

  lemma {:induction false} DeleteAndPutBack()
    ensures var h, inv, lines := Hunk(1, 1, [[A]], []), Hunk(1, 0, [], [[A]]), [RawLine([A], CrLf)];
            && ValidHunks([h], 1) && ContextOk(lines, [h]) && SortedByStart([h]) && Patched(lines, [h]) == []
            && ValidHunks([inv], 0) && ContextOk([], [inv]) && SortedByStart([inv])
            && Patched([], [inv]) == [RawLine([A], Lf)] && Inverse([h]) == [inv]
  {
    var h, inv, lines := Hunk(1, 1, [[A]], []), Hunk(1, 0, [], [[A]]), [RawLine([A], CrLf)];
    OneHunk(lines, h);
    OneHunk([], inv);
    OneLinePatch(lines, h);
    OneLinePatch([], inv);
    hide Patched, ValidHunks;
    assert Init([h]) == [] && Last([h]) == h && Inverse([]) == [];
    assert NewLines(h, CrLf) == [] && NewLines(inv, Lf) == [RawLine([A], Lf)];
  }

  /** Deleting the only line of a CR LF file and putting it back gives a line that ends in LF. */
  lemma {:induction false} EmptiedCrLfExample()
    ensures var hunks := [Hunk(1, 1, [[A]], [])];
            PatchOutcome([A, CR, LF], hunks, Ok([])) && PatchOutcome([], Inverse(hunks), Ok([A, LF]))
  {
    CrLfLine();
    DeleteAndPutBack();
    JoinTwo(RawLine([A], Lf), RawLine([A], Lf));
    assert Join([]) == [];
    hide *;
    Accepted([A, CR, LF], [Hunk(1, 1, [[A]], [])], [RawLine([A], CrLf)]);
    Accepted([], [Hunk(1, 0, [], [[A]])], []);
    assert [A] + [LF] == [A, LF];
  }

  // ----- A carriage return that becomes part of a terminator

  lemma {:induction false} ClosedCrLines()
    ensures Split([A, CR]) == [RawLine([A, CR], NoTerm)]
    ensures Split([A, CR, LF, B, LF]) == [RawLine([A], CrLf), RawLine([B], Lf)]
  {
    SplitUnterminated([A, CR]);
    TwoLinesRead([A, CR], [B]);
    PlainAndCr(A);
    PlainAndCr(B);
    hide *;
    assert [A, CR] + [LF] + ([B] + [LF]) == [A, CR, LF, B, LF];
  }

  lemma {:induction false} ClosedCrPatch()
    ensures var h, lines := Hunk(2, 1, [], [[B]]), [RawLine([A, CR], NoTerm)];
            && ValidHunks([h], 1) && ContextOk(lines, [h]) && SortedByStart([h])
            && Patched(lines, [h]) == [RawLine([A, CR], Lf), RawLine([B], Lf)]
  {
    var h, lines := Hunk(2, 1, [], [[B]]), [RawLine([A, CR], NoTerm)];
    OneHunk(lines, h);
    var closed := [RawLine([A, CR], Lf)];
    assert FirstTerm(lines[1..]) == Lf && FirstTerm(lines) == Lf;
    assert Last([h]) == h && OpenEnded(lines) && AppendsBelowOpenEnd(lines, [h]);
    assert Init(lines) == [] && RetermLast(lines, Lf) == closed;
    SpliceOne(closed, h, Lf);
    assert closed[..1] == closed && closed[1..] == [] && NewLines(h, Lf) == [RawLine([B], Lf)];
  }

  /** Adding a line below an unterminated line that ends in CR. */
  lemma {:induction false} ClosedCrExample()
    ensures var hunks := [Hunk(2, 1, [], [[B]])];
            && PatchOutcome([A, CR], hunks, Ok([A, CR, LF, B, LF])) && ValidHunks(hunks, |Split([A, CR])|)
            && Patched(Split([A, CR]), hunks) == [RawLine([A, CR], Lf), RawLine([B], Lf)]
            && Split([A, CR, LF, B, LF]) == [RawLine([A], CrLf), RawLine([B], Lf)]
  {
    ClosedCrLines();
    ClosedCrPatch();
    var a, b := RawLine([A, CR], Lf), RawLine([B], Lf);
    JoinTwo(a, b);
    assert a.Bytes() + b.Bytes() == [A, CR, LF, B, LF];
    hide *;
    Accepted([A, CR], [Hunk(2, 1, [], [[B]])], [RawLine([A, CR], NoTerm)]);
  }

  // ----- New texts that are read as something else

  /** Replacing a line by a text that ends in CR: the file is read as having a CR LF line. */
  lemma {:induction false} NewCrExample()
    ensures var hunks := [Hunk(1, 1, [[A]], [[B, CR]])];
            && PatchOutcome([A, LF], hunks, Ok([B, CR, LF]))
            && Patched(Split([A, LF]), hunks) == [RawLine([B, CR], Lf)]
            && Split([B, CR, LF]) == [RawLine([B], CrLf)]
  {
    var h, lines, l := Hunk(1, 1, [[A]], [[B, CR]]), [RawLine([A], Lf)], RawLine([B, CR], Lf);
    PlainLine();
    SplitEmpty();
    SplitFirstLine([B, CR], []);
    assert [B, CR] + [LF] + [] == [B, CR, LF] && [B, CR][..1] == [B];
    ReplacedLine(h, [B, CR]);
    JoinTwo(l, l);
    assert l.Bytes() == [B, CR, LF];
    hide *;
    Accepted([A, LF], [h], lines);
  }

  /** Replacing a line by a text with a line feed: the file is read as having two lines. */
  lemma {:induction false} NewLfExample()
    ensures var hunks := [Hunk(1, 1, [[A]], [[B, LF, C]])];
            && PatchOutcome([A, LF], hunks, Ok([B, LF, C, LF]))
            && Patched(Split([A, LF]), hunks) == [RawLine([B, LF, C], Lf)]
            && Split([B, LF, C, LF]) == [RawLine([B], Lf), RawLine([C], Lf)]
  {
    var h, lines, l := Hunk(1, 1, [[A]], [[B, LF, C]]), [RawLine([A], Lf)], RawLine([B, LF, C], Lf);
    hide *;
    PlainLine();
    LinesBC();
    ReplacedLine(h, [B, LF, C]);
    JoinBLfC();
    Accepted([A, LF], [h], lines);
  }

  lemma {:induction false} LinesBC()
    ensures Split([B, LF, C, LF]) == [RawLine([B], Lf), RawLine([C], Lf)]
  {
    TwoLinesRead([B], [C]);
    PlainAndCr(B);
    PlainAndCr(C);
    hide *;
    assert [B] + [LF] + ([C] + [LF]) == [B, LF, C, LF];
  }

  lemma {:induction false} JoinBLfC()
    ensures Join([RawLine([B, LF, C], Lf)]) == [B, LF, C, LF]
  {
    var l := RawLine([B, LF, C], Lf);
    JoinTwo(l, l);
    assert l.Bytes() == [B, LF, C, LF];
  }

  lemma {:induction false} PlainLine()
    ensures Split([A, LF]) == [RawLine([A], Lf)]
  {
    OneLine([A], []);
    SplitEmpty();
    hide Split;
    assert [A] + [LF] + [] == [A, LF];
  }

  lemma {:induction false} ReplacedLine(h: Hunk, text: Text)
    requires h == Hunk(1, 1, [[A]], [text])
    ensures var lines := [RawLine([A], Lf)];
            && ValidHunks([h], 1) && ContextOk(lines, [h]) && SortedByStart([h])
            && Patched(lines, [h]) == [RawLine(text, Lf)]
  {
    var lines := [RawLine([A], Lf)];
    OneHunk(lines, h);
    OneLinePatch(lines, h);
    hide Patched, ValidHunks;
    assert NewLines(h, Lf) == [RawLine(text, Lf)];
  }

  // ----- Ends and terminators that do not come back

  /** Adding a line below an unterminated line and taking it back leaves the line terminated. */
  lemma {:induction false} ClosedEndExample()
    ensures var hunks := [Hunk(2, 1, [], [[B]])];
            PatchOutcome([A], hunks, Ok([A, LF, B, LF])) && PatchOutcome([A, LF, B, LF], Inverse(hunks), Ok([A, LF]))
  {
    var h, inv := Hunk(2, 1, [], [[B]]), Hunk(2, 2, [[B]], []);
    var lines, a, b := [RawLine([A], NoTerm)], RawLine([A], Lf), RawLine([B], Lf);
    SplitUnterminated([A]);
    TouchingLines();
    ClosedEndPatch();
    JoinTwo(a, b);
    assert a.Bytes() == [A, LF] && a.Bytes() + b.Bytes() == [A, LF, B, LF];
    hide *;
    Accepted([A], [h], lines);
    Accepted([A, LF, B, LF], [inv], [a, b]);
  }

  lemma {:induction false} ClosedEndPatch()
    ensures var h, inv := Hunk(2, 1, [], [[B]]), Hunk(2, 2, [[B]], []);
            var lines, a, b := [RawLine([A], NoTerm)], RawLine([A], Lf), RawLine([B], Lf);
            && ValidHunks([h], 1) && ContextOk(lines, [h]) && SortedByStart([h]) && Patched(lines, [h]) == [a, b]
            && ValidHunks([inv], 2) && ContextOk([a, b], [inv]) && SortedByStart([inv]) && Patched([a, b], [inv]) == [a]
            && Inverse([h]) == [inv]
  {
    var h, inv := Hunk(2, 1, [], [[B]]), Hunk(2, 2, [[B]], []);
    var lines, a, b := [RawLine([A], NoTerm)], RawLine([A], Lf), RawLine([B], Lf);
    OneHunk(lines, h);
    OneHunk([a, b], inv);
    assert FirstTerm(lines[1..]) == Lf && FirstTerm(lines) == Lf;
    assert Last([h]) == h && Init([h]) == [] && OpenEnded(lines) && AppendsBelowOpenEnd(lines, [h]);
    assert Init(lines) == [] && RetermLast(lines, Lf) == [a];
    SpliceOne([a], h, Lf);
    assert [a][..1] == [a] && [a][1..] == [] && NewLines(h, Lf) == [b];
    assert [a, b][..1] == [a] && [a, b][2..] == [] && NewLines(inv, Lf) == [];
    hide Patched, ValidHunks;
    assert Inverse([]) == [];
  }

  /** Replacing the LF line of a file that starts with CR LF and taking it back leaves it with CR LF. */
  lemma {:induction false} MixedTermsExample()
    ensures var hunks := [Hunk(2, 2, [[B]], [[C]])];
            && PatchOutcome([A, CR, LF, B, LF], hunks, Ok([A, CR, LF, C, CR, LF]))
            && PatchOutcome([A, CR, LF, C, CR, LF], Inverse(hunks), Ok([A, CR, LF, B, CR, LF]))
  {
    var h, inv := Hunk(2, 2, [[B]], [[C]]), Hunk(2, 2, [[C]], [[B]]);
    var a, b, c, d := RawLine([A], CrLf), RawLine([B], Lf), RawLine([C], CrLf), RawLine([B], CrLf);
    InverseOfSecond();
    hide *;
    ClosedCrLines();
    CrLfLines();
    SecondLinePatch(h, b, c);
    SecondLinePatch(inv, c, d);
    JoinCrLf(A, C);
    JoinCrLf(A, B);
    Accepted([A, CR, LF, B, LF], [h], [a, b]);
    Accepted([A, CR, LF, C, CR, LF], [inv], [a, c]);
  }

  lemma {:induction false} InverseOfSecond()
    ensures Inverse([Hunk(2, 2, [[B]], [[C]])]) == [Hunk(2, 2, [[C]], [[B]])]
  {
    var h := Hunk(2, 2, [[B]], [[C]]);
    assert Init([h]) == [] && Last([h]) == h && Inverse([]) == [];
  }

  lemma {:induction false} JoinCrLf(x: byte, y: byte)
    ensures Join([RawLine([x], CrLf), RawLine([y], CrLf)]) == [x, CR, LF, y, CR, LF]
  {
    var a, b := RawLine([x], CrLf), RawLine([y], CrLf);
    JoinTwo(a, b);
    hide Join;
    assert a.Bytes() == [x, CR, LF] && b.Bytes() == [y, CR, LF];
  }

  lemma {:induction false} CrLfLines()
    ensures Split([A, CR, LF, C, CR, LF]) == [RawLine([A], CrLf), RawLine([C], CrLf)]
  {
    TwoLinesRead([A, CR], [C, CR]);
    PlainAndCr(A);
    PlainAndCr(C);
    hide *;
    assert [A, CR] + [LF] + ([C, CR] + [LF]) == [A, CR, LF, C, CR, LF];
  }

  lemma {:induction false} SecondLinePatch(h: Hunk, old': RawLine, new': RawLine)
    requires h == Hunk(2, 2, [old'.text], [new'.text]) && old'.term != NoTerm && new'.term == CrLf
    ensures var a := RawLine([A], CrLf);
            && ValidHunks([h], 2) && ContextOk([a, old'], [h]) && SortedByStart([h])
            && Patched([a, old'], [h]) == [a, new']
  {
    var a := RawLine([A], CrLf);
    OneHunk([a, old'], h);
    assert FirstTerm([a, old']) == CrLf && [a, old'][..1] == [a] && [a, old'][2..] == [];
    assert NewLines(h, CrLf) == [new'];
  }
}
