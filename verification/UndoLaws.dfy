/** When taking a patch back restores the file, byte by byte. */
module UndoLaws {
  import opened Basics
  import opened Lines
  import opened Patch
  import opened Apply
  import opened PatchLaws
  import opened PatchFile
  import opened Undo
  import opened Reread

  // ----- Conditions

  /** An open end stays open: it is neither closed nor deleted. */
  predicate KeepsOpenEnd(lines: seq<RawLine>, hunks: seq<Hunk>)
    requires ValidHunks(hunks, |lines|)
  {
    OpenEnded(lines) ==> OpenEnded(Patched(lines, hunks))
  }

  /** Every replaced line has the terminator that the way back writes, or is the open end. */
  predicate TermsReturn(lines: seq<RawLine>, hunks: seq<Hunk>, back: Term) {
    forall i | 0 <= i < |lines| && Touched(hunks, i) :: lines[i].term == NoTerm || lines[i].term == back
  }

  predicate Undoable(lines: seq<RawLine>, hunks: seq<Hunk>)
    requires ValidHunks(hunks, |lines|)
  {
    && Separable(hunks) && WrittenClean(lines, hunks) && !LosesEmptyEnd(lines, hunks)
    && KeepsOpenEnd(lines, hunks) && TermsReturn(lines, hunks, FirstTerm(Patched(lines, hunks)))
  }

  // ----- What acceptance means

  /** Hunks in order are applied exactly when they are valid and match. */
  lemma {:induction false} OkMeans(data: seq<byte>, hunks: seq<Hunk>, r: seq<byte>)
    requires hunks != [] && SortedByStart(hunks)
    ensures PatchOutcome(data, hunks, Ok(r))
            <==> && ValidHunks(hunks, |Split(data)|) && ContextOk(Split(data), hunks)
                 && r == Join(Patched(Split(data), hunks))
  {
    hide Split, ValidHunks, ContextOk, Patched, Join, FirstConflict, SortByStart, SortedByStart;
    SortsAgree(hunks, SortByStart(hunks), |Split(data)|);
  }

  // ----- The way back, in lines

  /** The lines that come back: the original ones, the replaced ones with the terminator `back`, the open end open. */
  function Back(lines: seq<RawLine>, hunks: seq<Hunk>, back: Term): (r: seq<RawLine>)
    ensures |r| == |lines|
  {
    seq(|lines|, i requires 0 <= i < |lines| =>
      if Touched(hunks, i) && lines[i].term != NoTerm then WithTerm(lines[i], back) else lines[i])
  }

  lemma {:induction false} BackIsSameIff(lines: seq<RawLine>, hunks: seq<Hunk>, back: Term)
    ensures Back(lines, hunks, back) == lines <==> TermsReturn(lines, hunks, back)
  {
    hide Touched;
    if Back(lines, hunks, back) == lines {
      forall i | 0 <= i < |lines| && Touched(hunks, i) ensures lines[i].term == NoTerm || lines[i].term == back {
        assert Back(lines, hunks, back)[i] == lines[i];
      }
    }
  }

  /** Without an open end, or with one that no hunk touches, retermed lines are the ones that come back. */
  lemma {:induction false} RetermedIsBack(lines: seq<RawLine>, hunks: seq<Hunk>, back: Term)
    requires FileShape(lines)
    requires OpenEnded(lines) ==> !Touched(hunks, |lines| - 1)
    ensures Retermed(lines, hunks, back) == Back(lines, hunks, back)
  {
    hide Touched;
    assert forall i | 0 <= i < |lines| && lines[i].term == NoTerm :: i == |lines| - 1;
  }

  lemma {:induction false} RetermedOpenIsBack(lines: seq<RawLine>, hunks: seq<Hunk>, back: Term)
    requires FileShape(lines) && OpenEnded(lines)
    ensures RetermLast(Retermed(lines, hunks, back), NoTerm) == Back(lines, hunks, back)
  {
    hide Touched;
    var n := |lines| - 1;
    var r := Retermed(lines, hunks, back);
    assert forall i | 0 <= i < n :: lines[i].term != NoTerm;
    assert Last(r).text == lines[n].text && WithTerm(Last(r), NoTerm) == lines[n];
  }

  lemma {:induction false} LastTouched(lines: seq<RawLine>, hunks: seq<Hunk>)
    requires ValidHunks(hunks, |lines|) && lines != [] && hunks != [] && Touched(hunks, |lines| - 1)
    ensures exists h | h in hunks :: h.endLine == |lines| && h.oldLines != []
  {
    var h :| h in hunks && h.startLine - 1 <= |lines| - 1 < h.endLine;
    assert WellPlaced(h, |lines|);
  }

  lemma {:induction false} ContextOfTexts(a: seq<RawLine>, b: seq<RawLine>, hunks: seq<Hunk>)
    requires |a| == |b| && (forall i | 0 <= i < |a| :: a[i].text == b[i].text)
    requires ValidHunks(hunks, |a|) && ContextOk(a, hunks)
    ensures ContextOk(b, hunks)
  {
    forall h | h in hunks ensures WellPlaced(h, |b|) && HunkMatches(b, h) {
      assert HunkMatches(a, h);
    }
  }

  /** Lines added below an open end close it. */
  lemma {:induction false} AppendingCloses(lines: seq<RawLine>, hunks: seq<Hunk>)
    requires FileShape(lines) && ValidHunks(hunks, |lines|) && AppendsBelowOpenEnd(lines, hunks)
    ensures AllTerminated(Patched(lines, hunks))
  {
    if ReplacesOpenEnd(lines, hunks) {
      ReplacingIsNotAppending(lines, hunks);
    }
    var closed := Opened(lines, hunks);
    forall l | l in closed ensures l.term != NoTerm {
      var i :| 0 <= i < |closed| && closed[i] == l;
    }
    hide Splice, ValidHunks;
    SpliceTerminated(closed, hunks, FirstTerm(lines));
  }

  /** Where the open end survives, either the last hunk replaces it or no hunk touches the end. */
  lemma {:induction false} OpenEndCases(lines: seq<RawLine>, hunks: seq<Hunk>)
    requires FileShape(lines) && ValidHunks(hunks, |lines|) && hunks != []
    requires OpenEnded(lines) && OpenEnded(Patched(lines, hunks))
    ensures !AppendsBelowOpenEnd(lines, hunks)
    ensures !ReplacesOpenEnd(lines, hunks) ==> !Touched(hunks, |lines| - 1)
  {
    var after := Patched(lines, hunks);
    assert Last(after) in after;
    if AppendsBelowOpenEnd(lines, hunks) {
      AppendingCloses(lines, hunks);
    }
    if !ReplacesOpenEnd(lines, hunks) && Touched(hunks, |lines| - 1) {
      LastTouched(lines, hunks);
      TouchedEndIsClosed(lines, hunks);
    }
  }

  /** Below a hunk that takes the end of the file there is room for one more hunk. */
  lemma {:induction false} OneBelowTheEnd(hunks: seq<Hunk>, total: nat, k: nat)
    requires ValidHunks(hunks, total) && k < |hunks| && hunks[k].endLine == total
    ensures k >= |hunks| - 2
    ensures k == |hunks| - 2 ==> hunks[k + 1].startLine == total + 1 && hunks[k + 1].oldLines == []
  {
    var n := |hunks|;
    forall m | k < m < n ensures hunks[m].startLine == total + 1 && hunks[m].oldLines == [] {
      assert Before(hunks[k], hunks[m]) && hunks[m] in hunks && WellPlaced(hunks[m], total);
    }
    assert n >= 2 ==> Before(hunks[n - 2], hunks[n - 1]);
    hide ValidHunks;
  }

  lemma {:induction false} TouchedEndIsClosed(lines: seq<RawLine>, hunks: seq<Hunk>)
    requires FileShape(lines) && ValidHunks(hunks, |lines|) && lines != [] && hunks != []
    requires !AppendsBelowOpenEnd(lines, hunks) && !ReplacesOpenEnd(lines, hunks)
    requires exists h | h in hunks :: h.endLine == |lines| && h.oldLines != []
    ensures AllTerminated(Patched(lines, hunks))
  {
    var h :| h in hunks && h.endLine == |lines| && h.oldLines != [];
    var k :| 0 <= k < |hunks| && hunks[k] == h;
    ValidInit(hunks, |lines|);
    OneBelowTheEnd(hunks, |lines|, k);
    var last, term := Last(hunks), FirstTerm(lines);
    if k == |hunks| - 1 {
      TakenEndIsTerminated(lines, hunks, term);
    } else {
      assert lines[..|lines|] == lines && lines[|lines|..] == [];
      TakenEndIsTerminated(lines, Init(hunks), term);
    }
  }

  // ----- The patched file taken back

  /** What the patched file splices to, where its end is as open as before. */
  lemma {:induction false} PatchedSplice(lines: seq<RawLine>, hunks: seq<Hunk>)
    requires FileShape(lines) && ValidHunks(hunks, |lines|) && hunks != [] && KeepsOpenEnd(lines, hunks)
    ensures var out := Splice(lines, hunks, FirstTerm(lines));
            Patched(lines, hunks) == if ReplacesOpenEnd(lines, hunks) then RetermLast(out, NoTerm) else out
    ensures OpenEnded(Patched(lines, hunks)) <==> OpenEnded(lines)
  {
    if OpenEnded(lines) {
      OpenEndCases(lines, hunks);
    } else {
      PatchedIsSplice(lines, hunks);
      assert AllTerminated(lines) by { ClosedIsTerminated(lines); }
      hide Splice;
      SpliceTerminated(lines, hunks, FirstTerm(lines));
      var after := Patched(lines, hunks);
      assert after != [] ==> Last(after) in after;
    }
  }

  lemma {:induction false} ClosedIsTerminated(lines: seq<RawLine>)
    requires FileShape(lines)
    ensures AllTerminated(lines) <==> !OpenEnded(lines)
  {
    assert lines != [] ==> Last(lines) in lines;
    forall l | l in lines && !OpenEnded(lines) ensures l.term != NoTerm {
      var i :| 0 <= i < |lines| && lines[i] == l;
    }
  }

  /** The last inverse hunk takes the end of the patched file exactly when the last hunk took the end of the file. */
  lemma {:induction false} InverseAtEnd(lines: seq<RawLine>, hunks: seq<Hunk>)
    requires ValidHunks(hunks, |lines|) && hunks != []
    ensures Inverse(hunks) != [] && |lines| + Shift(hunks) >= 0
    ensures var h, inv, size := Last(hunks), Last(Inverse(hunks)), |lines| + Shift(hunks);
            && inv.oldLines == h.newLines && inv.newLines == h.oldLines
            && (inv.endLine == size <==> h.endLine == |lines|)
            && (inv.startLine == size + 1 <==> h.endLine == |lines| && h.newLines == [])
  {
    ValidInit(hunks, |lines|);
    LengthStaysNatural(hunks, |lines|);
    InverseSnoc(hunks);
  }

  /** Taking the patch back gives the original lines, the replaced ones with the patched file's terminator. */
  lemma {:induction false} PatchedBack(lines: seq<RawLine>, hunks: seq<Hunk>)
    requires FileShape(lines) && ValidHunks(hunks, |lines|) && hunks != []
    requires Separable(hunks) && ContextOk(lines, hunks) && KeepsOpenEnd(lines, hunks)
    ensures var after, inv := Patched(lines, hunks), Inverse(hunks);
            && ValidHunks(inv, |after|) && ContextOk(after, inv)
            && Patched(after, inv) == Back(lines, hunks, FirstTerm(after))
  {
    var after, inv, term := Patched(lines, hunks), Inverse(hunks), FirstTerm(lines);
    var out, back := Splice(lines, hunks, term), FirstTerm(after);
    PatchedSplice(lines, hunks);
    InverseAtEnd(lines, hunks);
    InverseContext(lines, hunks, term);
    ContextOfTexts(out, after, inv);
    SpliceBack(lines, hunks, term, back);
    hide Splice, ValidHunks, Separable, ContextOk, Inverse, Retermed, Back, Shift, FirstTerm, KeepsOpenEnd;
    if ReplacesOpenEnd(lines, hunks) {
      assert ReplacesOpenEnd(after, inv) && !AppendsBelowOpenEnd(after, inv);
      SpliceIgnoresTakenEnd(after, out, inv, back);
      RetermedOpenIsBack(lines, hunks, back);
    } else {
      if OpenEnded(lines) {
        OpenEndCases(lines, hunks);
        EndNotTaken(lines, hunks);
      }
      assert !ReplacesOpenEnd(after, inv) && !AppendsBelowOpenEnd(after, inv);
      RetermedIsBack(lines, hunks, back);
    }
  }

  lemma {:induction false} EndNotTaken(lines: seq<RawLine>, hunks: seq<Hunk>)
    requires ValidHunks(hunks, |lines|) && hunks != [] && lines != [] && !Touched(hunks, |lines| - 1)
    ensures Last(hunks).endLine == |lines| ==> Last(hunks).oldLines == []
  {
    assert Last(hunks) in hunks;
    ValidInit(hunks, |lines|);
  }

  // ----- Bytes

  /** Lists with the same texts, open at most at the end, are told apart by their bytes. */
  lemma {:induction false} BytesTellTerms(a: seq<RawLine>, b: seq<RawLine>)
    requires |a| == |b| && (forall i | 0 <= i < |a| :: a[i].text == b[i].text)
    requires FileShape(a) && FileShape(b) && Join(a) == Join(b)
    ensures a == b
    decreases |a|
  {
    if a != [] {
      var n, x, y := |a[0].text|, Join(a[1..]), Join(b[1..]);
      assert a[0].Bytes() + x == a[0].text + (a[0].term.Bytes() + x);
      assert b[0].Bytes() + y == a[0].text + (b[0].term.Bytes() + y);
      SameTail(a[0].text, a[0].term.Bytes() + x, b[0].term.Bytes() + y);
      assert |a| == 1 ==> x == [] && y == [];
      SameTermBytes(a[0].term, b[0].term, x, y);
      BytesTellTerms(a[1..], b[1..]);
      assert a == [a[0]] + a[1..] && b == [b[0]] + b[1..];
    }
  }

  lemma {:induction false} SameTail(a: seq<byte>, x: seq<byte>, y: seq<byte>)
    requires a + x == a + y
    ensures x == y
  {
    assert x == (a + x)[|a|..] && y == (a + y)[|a|..];
  }

  lemma {:induction false} SameTermBytes(s: Term, t: Term, x: seq<byte>, y: seq<byte>)
    requires s.Bytes() + x == t.Bytes() + y
    requires (s == NoTerm ==> x == []) && (t == NoTerm ==> y == [])
    requires s == NoTerm || t == NoTerm ==> x == y == []
    ensures s == t && x == y
  {
    var l, r := s.Bytes() + x, t.Bytes() + y;
    assert s != NoTerm ==> l[0] == if s == Lf then LF else CR;
    assert t != NoTerm ==> r[0] == if t == Lf then LF else CR;
    assert x == l[|s.Bytes()|..] && y == r[|t.Bytes()|..];
  }

  /** Terminated lines end in a line feed. */
  lemma {:induction false} TerminatedBytes(lines: seq<RawLine>)
    requires AllTerminated(lines) && lines != []
    ensures Join(lines) != [] && Last(Join(lines)) == LF
  {
    InitLast(lines);
    assert Last(lines) in lines;
    JoinAppend(Init(lines), [Last(lines)]);
    JoinCons(Last(lines), []);
    assert [Last(lines)] + [] == [Last(lines)];
    assert Last(Join(Init(lines)) + (Last(lines).Bytes() + [])) == Last(Last(lines).Bytes());
  }

  lemma {:induction false} OpenBytes(data: seq<byte>)
    requires OpenEnded(Split(data))
    ensures data != [] && Last(data) != LF
  {
    var lines := Split(data);
    SplitThenJoin(data);
    InitLast(lines);
    var l := Last(lines);
    assert CanonicalLine(lines[|lines| - 1], true);
    JoinAppend(Init(lines), [l]);
    JoinCons(l, []);
    assert [l] + [] == [l] && l.Bytes() + Join([]) == l.text;
    assert data == Join(Init(lines)) + l.text && Last(data) == Last(l.text) && Last(l.text) in l.text;
  }

  // ----- Splitting what was written

  /** How a written line is read: a carriage return before a bare line feed joins the terminator. */
  function AsRead(l: RawLine): RawLine {
    if l.term == Lf && EndsInCr(l.text) then RawLine(Init(l.text), CrLf) else l
  }

  /** Lines without line feeds in their texts are read back one by one; an empty open end is not read. */
  lemma {:induction false} ReadLineByLine(lines: seq<RawLine>)
    requires FileShape(lines) && NoLineFeeds(lines)
    ensures ReadsAs(lines, Split(Join(lines)))
    decreases |lines|
  {
    hide *;
    if lines == [] {
      SplitEmpty();
      JoinNothing();
      NothingReads();
    } else {
      FirstAndRest(lines);
      ReadLineByLine(lines[1..]);
      FirstIsRead(lines, Split(Join(lines[1..])));
    }
  }

  predicate NoLineFeeds(lines: seq<RawLine>) {
    forall l | l in lines :: LF !in l.text
  }

  predicate ReadsAs(lines: seq<RawLine>, s: seq<RawLine>) {
    && |s| == (if lines != [] && Last(lines) == RawLine([], NoTerm) then |lines| - 1 else |lines|)
    && forall p | 0 <= p < |s| :: s[p] == AsRead(lines[p])
  }

  lemma {:induction false} NothingReads()
    ensures ReadsAs([], [])
  {}

  lemma {:induction false} FirstAndRest(lines: seq<RawLine>)
    requires FileShape(lines) && NoLineFeeds(lines) && lines != []
    ensures FileShape(lines[1..]) && NoLineFeeds(lines[1..]) && lines == [lines[0]] + lines[1..]
  {
    assert forall l | l in lines[1..] :: l in lines;
  }

  lemma {:induction false} FirstBytes(l: RawLine, rest: seq<byte>)
    requires l.term != NoTerm && LF !in l.text
    ensures Split(l.Bytes() + rest) == [AsRead(l)] + Split(rest)
  {
    hide Split;
    var body := if l.term == Lf then l.text else l.text + [CR];
    assert l.Bytes() == body + [LF];
    SplitFirstLine(body, rest);
    BodyIsRead(l, body);
  }

  lemma {:induction false} OpenBytesRead(l: RawLine)
    requires l.term == NoTerm && LF !in l.text
    ensures Split(l.Bytes() + []) == if l.text == [] then [] else [l]
  {
    assert l.Bytes() + [] == l.text;
    SplitEmpty();
    if l.text != [] {
      SplitUnterminated(l.text);
    }
  }

  lemma {:induction false} ReadsAsCons(l: RawLine, rest: seq<RawLine>, s: seq<RawLine>)
    requires ReadsAs(rest, s) && l.term != NoTerm
    ensures ReadsAs([l] + rest, [AsRead(l)] + s)
  {
    hide AsRead;
    var lines, t := [l] + rest, [AsRead(l)] + s;
    assert Last(lines) == if rest == [] then l else Last(rest);
    assert forall p | 0 < p < |t| :: t[p] == s[p - 1] && lines[p] == rest[p - 1];
  }

  lemma {:induction false} ReadsAsOpen(l: RawLine)
    requires l.term == NoTerm
    ensures ReadsAs([l], if l.text == [] then [] else [l])
  {}

  /** The first line is read, unless it is the empty open end. */
  lemma {:induction false} FirstIsRead(lines: seq<RawLine>, s: seq<RawLine>)
    requires FileShape(lines) && NoLineFeeds(lines) && lines != []
    requires s == Split(Join(lines[1..])) && ReadsAs(lines[1..], s)
    ensures ReadsAs(lines, Split(Join(lines)))
  {
    var l, rest := lines[0], lines[1..];
    assert l in lines && lines == [l] + rest;
    assert l.term == NoTerm ==> rest == [];
    hide *;
    JoinCons(l, rest);
    if l.term == NoTerm {
      JoinNothing();
      OpenBytesRead(l);
      ReadsAsOpen(l);
      assert lines == [l];
    } else {
      FirstBytes(l, Join(rest));
      ReadsAsCons(l, rest, s);
    }
  }

  lemma {:induction false} JoinNothing()
    ensures Join([]) == []
  {}

  lemma {:induction false} BodyIsRead(l: RawLine, body: seq<byte>)
    requires l.term != NoTerm && body == if l.term == Lf then l.text else l.text + [CR]
    ensures Terminated(body) == AsRead(l)
  {
    if l.term == CrLf {
      assert body[..|body| - 1] == l.text;
    }
  }

  /** New texts that match lines of a file hold no line feed. */
  lemma {:induction false} MatchedTextsHaveNoLf(data: seq<byte>, hunks: seq<Hunk>)
    requires ValidHunks(Inverse(hunks), |Split(data)|) && ContextOk(Split(data), Inverse(hunks))
    ensures forall h, t | h in hunks && t in h.newLines :: LF !in t
  {
    var s, inv := Split(data), Inverse(hunks);
    SplitThenJoin(data);
    hide Split;
    forall h, t | h in hunks && t in h.newLines ensures LF !in t {
      var k :| 0 <= k < |hunks| && hunks[k] == h;
      var j :| 0 <= j < |h.newLines| && h.newLines[j] == t;
      InverseAt(hunks, k);
      assert inv[k] in inv && HunkMatches(s, inv[k]);
      var p := inv[k].startLine - 1 + j;
      assert CanonicalLine(s[p], p == |s| - 1);
    }
  }

  lemma {:induction false} PatchedHasNoLf(lines: seq<RawLine>, hunks: seq<Hunk>)
    requires ValidHunks(hunks, |lines|) && NoLineFeeds(lines)
    requires forall h, t | h in hunks && t in h.newLines :: LF !in t
    ensures NoLineFeeds(Patched(lines, hunks))
  {
    var from, term := Opened(lines, hunks), FirstTerm(lines);
    assert lines != [] ==> Last(lines) in lines;
    assert forall l | l in from :: LF !in l.text;
    var out := Splice(from, hunks, term);
    hide Splice, ValidHunks, Opened;
    SpliceSources(from, hunks, term);
    assert forall l | l in out :: LF !in l.text;
    assert out != [] ==> Last(out) in out;
  }

  // ----- The theorem

  /** The bytes of the patched file, taken back with success, show what the patch must have been like. */
  lemma {:induction false} TakenBackIsClean(lines: seq<RawLine>, hunks: seq<Hunk>)
    requires Canonical(lines) && ValidHunks(hunks, |lines|) && hunks != []
    requires var s := Split(Join(Patched(lines, hunks)));
             ValidHunks(Inverse(hunks), |s|) && ContextOk(s, Inverse(hunks))
    ensures Separable(hunks) && WrittenClean(lines, hunks) && !LosesEmptyEnd(lines, hunks)
    ensures var s, after := Split(Join(Patched(lines, hunks))), Patched(lines, hunks);
            |s| == |after| && forall p | 0 <= p < |s| :: s[p] == AsRead(after[p])
  {
    var after, inv := Patched(lines, hunks), Inverse(hunks);
    var s := Split(Join(after));
    assert forall g | g in inv :: WellPlaced(g, |s|);
    hide Split, Join, Patched, ValidHunks;
    CanonicalFileShape(lines);
    ResultKeepsFileShape(lines, hunks);
    InverseNeedsSeparable(hunks, |lines|, |s|);
    MatchedTextsHaveNoLf(Join(after), hunks);
    PatchedHasNoLf(lines, hunks);
    ReadLineByLine(after);
    EmptyEndIff(lines, hunks);
    if LosesEmptyEnd(lines, hunks) {
      EndMissing(lines, hunks, |s|);
    }
    hide Inverse, AsRead, TextOk, Landed, ContextOk, Separable, LosesEmptyEnd;
    forall k, j | 0 <= k < |hunks| && 0 <= j < |hunks[k].newLines| ensures TextOk(Landed(lines, hunks, k, j)) {
      LandedIsClean(lines, hunks, s, k, j);
    }
  }

  /** A new text that the way back finds again was written clean. */
  lemma {:induction false} LandedIsClean(lines: seq<RawLine>, hunks: seq<Hunk>, s: seq<RawLine>, k: nat, j: nat)
    requires FileShape(lines) && ValidHunks(hunks, |lines|) && k < |hunks| && j < |hunks[k].newLines|
    requires ValidHunks(Inverse(hunks), |s|) && ContextOk(s, Inverse(hunks))
    requires var after := Patched(lines, hunks);
             && NoLineFeeds(after) && |s| == |after| && forall p | 0 <= p < |s| :: s[p] == AsRead(after[p])
    ensures TextOk(Landed(lines, hunks, k, j))
  {
    var after, g := Patched(lines, hunks), Inverse(hunks)[k];
    assert g in Inverse(hunks) && WellPlaced(g, |s|) && HunkMatches(s, g);
    hide Patched, ValidHunks, ContextOk, Inverse;
    NewLineLands(lines, hunks, k, j);
    InverseAt(hunks, k);
    hide Shift;
    var p := Landing(hunks, k) + j;
    assert s[p].text == g.oldLines[j] == hunks[k].newLines[j];
    assert after[p] == Landed(lines, hunks, k, j) && after[p] in after;
  }

  lemma {:induction false} CanonicalFileShape(lines: seq<RawLine>)
    requires Canonical(lines)
    ensures FileShape(lines) && NoLineFeeds(lines)
  {
    assert forall i | 0 <= i < |lines| :: CanonicalLine(lines[i], i == |lines| - 1);
  }

  /** With the last line missing, the last inverse hunk reaches below the file. */
  lemma {:induction false} EndMissing(lines: seq<RawLine>, hunks: seq<Hunk>, size: nat)
    requires ValidHunks(hunks, |lines|) && LosesEmptyEnd(lines, hunks)
    requires size == |lines| + Shift(hunks) - 1
    ensures !ValidHunks(Inverse(hunks), size)
  {
    InverseAtEnd(lines, hunks);
    assert Last(Inverse(hunks)) in Inverse(hunks);
  }

  /** A file with an open end does not come back from one that is closed. */
  lemma {:induction false} ClosedStaysClosed(data: seq<byte>, lines: seq<RawLine>, s: seq<RawLine>, after: seq<RawLine>,
                                             inv: seq<Hunk>)
    requires lines == Split(data) && OpenEnded(lines) && FileShape(after) && !OpenEnded(after)
    requires |s| == |after| && forall p | 0 <= p < |s| :: s[p] == AsRead(after[p])
    requires ValidHunks(inv, |s|)
    ensures Join(Patched(s, inv)) != data
  {
    OpenBytes(data);
    ClosedIsTerminated(after);
    forall l | l in s ensures l.term != NoTerm {
      var p :| 0 <= p < |s| && s[p] == l;
      assert after[p] in after;
    }
    assert s != [] ==> Last(s) in s;
    hide Split, ValidHunks;
    PatchedIsSplice(s, inv);
    SpliceTerminated(s, inv, FirstTerm(s));
    hide Splice;
    if Patched(s, inv) != [] {
      TerminatedBytes(Patched(s, inv));
    } else {
      JoinNothing();
    }
  }

  /** The original bytes can only come back when the patch was undoable. */
  lemma {:induction false} RestoredOnlyIf(data: seq<byte>, hunks: seq<Hunk>)
    requires hunks != [] && ValidHunks(hunks, |Split(data)|) && ContextOk(Split(data), hunks)
    requires PatchOutcome(Join(Patched(Split(data), hunks)), Inverse(hunks), Ok(data))
    ensures Undoable(Split(data), hunks)
  {
    var lines := Split(data);
    var after, inv := Patched(lines, hunks), Inverse(hunks);
    hide *;
    SplitThenJoin(data);
    CanonicalFileShape(lines);
    InverseIsSorted(hunks, |lines|);
    OkMeans(Join(after), inv, data);
    TakenBackIsClean(lines, hunks);
    ResultKeepsFileShape(lines, hunks);
    var s := Split(Join(after));
    if OpenEnded(lines) && !OpenEnded(after) {
      ClosedStaysClosed(data, lines, s, after, inv);
    }
    KeepsOpenEndMeans(lines, hunks);
    NotClosedCr(lines, hunks);
    RereadIff(data, hunks);
    PatchedBack(lines, hunks);
    var back := Back(lines, hunks, FirstTerm(after));
    InverseNonEmpty(hunks);
    SameTextsBack(lines, hunks, FirstTerm(after));
    ResultKeepsFileShape(after, inv);
    BytesTellTerms(back, lines);
    BackIsSameIff(lines, hunks, FirstTerm(after));
    UndoableMeans(lines, hunks);
  }

  lemma {:induction false} InverseNonEmpty(hunks: seq<Hunk>)
    ensures Inverse(hunks) == [] <==> hunks == []
  {}

  lemma {:induction false} SameTextsBack(lines: seq<RawLine>, hunks: seq<Hunk>, back: Term)
    ensures forall i | 0 <= i < |lines| :: Back(lines, hunks, back)[i].text == lines[i].text
  {}

  lemma {:induction false} KeepsOpenEndMeans(lines: seq<RawLine>, hunks: seq<Hunk>)
    requires ValidHunks(hunks, |lines|)
    ensures KeepsOpenEnd(lines, hunks) <==> (OpenEnded(lines) ==> OpenEnded(Patched(lines, hunks)))
  {}

  lemma {:induction false} UndoableMeans(lines: seq<RawLine>, hunks: seq<Hunk>)
    requires ValidHunks(hunks, |lines|)
    ensures Undoable(lines, hunks) <==>
            && Separable(hunks) && WrittenClean(lines, hunks) && !LosesEmptyEnd(lines, hunks)
            && KeepsOpenEnd(lines, hunks) && TermsReturn(lines, hunks, FirstTerm(Patched(lines, hunks)))
  {}

  /** Where the open end is kept, no carriage return was closed. */
  lemma {:induction false} NotClosedCr(lines: seq<RawLine>, hunks: seq<Hunk>)
    requires FileShape(lines) && ValidHunks(hunks, |lines|) && hunks != [] && KeepsOpenEnd(lines, hunks)
    ensures !ClosesCr(lines, hunks)
  {
    if ClosesCr(lines, hunks) {
      OpenEndCases(lines, hunks);
    }
  }

  /**
   * Undo, for every file and every accepted patch: the inverse hunks restore the original bytes exactly when the
   * hunks are separable, the new texts are written clean, no empty last line is lost, an open end stays open, and
   * every replaced line has the terminator that the patched file starts with.
   */
  lemma {:induction false} UndoIff(data: seq<byte>, hunks: seq<Hunk>)
    requires hunks != [] && ValidHunks(hunks, |Split(data)|) && ContextOk(Split(data), hunks)
    ensures PatchOutcome(Join(Patched(Split(data), hunks)), Inverse(hunks), Ok(data)) <==> Undoable(Split(data), hunks)
  {
    var lines := Split(data);
    var after, inv := Patched(lines, hunks), Inverse(hunks);
    hide *;
    UndoableMeans(lines, hunks);
    if Undoable(lines, hunks) {
      SplitThenJoin(data);
      CanonicalFileShape(lines);
      NotClosedCr(lines, hunks);
      RereadIff(data, hunks);
      PatchedBack(lines, hunks);
      BackIsSameIff(lines, hunks, FirstTerm(after));
      InverseIsSorted(hunks, |lines|);
      InverseNonEmpty(hunks);
      OkMeans(Join(after), inv, data);
    }
    if PatchOutcome(Join(after), inv, Ok(data)) {
      RestoredOnlyIf(data, hunks);
    }
  }

  // ----- Files with one terminator

  predicate Uniform(lines: seq<RawLine>, term: Term) {
    forall l | l in lines :: l.term == term
  }

  lemma {:induction false} UniformIsClosed(lines: seq<RawLine>, hunks: seq<Hunk>)
    requires Uniform(lines, FirstTerm(lines)) && ValidHunks(hunks, |lines|)
    ensures !OpenEnded(lines) && Uniform(Patched(lines, hunks), FirstTerm(lines))
  {
    assert lines != [] ==> Last(lines) in lines;
    PatchedIsSplice(lines, hunks);
    hide Splice;
    SpliceSources(lines, hunks, FirstTerm(lines));
  }

  lemma {:induction false} UniformFirstTerm(lines: seq<RawLine>, term: Term)
    requires Uniform(lines, term) && term != NoTerm
    ensures FirstTerm(lines) == if lines == [] then Lf else term
  {
    assert lines != [] ==> lines[0] in lines;
  }

  /**
   * In a file with one terminator, also at its end, and with clean new texts, this comes to: the hunks are separable
   * and the patch did not empty a file with CR LF terminators.
   */
  lemma {:induction false} UndoRestores(data: seq<byte>, hunks: seq<Hunk>)
    requires hunks != [] && ValidHunks(hunks, |Split(data)|) && ContextOk(Split(data), hunks)
    requires Uniform(Split(data), FirstTerm(Split(data))) && CleanTexts(hunks, FirstTerm(Split(data)))
    ensures var after := Join(Patched(Split(data), hunks));
            PatchOutcome(after, Inverse(hunks), Ok(data)) <==>
            Separable(hunks) && !(FirstTerm(Split(data)) == CrLf && data != [] && after == [])
  {
    UndoIff(data, hunks);
    var lines := Split(data);
    UniformIsClosed(lines, hunks);
    var term, after := FirstTerm(lines), Patched(lines, hunks);
    UniformFirstTerm(after, term);
    EmptyBytes(after, term);
    SplitThenJoin(data);
    EmptyBytes(lines, term);
    hide Split, Patched, Join, Separable, ValidHunks, ContextOk, PatchOutcome;
    CleanIsWrittenClean(lines, hunks);
    if after == [] && lines != [] {
      EmptiedIsTouched(lines, hunks);
    }
    assert forall i | 0 <= i < |lines| :: lines[i] in lines;
  }

  lemma {:induction false} CleanIsWrittenClean(lines: seq<RawLine>, hunks: seq<Hunk>)
    requires CleanTexts(hunks, FirstTerm(lines)) && !OpenEnded(lines)
    ensures WrittenClean(lines, hunks)
  {
    assert forall k | 0 <= k < |hunks| :: hunks[k] in hunks;
  }

  lemma {:induction false} EmptyBytes(lines: seq<RawLine>, term: Term)
    requires Uniform(lines, term) && term != NoTerm
    ensures Join(lines) == [] <==> lines == []
  {
    assert forall l | l in lines :: l.term == term;
    if lines != [] {
      TerminatedBytes(lines);
    }
  }

  lemma {:induction false} EmptiedIsTouched(lines: seq<RawLine>, hunks: seq<Hunk>)
    requires FileShape(lines) && ValidHunks(hunks, |lines|) && lines != [] && Patched(lines, hunks) == []
    ensures Touched(hunks, 0)
  {
    var k := Locate(hunks, |lines|, 0);
    if InGap(hunks, k, 0) {
      UntouchedLineSurvives(lines, hunks, k, 0);
    } else {
      assert hunks[k] in hunks;
    }
  }
}
