/** From the caller's hunks, in any order, to the patched bytes (ApplyPatch in internal/filetools/patch.go). */
module PatchFile {
  import opened Basics
  import opened Lines
  import opened Patch
  import opened Apply

  /** What a patch request on the bytes `data` comes to. */
  ghost predicate PatchOutcome(data: seq<byte>, hunks: seq<Hunk>, r: Result<seq<byte>, PatchError>) {
    if hunks == [] then r == Err(InvalidArgument) else SortedOutcome(Split(data), SortByStart(hunks), r)
  }

  ghost predicate SortedOutcome(lines: seq<RawLine>, sorted: seq<Hunk>, r: Result<seq<byte>, PatchError>) {
    if !ValidHunks(sorted, |lines|) then r == Err(InvalidArgument)
    else if ContextOk(lines, sorted) then r == Ok(Join(Patched(lines, sorted)))
    else r.Err? && r.error.Conflict? && FirstConflict(lines, sorted, r.error.line)
  }

  lemma {:induction false} SplitHasFileShape(data: seq<byte>)
    ensures FileShape(Split(data))
  {
    hide Split;
    SplitThenJoin(data);
    assert forall i | 0 <= i < |Split(data)| :: CanonicalLine(Split(data)[i], i == |Split(data)| - 1);
  }

  /** Any two sorted arrangements of the same hunks fare alike. */
  lemma {:induction false} SortsAgree(a: seq<Hunk>, b: seq<Hunk>, total: nat)
    requires SortedByStart(a) && SortedByStart(b) && multiset(a) == multiset(b)
    ensures ValidHunks(a, total) <==> ValidHunks(b, total)
    ensures ValidHunks(a, total) ==> a == b
  {
    ValidIffAcceptable(a, total);
    ValidIffAcceptable(b, total);
    if ValidHunks(a, total) {
      ValidOrderIsUnique(a, b, total);
    }
  }

  /** The outcome does not depend on the order in which the caller lists the hunks. */
  lemma {:induction false} OutcomeIgnoresOrder(data: seq<byte>, a: seq<Hunk>, b: seq<Hunk>,
                                               r: Result<seq<byte>, PatchError>)
    requires multiset(a) == multiset(b)
    ensures PatchOutcome(data, a, r) <==> PatchOutcome(data, b, r)
  {
    hide Split, SortByStart, FirstConflict;
    assert |multiset(a)| == |a| && |multiset(b)| == |b|;
    SortsAgree(SortByStart(a), SortByStart(b), |Split(data)|);
  }

  /** Bytes and hunks determine the outcome. */
  lemma {:induction false} OutcomeIsUnique(data: seq<byte>, hunks: seq<Hunk>,
                                           r: Result<seq<byte>, PatchError>, r': Result<seq<byte>, PatchError>)
    requires PatchOutcome(data, hunks, r) && PatchOutcome(data, hunks, r')
    ensures r == r'
  {
    hide Split, SortByStart;
  }

  /** A patch is accepted exactly when its hunks are in range, apart from each other and match the file. */
  lemma {:induction false} AcceptedIffAcceptable(data: seq<byte>, hunks: seq<Hunk>, r: Result<seq<byte>, PatchError>)
    requires PatchOutcome(data, hunks, r)
    ensures r.Ok? <==> && hunks != [] && Acceptable(multiset(hunks), |Split(data)|)
                       && forall h | h in hunks :: HunkMatches(Split(data), h)
  {
    hide Split, SortByStart, FirstConflict, HunkMatches;
    var sorted := SortByStart(hunks);
    ValidIffAcceptable(sorted, |Split(data)|);
    assert forall h :: h in hunks <==> h in multiset(hunks);
    assert forall h :: h in sorted <==> h in multiset(sorted);
  }

  /** The range of a hunk lies in the file, its old lines fill it, and they are the texts that stand there. */
  predicate Fits(lines: seq<RawLine>, h: Hunk) {
    && 1 <= h.startLine <= |lines| + 1 && h.startLine - 1 <= h.endLine <= |lines|
    && h.startLine + |h.oldLines| == h.endLine + 1
    && forall i | 0 <= i < |h.oldLines| :: lines[h.startLine - 1 + i].text == h.oldLines[i]
  }

  /** One of two hunks starts and ends above the other. */
  predicate Apart(h: Hunk, g: Hunk) {
    (h.startLine < g.startLine && h.endLine < g.startLine) || (g.startLine < h.startLine && g.endLine < h.startLine)
  }

  /** A patch succeeds exactly when every hunk fits the file and any two stand apart, in whatever order they come. */
  lemma {:induction false} SucceedsIffFitting(data: seq<byte>, hunks: seq<Hunk>, r: Result<seq<byte>, PatchError>)
    requires PatchOutcome(data, hunks, r)
    ensures r.Ok? <==>
            && hunks != [] && (forall h | h in hunks :: Fits(Split(data), h))
            && forall i, j | 0 <= i < j < |hunks| :: Apart(hunks[i], hunks[j])
  {
    hide Split, PatchOutcome;
    AcceptedIffAcceptable(data, hunks, r);
    var total := |Split(data)|;
    assert forall h :: h in hunks <==> h in multiset(hunks);
    if Acceptable(multiset(hunks), total) {
      forall i, j | 0 <= i < j < |hunks| ensures Apart(hunks[i], hunks[j]) {
        assert hunks[i] in hunks && hunks[j] in hunks;
        if hunks[i] == hunks[j] {
          TwiceInMultiset(hunks, i, j);
        }
      }
    } else if hunks != [] && forall i, j | 0 <= i < j < |hunks| :: Apart(hunks[i], hunks[j]) {
      ApartAreAcceptable(hunks, total);
    }
  }

  lemma {:induction false} ApartAreAcceptable(hunks: seq<Hunk>, total: nat)
    requires forall i, j | 0 <= i < j < |hunks| :: Apart(hunks[i], hunks[j])
    ensures (forall h | h in hunks :: WellPlaced(h, total)) ==> Acceptable(multiset(hunks), total)
  {
    forall h | h in multiset(hunks) ensures multiset(hunks)[h] == 1 {
      var i :| 0 <= i < |hunks| && hunks[i] == h;
      assert hunks == hunks[..i] + [h] + hunks[i + 1..];
      forall k | 0 <= k < |hunks| && k != i ensures hunks[k] != h {
        assert Apart(hunks[Min(k, i)], hunks[Max(k, i)]);
      }
      assert h !in hunks[..i] && h !in hunks[i + 1..];
      assert multiset(hunks[..i])[h] == 0 && multiset(hunks[i + 1..])[h] == 0;
    }
    forall h, g | h in multiset(hunks) && g in multiset(hunks) && h != g ensures Before(h, g) || Before(g, h) {
      var i :| 0 <= i < |hunks| && hunks[i] == h;
      var j :| 0 <= j < |hunks| && hunks[j] == g;
      assert Apart(hunks[Min(i, j)], hunks[Max(i, j)]);
    }
  }

  /** Stands for the library's sort, which may leave equal start lines in any order. */
  method SortHunks(hunks: seq<Hunk>) returns (sorted: seq<Hunk>)
    ensures multiset(sorted) == multiset(hunks)
    ensures SortedByStart(sorted)
  {
    sorted := [];
    for i := 0 to |hunks|
      invariant multiset(sorted) == multiset(hunks[..i])
      invariant SortedByStart(sorted)
    {
      InsertKeepsSorted(hunks[i], sorted);
      assert hunks[..i + 1] == hunks[..i] + [hunks[i]];
      sorted := InsertByStart(hunks[i], sorted);
    }
    assert hunks[..|hunks|] == hunks;
  }

  /** The steps of `ApplyPatch` between reading the file and replacing it. */
  method PatchBytes(data: seq<byte>, hunks: seq<Hunk>) returns (r: Result<seq<byte>, PatchError>)
    ensures PatchOutcome(data, hunks, r)
    ensures r.Ok? <==> && hunks != [] && Acceptable(multiset(hunks), |Split(data)|)
                       && forall h | h in hunks :: HunkMatches(Split(data), h)
  {
    hide Split, SortByStart, ContextOk, FirstConflict, Acceptable, Patched, Join, ValidHunks, FileShape;
    if |hunks| == 0 {
      return Err(InvalidArgument);
    }
    var lines := SplitLines(data);
    SplitHasFileShape(data);
    var sorted := SortHunks(hunks);
    SortsAgree(sorted, SortByStart(hunks), |lines|);
    var valid := ValidateHunks(sorted, |lines|);
    if valid.Err? {
      r := Err(valid.error);
    } else {
      var patched := ApplyHunks(lines, sorted);
      if patched.Err? {
        r := Err(patched.error);
      } else {
        var bytes := JoinLines(patched.value);
        r := Ok(bytes);
      }
    }
    AcceptedIffAcceptable(data, hunks, r);
  }
}
