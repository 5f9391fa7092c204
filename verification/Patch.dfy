/** The exact hunk engine (internal/filetools/patch.go): validation, application and what a patch does to every line. */
module Patch {
  import opened Basics
  import opened Lines

  /** One edit of the 1-based, inclusive line range startLine..endLine; endLine == startLine - 1 inserts. */
  datatype Hunk = Hunk(startLine: int, endLine: int, oldLines: seq<Text>, newLines: seq<Text>) {
    function Delta(): int {
      |newLines| - |oldLines|
    }

    predicate Empty() {
      oldLines == [] && newLines == []
    }
  }

  datatype PatchError = InvalidArgument | Conflict(line: int)

  // ----- Validation

  predicate WellPlaced(h: Hunk, total: nat) {
    && 1 <= h.startLine <= total + 1
    && h.startLine - 1 <= h.endLine <= total
    && |h.oldLines| == h.endLine - h.startLine + 1
  }

  /** h lies wholly before g and does not share its insertion point. */
  predicate Before(h: Hunk, g: Hunk) {
    h.startLine < g.startLine && h.endLine < g.startLine
  }

  predicate ValidHunks(hunks: seq<Hunk>, total: nat) {
    && (forall h | h in hunks :: WellPlaced(h, total))
    && forall i, j | 0 <= i < j < |hunks| :: Before(hunks[i], hunks[j])
  }

  /** One pass over the hunks with the end and the start of the previous one. */
  method ValidateHunks(hunks: seq<Hunk>, total: nat) returns (r: Result<(), PatchError>)
    ensures r.Ok? <==> ValidHunks(hunks, total)
    ensures r.Err? ==> r.error == InvalidArgument
  {
    var prevEnd, prevStart := 0, 0;
    for k := 0 to |hunks|
      invariant ValidHunks(hunks[..k], total)
      invariant k == 0 ==> prevEnd == prevStart == 0
      invariant k > 0 ==> prevEnd == hunks[k - 1].endLine && prevStart == hunks[k - 1].startLine
    {
      var h := hunks[k];
      assert h in hunks;
      if h.startLine < 1 || h.startLine > total + 1 {
        return Err(InvalidArgument);
      }
      if h.endLine < h.startLine - 1 || h.endLine > total {
        return Err(InvalidArgument);
      }
      if |h.oldLines| != h.endLine - h.startLine + 1 {
        return Err(InvalidArgument);
      }
      if h.startLine <= prevEnd || h.startLine == prevStart {
        assert k > 0 && !Before(hunks[k - 1], hunks[k]);
        return Err(InvalidArgument);
      }
      ValidSnoc(hunks[..k], h, total);
      assert hunks[..k + 1] == hunks[..k] + [h];
      prevEnd, prevStart := h.endLine, h.startLine;
    }
    assert hunks[..|hunks|] == hunks;
    return Ok(());
  }

  /** A hunk that starts after the last one extends a valid list. */
  lemma {:induction false} ValidSnoc(hunks: seq<Hunk>, h: Hunk, total: nat)
    requires ValidHunks(hunks, total) && WellPlaced(h, total)
    requires hunks != [] ==> Last(hunks).endLine < h.startLine && Last(hunks).startLine != h.startLine
    ensures ValidHunks(hunks + [h], total)
  {
    var all := hunks + [h];
    forall i, j | 0 <= i < j < |all| ensures Before(all[i], all[j]) {
      if j < |hunks| {
        assert Before(hunks[i], hunks[j]);
      } else {
        assert Last(hunks) in hunks;
        if i < |hunks| - 1 {
          assert Before(hunks[i], hunks[|hunks| - 1]);
        }
      }
    }
  }

  /** All hunks but the last are valid for the lines above the last one. */
  lemma {:induction false} ValidInit(hunks: seq<Hunk>, total: nat)
    requires ValidHunks(hunks, total) && hunks != []
    ensures WellPlaced(Last(hunks), total)
    ensures ValidHunks(Init(hunks), Last(hunks).startLine - 1)
  {
    assert Last(hunks) in hunks;
    forall h | h in Init(hunks) ensures WellPlaced(h, Last(hunks).startLine - 1) {
      var i :| 0 <= i < |Init(hunks)| && Init(hunks)[i] == h;
      assert Before(hunks[i], hunks[|hunks| - 1]);
      assert h in hunks;
    }
  }

  // ----- The caller's order

  predicate SortedByStart(hunks: seq<Hunk>) {
    forall i, j | 0 <= i < j < |hunks| :: hunks[i].startLine <= hunks[j].startLine
  }

  function InsertByStart(h: Hunk, sorted: seq<Hunk>): (r: seq<Hunk>)
    ensures multiset(r) == multiset(sorted) + multiset{h}
  {
    if sorted == [] || h.startLine <= sorted[0].startLine then [h] + sorted
    else
      assert sorted == [sorted[0]] + sorted[1..];
      [sorted[0]] + InsertByStart(h, sorted[1..])
  }

  lemma {:induction false} InsertMembers(h: Hunk, sorted: seq<Hunk>)
    ensures forall g | g in InsertByStart(h, sorted) :: g == h || g in sorted
  {
    var r := InsertByStart(h, sorted);
    forall g | g in r ensures g == h || g in sorted {
      assert g in multiset(r);
    }
  }

  lemma {:induction false} SortedCons(h: Hunk, rest: seq<Hunk>)
    requires SortedByStart(rest) && forall g | g in rest :: h.startLine <= g.startLine
    ensures SortedByStart([h] + rest)
  {}

  lemma {:induction false} InsertKeepsSorted(h: Hunk, sorted: seq<Hunk>)
    requires SortedByStart(sorted)
    ensures SortedByStart(InsertByStart(h, sorted))
    decreases |sorted|
  {
    assert forall g | g in sorted :: sorted[0].startLine <= g.startLine;
    if sorted == [] || h.startLine <= sorted[0].startLine {
      SortedCons(h, sorted);
    } else {
      InsertKeepsSorted(h, sorted[1..]);
      InsertMembers(h, sorted[1..]);
      SortedCons(sorted[0], InsertByStart(h, sorted[1..]));
    }
  }

  function SortByStart(hunks: seq<Hunk>): (r: seq<Hunk>)
    ensures multiset(r) == multiset(hunks)
    ensures SortedByStart(r)
  {
    if hunks == [] then []
    else
      assert hunks == [hunks[0]] + hunks[1..];
      InsertKeepsSorted(hunks[0], SortByStart(hunks[1..]));
      InsertByStart(hunks[0], SortByStart(hunks[1..]))
  }

  /** What makes a collection of hunks acceptable, said without any order. */
  predicate Acceptable(hunks: multiset<Hunk>, total: nat) {
    && (forall h | h in hunks :: WellPlaced(h, total) && hunks[h] == 1)
    && forall h, g | h in hunks && g in hunks && h != g :: Before(h, g) || Before(g, h)
  }

  lemma {:induction false} ValidHasNoDuplicates(hunks: seq<Hunk>, total: nat, h: Hunk)
    requires ValidHunks(hunks, total) && h in hunks
    ensures multiset(hunks)[h] == 1
  {
    var i :| 0 <= i < |hunks| && hunks[i] == h;
    assert hunks == hunks[..i] + [h] + hunks[i + 1..];
    forall k | 0 <= k < |hunks| && k != i ensures hunks[k] != h {
      assert Before(hunks[Min(k, i)], hunks[Max(k, i)]);
    }
    assert h !in hunks[..i] && h !in hunks[i + 1..];
    assert multiset(hunks[..i])[h] == 0 && multiset(hunks[i + 1..])[h] == 0;
  }

  lemma {:induction false} TwiceInMultiset(hunks: seq<Hunk>, i: nat, j: nat)
    requires i < j < |hunks| && hunks[i] == hunks[j]
    ensures multiset(hunks)[hunks[i]] >= 2
  {
    var front, back := hunks[..j], hunks[j..];
    assert hunks == front + back;
    assert front[i] in multiset(front) && back[0] in multiset(back);
  }

  /** Whatever stable or unstable sort by start line ran, the sorted list is valid iff the hunks are acceptable. */
  lemma {:induction false} ValidIffAcceptable(sorted: seq<Hunk>, total: nat)
    requires SortedByStart(sorted)
    ensures ValidHunks(sorted, total) <==> Acceptable(multiset(sorted), total)
  {
    if ValidHunks(sorted, total) {
      forall h | h in multiset(sorted) ensures WellPlaced(h, total) && multiset(sorted)[h] == 1 {
        ValidHasNoDuplicates(sorted, total, h);
      }
      forall h, g | h in multiset(sorted) && g in multiset(sorted) && h != g ensures Before(h, g) || Before(g, h) {
        var i :| 0 <= i < |sorted| && sorted[i] == h;
        var j :| 0 <= j < |sorted| && sorted[j] == g;
        assert i < j || j < i;
      }
    }
    if Acceptable(multiset(sorted), total) {
      forall i, j | 0 <= i < j < |sorted| ensures Before(sorted[i], sorted[j]) {
        assert sorted[i] in multiset(sorted) && sorted[j] in multiset(sorted);
        if sorted[i] == sorted[j] {
          TwiceInMultiset(sorted, i, j);
        }
      }
      assert forall h | h in sorted :: h in multiset(sorted);
    }
  }

  lemma {:induction false} ValidHeadIsUnique(a: seq<Hunk>, b: seq<Hunk>, total: nat)
    requires ValidHunks(a, total) && ValidHunks(b, total)
    requires multiset(a) == multiset(b) && a != [] && b != []
    ensures a[0] == b[0]
  {
    assert a[0] in multiset(b) && b[0] in multiset(a);
    var j :| 0 <= j < |b| && b[j] == a[0];
    var i :| 0 <= i < |a| && a[i] == b[0];
    assert j > 0 ==> Before(b[0], b[j]);
    assert i > 0 ==> Before(a[0], a[i]);
  }

  /** A collection of hunks has one valid order. */
  lemma {:induction false} ValidOrderIsUnique(a: seq<Hunk>, b: seq<Hunk>, total: nat)
    requires ValidHunks(a, total) && ValidHunks(b, total)
    requires multiset(a) == multiset(b)
    ensures a == b
    decreases |a|
  {
    if a == [] || b == [] {
      assert |multiset(a)| == |a| && |multiset(b)| == |b|;
    } else {
      ValidHeadIsUnique(a, b, total);
      assert a == [a[0]] + a[1..] && b == [b[0]] + b[1..];
      assert multiset(a[1..]) == multiset(a) - multiset{a[0]};
      assert multiset(b[1..]) == multiset(b) - multiset{b[0]};
      ValidOrderIsUnique(a[1..], b[1..], total);
    }
  }
}
