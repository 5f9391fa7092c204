/** The lines of a file as search_text sees and numbers them (internal/tools/search_text.go). */
module SearchText {
  import opened Basics
  import opened Framing
  import opened Lines

  function TrimCr(raw: seq<byte>): seq<byte> {
    if EndsInCr(raw) then Init(raw) else raw
  }

  /** The lines of a non-empty file as search_text sees them, before the carriage return is trimmed. */
  function RawSearchLines(data: seq<byte>): seq<seq<byte>> {
    if data != [] && Last(data) == LF then Init(Pieces(data)) else Pieces(data)
  }

  /** How a line of read_file looks to search_text. */
  function AsSearched(line: RawLine): Text {
    if line.term.NoTerm? then TrimCr(line.text) else line.text
  }

  lemma {:induction false} RawSearchIs(data: seq<byte>)
    ensures RawSearchLines(data) == if data != [] && Last(data) == LF then Init(Pieces(data)) else Pieces(data)
  {}

  lemma {:induction false} RawSearchFirst(body: seq<byte>, rest: seq<byte>)
    requires LF !in body
    ensures RawSearchLines(body + [LF] + rest) == [body] + (if rest == [] then [] else RawSearchLines(rest))
  {
    PiecesFirst(body, rest);
    PiecesFirst([], []);
    hide Pieces;
    var data := body + [LF] + rest;
    assert Last(data) == if rest == [] then LF else Last(rest);
    assert Init([body] + Pieces(rest)) == [body] + Init(Pieces(rest));
  }

  /** Both tools count the same lines; their texts differ only by a final CR on an unterminated last line. */
  lemma {:induction false} SearchSeesReadLines(data: seq<byte>)
    requires data != []
    ensures |RawSearchLines(data)| == |Split(data)|
    ensures forall k | 0 <= k < |Split(data)| :: TrimCr(RawSearchLines(data)[k]) == AsSearched(Split(data)[k])
    decreases |data|
  {
    hide Split, Pieces, RawSearchLines;
    var i := FirstLf(data);
    if i < |data| {
      var body, rest := data[..i], data[i + 1..];
      CutAt(data, 0, i);
      RawSearchFirst(body, rest);
      SplitFirstLine(body, rest);
      assert TrimCr(body) == Terminated(body).text;
      SplitEmpty();
      if rest != [] {
        SearchSeesReadLines(rest);
      }
    } else {
      SearchUnterminated(data);
    }
  }

  lemma {:induction false} SearchUnterminated(data: seq<byte>)
    requires data != [] && LF !in data
    ensures RawSearchLines(data) == [data] && Split(data) == [RawLine(data, NoTerm)]
  {
    PiecesFirst(data, []);
    SplitUnterminated(data);
    assert Last(data) in data;
  }

  datatype Match = Match(line: nat, text: Text)

  /** The lines from number `from` + 1 on that match, in order, numbered as in the file. */
  function Hits(data: seq<byte>, matches: Text -> bool, from: nat): seq<Match>
    requires from <= |Split(data)|
    decreases |Split(data)| - from
  {
    if from == |Split(data)| then []
    else
      var text := AsSearched(Split(data)[from]);
      (if matches(text) then [Match(from + 1, text)] else []) + Hits(data, matches, from + 1)
  }

  lemma {:induction false} HitsEnd(data: seq<byte>, matches: Text -> bool)
    ensures Hits(data, matches, |Split(data)|) == []
  {}

  lemma {:induction false} HitsStep(data: seq<byte>, matches: Text -> bool, from: nat)
    requires from < |Split(data)|
    ensures var text := AsSearched(Split(data)[from]);
            Hits(data, matches, from)
            == (if matches(text) then [Match(from + 1, text)] else []) + Hits(data, matches, from + 1)
  {}

  /** The hits are exactly the matching lines of the file, each once and in file order. */
  lemma {:induction false} HitsAreTheMatchingLines(data: seq<byte>, matches: Text -> bool, from: nat)
    requires from <= |Split(data)|
    ensures var hits := Hits(data, matches, from);
            && (forall m :: m in hits <==> from < m.line <= |Split(data)| && matches(m.text)
                                           && m.text == AsSearched(Split(data)[m.line - 1]))
            && forall i, j | 0 <= i < j < |hits| :: hits[i].line < hits[j].line
    decreases |Split(data)| - from
  {
    hide Split, AsSearched;
    if from < |Split(data)| {
      HitsAreTheMatchingLines(data, matches, from + 1);
      var text := AsSearched(Split(data)[from]);
      var rest := Hits(data, matches, from + 1);
      forall j | 0 <= j < |rest| ensures from + 1 < rest[j].line {
        assert rest[j] in rest;
      }
      forall m
        ensures m in Hits(data, matches, from) <==> (m in rest || (matches(text) && m == Match(from + 1, text)))
      {}
    }
  }

  lemma {:induction false} AppendAssociates<T>(r: seq<T>, x: seq<T>, rest: seq<T>)
    ensures r + (x + rest) == (r + x) + rest
  {}

  lemma {:induction false} TakenSoFar<T>(found: seq<T>, hits: seq<T>, r: seq<T>, rest: seq<T>)
    requires r + rest == found + hits && |found| <= |r|
    ensures |r| - |found| <= |hits| && r == found + hits[..|r| - |found|]
    ensures rest == [] ==> |r| - |found| == |hits|
  {
    assert r == (r + rest)[..|r|];
    assert (found + hits)[..|r|] == found + hits[..|r| - |found|];
  }

  /**
   * The line loop of the file callback in `searchText`. `found` holds the matches of the files before; `stop`
   * is the limit error that ends the walk.
   */
  method SearchLines(data: seq<byte>, matches: Text -> bool, limit: int, found: seq<Match>)
    returns (r: seq<Match>, stop: bool)
    ensures var hits := Hits(data, matches, 0);
            r == found + hits[..Min(|hits|, Max(1, limit - |found|))]
    ensures stop <==> |r| > |found| && |r| >= limit
  {
    hide Split, Pieces, RawSearchLines, Hits;
    r, stop := found, false;
    HitsEnd(data, matches);
    SplitEmpty();
    if |data| == 0 {
      return;
    }
    SearchSeesReadLines(data);
    var lines := Pieces(data);
    if data[|data| - 1] == LF {
      lines := lines[..|lines| - 1];
    }
    RawSearchIs(data);
    ghost var hits := Hits(data, matches, 0);
    for i := 0 to |lines|
      invariant |found| <= |r| && r + Hits(data, matches, i) == found + hits
      invariant |r| == |found| || |r| < limit
    {
      var line := lines[i];
      if |line| > 0 && line[|line| - 1] == CR {
        line := line[..|line| - 1];
      }
      assert line == AsSearched(Split(data)[i]);
      HitsStep(data, matches, i);
      if !matches(line) {
        continue;
      }
      AppendAssociates(r, [Match(i + 1, line)], Hits(data, matches, i + 1));
      r := r + [Match(i + 1, line)];
      if |r| >= limit {
        TakenSoFar(found, hits, r, Hits(data, matches, i + 1));
        stop := true;
        return;
      }
    }
    TakenSoFar(found, hits, r, []);
  }
}
