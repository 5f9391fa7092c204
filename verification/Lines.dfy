/** Byte-exact line splitting (internal/filetools/lines.go). */
module Lines {
  import opened Basics

  type Text = seq<byte>

  /** The terminator that followed a line; `NoTerm` is the empty one of an unterminated last line. */
  datatype Term = NoTerm | Lf | CrLf {
    function Bytes(): seq<byte> {
      match this
      case NoTerm => []
      case Lf => [LF]
      case CrLf => [CR, LF]
    }
  }

  datatype RawLine = RawLine(text: Text, term: Term) {
    function Bytes(): seq<byte> {
      text + term.Bytes()
    }
  }

  predicate EndsInCr(text: Text) {
    |text| > 0 && text[|text| - 1] == CR
  }

  /** The lines a byte string can split into: every other list of lines loses its shape when joined. */
  predicate CanonicalLine(line: RawLine, isLast: bool) {
    && LF !in line.text
    && (line.term.Lf? ==> !EndsInCr(line.text))
    && (line.term.NoTerm? ==> isLast && line.text != [])
  }

  predicate Canonical(lines: seq<RawLine>) {
    forall i | 0 <= i < |lines| :: CanonicalLine(lines[i], i == |lines| - 1)
  }

  function Join(lines: seq<RawLine>): seq<byte> {
    if lines == [] then [] else lines[0].Bytes() + Join(lines[1..])
  }

  /** Position of the first line feed, or the length when there is none. */
  function FirstLf(data: seq<byte>): (i: nat)
    ensures i <= |data|
    ensures forall k | 0 <= k < i :: data[k] != LF
    ensures i < |data| ==> data[i] == LF
  {
    if data == [] || data[0] == LF then 0 else 1 + FirstLf(data[1..])
  }

  /** The line whose bytes before the line feed are `body`. */
  function Terminated(body: seq<byte>): (line: RawLine)
    ensures line.Bytes() == body + [LF]
    ensures LF !in body ==> CanonicalLine(line, false)
  {
    if EndsInCr(body) then
      assert body == body[..|body| - 1] + [CR];
      RawLine(body[..|body| - 1], CrLf)
    else RawLine(body, Lf)
  }

  function Split(data: seq<byte>): seq<RawLine>
    decreases |data|
  {
    if data == [] then []
    else
      var i := FirstLf(data);
      if i == |data| then [RawLine(data, NoTerm)]
      else [Terminated(data[..i])] + Split(data[i + 1..])
  }

  lemma {:induction false} SplitEmpty()
    ensures Split([]) == []
  {}

  lemma {:induction false} SplitUnterminated(data: seq<byte>)
    requires LF !in data && data != []
    ensures Split(data) == [RawLine(data, NoTerm)]
  {
    assert FirstLf(data) == |data|;
  }

  lemma {:induction false} SplitFirstLine(body: seq<byte>, rest: seq<byte>)
    requires LF !in body
    ensures Split(body + [LF] + rest) == [Terminated(body)] + Split(rest)
  {
    var data := body + [LF] + rest;
    assert data[|body|] == LF;
    assert forall k | 0 <= k < |body| :: data[k] == body[k];
    assert FirstLf(data) == |body|;
    assert data[..|body|] == body && data[|body| + 1..] == rest;
  }

  lemma {:induction false} SplitAt(data: seq<byte>, start: nat, i: nat)
    requires start <= i < |data| && data[i] == LF
    requires forall k | start <= k < i :: data[k] != LF
    ensures Split(data[start..]) == [Terminated(data[start..i])] + Split(data[i + 1..])
    ensures Terminated(data[start..i]) ==
            if i > start && data[i - 1] == CR then RawLine(data[start..i - 1], CrLf) else RawLine(data[start..i], Lf)
  {
    var body := data[start..i];
    CutAt(data, start, i);
    SplitFirstLine(body, data[i + 1..]);
    if i > start {
      assert body[..|body| - 1] == data[start..i - 1];
    }
  }

  /** Every non-empty byte string is its first line followed by the rest. */
  lemma {:induction false} FirstLine(data: seq<byte>) returns (line: RawLine, rest: seq<byte>)
    requires data != []
    ensures data == line.Bytes() + rest && |rest| < |data|
    ensures Split(data) == [line] + Split(rest)
    ensures CanonicalLine(line, rest == [])
    ensures Split(rest) == [] <==> rest == []
  {
    var i := FirstLf(data);
    if i < |data| {
      return Terminated(data[..i]), data[i + 1..];
    }
    SplitUnterminated(data);
    return RawLine(data, NoTerm), [];
  }

  /** Joining the split of any byte string gives the bytes back, and the split is canonical. */
  lemma {:induction false} SplitThenJoin(data: seq<byte>)
    ensures Join(Split(data)) == data
    ensures Canonical(Split(data))
    decreases |data|
  {
    if data != [] {
      hide Split;
      var line, rest := FirstLine(data);
      SplitThenJoin(rest);
      JoinCons(line, Split(rest));
      CanonicalCons(line, Split(rest));
    }
  }

  lemma {:induction false} JoinCons(line: RawLine, rest: seq<RawLine>)
    ensures Join([line] + rest) == line.Bytes() + Join(rest)
  {
    assert ([line] + rest)[1..] == rest;
  }

  lemma {:induction false} CanonicalCons(line: RawLine, rest: seq<RawLine>)
    ensures Canonical([line] + rest) <==> CanonicalLine(line, rest == []) && Canonical(rest)
  {
    var lines := [line] + rest;
    assert forall i | 0 <= i < |rest| :: lines[i + 1] == rest[i];
    if Canonical(lines) {
      assert CanonicalLine(lines[0], 0 == |lines| - 1);
      forall i | 0 <= i < |rest| ensures CanonicalLine(rest[i], i == |rest| - 1) {
        assert CanonicalLine(lines[i + 1], i + 1 == |lines| - 1);
      }
    }
  }

  /** Splitting the join of a canonical list gives the list back. */
  lemma {:induction false} JoinThenSplit(lines: seq<RawLine>)
    requires Canonical(lines)
    ensures Split(Join(lines)) == lines
    decreases |lines|
  {
    if lines != [] {
      var line, rest := lines[0], lines[1..];
      assert lines == [line] + rest;
      CanonicalCons(line, rest);
      JoinCons(line, rest);
      JoinThenSplit(rest);
      if line.term.NoTerm? {
        assert Join(lines) == line.text;
        SplitUnterminated(line.text);
      } else {
        var body := if line.term.CrLf? then line.text + [CR] else line.text;
        assert Terminated(body) == line by { assert body[..|line.text|] == line.text; }
        SplitFirstLine(body, Join(rest));
      }
    }
  }

  /** A list of lines is the split of its own bytes exactly when it is canonical. */
  lemma {:induction false} RoundTripIffCanonical(lines: seq<RawLine>)
    ensures Split(Join(lines)) == lines <==> Canonical(lines)
  {
    SplitThenJoin(Join(lines));
    if Canonical(lines) {
      JoinThenSplit(lines);
    }
  }

  lemma {:induction false} JoinAppend(a: seq<RawLine>, b: seq<RawLine>)
    ensures Join(a + b) == Join(a) + Join(b)
    decreases |a|
  {
    if a == [] {
      assert a + b == b;
    } else {
      assert (a + b)[1..] == a[1..] + b;
      JoinAppend(a[1..], b);
    }
  }

  /** The scan of `splitLines`: one pass over the bytes with the start of the open line. */
  method SplitLines(data: seq<byte>) returns (lines: seq<RawLine>)
    ensures lines == Split(data)
    ensures Join(lines) == data && Canonical(lines)
  {
    hide Split, Join, Canonical;
    SplitThenJoin(data);
    SplitEmpty();
    if |data| == 0 {
      return [];
    }
    assert data[0..] == data;
    lines := [];
    var start := 0;
    for i := 0 to |data|
      invariant start <= i
      invariant forall k | start <= k < i :: data[k] != LF
      invariant lines + Split(data[start..]) == Split(data)
    {
      if data[i] != LF {
        continue;
      }
      var end, term := i, Lf;
      if end > start && data[end - 1] == CR {
        end, term := end - 1, CrLf;
      }
      SplitAt(data, start, i);
      lines := lines + [RawLine(data[start..end], term)];
      start := i + 1;
    }
    if start < |data| {
      SplitUnterminated(data[start..]);
      lines := lines + [RawLine(data[start..], NoTerm)];
    }
  }

  /** The buffer loop of `joinLines`. */
  method JoinLines(lines: seq<RawLine>) returns (data: seq<byte>)
    ensures data == Join(lines)
    ensures Canonical(lines) ==> Split(data) == lines
  {
    data := [];
    for i := 0 to |lines|
      invariant data == Join(lines[..i])
    {
      JoinAppend(lines[..i], [lines[i]]);
      assert lines[..i + 1] == lines[..i] + [lines[i]];
      data := data + lines[i].text + lines[i].term.Bytes();
    }
    assert lines[..|lines|] == lines;
    RoundTripIffCanonical(lines);
  }

  /** The terminator of the first terminated line; a bare line feed when no line has one. */
  function FirstTerm(lines: seq<RawLine>): (term: Term)
    ensures term != NoTerm
  {
    if lines == [] then Lf
    else if lines[0].term != NoTerm then lines[0].term
    else FirstTerm(lines[1..])
  }

  /** The search loop of `fileTerminator`. */
  method FileTerminator(lines: seq<RawLine>) returns (term: Term)
    ensures term == FirstTerm(lines)
    ensures term != NoTerm
    ensures (exists i | 0 <= i < |lines| :: lines[i].term == term && forall k | 0 <= k < i :: lines[k].term == NoTerm)
            || (term == Lf && forall l | l in lines :: l.term == NoTerm)
  {
    for i := 0 to |lines|
      invariant FirstTerm(lines[i..]) == FirstTerm(lines)
      invariant forall k | 0 <= k < i :: lines[k].term == NoTerm
    {
      if lines[i].term != NoTerm {
        return lines[i].term;
      }
      assert lines[i..][1..] == lines[i + 1..];
    }
    return Lf;
  }
}
