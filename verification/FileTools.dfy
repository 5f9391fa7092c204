/** The file tools on one target: ReadFile, WriteFile and ApplyPatch (internal/filetools/file.go, patch.go). */
module FileTools {
  import opened Basics
  import opened Lines
  import Apply
  import Patch
  import PatchFile
  import Replace
  import SearchText

  datatype ToolError = BadArgument | NotFound | Io | Stale | Rejected(reason: Patch.PatchError)

  datatype Entry = Absent | Directory | File(data: seq<byte>)

  datatype Line = Line(number: nat, text: Text)

  datatype View = View(lines: seq<Line>, hash: string)

  // ----- Line ranges

  /** First and last line of a request; zero stands for the ends of the file. */
  function Lowest(startLine: int): int {
    Max(startLine, 1)
  }

  function Highest(total: nat, endLine: int): int {
    if endLine <= 0 then total else Min(endLine, total)
  }

  /** `clampRange`: an empty range is always 1..0, so its length is never negative. */
  function ClampRange(total: nat, startLine: int, endLine: int): (r: (int, int))
    ensures startLine <= endLine || startLine <= 0 || endLine <= 0 ==>
              r.1 - r.0 + 1 == Max(0, Highest(total, endLine) - Lowest(startLine) + 1)
    ensures r.0 <= r.1 ==> r.0 == Lowest(startLine)
  {
    var from := if startLine <= 0 then 1 else startLine;
    var to := if endLine <= 0 || endLine > total then total else endLine;
    if from > total then (1, 0) else (from, to)
  }

  /** The lines of the file with a number in the requested range. */
  function Window(lines: seq<RawLine>, startLine: int, endLine: int): seq<Line> {
    var lo, hi := Lowest(startLine), Highest(|lines|, endLine);
    seq(Max(0, hi - lo + 1), i requires 0 <= i < hi - lo + 1 => Line(lo + i, lines[lo + i - 1].text))
  }

  /** A line is read exactly when its number was asked for; zero asks for the first or the last line of the file. */
  lemma {:induction false} WindowIsTheRange(lines: seq<RawLine>, startLine: nat, endLine: nat, line: Line)
    ensures line in Window(lines, startLine, endLine) <==>
            && 1 <= line.number <= |lines| && (startLine == 0 || startLine <= line.number)
            && (endLine == 0 || line.number <= endLine)
            && line.text == lines[line.number - 1].text
    ensures var page := Window(lines, startLine, endLine);
            forall i, j | 0 <= i < j < |page| :: page[i].number < page[j].number
  {
    var page, lo := Window(lines, startLine, endLine), if startLine == 0 then 1 else startLine;
    assert forall i | 0 <= i < |page| :: page[i] == Line(lo + i, lines[lo + i - 1].text);
    if 1 <= line.number <= |lines| && lo <= line.number && (endLine == 0 || line.number <= endLine) {
      assert page[line.number - lo].number == line.number;
    }
  }

  /** Two ranges that meet read the same lines as one range over both. */
  lemma {:induction false} WindowsMeet(lines: seq<RawLine>, startLine: nat, middle: nat, endLine: nat)
    requires 1 <= middle && startLine <= middle && (endLine == 0 || middle < endLine)
    ensures Window(lines, startLine, middle) + Window(lines, middle + 1, endLine) == Window(lines, startLine, endLine)
  {}

  /** A line that search_text reports can be read under its number, up to a CR that ends an unterminated last line. */
  lemma {:induction false} FoundLineCanBeRead(data: seq<byte>, matches: Text -> bool, m: SearchText.Match)
    requires m in SearchText.Hits(data, matches, 0)
    ensures var page := Window(Split(data), m.line, m.line);
            |page| == 1 && page[0].number == m.line
            && (m.text == page[0].text || (m.text == SearchText.TrimCr(page[0].text) && m.line == |Split(data)|))
  {
    hide Split;
    SearchText.HitsAreTheMatchingLines(data, matches, 0);
    SplitThenJoin(data);
    assert CanonicalLine(Split(data)[m.line - 1], m.line - 1 == |Split(data)| - 1);
  }

  // ----- The tools

  /** White space as the library's trimming understands it. */
  predicate Space(c: char) {
    || c in " \t\n\r\U{000B}\U{000C}\U{0085}\U{00A0}\U{1680}\U{2028}\U{2029}\U{202F}\U{205F}\U{3000}"
    || '\U{2000}' <= c <= '\U{200A}'
  }

  /** Surrounding white space does not make a hash. */
  predicate Blank(s: string) {
    forall c | c in s :: Space(c)
  }

  /** The code points of white space. */
  lemma {:induction false} SpaceIffCodePoint(c: char)
    ensures Space(c) <==>
            || 9 <= c as int <= 13 || c as int in {0x20, 0x85, 0xA0, 0x1680, 0x2028, 0x2029, 0x202F, 0x205F, 0x3000}
            || 0x2000 <= c as int <= 0x200A
  {}

  /** How the replacement ends: what outside writers had left when we held the lock, and whether a step failed. */
  datatype Swap = Swap(between: seq<byte>, fails: bool)

  /** What a finished replacement means for the target. */
  predicate Swapped(q: Replace.Request, between: seq<byte>, ok: bool, after: seq<byte>) {
    if ok then after == q.data && (q.expected != "" ==> q.hash(between) == q.expected) else after == between
  }

  /** Every interleaving of the replacement protocol ends as `Swapped` says. */
  lemma {:induction false} ProtocolEndsSwapped(q: Replace.Request, content: seq<byte>, steps: seq<Replace.Step>,
                                               s: Replace.State)
    requires Replace.Reaches(q, content, steps, s) && s.pc.Finished? && !s.newFileWritten
    ensures Swapped(q, s.outside, s.pc.r.Ok?, s.target)
  {
    hide Replace.Next;
    if s.pc.r.Ok? {
      assert s.pc.r.value == ();
      Replace.SuccessReplacedExpected(q, content, steps, s);
      Replace.NeverPartial(q, content, steps, s);
    } else {
      Replace.FailureLeavesTarget(q, content, steps, s);
    }
  }

  ghost predicate Injective(hash: seq<byte> -> string) {
    forall a, b :: hash(a) == hash(b) ==> a == b
  }

  class TextFile {
    var entry: Entry
    const hash: seq<byte> -> string

    constructor (entry: Entry, hash: seq<byte> -> string)
      ensures this.entry == entry && this.hash == hash
    {
      this.entry := entry;
      this.hash := hash;
    }

    /** `readExistingFile`; `readable` is false when inspecting or reading fails. */
    method ReadExisting(readable: bool) returns (r: Result<seq<byte>, ToolError>)
      ensures r.Ok? <==> entry.File? && readable
      ensures r.Ok? ==> r.value == entry.data
      ensures r.Err? ==> r.error == if entry.Absent? then NotFound else if entry.Directory? then BadArgument else Io
    {
      match entry {
        case Absent => r := Err(NotFound);
        case Directory => r := Err(BadArgument);
        case File(data) => r := if readable then Ok(data) else Err(Io);
      }
    }

    /** The requested lines, and the hash of the whole file whatever the range. */
    method ReadFile(startLine: int, endLine: int, readable: bool) returns (r: Result<View, ToolError>)
      ensures startLine < 0 || endLine < 0 || 0 < endLine < startLine ==> r == Err(BadArgument)
      ensures r.Ok? <==> 0 <= startLine && 0 <= endLine && (endLine == 0 || startLine <= endLine)
                         && entry.File? && readable
      ensures r.Ok? ==> r.value == View(Window(Split(entry.data), startLine, endLine), hash(entry.data))
      ensures 0 <= startLine && 0 <= endLine && (endLine == 0 || startLine <= endLine) && r.Err? ==>
                r.error == if entry.Absent? then NotFound else if entry.Directory? then BadArgument else Io
    {
      hide Split;
      if startLine < 0 || endLine < 0 {
        return Err(BadArgument);
      }
      if startLine > 0 && endLine > 0 && endLine < startLine {
        return Err(BadArgument);
      }
      var data := ReadExisting(readable);
      if data.Err? {
        return Err(data.error);
      }
      var lines := SplitLines(data.value);
      var (from, to) := ClampRange(|lines|, startLine, endLine);
      assert to - from + 1 >= 0;
      var result: seq<Line> := [];
      for i := from to to + 1
        invariant |result| == i - from
        invariant forall k | 0 <= k < |result| :: result[k] == Line(from + k, lines[from + k - 1].text)
      {
        result := result + [Line(i, lines[i - 1].text)];
      }
      assert result == Window(lines, startLine, endLine);
      r := Ok(View(result, hash(data.value)));
    }

    /** `atomicReplace` as the caller sees it. */
    method AtomicReplace(data: seq<byte>, expected: string, swap: Swap) returns (r: Result<(), ToolError>)
      requires entry.File?
      modifies this
      ensures entry.File? && Swapped(Replace.Request(data, expected, hash), swap.between, r.Ok?, entry.data)
      ensures r.Ok? <==> !swap.fails && (expected == "" || hash(swap.between) == expected)
      ensures r.Err? ==> r.error == if swap.fails then Io else Stale
    {
      entry := File(swap.between);
      if swap.fails {
        return Err(Io);
      }
      if expected != "" && hash(swap.between) != expected {
        return Err(Stale);
      }
      entry := File(data);
      r := Ok(());
    }

    /** Only a file that still has the expected hash is overwritten; the answer is the hash of what it holds now. */
    method WriteFile(expected: string, data: seq<byte>, readable: bool, swap: Swap)
      returns (r: Result<string, ToolError>)
      modifies this
      ensures r.Ok? <==> && !Blank(expected) && old(entry).File? && readable && hash(old(entry).data) == expected
                         && !swap.fails && hash(swap.between) == expected
      ensures r.Ok? ==> entry == File(data) && r.value == hash(data)
      ensures r.Err? ==>
                r.error ==
                if Blank(expected) then BadArgument
                else if old(entry).Absent? then NotFound
                else if old(entry).Directory? then BadArgument
                else if !readable then Io
                else if hash(old(entry).data) != expected then Stale
                else if swap.fails then Io
                else Stale
      ensures r.Err? ==> entry == old(entry) || entry == File(swap.between)
      ensures r.Err? && (!old(entry).File? || hash(old(entry).data) != expected) ==> entry == old(entry)
      ensures r.Ok? && Injective(hash) ==> swap.between == old(entry).data
    {
      if Blank(expected) {
        return Err(BadArgument);
      }
      var current := ReadExisting(readable);
      if current.Err? {
        return Err(current.error);
      }
      if hash(current.value) != expected {
        return Err(Stale);
      }
      var swapped := AtomicReplace(data, expected, swap);
      if swapped.Err? {
        return Err(swapped.error);
      }
      r := Ok(hash(data));
    }

    /**
     * All hunks or none: success means that they fit the file with the expected hash and that exactly this file
     * was replaced by the patched one; every refusal leaves the target to the outside writers.
     */
    method ApplyPatch(expected: string, hunks: seq<Patch.Hunk>, readable: bool, swap: Swap)
      returns (r: Result<string, ToolError>)
      modifies this
      ensures r.Ok? <==> && !Blank(expected) && old(entry).File? && readable && hash(old(entry).data) == expected
                         && hunks != [] && Patch.Acceptable(multiset(hunks), |Split(old(entry).data)|)
                         && (forall h | h in hunks :: Apply.HunkMatches(Split(old(entry).data), h))
                         && !swap.fails && hash(swap.between) == expected
      ensures r.Ok? ==> && entry.File? && PatchFile.PatchOutcome(old(entry).data, hunks, Ok(entry.data))
                        && r.value == hash(entry.data)
      ensures r.Err? && !r.error.Rejected? ==>
                r.error ==
                if hunks == [] || Blank(expected) then BadArgument
                else if old(entry).Absent? then NotFound
                else if old(entry).Directory? then BadArgument
                else if !readable then Io
                else if hash(old(entry).data) != expected then Stale
                else if swap.fails then Io
                else Stale
      ensures r.Err? ==> entry == old(entry) || entry == File(swap.between)
      ensures r.Err? && r.error.Rejected? ==>
                entry == old(entry) && entry.File? && PatchFile.PatchOutcome(entry.data, hunks, Err(r.error.reason))
      ensures r.Ok? && Injective(hash) ==> swap.between == old(entry).data
    {
      hide Split, PatchFile.PatchOutcome, Patch.Acceptable, Apply.HunkMatches;
      if |hunks| == 0 || Blank(expected) {
        return Err(BadArgument);
      }
      var current := ReadExisting(readable);
      if current.Err? {
        return Err(current.error);
      }
      if hash(current.value) != expected {
        return Err(Stale);
      }
      var patched := PatchFile.PatchBytes(current.value, hunks);
      if patched.Err? {
        return Err(Rejected(patched.error));
      }
      var swapped := AtomicReplace(patched.value, expected, swap);
      if swapped.Err? {
        return Err(swapped.error);
      }
      r := Ok(hash(patched.value));
    }
  }
}
