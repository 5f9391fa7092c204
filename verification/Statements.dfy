/** Cutting a PowerShell command into its statements (splitStatements in internal/safety/classify.go). */
module Statements {
  import opened Basics

  const BACKTICK := '`'
  const SINGLE := '\''
  const DOUBLE := '"'

  predicate Separator(c: char) {
    c == ';' || c == '|' || c == '&' || c == '\n'
  }

  /** The open quote, if any, and whether the next character is escaped. */
  datatype Scan = Scan(quote: Option<char>, escaped: bool)

  const OUTSIDE := Scan(None, false)

  predicate Escapes(s: Scan, c: char) {
    c == BACKTICK && s.quote != Some(SINGLE)
  }

  /** What one character does to the scan. */
  function After(s: Scan, c: char): Scan {
    if s.escaped then s.(escaped := false)
    else if Escapes(s, c) then s.(escaped := true)
    else if s.quote.Some? then if s.quote == Some(c) then s.(quote := None) else s
    else if c == DOUBLE || c == SINGLE then s.(quote := Some(c))
    else s
  }

  function ScanOf(command: string): Scan {
    if command == [] then OUTSIDE else After(ScanOf(Init(command)), Last(command))
  }

  /** The character is a separator standing outside quotes and not escaped. */
  predicate IsCut(command: string, i: nat)
    requires i < |command|
  {
    Separator(command[i]) && ScanOf(command[..i]) == OUTSIDE
  }

  /** The places where a command is cut, in order. */
  function Cuts(command: string): seq<nat> {
    if command == [] then []
    else Cuts(Init(command)) + if IsCut(command, |command| - 1) then [|command| - 1] else []
  }

  function Statements(command: string): (r: seq<string>)
    ensures |r| == |Cuts(command)| + 1
  {
    if command == [] then [""]
    else
      var r := Statements(Init(command));
      if IsCut(command, |command| - 1) then r + [""] else Init(r) + [Last(r) + [Last(command)]]
  }

  lemma {:induction false} Snoc(x: string, c: char)
    ensures Init(x + [c]) == x && Last(x + [c]) == c
    ensures (x + [c])[..|x|] == x
  {}

  /** One more character: the scan, the cuts and the statements. */
  lemma {:induction false} OneMore(x: string, c: char)
    ensures ScanOf(x + [c]) == After(ScanOf(x), c)
    ensures IsCut(x + [c], |x|) <==> Separator(c) && ScanOf(x) == OUTSIDE
    ensures Cuts(x + [c]) == Cuts(x) + if IsCut(x + [c], |x|) then [|x|] else []
    ensures Statements(x + [c]) ==
            if IsCut(x + [c], |x|) then Statements(x) + [""] else Init(Statements(x)) + [Last(Statements(x)) + [c]]
  {
    Snoc(x, c);
  }

  /** The loop over the runes of the command; also whether every quote was closed. */
  method SplitStatements(command: string) returns (statements: seq<string>, balanced: bool)
    ensures statements == Statements(command)
    ensures balanced <==> ScanOf(command).quote.None?
  {
    hide Statements, ScanOf, IsCut, Cuts;
    statements := [];
    var current: string := "";
    var quote: Option<char> := None;
    var escaped := false;
    NothingYet();
    for i := 0 to |command|
      invariant Scan(quote, escaped) == ScanOf(command[..i])
      invariant statements + [current] == Statements(command[..i])
    {
      var c := command[i];
      OneMore(command[..i], c);
      assert command[..i + 1] == command[..i] + [c];
      assert Init(statements + [current]) == statements;
      if escaped {
        escaped := false;
        current := current + [c];
      } else if c == BACKTICK && quote != Some(SINGLE) {
        escaped := true;
        current := current + [c];
      } else if quote.Some? {
        if quote == Some(c) {
          quote := None;
        }
        current := current + [c];
      } else if c == DOUBLE || c == SINGLE {
        quote := Some(c);
        current := current + [c];
      } else if c == ';' || c == '|' || c == '&' || c == '\n' {
        statements := statements + [current];
        current := "";
      } else {
        current := current + [c];
      }
    }
    assert command[..|command|] == command;
    statements := statements + [current];
    balanced := quote.None?;
  }

  lemma {:induction false} NothingYet()
    ensures ScanOf("") == OUTSIDE && Statements("") == [""]
    ensures forall command: string :: command[..0] == ""
  {}

  // ----- Exactly at the cuts

  lemma {:induction false} CutsAreExact(command: string, i: nat)
    ensures i in Cuts(command) <==> i < |command| && IsCut(command, i)
    ensures i in Cuts(command) <==>
            && i < |command| && command[i] in {';', '|', '&', '\n'}
            && ScanOf(command[..i]).quote.None? && !ScanOf(command[..i]).escaped
    decreases |command|
  {
    if command != [] {
      var x := Init(command);
      CutsAreExact(x, i);
      if i < |x| {
        TakeTwice(command, i, |x|);
      }
    }
  }

  lemma {:induction false} CutsAscend(command: string, j: nat, k: nat)
    requires j < k < |Cuts(command)|
    ensures Cuts(command)[j] < Cuts(command)[k] < |command|
    decreases |command|
  {
    var x := Init(command);
    if k < |Cuts(x)| {
      CutsAscend(x, j, k);
    } else {
      assert Cuts(x)[j] in Cuts(x);
      CutsAreExact(x, Cuts(x)[j]);
    }
  }

  function From(command: string, k: nat): nat
    requires k <= |Cuts(command)|
  {
    if k == 0 then 0 else Cuts(command)[k - 1] + 1
  }

  function To(command: string, k: nat): nat
    requires k <= |Cuts(command)|
  {
    if k == |Cuts(command)| then |command| else Cuts(command)[k]
  }

  lemma {:induction false} LastCutInRange(command: string, k: nat)
    requires k <= |Cuts(command)|
    ensures From(command, k) <= To(command, k) <= |command|
  {
    if k > 0 {
      assert Cuts(command)[k - 1] in Cuts(command);
      CutsAreExact(command, Cuts(command)[k - 1]);
    }
    if k < |Cuts(command)| {
      assert Cuts(command)[k] in Cuts(command);
      CutsAreExact(command, Cuts(command)[k]);
      if k > 0 {
        CutsAscend(command, k - 1, k);
      }
    }
  }

  /** What one more character does to statement k and its ends. */
  lemma {:induction false} StatementStep(x: string, c: char, k: nat)
    requires k <= |Cuts(x + [c])|
    ensures var command, cut := x + [c], IsCut(x + [c], |x|);
            && |Cuts(command)| == |Cuts(x)| + (if cut then 1 else 0)
            && (k <= |Cuts(x)| ==> From(command, k) == From(x, k))
            && (k < |Cuts(x)| || (k == |Cuts(x)| && cut) ==>
                  To(command, k) == To(x, k) && Statements(command)[k] == Statements(x)[k])
            && (k == |Cuts(x)| && !cut ==>
                  To(command, k) == |x| + 1 && Statements(command)[k] == Statements(x)[k] + [c])
            && (k > |Cuts(x)| ==> From(command, k) == To(command, k) == |x| + 1 && Statements(command)[k] == "")
  {
    OneMore(x, c);
    hide Cuts, Statements, IsCut;
  }

  /** Statement k is exactly the text between cut k-1 and cut k. */
  lemma {:induction false} StatementIsSlice(command: string, k: nat)
    requires k <= |Cuts(command)|
    ensures From(command, k) <= To(command, k) <= |command|
    ensures Statements(command)[k] == command[From(command, k)..To(command, k)]
    decreases |command|
  {
    LastCutInRange(command, k);
    if command != [] {
      var x, c := Init(command), Last(command);
      InitLast(command);
      StatementStep(x, c, k);
      if k <= |Cuts(x)| {
        StatementIsSlice(x, k);
        hide Statements, Cuts, IsCut, From, To;
        assert x[From(x, k)..To(x, k)] == command[From(x, k)..To(x, k)];
      }
    }
  }

  // ----- Putting it back together

  function Separators(command: string): (r: string)
    ensures |r| == |Cuts(command)|
  {
    if command == [] then []
    else Separators(Init(command)) + if IsCut(command, |command| - 1) then [Last(command)] else []
  }

  function Weave(pieces: seq<string>, separators: string): string
    requires |pieces| == |separators| + 1
  {
    if separators == [] then pieces[0]
    else Weave(Init(pieces), Init(separators)) + [Last(separators)] + Last(pieces)
  }

  lemma {:induction false} WeaveExtends(pieces: seq<string>, separators: string, c: char)
    requires |pieces| == |separators| + 1
    ensures Weave(Init(pieces) + [Last(pieces) + [c]], separators) == Weave(pieces, separators) + [c]
    ensures Weave(pieces + [""], separators + [c]) == Weave(pieces, separators) + [c]
  {
    assert Init(pieces + [""]) == pieces && Init(separators + [c]) == separators;
    assert Init(Init(pieces) + [Last(pieces) + [c]]) == Init(pieces);
  }

  /** The statements with the separators put back are the command. */
  lemma {:induction false} WeaveRebuilds(command: string)
    ensures Weave(Statements(command), Separators(command)) == command
    decreases |command|
  {
    if command != [] {
      var x, c := Init(command), Last(command);
      InitLast(command);
      OneMore(x, c);
      WeaveRebuilds(x);
      assert Separators(x) + [] == Separators(x);
      WeaveExtends(Statements(x), Separators(x), c);
    }
  }

  // ----- Composition

  lemma {:induction false} InitOfSum<T>(a: seq<T>, b: seq<T>)
    requires b != []
    ensures Init(a + b) == a + Init(b) && Last(a + b) == Last(b)
  {}

  lemma {:induction false} Associate<T>(a: seq<T>, b: seq<T>, c: seq<T>)
    ensures (a + b) + c == a + (b + c)
  {}

  lemma {:induction false} AfterCut(x: string, c: char, y: string)
    requires Separator(c) && ScanOf(x) == OUTSIDE
    ensures ScanOf(x + [c] + y) == ScanOf(y)
    ensures Statements(x + [c] + y) == Statements(x) + Statements(y)
    decreases |y|
  {
    hide Statements, ScanOf, Cuts, IsCut, Separator;
    OneMore(x, c);
    NothingYet();
    CutAfterCut(x, c);
    if y == [] {
      assert x + [c] + y == x + [c];
    } else {
      var z, d := Init(y), Last(y);
      InitLast(y);
      Associate(x + [c], z, [d]);
      AfterCut(x, c, z);
      OneMore(x + [c] + z, d);
      OneMore(z, d);
      SameCut(x + [c] + z, z, d);
      InitOfSum(Statements(x), Statements(z));
      Associate(Statements(x), Statements(z), [""]);
      Associate(Statements(x), Init(Statements(z)), [Last(Statements(z)) + [d]]);
    }
  }

  lemma {:induction false} CutAfterCut(x: string, c: char)
    requires Separator(c) && ScanOf(x) == OUTSIDE
    ensures IsCut(x + [c], |x|) && ScanOf(x + [c]) == OUTSIDE
  {
    OneMore(x, c);
  }

  /** The same scan before the same character makes the same cut. */
  lemma {:induction false} SameCut(x: string, y: string, c: char)
    requires ScanOf(x) == ScanOf(y)
    ensures IsCut(x + [c], |x|) <==> IsCut(y + [c], |y|)
  {
    OneMore(x, c);
    OneMore(y, c);
  }

  /** More text only ever makes a statement longer. */
  lemma {:induction false} StatementsGrow(x: string, y: string, k: nat)
    requires k < |Statements(x)|
    ensures k < |Statements(x + y)| && Statements(x)[k] <= Statements(x + y)[k]
    decreases |y|
  {
    if y == [] {
      assert x + y == x;
    } else {
      assert x + y == (x + Init(y)) + [Last(y)];
      StatementsGrow(x, Init(y), k);
      OneMore(x + Init(y), Last(y));
    }
  }

  /**
   * Splitting two commands joined by a character is splitting each, exactly when that character is a separator
   * and the first command ends outside quotes and escapes.
   */
  lemma {:induction false} SplitsApartIffCut(x: string, c: char, y: string)
    ensures Statements(x + [c] + y) == Statements(x) + Statements(y) <==> Separator(c) && ScanOf(x) == OUTSIDE
  {
    if Separator(c) && ScanOf(x) == OUTSIDE {
      AfterCut(x, c, y);
    } else {
      OneMore(x, c);
      hide Statements, ScanOf, Cuts, IsCut;
      var k := |Statements(x)| - 1;
      StatementsGrow(x + [c], y, k);
      assert |Statements(x + [c] + y)[k]| > |Statements(x)[k]|;
      assert (Statements(x) + Statements(y))[k] == Statements(x)[k];
    }
  }

  // ----- What is quoted and what is escaped

  /** The character opens a quotation: it stands outside quotes and is not escaped. */
  predicate Opens(command: string, i: nat, q: char)
    requires i < |command|
  {
    command[i] == q && (q == '"' || q == '\'') && ScanOf(command[..i]) == Scan(None, false)
  }

  /** The quotation that starts at i goes on to the end: its own quote does not return, except escaped. */
  predicate NotClosed(command: string, i: nat, q: char) {
    forall j | i < j < |command| && command[j] == q :: ScanOf(command[..j]).escaped
  }

  predicate OpenQuote(command: string, q: char) {
    exists i | 0 <= i < |command| :: Opens(command, i, q) && NotClosed(command, i, q)
  }

  lemma {:induction false} OpensSnoc(x: string, c: char, i: nat, q: char)
    requires i < |x|
    ensures Opens(x + [c], i, q) <==> Opens(x, i, q)
    ensures NotClosed(x + [c], i, q) <==> NotClosed(x, i, q) && (c == q ==> ScanOf(x).escaped)
  {
    hide ScanOf;
    var y := x + [c];
    assert forall j | 0 <= j <= |x| :: y[..j] == x[..j];
    assert x[..|x|] == x && y[|x|] == c;
    if NotClosed(y, i, q) {
      forall j | i < j < |x| && x[j] == q ensures ScanOf(x[..j]).escaped {
        assert y[j] == q;
      }
    }
  }

  lemma {:induction false} OpenQuoteSnoc(x: string, c: char, q: char)
    ensures OpenQuote(x + [c], q) <==>
            (c == q && (q == '"' || q == '\'') && ScanOf(x) == Scan(None, false))
            || (OpenQuote(x, q) && (c == q ==> ScanOf(x).escaped))
  {
    hide ScanOf;
    var y := x + [c];
    assert y[..|x|] == x && y[|x|] == c;
    assert NotClosed(y, |x|, q);
    assert Opens(y, |x|, q) <==> c == q && (q == '"' || q == '\'') && ScanOf(x) == Scan(None, false);
    forall i: nat | i < |x|
      ensures Opens(y, i, q) && NotClosed(y, i, q)
              <==> Opens(x, i, q) && NotClosed(x, i, q) && (c == q ==> ScanOf(x).escaped)
    {
      OpensSnoc(x, c, i, q);
    }
  }

  /**
   * A command ends inside a quotation exactly when some quote was opened and never closed, and a quotation is closed
   * only by the character that opened it.
   */
  lemma {:induction false} QuotedIffNotClosed(command: string, q: char)
    ensures ScanOf(command).quote == Some(q) <==> OpenQuote(command, q)
    decreases |command|
  {
    if command != [] {
      var x, c := Init(command), Last(command);
      InitLast(command);
      QuotedIffNotClosed(x, q);
      OpenQuoteSnoc(x, c, q);
      OneMore(x, c);
      hide ScanOf;
    }
  }

  /** How many backticks a command ends in. */
  function Ticks(command: string): (n: nat)
    ensures n <= |command|
  {
    if command == [] || Last(command) != '`' then 0 else Ticks(Init(command)) + 1
  }

  /** The next character is escaped exactly after an odd number of backticks that do not stand in single quotes. */
  lemma {:induction false} EscapedIffOddTicks(command: string)
    ensures var before := ScanOf(command[..|command| - Ticks(command)]);
            && (ScanOf(command).escaped <==> Ticks(command) % 2 == 1 && before.quote != Some('\''))
            && (Ticks(command) > 0 ==> ScanOf(command).quote == before.quote)
    decreases |command|
  {
    hide ScanOf, After;
    NothingYet();
    if command != [] {
      var x, c, n := Init(command), Last(command), Ticks(Init(command));
      InitLast(command);
      EscapedIffOddTicks(x);
      OneMore(x, c);
      assert x[..|x|] == x && command[..|command|] == command;
      var base := x[..|x| - n];
      OneMoreTick(ScanOf(x), ScanOf(base), n, c);
      if c == '`' {
        assert command[..|command| - (n + 1)] == base;
      }
    }
  }

  /** What a backtick does after n others, and that no other character escapes. */
  lemma {:induction false} OneMoreTick(s: Scan, before: Scan, n: nat, c: char)
    requires s.escaped <==> n % 2 == 1 && before.quote != Some('\'')
    requires if n == 0 then s == before else s.quote == before.quote
    ensures c != '`' ==> !After(s, c).escaped
    ensures c == '`' ==> After(s, c).quote == before.quote
    ensures c == '`' ==> (After(s, c).escaped <==> (n + 1) % 2 == 1 && before.quote != Some('\''))
  {}
}
