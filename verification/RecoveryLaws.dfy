/** What a summary keeps of the runs it covers, and what the next prompt says of it (internal/agent/recovery.go). */
module RecoveryLaws {
  import opened Basics
  import opened SessionLog
  import opened Sessions
  import opened RunModel
  import opened Recovery

  // ----- The sections of the prompt

  function Shortened(text: string, max: nat): string {
    if |text| > max then text[..max] + "... [truncated]" else text
  }

  /** Which field of the summary a section is about, in the order of the prompt. */
  function Rank(x: Section): nat {
    match x
    case PreviousGoal(_) => 0
    case Decisions(_) => 1
    case ModifiedFiles(_) => 2
    case Commands(_) => 3
    case OpenErrors(_) => 4
    case Unfinished(_) => 5
    case LatestDiff(_) => 6
    case _ => 7
  }

  /** A section carries its own field, and is there exactly when that field is not empty. */
  predicate Tells(s: Summary, x: Section) {
    match x
    case PreviousGoal(text) => text == s.goal != ""
    case Decisions(notes) => notes == s.decisions != []
    case ModifiedFiles(paths) => paths == s.modifiedFiles != []
    case Commands(runs) => runs == s.verifications != []
    case OpenErrors(notes) => notes == s.openErrors != []
    case Unfinished(notes) => notes == s.pending != []
    case LatestDiff(text) => text == Shortened(s.latestDiff, 6000) && s.latestDiff != ""
    case _ => false
  }

  predicate Ranked(sections: seq<Section>) {
    forall i, j | 0 <= i < j < |sections| :: Rank(sections[i]) < Rank(sections[j])
  }

  lemma {:induction false} RankedParts(a: seq<Section>, b: seq<Section>, k: nat)
    requires Ranked(a) && Ranked(b) && (forall x | x in a :: Rank(x) < k) && forall x | x in b :: Rank(x) >= k
    ensures Ranked(a + b)
  {
    assert forall i | 0 <= i < |a| :: a[i] in a;
    assert forall i | 0 <= i < |b| :: b[i] in b;
  }

  lemma {:induction false} OneSection(wanted: bool, section: Section, x: Section)
    ensures x in WriteIf(wanted, section) <==> wanted && x == section
  {}

  lemma {:induction false} OneIsRanked(wanted: bool, section: Section)
    ensures Ranked(WriteIf(wanted, section))
  {}

  lemma {:induction false} InFour<T>(a: seq<T>, b: seq<T>, c: seq<T>, d: seq<T>, x: T)
    ensures x in a + b + c + d <==> x in a || x in b || x in c || x in d
  {}

  lemma {:induction false} InThree<T>(a: seq<T>, b: seq<T>, c: seq<T>, x: T)
    ensures x in a + b + c <==> x in a || x in b || x in c
  {}

  lemma {:induction false} WorkTells(s: Summary)
    ensures forall x :: x in SavedWork(s) <==> Rank(x) < 4 && Tells(s, x)
    ensures Ranked(SavedWork(s))
  {
    hide WriteIf, Ranked, SavedWork, Tells;
    var a, b := WriteIf(s.goal != "", PreviousGoal(s.goal)), WriteIf(s.decisions != [], Decisions(s.decisions));
    var c := WriteIf(s.modifiedFiles != [], ModifiedFiles(s.modifiedFiles));
    var d := WriteIf(s.verifications != [], Commands(s.verifications));
    WorkIs(s, a + b + c + d);
    forall x ensures x in SavedWork(s) <==> Rank(x) < 4 && Tells(s, x) {
      OneSection(s.goal != "", PreviousGoal(s.goal), x);
      OneSection(s.decisions != [], Decisions(s.decisions), x);
      OneSection(s.modifiedFiles != [], ModifiedFiles(s.modifiedFiles), x);
      OneSection(s.verifications != [], Commands(s.verifications), x);
      InFour(a, b, c, d, x);
      TellsWork(s, x);
    }
    OnlySection(s.goal != "", PreviousGoal(s.goal));
    OnlySection(s.decisions != [], Decisions(s.decisions));
    OnlySection(s.modifiedFiles != [], ModifiedFiles(s.modifiedFiles));
    OnlySection(s.verifications != [], Commands(s.verifications));
    OneIsRanked(s.goal != "", PreviousGoal(s.goal));
    OneIsRanked(s.decisions != [], Decisions(s.decisions));
    OneIsRanked(s.modifiedFiles != [], ModifiedFiles(s.modifiedFiles));
    OneIsRanked(s.verifications != [], Commands(s.verifications));
    RankedParts(a, b, 1);
    RankedParts(a + b, c, 2);
    RankedParts(a + b + c, d, 3);
  }

  lemma {:induction false} TellsWork(s: Summary, x: Section)
    ensures Rank(x) < 4 && Tells(s, x) <==>
            || (s.goal != "" && x == PreviousGoal(s.goal))
            || (s.decisions != [] && x == Decisions(s.decisions))
            || (s.modifiedFiles != [] && x == ModifiedFiles(s.modifiedFiles))
            || (s.verifications != [] && x == Commands(s.verifications))
  {}

  lemma {:induction false} WorkIs(s: Summary, parts: seq<Section>)
    requires parts == WriteIf(s.goal != "", PreviousGoal(s.goal)) + WriteIf(s.decisions != [], Decisions(s.decisions))
                      + WriteIf(s.modifiedFiles != [], ModifiedFiles(s.modifiedFiles))
                      + WriteIf(s.verifications != [], Commands(s.verifications))
    ensures SavedWork(s) == parts
  {
    hide WriteIf;
  }

  lemma {:induction false} StateTells(s: Summary)
    ensures forall x :: x in SavedState(s) <==> 4 <= Rank(x) < 7 && Tells(s, x)
    ensures Ranked(SavedState(s))
  {
    hide WriteIf, Ranked, SavedState, Tells, Clip;
    var diff := LatestDiff(Clip(s.latestDiff, MAX_DIFF));
    var a, b := WriteIf(s.openErrors != [], OpenErrors(s.openErrors)), WriteIf(s.pending != [], Unfinished(s.pending));
    var c := WriteIf(s.latestDiff != "", diff);
    StateIs(s, a + b + c);
    forall x ensures x in SavedState(s) <==> 4 <= Rank(x) < 7 && Tells(s, x) {
      OneSection(s.openErrors != [], OpenErrors(s.openErrors), x);
      OneSection(s.pending != [], Unfinished(s.pending), x);
      OneSection(s.latestDiff != "", diff, x);
      InThree(a, b, c, x);
      TellsState(s, x);
    }
    OnlySection(s.openErrors != [], OpenErrors(s.openErrors));
    OnlySection(s.pending != [], Unfinished(s.pending));
    OnlySection(s.latestDiff != "", diff);
    OneIsRanked(s.openErrors != [], OpenErrors(s.openErrors));
    OneIsRanked(s.pending != [], Unfinished(s.pending));
    OneIsRanked(s.latestDiff != "", diff);
    RankedParts(a, b, 5);
    RankedParts(a + b, c, 6);
  }

  lemma {:induction false} OnlySection(wanted: bool, section: Section)
    ensures forall x | x in WriteIf(wanted, section) :: x == section
  {}

  lemma {:induction false} TellsState(s: Summary, x: Section)
    ensures 4 <= Rank(x) < 7 && Tells(s, x) <==>
            || (s.openErrors != [] && x == OpenErrors(s.openErrors))
            || (s.pending != [] && x == Unfinished(s.pending))
            || (s.latestDiff != "" && x == LatestDiff(Clip(s.latestDiff, MAX_DIFF)))
  {}

  lemma {:induction false} StateIs(s: Summary, parts: seq<Section>)
    requires parts == WriteIf(s.openErrors != [], OpenErrors(s.openErrors))
                      + WriteIf(s.pending != [], Unfinished(s.pending))
                      + WriteIf(s.latestDiff != "", LatestDiff(Clip(s.latestDiff, MAX_DIFF)))
    ensures SavedState(s) == parts
  {
    hide WriteIf, Clip;
  }

  /** The saved part of the section says what the summary holds, field by field, in a fixed order. */
  lemma {:induction false} SectionsTellTheSummary(s: Summary)
    ensures forall x :: x in Saved(s) <==> Tells(s, x)
    ensures Ranked(Saved(s))
  {
    WorkTells(s);
    StateTells(s);
    hide SavedWork, SavedState;
    RankedParts(SavedWork(s), SavedState(s), 4);
  }

  /** Which gaps are stated, for every way of reading summary and log. */
  lemma {:induction false} GapsTellTheLog(summary: Option<Summary>, log: Option<ReadResult>, x: Section)
    ensures x in Gaps(summary, log) <==>
            match x
            case NothingKnown => (summary.None? || Blank(summary.value)) && log != Some(ReadResult([], false))
            case GapUnreadable => summary.Some? && !Blank(summary.value) && log.None?
            case GapEvents(n) => summary.Some? && !Blank(summary.value) && log.Some?
                                 && n == |log.value.events| - summary.value.lastEventSeq > 0
            case GapFragment => summary.Some? && !Blank(summary.value) && log.Some? && log.value.trailingFragment
            case _ => false
  {}

  // ----- One run

  /** What a run leaves as open: its tool failures, its risks, and an incomplete log. */
  predicate LeavesOpen(rep: Report, fails: nat, note: Note) {
    match note
    case ToolFailed(tool, text) =>
      exists f | f in rep.toolFailures :: tool == ToolName(f.tool) && text == Shortened(f.text, 400)
    case RiskNote(risk) => risk in rep.remainingRisks
    case LogIncomplete(n) => n == fails > 0
    case _ => false
  }

  /** What is still to do after a run. */
  predicate LeavesPending(rep: Report, fails: nat, note: Note) {
    match note
    case RunEnded(status) => status == rep.status != Completed
    case WaitingForApproval(command) =>
      rep.pendingApproval.Some? && command == Shortened(rep.pendingApproval.value.command, 400)
    case TreatedAsFailed => fails > 0 && rep.status == Completed
    case _ => false
  }

  lemma {:induction false} FailureNotesTell(failures: seq<ToolFailure>, note: Note)
    ensures note in FailureNotes(failures)
            <==> note.ToolFailed?
                 && exists f | f in failures :: note.tool == ToolName(f.tool) && note.text == Shortened(f.text, 400)
  {
    var notes := FailureNotes(failures);
    forall i | 0 <= i < |failures|
      ensures notes[i] == ToolFailed(ToolName(failures[i].tool), Shortened(failures[i].text, 400))
    {}
    if note.ToolFailed? && exists f | f in failures :: note.tool == ToolName(f.tool)
                                                       && note.text == Shortened(f.text, 400)
    {
      var f :| f in failures && note.tool == ToolName(f.tool) && note.text == Shortened(f.text, 400);
      var i :| 0 <= i < |failures| && failures[i] == f;
      assert notes[i] == note;
    }
  }

  lemma {:induction false} RiskNotesTell(risks: seq<Risk>, note: Note)
    ensures note in RiskNotes(risks) <==> note.RiskNote? && note.risk in risks
  {
    if note.RiskNote? && note.risk in risks {
      var i :| 0 <= i < |risks| && risks[i] == note.risk;
      assert RiskNotes(risks)[i] == note;
    }
  }

  lemma {:induction false} ToolsHaveTheirNames(name: string)
    ensures ToolName(CreateFile) == "create_file" && ToolName(WriteFile) == "write_file"
    ensures ToolName(ApplyPatch) == "apply_patch" && ToolName(RunPowershell) == "run_powershell"
    ensures ToolName(OtherTool(name)) == name
  {}

  /** Open errors and pending items are those of the last run alone. */
  lemma {:induction false} SummaryTellsTheLastRun(before: Option<Summary>, rep: Report, v: RunView, note: Note)
    ensures var sum := Summarize(before, rep, v);
            && sum.goal == Shortened(rep.task, 400)
            && (note in sum.openErrors <==> LeavesOpen(rep, v.appendFails, note))
            && (note in sum.pending <==> LeavesPending(rep, v.appendFails, note))
  {
    FailureNotesTell(rep.toolFailures, note);
    RiskNotesTell(rep.remainingRisks, note);
    hide FailureNotes, RiskNotes, DeclinedNotes, CapTail, AddAllOnce;
  }

  // ----- Many runs

  lemma {:induction false} CapTailTwice<T>(a: seq<T>, b: seq<T>, max: nat)
    ensures CapTail(CapTail(a, max) + b, max) == CapTail(a + b, max)
  {
    var tail := CapTail(a, max);
    var k := |a| - |tail|;
    assert a + b == a[..k] + (tail + b);
    TailOfSum(a[..k], tail + b, Min(|a + b|, max));
  }

  lemma {:induction false} TailOfSum<T>(a: seq<T>, b: seq<T>, n: nat)
    requires n <= |b|
    ensures (a + b)[|a + b| - n..] == b[|b| - n..]
  {}

  predicate NoRepeats<T(==)>(s: seq<T>) {
    forall i, j | 0 <= i < j < |s| :: s[i] != s[j]
  }

  /** Files are added behind the others, each once. */
  lemma {:induction false} AddedOnce(items: seq<string>, more: seq<string>)
    ensures items <= AddAllOnce(items, more)
    ensures forall x :: x in AddAllOnce(items, more) <==> x in items || x in more
    ensures NoRepeats(items) ==> NoRepeats(AddAllOnce(items, more))
    decreases |more|
  {
    if more != [] {
      AddedOnce(AddOnce(items, more[0]), more[1..]);
      assert more == [more[0]] + more[1..];
    }
  }

  lemma {:induction false} AddedInTwo(items: seq<string>, a: seq<string>, b: seq<string>)
    ensures AddAllOnce(AddAllOnce(items, a), b) == AddAllOnce(items, a + b)
    decreases |a|
  {
    if a == [] {
      assert a + b == b;
    } else {
      assert (a + b)[1..] == a[1..] + b;
      AddedInTwo(AddOnce(items, a[0]), a[1..], b);
    }
  }

  /**
   * One run keeps what earlier ones saved, up to the limits: of decisions and commands the newest twenty, of files
   * the two hundred added last. A file that is listed keeps its place when it is edited again.
   */
  lemma {:induction false} EarlierWorkIsKept(before: Option<Summary>, rep: Report, v: RunView)
    ensures var prev := if before.Some? then before.value else EMPTY_SUMMARY;
            var sum := Summarize(before, rep, v);
            var decisions := prev.decisions + [UserInstruction(Shortened(rep.task, 400))]
                             + DeclinedNotes(v.facts.declined);
            var verifications := prev.verifications + rep.verifications;
            var files := AddAllOnce(prev.modifiedFiles, rep.modifiedFiles);
            && sum.decisions == decisions[Max(0, |decisions| - 20)..]
            && sum.verifications == verifications[Max(0, |verifications| - 20)..]
            && sum.modifiedFiles == files[Max(0, |files| - 200)..]
            && sum.latestDiff == (if rep.diff == "" then prev.latestDiff else rep.diff)
            && sum.lastEventSeq == prev.lastEventSeq
  {
    hide DeclinedNotes, FailureNotes, RiskNotes, AddAllOnce, PendingNotes;
  }

  /** With the list full, a file at its front that is edited again is dropped when another file comes in. */
  lemma {:induction false} ReeditedFileIsDropped(before: Summary, rep: Report, v: RunView, new': string)
    requires |before.modifiedFiles| == 200 && NoRepeats(before.modifiedFiles) && new' !in before.modifiedFiles
    requires rep.modifiedFiles == [before.modifiedFiles[0], new']
    ensures before.modifiedFiles[0] in rep.modifiedFiles
    ensures before.modifiedFiles[0] !in Summarize(Some(before), rep, v).modifiedFiles
  {
    EarlierWorkIsKept(Some(before), rep, v);
    var files, again := before.modifiedFiles, before.modifiedFiles[0];
    assert [again, new'][1..] == [new'] && [new'][1..] == [];
    assert AddAllOnce(files, [again, new']) == AddAllOnce(files, [new']) == AddAllOnce(files + [new'], []);
    assert (files + [new'])[1..] == files[1..] + [new'];
    hide Summarize, AddAllOnce;
  }

  lemma {:induction false} DeclinedNotesTell(commands: seq<string>, i: nat)
    requires i < |commands|
    ensures |DeclinedNotes(commands)| == |commands|
    ensures DeclinedNotes(commands)[i] == UserDeclined(Shortened(commands[i], 400))
  {}
}
