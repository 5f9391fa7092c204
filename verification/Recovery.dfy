/** Handing the work of earlier runs to the next one (internal/agent/recovery.go). */
module Recovery {
  import opened Basics
  import opened SessionLog
  import opened Sessions
  import opened RunModel

  const MAX_DECISIONS := 20
  const MAX_MODIFIED_FILES := 200
  const MAX_VERIFICATIONS := 20
  const MAX_DIFF := 6000
  const MAX_ITEM := 400

  function Clip(s: string, max: nat): string {
    if |s| <= max then s else s[..max] + "... [truncated]"
  }

  function CapTail<T>(items: seq<T>, max: nat): (r: seq<T>)
    ensures |r| == Min(|items|, max)
    ensures r == items[|items| - |r|..]
  {
    if |items| > max then items[|items| - max..] else items
  }

  /** Capping after every added item keeps what capping once at the end keeps. */
  lemma {:induction false} CapTailOnce<T>(items: seq<T>, item: T, max: nat)
    requires max > 0
    ensures CapTail(CapTail(items, max) + [item], max) == CapTail(items + [item], max)
  {}

  function AddAllOnce(items: seq<string>, more: seq<string>): seq<string>
    decreases |more|
  {
    if more == [] then items else AddAllOnce(AddOnce(items, more[0]), more[1..])
  }

  function DeclinedNotes(commands: seq<string>): seq<Note> {
    seq(|commands|, i requires 0 <= i < |commands| => UserDeclined(Clip(commands[i], MAX_ITEM)))
  }

  function FailureNotes(failures: seq<ToolFailure>): seq<Note> {
    seq(|failures|, i requires 0 <= i < |failures| =>
      ToolFailed(ToolName(failures[i].tool), Clip(failures[i].text, MAX_ITEM)))
  }

  function RiskNotes(risks: seq<Risk>): seq<Note> {
    seq(|risks|, i requires 0 <= i < |risks| => RiskNote(risks[i]))
  }

  function NoteIf(wanted: bool, note: Note): seq<Note> {
    if wanted then [note] else []
  }

  function WaitingNote(pending: Option<ApprovalFact>): seq<Note> {
    if pending.Some? then [WaitingForApproval(Clip(pending.value.command, MAX_ITEM))] else []
  }

  function PendingNotes(rep: Report, appendFails: nat): seq<Note> {
    NoteIf(rep.status != Completed, RunEnded(rep.status))
    + WaitingNote(rep.pendingApproval)
    + NoteIf(appendFails > 0 && rep.status == Completed, TreatedAsFailed)
  }

  /** The summary after a run: lists accumulate up to their limits, open errors and pending items are replaced. */
  function Summarize(before: Option<Summary>, rep: Report, v: RunView): Summary {
    var prev := if before.Some? then before.value else EMPTY_SUMMARY;
    prev.(goal := Clip(rep.task, MAX_ITEM),
          decisions := CapTail(prev.decisions + [UserInstruction(Clip(rep.task, MAX_ITEM))]
              + DeclinedNotes(v.facts.declined),
                               MAX_DECISIONS),
          modifiedFiles := CapTail(AddAllOnce(prev.modifiedFiles, rep.modifiedFiles), MAX_MODIFIED_FILES),
          latestDiff := if rep.diff != "" then rep.diff else prev.latestDiff,
          verifications := CapTail(prev.verifications + rep.verifications, MAX_VERIFICATIONS),
          openErrors := FailureNotes(rep.toolFailures) + RiskNotes(rep.remainingRisks)
                        + NoteIf(v.appendFails > 0, LogIncomplete(v.appendFails)),
          pending := PendingNotes(rep, v.appendFails))
  }

  /** The loop over the declined commands, capped after each. */
  method AddDeclined(base: seq<Note>, declined: seq<string>) returns (decisions: seq<Note>)
    ensures decisions == CapTail(base + DeclinedNotes(declined), MAX_DECISIONS)
  {
    var notes := DeclinedNotes(declined);
    decisions := CapTail(base, MAX_DECISIONS);
    assert base + [] == base;
    for i := 0 to |notes|
      invariant decisions == CapTail(base + notes[..i], MAX_DECISIONS)
    {
      CapTailOnce(base + notes[..i], notes[i], MAX_DECISIONS);
      assert base + notes[..i] + [notes[i]] == base + notes[..i + 1];
      decisions := CapTail(decisions + [notes[i]], MAX_DECISIONS);
    }
    assert notes[..|notes|] == notes;
  }

  /** The loop over the modified files. */
  method MergeFiles(before: seq<string>, more: seq<string>) returns (files: seq<string>)
    ensures files == AddAllOnce(before, more)
  {
    files := before;
    for i := 0 to |more|
      invariant AddAllOnce(files, more[i..]) == AddAllOnce(before, more)
    {
      assert more[i..][1..] == more[i + 1..];
      if more[i] !in files {
        files := files + [more[i]];
      }
    }
  }

  /** `updateSummary` up to the save. */
  method UpdateSummary(before: Option<Summary>, rep: Report, v: RunView) returns (sum: Summary)
    ensures sum == Summarize(before, rep, v)
  {
    hide CapTail, Clip, DeclinedNotes, FailureNotes, RiskNotes, AddAllOnce, NoteIf, WaitingNote;
    sum := if before.Some? then before.value else EMPTY_SUMMARY;
    var decisions := AddDeclined(sum.decisions + [UserInstruction(Clip(rep.task, MAX_ITEM))], v.facts.declined);
    var files := MergeFiles(sum.modifiedFiles, rep.modifiedFiles);
    var errors := FailureNotes(rep.toolFailures) + RiskNotes(rep.remainingRisks);
    var pending := NoteIf(rep.status != Completed, RunEnded(rep.status));
    pending := pending + WaitingNote(rep.pendingApproval);
    errors := errors + NoteIf(v.appendFails > 0, LogIncomplete(v.appendFails));
    pending := pending + NoteIf(v.appendFails > 0 && rep.status == Completed, TreatedAsFailed);
    sum := sum.(goal := Clip(rep.task, MAX_ITEM), decisions := decisions,
                modifiedFiles := CapTail(files, MAX_MODIFIED_FILES),
                latestDiff := if rep.diff != "" then rep.diff else sum.latestDiff,
                verifications := CapTail(sum.verifications + rep.verifications, MAX_VERIFICATIONS),
                openErrors := errors, pending := pending);
  }

  // ----- The section of the next prompt

  datatype Section =
    | PreviousGoal(text: string)
    | Decisions(notes: seq<Note>)
    | ModifiedFiles(paths: seq<string>)
    | Commands(runs: seq<Verification>)
    | OpenErrors(notes: seq<Note>)
    | Unfinished(notes: seq<Note>)
    | LatestDiff(text: string)
    | GapUnreadable
    | GapEvents(count: int)
    | GapFragment
    | NothingKnown

  /** A summary with nothing to hand over. */
  predicate Blank(s: Summary) {
    && s.goal == "" && s.decisions == [] && s.modifiedFiles == [] && s.verifications == []
    && s.openErrors == [] && s.pending == [] && s.latestDiff == ""
  }

  predicate Usable(summary: Option<Summary>) {
    summary.Some? && !Blank(summary.value)
  }

  predicate NothingHappened(log: Option<ReadResult>) {
    log == Some(ReadResult([], false))
  }

  predicate IsGap(s: Section) {
    s.GapUnreadable? || s.GapEvents? || s.GapFragment? || s.NothingKnown?
  }

  /** The gaps that must be stated, given the summary (None when unreadable) and the log (None when unreadable). */
  function Gaps(summary: Option<Summary>, log: Option<ReadResult>): seq<Section> {
    if !Usable(summary) then if NothingHappened(log) then [] else [NothingKnown]
    else if log.None? then [GapUnreadable]
    else
      (if |log.value.events| > summary.value.lastEventSeq
       then [GapEvents(|log.value.events| - summary.value.lastEventSeq)] else [])
      + (if log.value.trailingFragment then [GapFragment] else [])
  }

  function WriteIf(wanted: bool, section: Section): seq<Section> {
    if wanted then [section] else []
  }

  function SavedWork(s: Summary): seq<Section> {
    WriteIf(s.goal != "", PreviousGoal(s.goal))
    + WriteIf(s.decisions != [], Decisions(s.decisions))
    + WriteIf(s.modifiedFiles != [], ModifiedFiles(s.modifiedFiles))
    + WriteIf(s.verifications != [], Commands(s.verifications))
  }

  function SavedState(s: Summary): seq<Section> {
    WriteIf(s.openErrors != [], OpenErrors(s.openErrors))
    + WriteIf(s.pending != [], Unfinished(s.pending))
    + WriteIf(s.latestDiff != "", LatestDiff(Clip(s.latestDiff, MAX_DIFF)))
  }

  /** The saved part of the section. */
  function Saved(s: Summary): seq<Section> {
    SavedWork(s) + SavedState(s)
  }

  lemma {:induction false} SavedWorkIsEmpty(s: Summary)
    ensures SavedWork(s) == [] <==> s.goal == "" && s.decisions == [] && s.modifiedFiles == [] && s.verifications == []
    ensures forall x | x in SavedWork(s) :: !IsGap(x)
  {}

  lemma {:induction false} SavedStateIsEmpty(s: Summary)
    ensures SavedState(s) == [] <==> s.openErrors == [] && s.pending == [] && s.latestDiff == ""
    ensures forall x | x in SavedState(s) :: !IsGap(x)
  {}

  lemma {:induction false} SavedIsEmptyIffBlank(s: Summary)
    ensures Saved(s) == [] <==> Blank(s)
    ensures forall x | x in Saved(s) :: !IsGap(x)
  {
    hide SavedWork, SavedState;
    SavedWorkIsEmpty(s);
    SavedStateIsEmpty(s);
  }

  /**
   * `recoveryContext`: what was saved, followed by the gaps. There is no section at all exactly for a session
   * in which nothing was saved and nothing happened.
   */
  method RecoveryContext(summary: Option<Summary>, log: Option<ReadResult>) returns (out: seq<Section>)
    ensures out == (if Usable(summary) then Saved(summary.value) else []) + Gaps(summary, log)
    ensures out == [] <==> !Usable(summary) && NothingHappened(log)
    ensures forall s | IsGap(s) :: s in out <==> s in Gaps(summary, log)
  {
    hide Saved, Blank;
    var sum := if summary.Some? then summary.value else EMPTY_SUMMARY;
    out := WriteSaved(sum);
    SavedIsEmptyIffBlank(sum);
    if summary.None? || |out| == 0 {
      if log.Some? && log.value.events == [] && !log.value.trailingFragment {
        return [];
      }
      return [NothingKnown];
    }
    if log.None? {
      out := out + [GapUnreadable];
    } else {
      if |log.value.events| > sum.lastEventSeq {
        out := out + [GapEvents(|log.value.events| - sum.lastEventSeq)];
      }
      if log.value.trailingFragment {
        out := out + [GapFragment];
      }
    }
  }

  method WriteSaved(sum: Summary) returns (out: seq<Section>)
    ensures out == Saved(sum)
  {
    hide WriteIf;
    var work := WriteIf(sum.goal != "", PreviousGoal(sum.goal));
    work := work + WriteIf(sum.decisions != [], Decisions(sum.decisions));
    work := work + WriteIf(sum.modifiedFiles != [], ModifiedFiles(sum.modifiedFiles));
    work := work + WriteIf(sum.verifications != [], Commands(sum.verifications));
    var state := WriteIf(sum.openErrors != [], OpenErrors(sum.openErrors));
    state := state + WriteIf(sum.pending != [], Unfinished(sum.pending));
    state := state + WriteIf(sum.latestDiff != "", LatestDiff(Clip(sum.latestDiff, MAX_DIFF)));
    return work + state;
  }

  /**
   * Whatever happened to a session - appends cut anywhere, saves, resumes - the next run is told exactly
   * how many complete events the summary does not cover, and that a record is incomplete.
   */
  lemma {:induction false} GapIsTold(codec: Codec, ops: seq<Op>, summary: Option<Summary>)
    requires codec.Faithful() && AllAllowed(codec, FRESH, NOTHING, ops)
    requires summary == Some(RunStore(codec, FRESH, ops).summary)
    ensures var s, h := RunStore(codec, FRESH, ops), RunHistory(codec, FRESH, NOTHING, ops);
            var gaps := Gaps(summary, ReadLog(codec, s.log, 0));
            var missed := |h.events| - h.atSave + (if h.saveMissedOne then 1 else 0);
            && (h.events != [] || h.fragment != [] ==>
                  gaps != [] || (Usable(summary) && missed == 0 && h.fragment == []))
            && (!Usable(summary) ==> (gaps == [] <==> h.events == [] && h.fragment == []))
            && (Usable(summary) ==>
                  && (forall n :: GapEvents(n) in gaps <==> n == missed > 0)
                  && (GapFragment in gaps <==> h.fragment != []))
  {
    LogSurvivesAnyRun(codec, ops, []);
    CursorGapIsExact(codec, ops);
  }
}
