/** Several runs of one session: what the next run is told about them (internal/agent/runtime.go, recovery.go). */
module RunSessions {
  import opened Basics
  import opened SessionLog
  import opened Sessions
  import opened SessionFailures
  import opened RunRecord
  import opened RunModel
  import opened RunSpec
  import opened RunLaws
  import opened RunTrace
  import opened RunFacts
  import RunReports
  import opened Recovery
  import opened RecoveryLaws
  import opened SessionLedger

  /** One run of a session: its surroundings, how its entries are appended, and what arrives. */
  datatype SessionRun = SessionRun(w: World, recorder: Recorder, arrivals: seq<Arrival>) {
    /** The summary that the run saves, if it can. */
    function Saved(): Option<Summary> {
      OnePass(w, arrivals).saved
    }

    function TakenIn(): seq<PiEvent> {
      RunReports.EventsOf(w, arrivals)
    }
  }

  function SaveOf(summary: Option<Summary>): Op {
    Save(if summary.Some? then summary.value else EMPTY_SUMMARY, summary.Some?)
  }

  /** A run reads the log for its prompt, appends its entries and saves its summary. */
  function RunOps(run: SessionRun): seq<Op> {
    [Read(true)] + Appends(run.recorder, LogImage(run.TakenIn())) + [SaveOf(run.Saved())]
  }

  function AllOps(runs: seq<SessionRun>): seq<Op>
    decreases |runs|
  {
    if runs == [] then [] else AllOps(Init(runs)) + RunOps(Last(runs))
  }

  function StoreAfter(codec: Codec, runs: seq<SessionRun>): Store {
    RunStore(codec, FRESH, AllOps(runs))
  }

  function HistoryAfter(codec: Codec, runs: seq<SessionRun>): History {
    RunHistory(codec, FRESH, NOTHING, AllOps(runs))
  }

  /** The events that the runs since the last saved summary have completed. */
  function UnsavedEvents(codec: Codec, runs: seq<SessionRun>): int
    decreases |runs|
  {
    if runs == [] || Last(runs).Saved().Some? then 0
    else
      UnsavedEvents(codec, Init(runs))
      + |HistoryAfter(codec, runs).events| - |HistoryAfter(codec, Init(runs)).events|
  }

  lemma {:induction false} RunInTwo(codec: Codec, s: Store, h: History, a: seq<Op>, b: seq<Op>)
    ensures RunStore(codec, s, a + b) == RunStore(codec, RunStore(codec, s, a), b)
    ensures RunHistory(codec, s, h, a + b) == RunHistory(codec, RunStore(codec, s, a), RunHistory(codec, s, h, a), b)
    decreases |a|
  {
    hide Do, Track;
    if a == [] {
      assert a + b == b;
    } else {
      assert (a + b)[1..] == a[1..] + b;
      RunInTwo(codec, Do(codec, s, a[0]), Track(codec, s, h, a[0]), a[1..], b);
    }
  }

  predicate OnlyReadsAndAppends(ops: seq<Op>) {
    forall op | op in ops :: op.Append? || op.Read?
  }

  /** Reading and appending save nothing and close nothing. */
  lemma {:induction false} NothingSaved(codec: Codec, s: Store, h: History, ops: seq<Op>)
    requires OnlyReadsAndAppends(ops)
    ensures RunStore(codec, s, ops).closed == s.closed && RunStore(codec, s, ops).summary == s.summary
    ensures RunHistory(codec, s, h, ops).atSave == h.atSave
    decreases |ops|
  {
    if ops != [] {
      assert ops[0] in ops;
      NothingSaved(codec, Do(codec, s, ops[0]), Track(codec, s, h, ops[0]), ops[1..]);
    }
  }

  lemma {:induction false} OneOp(codec: Codec, s: Store, h: History, op: Op)
    ensures RunStore(codec, s, [op]) == Do(codec, s, op) && RunHistory(codec, s, h, [op]) == Track(codec, s, h, op)
  {
    assert [op][1..] == [];
  }

  /** A run leaves the saved count alone, or sets it to the events there are. */
  lemma {:induction false} RunSavesOrNot(codec: Codec, s: Store, h: History, run: SessionRun)
    requires !s.closed
    ensures !RunStore(codec, s, RunOps(run)).closed
    ensures var after := RunHistory(codec, s, h, RunOps(run));
            after.atSave == if run.Saved().Some? then |after.events| else h.atSave
    ensures SameWork(RunStore(codec, s, RunOps(run)).summary,
                     if run.Saved().Some? then run.Saved().value else s.summary)
  {
    var ops, save := [Read(true)] + Appends(run.recorder, LogImage(run.TakenIn())), SaveOf(run.Saved());
    assert OnlyReadsAndAppends(ops);
    hide Appends, LogImage, OnePass;
    NothingSaved(codec, s, h, ops);
    RunInTwo(codec, s, h, ops, [save]);
    OneOp(codec, RunStore(codec, s, ops), RunHistory(codec, s, h, ops), save);
  }

  lemma {:induction false} NoOps(codec: Codec)
    ensures RunStore(codec, FRESH, []) == FRESH && RunHistory(codec, FRESH, NOTHING, []) == NOTHING
  {}

  /** Since the last saved summary exactly the events of the runs without one have been completed. */
  lemma {:induction false} UnsavedAreNotCovered(codec: Codec, runs: seq<SessionRun>)
    ensures !StoreAfter(codec, runs).closed
    ensures var h := HistoryAfter(codec, runs); |h.events| - h.atSave == UnsavedEvents(codec, runs)
    decreases |runs|
  {
    hide RunStore, RunHistory, RunOps, OnePass;
    NoOps(codec);
    if runs != [] {
      UnsavedAreNotCovered(codec, Init(runs));
      RunInTwo(codec, FRESH, NOTHING, AllOps(Init(runs)), RunOps(Last(runs)));
      RunSavesOrNot(codec, StoreAfter(codec, Init(runs)), HistoryAfter(codec, Init(runs)), Last(runs));
    }
  }

  /**
   * Over any sequence of runs, the next prompt states as its gap exactly the events of the runs whose summary was not
   * saved since the last one that was, and one more if that summary missed an event.
   */
  lemma {:induction false} GapIsUnsavedRuns(codec: Codec, runs: seq<SessionRun>, summary: Option<Summary>)
    requires codec.Faithful() && AllAllowed(codec, FRESH, NOTHING, AllOps(runs))
    requires summary == Some(StoreAfter(codec, runs).summary) && Usable(summary)
    ensures var h := HistoryAfter(codec, runs);
            var told := UnsavedEvents(codec, runs) + (if h.saveMissedOne then 1 else 0);
            forall n :: GapEvents(n) in Gaps(summary, ReadLog(codec, StoreAfter(codec, runs).log, 0)) <==> n == told > 0
  {
    UnsavedAreNotCovered(codec, runs);
    GapIsTold(codec, AllOps(runs), summary);
    hide AllAllowed, UnsavedEvents, AllOps, Gaps, ReadLog, RunStore, RunHistory, OnePass;
  }

  // ----- What the next prompt says of the runs

  /** The summary of the last run that could save one. */
  function LastSaved(runs: seq<SessionRun>): Summary
    decreases |runs|
  {
    if runs == [] then EMPTY_SUMMARY
    else if Last(runs).Saved().Some? then Last(runs).Saved().value
    else LastSaved(Init(runs))
  }

  lemma {:induction false} StoreHoldsLastSaved(codec: Codec, runs: seq<SessionRun>)
    ensures SameWork(StoreAfter(codec, runs).summary, LastSaved(runs))
    decreases |runs|
  {
    hide RunStore, RunHistory, RunOps, OnePass;
    NoOps(codec);
    if runs != [] {
      StoreHoldsLastSaved(codec, Init(runs));
      UnsavedAreNotCovered(codec, Init(runs));
      RunInTwo(codec, FRESH, NOTHING, AllOps(Init(runs)), RunOps(Last(runs)));
      RunSavesOrNot(codec, StoreAfter(codec, Init(runs)), HistoryAfter(codec, Init(runs)), Last(runs));
    }
  }

  /** The next prompt shows, section by section, the summary of the last run that saved one. */
  lemma {:induction false} NextPromptShowsLastSaved(codec: Codec, runs: seq<SessionRun>, x: Section)
    ensures x in Recovery.Saved(StoreAfter(codec, runs).summary) <==> Tells(LastSaved(runs), x)
  {
    StoreHoldsLastSaved(codec, runs);
    hide RunStore, AllOps, OnePass, Recovery.Saved;
    SectionsTellTheSummary(StoreAfter(codec, runs).summary);
  }

  /** Every run starts with the summary that the store holds. */
  predicate Continued(codec: Codec, runs: seq<SessionRun>) {
    forall k | 0 <= k < |runs| :: runs[k].w.summaryBefore == Some(StoreAfter(codec, runs[..k]).summary)
  }

  /** The runs whose summary was saved. */
  function Covered(runs: seq<SessionRun>): seq<SessionRun> {
    if runs == [] then []
    else Covered(Init(runs)) + if Last(runs).w.summarySaves then [Last(runs)] else []
  }

  function AllVerifications(runs: seq<SessionRun>): seq<Verification> {
    if runs == [] then [] else AllVerifications(Init(runs)) + VerificationsOf(Last(runs).TakenIn())
  }

  /** The task of a run, followed by the commands that were refused in it. */
  function DecisionsOf(run: SessionRun): seq<Note> {
    [UserInstruction(Shortened(run.w.task, 400))] + DeclinedNotes(DeclinedOf(run.TakenIn()))
  }

  function AllDecisions(runs: seq<SessionRun>): seq<Note> {
    if runs == [] then [] else AllDecisions(Init(runs)) + DecisionsOf(Last(runs))
  }

  /** Every edited file once, in the order of the first edit. */
  function AllFiles(runs: seq<SessionRun>): seq<string> {
    if runs == [] then [] else AddAllOnce(AllFiles(Init(runs)), FactsAfter(Last(runs).TakenIn()).modified)
  }

  function Newest<T>(items: seq<T>, max: nat): seq<T> {
    items[Max(0, |items| - max)..]
  }

  predicate Accumulates(sum: Summary, covered: seq<SessionRun>) {
    && sum.verifications == Newest(AllVerifications(covered), 20)
    && sum.decisions == Newest(AllDecisions(covered), 20)
    && (|AllFiles(covered)| <= 200 ==> sum.modifiedFiles == AllFiles(covered))
    && (covered != [] ==> sum.goal == Shortened(Last(covered).w.task, 400))
  }

  lemma {:induction false} NewestTwice<T>(a: seq<T>, b: seq<T>, max: nat)
    ensures Newest(Newest(a, max) + b, max) == Newest(a + b, max)
  {
    CapTailTwice(a, b, max);
  }

  lemma {:induction false} AllOfOneMore(covered: seq<SessionRun>, run: SessionRun)
    ensures AllVerifications(covered + [run]) == AllVerifications(covered) + VerificationsOf(run.TakenIn())
    ensures AllDecisions(covered + [run]) == AllDecisions(covered) + DecisionsOf(run)
    ensures AllFiles(covered + [run]) == AddAllOnce(AllFiles(covered), FactsAfter(run.TakenIn()).modified)
  {
    hide VerificationsOf, DeclinedOf, DeclinedNotes, FactsAfter, RunReports.EventsOf, AddAllOnce, Shortened;
    assert Init(covered + [run]) == covered;
  }

  lemma {:induction false} FilesOfOneMore(kept: seq<string>, all': seq<string>, more: seq<string>)
    requires |all'| <= 200 ==> kept == all'
    ensures |AddAllOnce(all', more)| <= 200 ==> Newest(AddAllOnce(kept, more), 200) == AddAllOnce(all', more)
  {
    AddedOnce(all', more);
    hide AddAllOnce;
  }

  /** What a run saves, as parts of what it started with and of what it did. */
  lemma {:induction false} SavedParts(run: SessionRun)
    requires run.w.summaryBefore.Some? && run.w.summarySaves
    ensures run.Saved().Some?
    ensures var before, sum := run.w.summaryBefore.value, run.Saved().value;
            && sum.verifications == Newest(before.verifications + VerificationsOf(run.TakenIn()), 20)
            && sum.decisions == Newest(before.decisions + DecisionsOf(run), 20)
            && sum.modifiedFiles == Newest(AddAllOnce(before.modifiedFiles, FactsAfter(run.TakenIn()).modified), 200)
            && sum.goal == Shortened(run.w.task, 400)
  {
    var rep, v := RunReports.SavedTellsTheRun(run.w, run.arrivals);
    EarlierWorkIsKept(run.w.summaryBefore, rep, v);
    SummaryTellsTheLastRun(run.w.summaryBefore, rep, v, TreatedAsFailed);
    hide OnePass, Summarize, VerificationsOf, DeclinedOf, DeclinedNotes, FactsAfter, RunReports.EventsOf, AddAllOnce,
         Pick, Map, Shortened, LeavesOpen, LeavesPending;
    var task := [UserInstruction(Shortened(run.w.task, 400))];
    var decisions := run.w.summaryBefore.value.decisions;
    var declined := DeclinedNotes(DeclinedOf(run.TakenIn()));
    assert decisions + task + declined == decisions + (task + declined);
  }

  /** One more covered run on top of the earlier ones. */
  lemma {:induction false} OneMoreCovered(before: Summary, covered: seq<SessionRun>, run: SessionRun)
    requires Accumulates(before, covered) && run.w.summaryBefore == Some(before) && run.w.summarySaves
    ensures run.Saved().Some? && Accumulates(run.Saved().value, covered + [run])
  {
    hide AllVerifications, AllDecisions, AllFiles, DecisionsOf, VerificationsOf, FactsAfter, AddAllOnce, Newest,
         OnePass, RunReports.EventsOf, Shortened;
    SavedParts(run);
    AllOfOneMore(covered, run);
    NewestTwice(AllVerifications(covered), VerificationsOf(run.TakenIn()), 20);
    NewestTwice(AllDecisions(covered), DecisionsOf(run), 20);
    FilesOfOneMore(before.modifiedFiles, AllFiles(covered), FactsAfter(run.TakenIn()).modified);
    assert Last(covered + [run]) == run;
  }

  /**
   * Over any sequence of runs in which each starts from the stored summary, the summary holds the newest commands and
   * decisions of all runs that were saved, and all files they edited, as long as the limits allow.
   */
  lemma {:induction false} SummaryTellsAllSavedRuns(codec: Codec, runs: seq<SessionRun>)
    requires Continued(codec, runs)
    ensures Accumulates(StoreAfter(codec, runs).summary, Covered(runs))
    decreases |runs|
  {
    hide RunStore, RunHistory, RunOps, OnePass, AllVerifications, AllDecisions, AllFiles;
    NoOps(codec);
    if runs == [] {
      NothingAccumulated();
    } else {
      var before, run := Init(runs), Last(runs);
      assert forall k | 0 <= k < |before| :: before[..k] == runs[..k];
      SummaryTellsAllSavedRuns(codec, before);
      UnsavedAreNotCovered(codec, before);
      RunInTwo(codec, FRESH, NOTHING, AllOps(before), RunOps(run));
      RunSavesOrNot(codec, StoreAfter(codec, before), HistoryAfter(codec, before), run);
      EveryExitIsConsistent(run.w, run.arrivals);
      assert runs[..|runs| - 1] == before;
      assert Covered(before) + [] == Covered(before);
      hide Newest, Shortened;
      if run.w.summarySaves {
        OneMoreCovered(StoreAfter(codec, before).summary, Covered(before), run);
      }
    }
  }

  lemma {:induction false} NothingAccumulated()
    ensures Accumulates(EMPTY_SUMMARY, [])
  {}
}
