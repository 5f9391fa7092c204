/** When a run starts and ends, and what its report and error say then (internal/agent/runtime.go, facts.go). */
module RunReports {
  import opened Basics
  import opened Sessions
  import opened RunModel
  import opened Recovery
  import opened RunSpec
  import opened RunLaws
  import opened RunTrace
  import opened RunFacts

  // ----- The acknowledgement

  /** An event that does not answer the prompt. */
  predicate BeforeAck(a: Arrival) {
    a.Ev? && a.e.kind != Response
  }

  /** What the first arrival of another kind means for the prompt; `GoneBeforeAck` when there is none. */
  function Answers(arrivals: seq<Arrival>, k: nat): Ack
    requires k <= |arrivals|
  {
    if k == |arrivals| then NotAcked(GoneBeforeAck)
    else
      match arrivals[k]
      case Cancelled => NotAcked(CancelledBeforeAck)
      case TimedOut => NotAcked(AckTimedOut)
      case ProcessDone => NotAcked(GoneBeforeAck)
      case StreamClosed => NotAcked(GoneBeforeAck)
      case Ev(e) =>
        if e.success then Acked(k)
        else NotAcked(if e.errorMessage == "" then NotAcknowledged else PromptRejected(e.errorMessage))
  }

  /** The first arrival that is a response, or no event, decides. */
  lemma {:induction false} FirstDecides(arrivals: seq<Arrival>, k: nat)
    requires k <= |arrivals| && forall i | 0 <= i < k :: BeforeAck(arrivals[i])
    requires k < |arrivals| ==> !BeforeAck(arrivals[k])
    ensures FindAck(arrivals) == Answers(arrivals, k)
    decreases k
  {
    if k > 0 {
      assert BeforeAck(arrivals[0]);
      FirstDecides(arrivals[1..], k - 1);
    }
  }

  /** A prompt is acknowledged exactly by a successful response with nothing but other events before it. */
  lemma {:induction false} AckedIff(arrivals: seq<Arrival>, k: nat)
    ensures FindAck(arrivals) == Acked(k) <==>
            && k < |arrivals| && arrivals[k].Ev? && arrivals[k].e.kind == Response && arrivals[k].e.success
            && forall i | 0 <= i < k :: BeforeAck(arrivals[i])
  {
    if FindAck(arrivals) == Acked(k) {
      AckIsFirstResponse(arrivals);
    } else if k < |arrivals| && !BeforeAck(arrivals[k]) && forall i | 0 <= i < k :: BeforeAck(arrivals[i]) {
      FirstDecides(arrivals, k);
    }
  }

  // ----- The end

  /** An arrival that does not end a run in progress. */
  predicate GoesOn(a: Arrival) {
    a.ProcessDone? || (a.Ev? && !EndsRun(a.e))
  }

  function EventsIn(arrivals: seq<Arrival>): seq<PiEvent> {
    if arrivals == [] then []
    else (if arrivals[0].Ev? then [arrivals[0].e] else []) + EventsIn(arrivals[1..])
  }

  function EndBy(arrivals: seq<Arrival>, k: nat): End
    requires k <= |arrivals|
  {
    if k == |arrivals| then Gone
    else
      match arrivals[k]
      case Cancelled => Aborted
      case TimedOut => Expired
      case StreamClosed => Gone
      case ProcessDone => Gone
      case Ev(e) => if e.kind == AgentSettled then Settled else Stopped
  }

  /** The first arrival that does not go on ends the run, and exactly the events up to it are taken in. */
  lemma {:induction false} FirstEnds(arrivals: seq<Arrival>, k: nat)
    requires k <= |arrivals| && forall i | 0 <= i < k :: GoesOn(arrivals[i])
    requires k < |arrivals| ==> !GoesOn(arrivals[k])
    ensures EndOf(arrivals) == EndBy(arrivals, k)
    ensures Taken(arrivals) == EventsIn(if k < |arrivals| then arrivals[..k + 1] else arrivals)
    decreases k
  {
    if k == 0 {
      if arrivals != [] {
        assert arrivals[..1] == [arrivals[0]] && arrivals[..1][1..] == [];
      }
    } else {
      assert GoesOn(arrivals[0]);
      FirstEnds(arrivals[1..], k - 1);
      if k < |arrivals| {
        assert arrivals[..k + 1][1..] == arrivals[1..][..k];
      }
    }
  }

  // ----- Status and error

  function Ending(arrivals: seq<Arrival>): End
    requires FindAck(arrivals).Acked?
  {
    EndOf(Without(arrivals, FindAck(arrivals).at))
  }

  /** How many of the run's appends to the session log failed. */
  function LostEntries(w: World, arrivals: seq<Arrival>): nat
    requires FindAck(arrivals).Acked?
  {
    Failing(w.appendFails, |LogImage(RunEvents(arrivals))|)
  }

  /** What is known of a launched run when it is concluded. */
  lemma {:induction false} LaunchedView(w: World, arrivals: seq<Arrival>) returns (v: RunView)
    requires Launched(w, arrivals)
    ensures OnePass(w, arrivals) == Conclude(w, v, Ending(arrivals)) && IsImage(w, v, RunEvents(arrivals))
    ensures v.turns == |Pick(RunEvents(arrivals), StartsTurn)| && v.finalError == LastError(RunEvents(arrivals))
  {
    hide IsImage, Conclude, Drive, FindAck, FeedAll, Taken, EndOf, OnePass;
    RunIsImageOfEvents(w, arrivals);
    var rest := Without(arrivals, FindAck(arrivals).at);
    v := Drive(w, START, rest).0;
    DriveTakes(w, START, rest);
    TurnsAndErrorTellTheEvents(w, RunEvents(arrivals));
  }

  /** A run is failed exactly when it was not launched, lost entries, ran out of time or events, or settled badly. */
  lemma {:induction false} FailedIff(w: World, arrivals: seq<Arrival>)
    ensures OnePass(w, arrivals).report.status == Failed <==>
            || !Launched(w, arrivals) || LostEntries(w, arrivals) > 0
            || Ending(arrivals) == Expired || Ending(arrivals) == Gone
            || (Ending(arrivals) == Settled && (LastStop(RunEvents(arrivals)) == StopError
                                                || LastStop(RunEvents(arrivals)) == Absent))
  {
    if !Launched(w, arrivals) {
      NotLaunchedFails(w, arrivals);
    } else {
      hide FindAck, OnePass, Finish, LogImage, ShownImage, FactsAfter, LastStop, Failing, EndOf, Taken, Pick;
      var v := LaunchedView(w, arrivals);
      FailedByEnd(w, v, Ending(arrivals));
    }
  }

  lemma {:induction false} FailedByEnd(w: World, v: RunView, end: End)
    ensures Conclude(w, v, end).report.status == Failed <==>
            || v.appendFails > 0 || end == Expired || end == Gone
            || (end == Settled && (v.stopReason == StopError || v.stopReason == Absent))
  {
    FinishStatus(w, v, SettleStatus(v), SettleError(v));
    FinishStatus(w, v, Incomplete, Some(NoTerminal));
    FinishStatus(w, v, Incomplete, None);
    FinishStatus(w, v, Failed, Some(RunTimedOut));
    FinishStatus(w, v, Failed, Some(ExitError(w, v)));
    hide Finish;
  }

  /** The error of a run that was not launched. */
  lemma {:induction false} LaunchError(w: World, arrivals: seq<Arrival>)
    requires !Launched(w, arrivals)
    ensures OnePass(w, arrivals).error ==
            Some(if w.launchFails then LaunchFailed
                 else if w.agentsFileFails then AgentsFileUnreadable
                 else if w.promptFails then PromptNotSent
                 else FindAck(arrivals).error)
  {
    hide FindAck, Drive;
  }

  /** The error of a launched run tells how it ended, in the provider's own words where there are any. */
  lemma {:induction false} ErrorTellsTheEnd(w: World, arrivals: seq<Arrival>)
    requires Launched(w, arrivals)
    ensures var error, said := OnePass(w, arrivals).error, LastError(RunEvents(arrivals));
            match Ending(arrivals)
            case Stopped => error == Some(NoTerminal)
            case Expired => error == Some(RunTimedOut)
            case Aborted => error == if LostEntries(w, arrivals) > 0 then Some(StorageFailed) else None
            case Settled =>
              (match LastStop(RunEvents(arrivals))
               case StopError => error == Some(if said == "" then SettledInError else ProviderFailed(said))
               case Absent => error == Some(NoTerminalState)
               case _ => error == if LostEntries(w, arrivals) > 0 then Some(StorageFailed) else None)
            case Gone =>
              error == Some(if w.exitCode != 0 && w.exitMessage != "" then ProviderFailed(w.exitMessage)
                            else if w.exitCode != 0 then ExitedNonZero
                            else if said != "" then ProviderFailed(said) else ExitedUnsettled)
  {
    hide FindAck, OnePass, LogImage, ShownImage, FactsAfter, LastStop, Failing, EndOf, Taken, Pick, LastError,
         ApplyFacts, Summarize;
    var v := LaunchedView(w, arrivals);
  }

  // ----- The report

  lemma {:induction false} ConcludeIsFinish(w: World, v: RunView, end: End)
    returns (status: Status, error: Option<RunError>)
    ensures Conclude(w, v, end) == Finish(w, v, status, error)
  {
    hide Finish;
    match end {
      case Settled => status, error := SettleStatus(v), SettleError(v);
      case Stopped => status, error := Incomplete, Some(NoTerminal);
      case Aborted => status, error := Incomplete, None;
      case Expired => status, error := Failed, Some(RunTimedOut);
      case Gone => status, error := Failed, Some(ExitError(w, v));
    }
  }

  lemma {:induction false} FinishedReport(w: World, v: RunView, status: Status, error: Option<RunError>)
    ensures var rep := Finish(w, v, status, error).report;
            && rep.task == w.task && rep.turns == v.turns && rep.usage == v.usage
            && rep.modifiedFiles == v.facts.modified && rep.verifications == v.facts.verified
            && rep.toolFailures == v.facts.failures
            && rep.pendingApproval == (if w.pendingApproval.Some? then w.pendingApproval else v.facts.unapprovable)
            && rep.diff == if v.facts.started > 0 then w.diff else ""
  {
    hide Summarize, RiskIf;
  }

  /** The report of a launched run holds what its events say, and nothing else. */
  lemma {:induction false} ReportTellsTheRun(w: World, arrivals: seq<Arrival>)
    requires Launched(w, arrivals)
    ensures var events, rep := RunEvents(arrivals), OnePass(w, arrivals).report;
            && rep.task == w.task && rep.turns == |Pick(events, StartsTurn)| && rep.usage == LastUsage(events)
            && rep.modifiedFiles == FactsAfter(events).modified
            && rep.verifications == VerificationsOf(events)
            && rep.toolFailures == Map(Pick(events, FailsCall), FailureOf)
            && rep.pendingApproval == (if w.pendingApproval.Some? then w.pendingApproval else NobodyAsked(events))
            && rep.diff == if Pick(events, StartsTool) == [] then "" else w.diff
  {
    var v := LaunchedView(w, arrivals);
    ImageParts(w, v, RunEvents(arrivals));
    hide *;
    FactsTellTheEvents(RunEvents(arrivals));
    var status, error := ConcludeIsFinish(w, v, Ending(arrivals));
    FinishedReport(w, v, status, error);
  }

  lemma {:induction false} ImageParts(w: World, v: RunView, events: seq<PiEvent>)
    requires IsImage(w, v, events)
    ensures v.usage == LastUsage(events) && v.facts == FactsAfter(events)
    ensures v.appendFails == Failing(w.appendFails, |LogImage(events)|)
  {}

  lemma {:induction false} FinishedRisks(w: World, v: RunView, status: Status, error: Option<RunError>)
    ensures Finish(w, v, status, error).report.remainingRisks ==
            RiskIf(|v.facts.open| > 0, OpenCalls(|v.facts.open|))
            + RiskIf(v.facts.started > 0 && w.diffNote != "", DiffNote(w.diffNote))
            + RiskIf(v.facts.started > 0 && w.dirtyAtStart && w.diff != "", DirtyAtStart)
            + RiskIf(!w.summarySaves && v.appendFails == 0, SummaryNotSaved)
            + RiskIf(v.appendFails > 0, EventLogIncomplete(v.appendFails))
  {
    hide Summarize;
  }

  lemma {:induction false} InParts<T>(a: seq<T>, b: seq<T>, c: seq<T>, d: seq<T>, e: seq<T>, x: T)
    ensures x in a + b + c + d + e <==> x in a || x in b || x in c || x in d || x in e
  {}

  /** The risks of the report, each exactly when it is one. */
  lemma {:induction false} RisksTellTheRun(w: World, arrivals: seq<Arrival>, risk: Risk)
    requires Launched(w, arrivals)
    ensures var events := RunEvents(arrivals);
            risk in OnePass(w, arrivals).report.remainingRisks <==>
            match risk
            case OpenCalls(n) => n == |FactsAfter(events).open| > 0
            case DiffNote(text) => text == w.diffNote != "" && Pick(events, StartsTool) != []
            case DirtyAtStart => w.dirtyAtStart && w.diff != "" && Pick(events, StartsTool) != []
            case SummaryNotSaved => !w.summarySaves && LostEntries(w, arrivals) == 0
            case EventLogIncomplete(n) => n == LostEntries(w, arrivals) > 0
  {
    var v := LaunchedView(w, arrivals);
    ImageParts(w, v, RunEvents(arrivals));
    assert LostEntries(w, arrivals) == v.appendFails;
    hide *;
    FactsTellTheEvents(RunEvents(arrivals));
    var status, error := ConcludeIsFinish(w, v, Ending(arrivals));
    FinishedRisksTell(w, v, status, error, risk);
  }

  lemma {:induction false} FinishedRisksTell(w: World, v: RunView, status: Status, error: Option<RunError>, risk: Risk)
    ensures risk in Finish(w, v, status, error).report.remainingRisks <==>
            match risk
            case OpenCalls(n) => n == |v.facts.open| > 0
            case DiffNote(text) => text == w.diffNote != "" && v.facts.started > 0
            case DirtyAtStart => w.dirtyAtStart && w.diff != "" && v.facts.started > 0
            case SummaryNotSaved => !w.summarySaves && v.appendFails == 0
            case EventLogIncomplete(n) => n == v.appendFails > 0
  {
    hide *;
    FinishedRisks(w, v, status, error);
    var calls, note := RiskIf(|v.facts.open| > 0, OpenCalls(|v.facts.open|)),
        RiskIf(v.facts.started > 0 && w.diffNote != "", DiffNote(w.diffNote));
    var dirty := RiskIf(v.facts.started > 0 && w.dirtyAtStart && w.diff != "", DirtyAtStart);
    var summary := RiskIf(!w.summarySaves && v.appendFails == 0, SummaryNotSaved);
    var log := RiskIf(v.appendFails > 0, EventLogIncomplete(v.appendFails));
    InParts(calls, note, dirty, summary, log, risk);
    RiskIsThere(|v.facts.open| > 0, OpenCalls(|v.facts.open|), risk);
    RiskIsThere(v.facts.started > 0 && w.diffNote != "", DiffNote(w.diffNote), risk);
    RiskIsThere(v.facts.started > 0 && w.dirtyAtStart && w.diff != "", DirtyAtStart, risk);
    RiskIsThere(!w.summarySaves && v.appendFails == 0, SummaryNotSaved, risk);
    RiskIsThere(v.appendFails > 0, EventLogIncomplete(v.appendFails), risk);
  }

  lemma {:induction false} RiskIsThere(present: bool, risk: Risk, r: Risk)
    ensures r in RiskIf(present, risk) <==> present && r == risk
  {}

  // ----- The saved summary

  /** The events a run takes in; none when it is not launched. */
  function EventsOf(w: World, arrivals: seq<Arrival>): seq<PiEvent> {
    if Launched(w, arrivals) then RunEvents(arrivals) else []
  }

  /** A run saves the summary of what its events say, on top of the one it started with. */
  lemma {:induction false} SavedTellsTheRun(w: World, arrivals: seq<Arrival>) returns (rep: Report, v: RunView)
    ensures OnePass(w, arrivals).saved == if w.summarySaves then Some(Summarize(w.summaryBefore, rep, v)) else None
    ensures rep.task == w.task
    ensures var events := EventsOf(w, arrivals);
            && rep.verifications == VerificationsOf(events) && rep.modifiedFiles == FactsAfter(events).modified
            && rep.toolFailures == Map(Pick(events, FailsCall), FailureOf)
            && v.facts.declined == DeclinedOf(events)
            && rep.diff == if Pick(events, StartsTool) == [] then "" else w.diff
  {
    var status, error;
    if Launched(w, arrivals) {
      v := LaunchedView(w, arrivals);
      ImageParts(w, v, RunEvents(arrivals));
      status, error := ConcludeIsFinish(w, v, Ending(arrivals));
    } else {
      v, status, error := START, Failed, Some(StorageFailed);
      LaunchError(w, arrivals);
    }
    rep := ApplyFacts(w, v, BlankReport(w, v, status));
    FactsTellTheEvents(EventsOf(w, arrivals));
    hide FindAck, Drive, Conclude, FactsAfter, VerificationsOf, DeclinedOf, NobodyAsked, Pick, Map, Summarize,
         RunEvents, IsImage, RiskIf;
  }
}
