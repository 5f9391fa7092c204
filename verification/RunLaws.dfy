/** What a whole run shows, records and reports. */
module RunLaws {
  import opened Basics
  import opened Sessions
  import opened RunModel
  import opened Recovery
  import opened RunSpec

  // ----- The events a run takes in

  /** A command needed approval and nobody could be asked. */
  predicate NobodyToAsk(e: PiEvent) {
    e.kind == ToolExecutionEnd && e.isError && e.toolError.saysNoTerminal
  }

  predicate EndsRun(e: PiEvent) {
    e.kind == AgentSettled || NobodyToAsk(e)
  }

  /** The events up to and including the first that ends the run, cut at the first cancel, timeout or closed stream. */
  function Taken(arrivals: seq<Arrival>): seq<PiEvent>
    decreases |arrivals|
  {
    if arrivals == [] then []
    else
      match arrivals[0]
      case Ev(e) => if EndsRun(e) then [e] else [e] + Taken(arrivals[1..])
      case ProcessDone => Taken(arrivals[1..])
      case _ => []
  }

  function EndOf(arrivals: seq<Arrival>): End
    decreases |arrivals|
  {
    if arrivals == [] then Gone
    else
      match arrivals[0]
      case Ev(e) => if e.kind == AgentSettled then Settled else if NobodyToAsk(e) then Stopped else EndOf(arrivals[1..])
      case ProcessDone => EndOf(arrivals[1..])
      case Cancelled => Aborted
      case TimedOut => Expired
      case StreamClosed => Gone
  }

  function FeedAll(w: World, v: RunView, events: seq<PiEvent>): RunView
    decreases |events|
  {
    if events == [] then v else Feed(w, FeedAll(w, v, Init(events)), Last(events))
  }

  lemma {:induction false} FeedFirst(w: World, v: RunView, e: PiEvent, events: seq<PiEvent>)
    ensures FeedAll(w, v, [e] + events) == FeedAll(w, Feed(w, v, e), events)
    decreases |events|
  {
    hide Feed;
    if events == [] {
      assert Init([e]) == [];
      assert [e] + events == [e];
    } else {
      assert Init([e] + events) == [e] + Init(events);
      FeedFirst(w, v, e, Init(events));
    }
  }

  lemma {:induction false} FeedUnapprovable(w: World, v: RunView, e: PiEvent)
    requires v.facts.unapprovable.None?
    ensures Feed(w, v, e).facts.unapprovable.Some? <==> NobodyToAsk(e)
  {}

  /** Taking the arrivals one by one is feeding the events that count. */
  lemma {:induction false} DriveTakes(w: World, v: RunView, arrivals: seq<Arrival>)
    requires v.facts.unapprovable.None?
    ensures Drive(w, v, arrivals) == (FeedAll(w, v, Taken(arrivals)), EndOf(arrivals))
    decreases |arrivals|
  {
    hide Feed;
    if arrivals != [] {
      match arrivals[0] {
        case Ev(e) =>
          FeedUnapprovable(w, v, e);
          FeedFirst(w, v, e, []);
          assert [e] + [] == [e];
          if !EndsRun(e) {
            DriveTakes(w, Feed(w, v, e), arrivals[1..]);
            FeedFirst(w, v, e, Taken(arrivals[1..]));
          }
        case ProcessDone => DriveTakes(w, v, arrivals[1..]);
        case _ =>
      }
    }
  }

  /** Whatever follows an event that ends the run has no effect on it. */
  lemma {:induction false} NothingAfterTheEnd(before: seq<Arrival>, e: PiEvent, after: seq<Arrival>)
    requires EndsRun(e)
    ensures Taken(before + [Ev(e)] + after) == Taken(before + [Ev(e)])
    ensures EndOf(before + [Ev(e)] + after) == EndOf(before + [Ev(e)])
    decreases |before|
  {
    if before != [] {
      assert (before + [Ev(e)] + after)[1..] == before[1..] + [Ev(e)] + after;
      assert (before + [Ev(e)])[1..] == before[1..] + [Ev(e)];
      NothingAfterTheEnd(before[1..], e, after);
    } else {
      assert before + [Ev(e)] + after == [Ev(e)] + after;
    }
  }

  // ----- The image of the events

  function LogImage(events: seq<PiEvent>): seq<Logged>
    decreases |events|
  {
    if events == [] then [] else LogImage(Init(events)) + SessionEventFor(Last(events))
  }

  function LastUsage(events: seq<PiEvent>): Option<Usage>
    decreases |events|
  {
    if events == [] then None else UsageAfter(LastUsage(Init(events)), Last(events))
  }

  function ShownImage(events: seq<PiEvent>): seq<Shown>
    decreases |events|
  {
    if events == [] then []
    else ShownImage(Init(events)) + UsageChange(LastUsage(Init(events)), Last(events)) + Translate(Last(events))
  }

  function LastStop(events: seq<PiEvent>): StopReason
    decreases |events|
  {
    if events == [] then Absent
    else if Last(events).kind == MessageEnd && Last(events).stopReason != Absent then Last(events).stopReason
    else LastStop(Init(events))
  }

  function FactsAfter(events: seq<PiEvent>): Facts
    decreases |events|
  {
    if events == [] then NO_FACTS
    else
      var f, e := FactsAfter(Init(events)), Last(events);
      match e.kind
      case ToolExecutionStart => Started(f, e.toolCallId, e.tool, e.args)
      case ToolExecutionEnd => Ended(f, e.toolCallId, e.tool, e.isError, e.details, e.toolError)
      case _ => f
  }

  /** How many of the first n append calls fail. */
  function Failing(fails: nat -> bool, n: nat): nat {
    if n == 0 then 0 else Failing(fails, n - 1) + (if fails(n - 1) then 1 else 0)
  }

  predicate IsImage(w: World, v: RunView, events: seq<PiEvent>) {
    && v.logged == LogImage(events)
    && v.shown == ShownImage(events)
    && v.usage == LastUsage(events)
    && v.stopReason == LastStop(events)
    && v.facts == FactsAfter(events)
    && v.appendFails == Failing(w.appendFails, |v.logged|)
  }

  lemma {:induction false} FeedKeepsImage(w: World, v: RunView, events: seq<PiEvent>, e: PiEvent)
    requires IsImage(w, v, events)
    ensures IsImage(w, Feed(w, v, e), events + [e])
  {
    hide Started, Ended;
    assert Init(events + [e]) == events;
    assert v.shown + [] == v.shown && v.logged + [] == v.logged;
    assert Failing(w.appendFails, |v.logged| + 1) == Failing(w.appendFails, |v.logged|)
        + (if w.appendFails(|v.logged|) then 1 else 0);
  }

  lemma {:induction false} FeedAllIsImage(w: World, events: seq<PiEvent>)
    ensures IsImage(w, FeedAll(w, START, events), events)
    decreases |events|
  {
    if events != [] {
      hide Feed, IsImage;
      FeedAllIsImage(w, Init(events));
      InitLast(events);
      FeedKeepsImage(w, FeedAll(w, START, Init(events)), Init(events), Last(events));
    }
  }

  predicate Launched(w: World, arrivals: seq<Arrival>) {
    !w.launchFails && !w.agentsFileFails && !w.promptFails && FindAck(arrivals).Acked?
  }

  /**
   * The events a launched run takes in: everything that arrives except the acknowledgement, cut at the end of the
   * run.
   */
  function RunEvents(arrivals: seq<Arrival>): seq<PiEvent>
    requires FindAck(arrivals).Acked?
  {
    Taken(Without(arrivals, FindAck(arrivals).at))
  }

  /** The acknowledgement is the first response to arrive, and only events come before it. */
  lemma {:induction false} AckIsFirstResponse(arrivals: seq<Arrival>)
    requires FindAck(arrivals).Acked?
    ensures var at := FindAck(arrivals).at;
            && arrivals[at].Ev? && arrivals[at].e.kind == Response && arrivals[at].e.success
            && forall i | 0 <= i < at :: arrivals[i].Ev? && arrivals[i].e.kind != Response
    decreases |arrivals|
  {
    if !(arrivals[0].Ev? && arrivals[0].e.kind == Response) {
      AckIsFirstResponse(arrivals[1..]);
    }
  }

  /**
   * A launched run loses and adds nothing: the display, the session log, the facts and the failed appends are
   * the image of exactly the events it takes in.
   */
  lemma {:induction false} RunIsImageOfEvents(w: World, arrivals: seq<Arrival>)
    requires Launched(w, arrivals)
    ensures var v := Drive(w, START, Without(arrivals, FindAck(arrivals).at)).0;
            && IsImage(w, v, RunEvents(arrivals))
            && OnePass(w, arrivals) == Conclude(w, v, EndOf(Without(arrivals, FindAck(arrivals).at)))
  {
    hide IsImage, Conclude, Drive, FindAck, FeedAll, Taken, EndOf;
    DriveTakes(w, START, Without(arrivals, FindAck(arrivals).at));
    FeedAllIsImage(w, RunEvents(arrivals));
  }

  // ----- What the facts say about the events

  predicate StartsCall(e: PiEvent, id: string) {
    e.kind == ToolExecutionStart && e.toolCallId == id
  }

  predicate EndsCall(e: PiEvent, id: string) {
    e.kind == ToolExecutionEnd && e.toolCallId == id
  }

  /** The call was seen starting and has not ended since. */
  predicate NeverEnded(events: seq<PiEvent>, id: string) {
    exists i | 0 <= i < |events| :: StartsCall(events[i], id) && forall j | i < j < |events| :: !EndsCall(events[j], id)
  }

  lemma {:induction false} NeverEndedSnoc(events: seq<PiEvent>, e: PiEvent, id: string)
    ensures NeverEnded(events + [e], id) <==> StartsCall(e, id) || (NeverEnded(events, id) && !EndsCall(e, id))
  {
    var all' := events + [e];
    if StartsCall(e, id) {
      assert StartsCall(all'[|events|], id);
    } else if NeverEnded(events, id) && !EndsCall(e, id) {
      var i :| 0 <= i < |events| && StartsCall(events[i], id)
          && forall j | i < j < |events| :: !EndsCall(events[j], id);
      assert StartsCall(all'[i], id);
    }
    if NeverEnded(all', id) && !StartsCall(e, id) {
      var i :| 0 <= i < |all'| && StartsCall(all'[i], id) && forall j | i < j < |all'| :: !EndsCall(all'[j], id);
      assert i < |events| && StartsCall(events[i], id);
      assert !EndsCall(all'[|events|], id);
      assert forall j | i < j < |events| :: all'[j] == events[j];
    }
  }

  lemma {:induction false} OpenCallsAreNeverEnded(events: seq<PiEvent>, id: string)
    ensures id in FactsAfter(events).open <==> NeverEnded(events, id)
    decreases |events|
  {
    if events != [] {
      InitLast(events);
      OpenCallsAreNeverEnded(Init(events), id);
      NeverEndedSnoc(Init(events), Last(events), id);
    }
  }

  /** The call failed because approval was refused or could not be given. */
  predicate NotApproved(e: PiEvent) {
    e.kind == ToolExecutionEnd && e.isError && (e.toolError.saysDenied || e.toolError.saysNoTerminal)
  }

  lemma {:induction false} DeclinedIffNotApproved(events: seq<PiEvent>)
    ensures FactsAfter(events).approvalDeclined <==> exists e | e in events :: NotApproved(e)
    ensures FactsAfter(events).unapprovable.Some? <==> exists e | e in events :: NobodyToAsk(e)
    decreases |events|
  {
    if events != [] {
      InitLast(events);
      DeclinedIffNotApproved(Init(events));
      SomeOfAll(events, NotApproved);
      SomeOfAll(events, NobodyToAsk);
    }
  }

  lemma {:induction false} SomeOfAll(events: seq<PiEvent>, p: PiEvent -> bool)
    requires events != []
    ensures (exists e | e in events :: p(e)) <==> p(Last(events)) || exists e | e in Init(events) :: p(e)
  {
    InitLast(events);
    assert forall e :: e in events <==> e in Init(events) || e == Last(events);
  }

  // ----- The report

  /** What has to hold of a run for its report to say completed. */
  ghost predicate CleanRun(w: World, arrivals: seq<Arrival>) {
    Launched(w, arrivals) &&
    var events := RunEvents(arrivals);
    && EndOf(Without(arrivals, FindAck(arrivals).at)) == Settled
    && LastStop(events) == Stop
    && (forall id :: !NeverEnded(events, id))
    && (forall e | e in events :: !NotApproved(e))
    && w.pendingApproval.None?
    && Failing(w.appendFails, |LogImage(events)|) == 0
  }

  /** The passes over the report, taken together. */
  lemma {:induction false} FinishStatus(w: World, v: RunView, status: Status, error: Option<RunError>)
    ensures Finish(w, v, status, error).report.status ==
            if v.appendFails > 0 then Failed
            else if status == Completed
                        && (|v.facts.open| > 0 || w.pendingApproval.Some?
                            || v.facts.unapprovable.Some? || v.facts.approvalDeclined)
            then Incomplete else status
    ensures Finish(w, v, status, error).error == if v.appendFails > 0 && error.None? then Some(StorageFailed) else error
  {}

  lemma {:induction false} PendingIffOpenEnded(rep: Report, fails: nat)
    ensures PendingNotes(rep, fails) == [] <==> rep.status == Completed && rep.pendingApproval.None? && fails == 0
  {}

  /** The saved summary has nothing pending exactly when the final status is completed. */
  lemma {:induction false} SavedPendingMatchesStatus(w: World, v: RunView, status: Status, error: Option<RunError>)
    ensures var o := Finish(w, v, status, error);
            o.saved.Some? ==> (o.saved.value.pending == [] <==> o.report.status == Completed)
  {
    hide PendingNotes, FailureNotes, RiskNotes, DeclinedNotes, AddAllOnce, CapTail, Clip, RiskIf;
    FinishStatus(w, v, status, error);
    PendingIffOpenEnded(ApplyFacts(w, v, BlankReport(w, v, status)), v.appendFails);
  }

  /** On every path of a run: pending work is saved iff it is not completed, and errors and status agree. */
  lemma {:induction false} EveryExitIsConsistent(w: World, arrivals: seq<Arrival>)
    ensures var o := OnePass(w, arrivals);
            && (o.saved.Some? ==> (o.saved.value.pending == [] <==> o.report.status == Completed))
            && (o.report.status == Failed ==> o.error.Some?)
            && (o.error.Some? ==> o.report.status != Completed)
            && (o.saved.Some? <==> w.summarySaves)
  {
    hide Finish, Drive, FindAck;
    var v, status, error := Exit(w, arrivals);
    SavedPendingMatchesStatus(w, v, status, error);
    FinishStatus(w, v, status, error);
    FinishSaves(w, v, status, error);
  }

  lemma {:induction false} FinishSaves(w: World, v: RunView, status: Status, error: Option<RunError>)
    ensures Finish(w, v, status, error).saved.Some? <==> w.summarySaves
  {}

  /** Every exit reports a status that goes with its error. */
  lemma {:induction false} Exit(w: World, arrivals: seq<Arrival>)
    returns (v: RunView, status: Status, error: Option<RunError>)
    ensures OnePass(w, arrivals) == Finish(w, v, status, error)
    ensures status == Failed ==> error.Some?
    ensures error.Some? ==> status != Completed
  {
    hide Finish, Drive, FindAck;
    if !Launched(w, arrivals) {
      v, status := START, Failed;
      error := if w.launchFails then Some(LaunchFailed)
               else if w.agentsFileFails then Some(AgentsFileUnreadable)
               else if w.promptFails then Some(PromptNotSent)
               else Some(FindAck(arrivals).error);
    } else {
      var driven := Drive(w, START, Without(arrivals, FindAck(arrivals).at));
      v := driven.0;
      match driven.1 {
        case Settled => status, error := SettleStatus(v), SettleError(v);
        case Stopped => status, error := Incomplete, Some(NoTerminal);
        case Aborted => status, error := Incomplete, None;
        case Expired => status, error := Failed, Some(RunTimedOut);
        case Gone => status, error := Failed, Some(ExitError(w, v));
      }
    }
  }

  lemma {:induction false} NoOpenCalls(events: seq<PiEvent>)
    ensures |FactsAfter(events).open| == 0 <==> forall id :: !NeverEnded(events, id)
  {
    hide FactsAfter, NeverEnded;
    var calls := FactsAfter(events).open;
    forall id ensures id in calls <==> NeverEnded(events, id) {
      OpenCallsAreNeverEnded(events, id);
    }
    if |calls| > 0 {
      assert calls.Keys != {};
      var id :| id in calls;
      assert NeverEnded(events, id);
    } else {
      assert calls.Keys == {};
    }
  }

  lemma {:induction false} NothingLowersIffApproved(events: seq<PiEvent>)
    ensures FactsAfter(events).unapprovable.None? && !FactsAfter(events).approvalDeclined
            <==> forall e | e in events :: !NotApproved(e)
  {
    hide FactsAfter;
    DeclinedIffNotApproved(events);
  }

  lemma {:induction false} ConcludeStatus(w: World, v: RunView, end: End)
    ensures Conclude(w, v, end).report.status == Completed <==>
            && end == Settled && v.stopReason == Stop && v.appendFails == 0
            && |v.facts.open| == 0 && w.pendingApproval.None? && v.facts.unapprovable.None? && !v.facts.approvalDeclined
  {
    hide Finish;
    var status :=
      match end
      case Settled => SettleStatus(v)
      case Stopped => Incomplete
      case Aborted => Incomplete
      case _ => Failed;
    var error := match end
      case Settled => SettleError(v)
      case Stopped => Some(NoTerminal)
      case Aborted => None
      case Expired => Some(RunTimedOut)
      case Gone => Some(ExitError(w, v));
    FinishStatus(w, v, status, error);
  }

  lemma {:induction false} CompletedIffCleanLaunched(w: World, arrivals: seq<Arrival>)
    requires Launched(w, arrivals)
    ensures OnePass(w, arrivals).report.status == Completed <==> CleanRun(w, arrivals)
  {
    hide FindAck, Drive, Conclude, FactsAfter, NeverEnded, LogImage, ShownImage, LastStop, Failing, Taken,
        EndOf, NotApproved;
    RunIsImageOfEvents(w, arrivals);
    var rest := Without(arrivals, FindAck(arrivals).at);
    ConcludeStatus(w, Drive(w, START, rest).0, EndOf(rest));
    NoOpenCalls(RunEvents(arrivals));
    NothingLowersIffApproved(RunEvents(arrivals));
  }

  /** A run is reported completed exactly when it was clean. */
  lemma {:induction false} CompletedIffClean(w: World, arrivals: seq<Arrival>)
    ensures OnePass(w, arrivals).report.status == Completed <==> CleanRun(w, arrivals)
  {
    hide FindAck, Drive, Finish;
    if Launched(w, arrivals) {
      CompletedIffCleanLaunched(w, arrivals);
    } else {
      NotLaunchedFails(w, arrivals);
    }
  }

  lemma {:induction false} NotLaunchedFails(w: World, arrivals: seq<Arrival>)
    requires !Launched(w, arrivals)
    ensures OnePass(w, arrivals).report.status == Failed
  {
    hide FindAck, Drive;
  }
}
