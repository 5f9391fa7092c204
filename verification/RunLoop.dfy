/** The run loop as the code has it: buffering before the acknowledgement, replay, then live events. */
module RunLoop {
  import opened Basics
  import opened Sessions
  import opened RunModel
  import opened Recovery
  import opened RunSpec

  /** What the tools did, kept up to date call by call. */
  class ToolFacts {
    var open: map<string, ToolCall>
    var started: nat
    var modified: seq<string>
    var verified: seq<Verification>
    var failures: seq<ToolFailure>
    var approvalDeclined: bool
    var unapprovable: Option<ApprovalFact>
    var declined: seq<string>

    ghost function View(): Facts
      reads this
    {
      Facts(open, started, modified, verified, failures, approvalDeclined, unapprovable, declined)
    }

    constructor ()
      ensures View() == NO_FACTS
    {
      open, started, modified, verified := map[], 0, [], [];
      failures, approvalDeclined, unapprovable, declined := [], false, None, [];
    }

    method Start(id: string, tool: Tool, args: Args)
      modifies this
      ensures View() == Started(old(View()), id, tool, args)
    {
      open := open[id := ToolCall(tool, args)];
      started := started + 1;
    }

    method AddModified(path: string)
      modifies this`modified
      ensures modified == AddOnce(old(modified), path)
    {
      for i := 0 to |modified|
        invariant modified == old(modified) && path !in modified[..i]
      {
        if modified[i] == path {
          return;
        }
      }
      modified := modified + [path];
    }

    method EndInError(args: Args, tool: Tool, err: ToolError)
      modifies this
      ensures View() == EndedInError(old(View()), args, tool, err)
    {
      failures := failures + [ToolFailure(tool, err.text)];
      if err.saysDenied || err.saysNoTerminal {
        approvalDeclined := true;
      }
      if err.saysDenied && args.command.Some? && args.command.value != "" {
        declined := declined + [args.command.value];
      }
      if err.saysNoTerminal && unapprovable.None? {
        unapprovable := Some(ApprovalFact(if args.command.Some? then args.command.value else ""));
      }
    }

    method EndWell(args: Args, tool: Tool, details: Option<RunDetails>)
      modifies this
      ensures View() == EndedWell(old(View()), args, tool, details)
    {
      hide AddOnce;
      if EditsFile(tool) {
        if args.path.Some? && args.path.value != "" {
          AddModified(args.path.value);
        }
      } else if tool == RunPowershell {
        if args.command.None? || details.None? {
          return;
        }
        verified := verified + [Verification(args.command.value, details.value.exitCode, details.value.output)];
      }
    }

    /** The terminal state of a call; an unknown call is recorded without arguments. */
    method End(id: string, tool: Tool, isError: bool, details: Option<RunDetails>, err: ToolError)
      modifies this
      ensures View() == Ended(old(View()), id, tool, isError, details, err)
    {
      hide EndedInError, EndedWell;
      var args := if id in open then open[id].args else Args(None, None);
      open := open - {id};
      if isError {
        EndInError(args, tool, err);
      } else {
        EndWell(args, tool, details);
      }
    }
  }

  /** One run: its accumulated state, the display it feeds and the calls it makes to the session log. */
  class Runtime {
    const w: World
    const facts: ToolFacts
    var turns: nat
    var stopReason: StopReason
    var finalError: string
    var usage: Option<Usage>
    var shown: seq<Shown>
    var logged: seq<Logged>
    var appendFails: nat
    var saved: Option<Summary>

    ghost function View(): RunView
      reads this, facts
    {
      RunView(turns, stopReason, finalError, usage, facts.View(), shown, logged, appendFails)
    }

    constructor (w: World)
      ensures View() == START && this.w == w && saved == None
      ensures fresh(facts)
    {
      this.w := w;
      facts := new ToolFacts();
      turns, stopReason, finalError, usage := 0, Absent, "", None;
      shown, logged, appendFails, saved := [], [], 0, None;
    }

    method EmitAndAppend(e: PiEvent)
      modifies this
      ensures View() == RunModel.EmitAndAppend(w, old(View()), e)
      ensures saved == old(saved)
    {
      shown := shown + Translate(e);
      var entry := SessionEventFor(e);
      if entry == [] {
        return;
      }
      var fails := w.appendFails(|logged|);
      logged := logged + entry;
      if fails {
        appendFails := appendFails + 1;
      }
    }

    /** `processEvent`: true when the event settled the run. */
    method ProcessEvent(e: PiEvent) returns (ended: bool, o: Outcome)
      modifies this, facts
      ensures View() == Feed(w, old(View()), e)
      ensures ended <==> e.kind == AgentSettled
      ensures ended ==> o == Conclude(w, View(), Settled)
    {
      hide Conclude, GiveUp, RunModel.EmitAndAppend, Started, Ended, Translate;
      ended := false;
      o := GiveUp(w, NoTerminalState);
      match e.kind {
        case Response =>
        case TurnStart => turns := turns + 1;
        case MessageEnd =>
          if e.stopReason != Absent {
            stopReason := e.stopReason;
          }
          if e.errorMessage != "" {
            finalError := e.errorMessage;
          }
        case AgentSettled =>
          shown := shown + Translate(e);
          o := FinishRun();
          ended := true;
        case MessageUpdate =>
          assert shown + [] == shown;
          if e.usage.Some? {
            if usage != e.usage {
              usage := e.usage;
              shown := shown + [UsageUpdated(e.usage.value)];
            }
          }
          EmitAndAppend(e);
        case ToolExecutionStart =>
          facts.Start(e.toolCallId, e.tool, e.args);
          EmitAndAppend(e);
        case ToolExecutionEnd =>
          facts.End(e.toolCallId, e.tool, e.isError, e.details, e.toolError);
          EmitAndAppend(e);
        case OtherEvent => EmitAndAppend(e);
      }
    }

    /** `report`: the facts, then the summary built on them, then a note when it could not be saved. */
    method MakeReport(status: Status) returns (rep: Report)
      modifies this`saved
      ensures View() == old(View())
      ensures rep == ReportOf(w, View(), status) && saved == SavedOf(w, View(), status)
    {
      ghost var v := View();
      rep := BlankReportNow(status);
      rep := ApplyFactsTo(rep);
      var sum := UpdateSummaryFrom(rep);
      if w.summarySaves {
        saved := Some(sum);
      } else {
        saved := None;
        if appendFails == 0 {
          rep := rep.(remainingRisks := rep.remainingRisks + [SummaryNotSaved]);
        }
      }
    }

    method BlankReportNow(status: Status) returns (rep: Report)
      ensures rep == BlankReport(w, View(), status)
    {
      rep := Report(w.task, status, [], "", [], [], None, [], usage, turns);
    }

    method UpdateSummaryFrom(rep: Report) returns (sum: Summary)
      ensures sum == Summarize(w.summaryBefore, rep, View())
    {
      var v := RunView(turns, stopReason, finalError, usage,
                       Facts(facts.open, facts.started, facts.modified, facts.verified, facts.failures,
                             facts.approvalDeclined, facts.unapprovable, facts.declined),
                       shown, logged, appendFails);
      sum := UpdateSummary(w.summaryBefore, rep, v);
    }

    method ApplyFactsTo(blank: Report) returns (rep: Report)
      requires blank.diff == "" && blank.pendingApproval == None
      ensures rep == ApplyFacts(w, View(), blank)
    {
      hide RiskIf;
      rep := blank.(modifiedFiles := facts.modified, verifications := facts.verified, toolFailures := facts.failures);
      if w.pendingApproval.Some? {
        rep := rep.(pendingApproval := w.pendingApproval);
      }
      if rep.pendingApproval.None? && facts.unapprovable.Some? {
        rep := rep.(pendingApproval := facts.unapprovable);
      }
      var risks := RiskIf(|facts.open| > 0, OpenCalls(|facts.open|));
      if rep.status == Completed {
        if |facts.open| > 0 || rep.pendingApproval.Some? || facts.approvalDeclined {
          rep := rep.(status := Incomplete);
        }
      }
      if facts.started > 0 {
        rep := rep.(diff := w.diff);
      }
      risks := risks + RiskIf(facts.started > 0 && w.diffNote != "", DiffNote(w.diffNote));
      risks := risks + RiskIf(facts.started > 0 && w.dirtyAtStart && w.diff != "", DirtyAtStart);
      rep := rep.(remainingRisks := risks);
    }

    /** `applyStorageInvariant`: a run whose events could not all be stored has failed. */
    method ApplyStorageInvariant(rep: Report, error: Option<RunError>) returns (r: Report, err: Option<RunError>)
      ensures r == AfterStorage(View(), rep) && err == StorageError(View(), error)
    {
      r, err := rep, error;
      if appendFails == 0 {
        return;
      }
      r := r.(remainingRisks := r.remainingRisks + [EventLogIncomplete(appendFails)]);
      if r.status != Failed {
        r := r.(status := Failed);
      }
      if err.None? {
        err := Some(StorageFailed);
      }
    }

    method Complete(status: Status, error: Option<RunError>) returns (o: Outcome)
      modifies this`saved
      ensures View() == old(View())
      ensures o == Finish(w, View(), status, error)
    {
      var rep := MakeReport(status);
      var err;
      rep, err := ApplyStorageInvariant(rep, error);
      o := Outcome(rep, err, saved);
    }

    /** `finishRun`: what a settled run amounts to. */
    method FinishRun() returns (o: Outcome)
      modifies this`saved
      ensures View() == old(View())
      ensures o == Conclude(w, View(), Settled)
    {
      var status, error := Completed, None;
      match stopReason {
        case Stop =>
        case StopError =>
          status, error := Failed, Some(ProviderError(finalError));
        case Absent =>
          status, error := Failed, Some(NoTerminalState);
        case OtherStop(_) =>
          status := Incomplete;
      }
      o := Complete(status, error);
    }

    method StopIfUnapprovable() returns (stop: bool, o: Outcome)
      modifies this`saved
      ensures View() == old(View())
      ensures stop <==> View().facts.unapprovable.Some?
      ensures stop ==> o == Conclude(w, View(), Stopped)
    {
      if facts.unapprovable.None? {
        return false, GiveUp(w, NoTerminal);
      }
      o := Complete(Incomplete, Some(NoTerminal));
      stop := true;
    }

    method AbnormalExit() returns (o: Outcome)
      modifies this`saved
      ensures View() == old(View())
      ensures o == Conclude(w, View(), Gone)
    {
      var error;
      if w.exitCode != 0 {
        error := if w.exitMessage != "" then ProviderFailed(w.exitMessage) else ExitedNonZero;
      } else if finalError != "" {
        error := ProviderError(finalError);
      } else {
        error := ExitedUnsettled;
      }
      o := Complete(Failed, Some(error));
    }
  }

  /** `waitPromptAck`: buffer the events that come before the first response; `next` is where to go on reading. */
  method WaitPromptAck(arrivals: seq<Arrival>) returns (ack: Ack, preAck: seq<PiEvent>, next: nat)
    ensures ack == FindAck(arrivals)
    ensures ack.Acked? ==> ack.at == |preAck| && next == ack.at + 1
    ensures ack.Acked? ==> forall i | 0 <= i < |preAck| :: arrivals[i] == Ev(preAck[i])
  {
    preAck, next := [], 0;
    while next < |arrivals|
      invariant next == |preAck| <= |arrivals|
      invariant forall i | 0 <= i < |preAck| :: arrivals[i] == Ev(preAck[i])
      invariant FindAck(arrivals) == Shifted(FindAck(arrivals[next..]), next)
      decreases |arrivals| - next
    {
      var a := arrivals[next];
      assert arrivals[next..][1..] == arrivals[next + 1..];
      next := next + 1;
      match a {
        case Cancelled => return NotAcked(CancelledBeforeAck), preAck, next;
        case TimedOut => return NotAcked(AckTimedOut), preAck, next;
        case ProcessDone => return NotAcked(GoneBeforeAck), preAck, next;
        case StreamClosed => return NotAcked(GoneBeforeAck), preAck, next;
        case Ev(e) =>
          if e.kind == Response {
            if !e.success && e.errorMessage != "" {
              return NotAcked(PromptRejected(e.errorMessage)), preAck, next;
            }
            return if e.success then Acked(next - 1) else NotAcked(NotAcknowledged), preAck, next;
          }
          preAck := preAck + [e];
      }
    }
    return NotAcked(GoneBeforeAck), preAck, next;
  }

  function Shifted(ack: Ack, offset: nat): Ack {
    if ack.Acked? then Acked(ack.at + offset) else ack
  }

  /** `Run`: launch, wait for the acknowledgement, replay what came before it, then follow the live events. */
  method Run(w: World, arrivals: seq<Arrival>) returns (o: Outcome, run: Runtime)
    ensures o == OnePass(w, arrivals)
    ensures fresh(run) && fresh(run.facts)
    ensures !w.launchFails && !w.agentsFileFails && !w.promptFails && FindAck(arrivals).Acked? ==>
              run.View() == Drive(w, START, Without(arrivals, FindAck(arrivals).at)).0
  {
    hide Drive, Feed, Conclude, Finish, FindAck;
    run := new Runtime(w);
    if w.launchFails {
      o := GiveUpWith(run, LaunchFailed);
      return;
    }
    if w.agentsFileFails {
      o := GiveUpWith(run, AgentsFileUnreadable);
      return;
    }
    if w.promptFails {
      o := GiveUpWith(run, PromptNotSent);
      return;
    }
    var ack, preAck, next := WaitPromptAck(arrivals);
    if ack.NotAcked? {
      o := GiveUpWith(run, ack.error);
      return;
    }
    ghost var script := Without(arrivals, ack.at);
    assert next <= |script| + 1;
    for i := 0 to |preAck|
      invariant fresh(run) && fresh(run.facts) && run.w == w
      invariant Drive(w, START, script) == Drive(w, run.View(), script[i..])
    {
      DriveEvent(w, run.View(), script[i..], preAck[i]);
      assert script[i..][1..] == script[i + 1..];
      var ended, rep := run.ProcessEvent(preAck[i]);
      if ended {
        return rep, run;
      }
      ended, rep := run.StopIfUnapprovable();
      if ended {
        return rep, run;
      }
    }
    assert script[|preAck|..] == arrivals[next..];
    for i := next to |arrivals|
      invariant fresh(run) && fresh(run.facts) && run.w == w
      invariant Drive(w, START, script) == Drive(w, run.View(), arrivals[i..])
    {
      DriveOther(w, run.View(), arrivals[i..]);
      WhenCutShort(w, run.View());
      assert arrivals[i..][1..] == arrivals[i + 1..];
      match arrivals[i] {
        case Cancelled =>
          o := run.Complete(Incomplete, None);
          return;
        case TimedOut =>
          o := run.Complete(Failed, Some(RunTimedOut));
          return;
        case StreamClosed =>
          o := run.AbnormalExit();
          return;
        case ProcessDone =>
        case Ev(e) =>
          DriveEvent(w, run.View(), arrivals[i..], e);
          var ended, rep := run.ProcessEvent(e);
          if ended {
            return rep, run;
          }
          ended, rep := run.StopIfUnapprovable();
          if ended {
            return rep, run;
          }
      }
    }
    assert arrivals[|arrivals|..] == [];
    DriveOther(w, run.View(), []);
    o := run.AbnormalExit();
  }

  method GiveUpWith(run: Runtime, error: RunError) returns (o: Outcome)
    requires run.View() == START
    modifies run`saved
    ensures run.View() == START
    ensures o == GiveUp(run.w, error)
  {
    o := run.Complete(Failed, Some(error));
  }

  lemma {:induction false} WhenCutShort(w: World, v: RunView)
    ensures Conclude(w, v, Aborted) == Finish(w, v, Incomplete, None)
    ensures Conclude(w, v, Expired) == Finish(w, v, Failed, Some(RunTimedOut))
  {}

  lemma {:induction false} DriveEvent(w: World, v: RunView, arrivals: seq<Arrival>, e: PiEvent)
    requires arrivals != [] && arrivals[0] == Ev(e)
    ensures Drive(w, v, arrivals) ==
            var next := Feed(w, v, e);
            if e.kind == AgentSettled then (next, Settled)
            else if next.facts.unapprovable.Some? then (next, Stopped)
            else Drive(w, next, arrivals[1..])
  {}

  lemma {:induction false} DriveOther(w: World, v: RunView, arrivals: seq<Arrival>)
    ensures arrivals == [] || arrivals[0].StreamClosed? ==> Drive(w, v, arrivals) == (v, Gone)
    ensures arrivals != [] && arrivals[0].Cancelled? ==> Drive(w, v, arrivals) == (v, Aborted)
    ensures arrivals != [] && arrivals[0].TimedOut? ==> Drive(w, v, arrivals) == (v, Expired)
    ensures arrivals != [] && arrivals[0].ProcessDone? ==> Drive(w, v, arrivals) == Drive(w, v, arrivals[1..])
  {}
}
