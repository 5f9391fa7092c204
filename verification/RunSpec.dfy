/** A whole run read as one pass over everything that arrives (Run in internal/agent/runtime.go). */
module RunSpec {
  import opened Basics
  import opened Sessions
  import opened RunModel
  import opened Recovery

  /** What can arrive while a run waits; the timer is the acknowledgement's until the prompt is acknowledged. */
  datatype Arrival = Ev(e: PiEvent) | Cancelled | TimedOut | ProcessDone | StreamClosed

  /** The report and error returned, and the summary that was saved, if one was. */
  datatype Outcome = Outcome(report: Report, error: Option<RunError>, saved: Option<Summary>)

  // ----- Reports and their last passes

  function SummaryOf(w: World, v: RunView, status: Status): Summary {
    Summarize(w.summaryBefore, ApplyFacts(w, v, BlankReport(w, v, status)), v)
  }

  function ReportOf(w: World, v: RunView, status: Status): Report {
    var rep := ApplyFacts(w, v, BlankReport(w, v, status));
    if !w.summarySaves && v.appendFails == 0
    then rep.(remainingRisks := rep.remainingRisks + [SummaryNotSaved])
    else rep
  }

  function SavedOf(w: World, v: RunView, status: Status): Option<Summary> {
    if w.summarySaves then Some(SummaryOf(w, v, status)) else None
  }

  function AfterStorage(v: RunView, rep: Report): Report {
    if v.appendFails == 0 then rep
    else rep.(remainingRisks := rep.remainingRisks + [EventLogIncomplete(v.appendFails)], status := Failed)
  }

  function StorageError(v: RunView, error: Option<RunError>): Option<RunError> {
    if v.appendFails > 0 && error.None? then Some(StorageFailed) else error
  }

  function Finish(w: World, v: RunView, status: Status, error: Option<RunError>): Outcome {
    Outcome(AfterStorage(v, ReportOf(w, v, status)), StorageError(v, error), SavedOf(w, v, status))
  }

  function GiveUp(w: World, error: RunError): Outcome {
    Finish(w, START, Failed, Some(error))
  }

  // ----- How a run can end

  datatype End = Settled | Stopped | Aborted | Expired | Gone

  function SettleStatus(v: RunView): Status {
    match v.stopReason
    case Stop => Completed
    case StopError => Failed
    case Absent => Failed
    case OtherStop(_) => Incomplete
  }

  function ProviderError(message: string): RunError {
    if message != "" then ProviderFailed(message) else SettledInError
  }

  function SettleError(v: RunView): Option<RunError> {
    match v.stopReason
    case StopError => Some(ProviderError(v.finalError))
    case Absent => Some(NoTerminalState)
    case _ => None
  }

  function ExitError(w: World, v: RunView): RunError {
    if w.exitCode != 0 then if w.exitMessage != "" then ProviderFailed(w.exitMessage) else ExitedNonZero
    else if v.finalError != "" then ProviderError(v.finalError)
    else ExitedUnsettled
  }

  function Conclude(w: World, v: RunView, end: End): Outcome {
    match end
    case Settled => Finish(w, v, SettleStatus(v), SettleError(v))
    case Stopped => Finish(w, v, Incomplete, Some(NoTerminal))
    case Aborted => Finish(w, v, Incomplete, None)
    case Expired => Finish(w, v, Failed, Some(RunTimedOut))
    case Gone => Finish(w, v, Failed, Some(ExitError(w, v)))
  }

  // ----- One pass

  /** Feed the arrivals one by one until the first thing that ends the run. */
  function Drive(w: World, v: RunView, arrivals: seq<Arrival>): (RunView, End)
    decreases |arrivals|
  {
    if arrivals == [] then (v, Gone)
    else
      match arrivals[0]
      case Cancelled => (v, Aborted)
      case TimedOut => (v, Expired)
      case StreamClosed => (v, Gone)
      case ProcessDone => Drive(w, v, arrivals[1..])
      case Ev(e) =>
        var next := Feed(w, v, e);
        if e.kind == AgentSettled then (next, Settled)
        else if next.facts.unapprovable.Some? then (next, Stopped)
        else Drive(w, next, arrivals[1..])
  }

  datatype Ack = Acked(at: nat) | NotAcked(error: RunError)

  /** The first response decides, unless the run is over before it arrives. */
  function FindAck(arrivals: seq<Arrival>): (ack: Ack)
    ensures ack.Acked? ==> ack.at < |arrivals|
    decreases |arrivals|
  {
    if arrivals == [] then NotAcked(GoneBeforeAck)
    else
      match arrivals[0]
      case Cancelled => NotAcked(CancelledBeforeAck)
      case TimedOut => NotAcked(AckTimedOut)
      case ProcessDone => NotAcked(GoneBeforeAck)
      case StreamClosed => NotAcked(GoneBeforeAck)
      case Ev(e) =>
        if e.kind == Response then
          if e.success then Acked(0)
          else if e.errorMessage != "" then NotAcked(PromptRejected(e.errorMessage))
          else NotAcked(NotAcknowledged)
        else
          var later := FindAck(arrivals[1..]);
          if later.Acked? then Acked(later.at + 1) else later
  }

  function Without<T>(s: seq<T>, i: nat): seq<T>
    requires i < |s|
  {
    s[..i] + s[i + 1..]
  }

  function OnePass(w: World, arrivals: seq<Arrival>): Outcome {
    if w.launchFails then GiveUp(w, LaunchFailed)
    else if w.agentsFileFails then GiveUp(w, AgentsFileUnreadable)
    else if w.promptFails then GiveUp(w, PromptNotSent)
    else
      var ack := FindAck(arrivals);
      if ack.NotAcked? then GiveUp(w, ack.error)
      else
        var (v, end) := Drive(w, START, Without(arrivals, ack.at));
        Conclude(w, v, end)
  }
}
