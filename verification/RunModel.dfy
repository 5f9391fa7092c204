/**
 * The events, facts and reports of an agent run (internal/agent/runtime.go, facts.go;
 * internal/completion/report.go).
 */
module RunModel {
  import opened Basics
  import opened Sessions

  // ----- Events

  datatype EventType =
    | Response
    | TurnStart
    | MessageEnd
    | AgentSettled
    | MessageUpdate
    | ToolExecutionStart
    | ToolExecutionEnd
    | OtherEvent

  datatype StopReason = Absent | Stop | StopError | OtherStop(name: string)

  datatype AssistantType = TextDelta | ToolCallEnd | OtherAssistant

  datatype Tool = CreateFile | WriteFile | ApplyPatch | RunPowershell | OtherTool(name: string)

  /** A tool call's arguments: the `command` and `path` members, None where decoding fails. */
  datatype Args = Args(command: Option<string>, path: Option<string>)

  /** A failed call's error text and the stable codes found in it. */
  datatype ToolError = ToolError(text: string, saysDenied: bool, saysNoTerminal: bool)

  datatype RunDetails = RunDetails(exitCode: int, output: string)

  datatype Usage = Usage(promptTokens: int, completionTokens: int, cost: Option<real>)

  datatype PiEvent = PiEvent(
    kind: EventType,
    success: bool,
    stopReason: StopReason,
    errorMessage: string,
    usage: Option<Usage>,
    assistant: AssistantType,
    delta: string,
    callTool: string,
    callId: string,
    toolCallId: string,
    tool: Tool,
    args: Args,
    isError: bool,
    details: Option<RunDetails>,
    toolError: ToolError)

  /** What the display is shown. */
  datatype Shown =
    | AssistantDelta(text: string)
    | ToolStarted(id: string, tool: Tool)
    | ToolFinished(id: string, tool: Tool)
    | UsageUpdated(usage: Usage)
    | RunFinished

  /** What the session log is asked to append. */
  datatype Logged =
    | AssistantText(text: string)
    | ToolCallRecorded(tool: string, id: string)
    | ToolResultRecorded(executed: Tool, id: string)

  function Translate(e: PiEvent): seq<Shown> {
    match e.kind
    case MessageUpdate => if e.assistant == TextDelta && e.delta != "" then [AssistantDelta(e.delta)] else []
    case ToolExecutionStart => [ToolStarted(e.toolCallId, e.tool)]
    case ToolExecutionEnd => [ToolFinished(e.toolCallId, e.tool)]
    case AgentSettled => [RunFinished]
    case _ => []
  }

  function SessionEventFor(e: PiEvent): seq<Logged> {
    match e.kind
    case MessageUpdate =>
      (match e.assistant
       case TextDelta => [AssistantText(e.delta)]
       case ToolCallEnd => [ToolCallRecorded(e.callTool, e.callId)]
       case OtherAssistant => [])
    case ToolExecutionEnd => [ToolResultRecorded(e.tool, e.toolCallId)]
    case _ => []
  }

  // ----- Facts

  datatype ToolCall = ToolCall(tool: Tool, args: Args)

  datatype ApprovalFact = ApprovalFact(command: string)

  datatype ToolFailure = ToolFailure(tool: Tool, text: string)

  datatype Facts = Facts(
    open: map<string, ToolCall>,
    started: nat,
    modified: seq<string>,
    verified: seq<Verification>,
    failures: seq<ToolFailure>,
    approvalDeclined: bool,
    unapprovable: Option<ApprovalFact>,
    declined: seq<string>)

  const NO_FACTS := Facts(map[], 0, [], [], [], false, None, [])

  function Started(f: Facts, id: string, tool: Tool, args: Args): Facts {
    f.(open := f.open[id := ToolCall(tool, args)], started := f.started + 1)
  }

  function ArgsOf(f: Facts, id: string): Args {
    if id in f.open then f.open[id].args else Args(None, None)
  }

  function AddOnce(items: seq<string>, item: string): seq<string> {
    if item in items then items else items + [item]
  }

  predicate EditsFile(tool: Tool) {
    tool == CreateFile || tool == WriteFile || tool == ApplyPatch
  }

  function OrEmpty(text: Option<string>): string {
    if text.Some? then text.value else ""
  }

  function EndedInError(f: Facts, args: Args, tool: Tool, err: ToolError): Facts {
    f.(failures := f.failures + [ToolFailure(tool, err.text)],
       approvalDeclined := f.approvalDeclined || err.saysDenied || err.saysNoTerminal,
       declined :=
         if err.saysDenied && OrEmpty(args.command) != "" then f.declined + [args.command.value] else f.declined,
       unapprovable :=
         if err.saysNoTerminal && f.unapprovable.None? then Some(ApprovalFact(OrEmpty(args.command)))
         else f.unapprovable)
  }

  function EndedWell(f: Facts, args: Args, tool: Tool, details: Option<RunDetails>): Facts {
    if EditsFile(tool) then
      if OrEmpty(args.path) != "" then f.(modified := AddOnce(f.modified, args.path.value)) else f
    else if tool == RunPowershell && args.command.Some? && details.Some? then
      f.(verified := f.verified + [Verification(args.command.value, details.value.exitCode, details.value.output)])
    else f
  }

  function Ended(f: Facts, id: string, tool: Tool, isError: bool, details: Option<RunDetails>, err: ToolError): Facts {
    var closed := f.(open := f.open - {id});
    if isError then EndedInError(closed, ArgsOf(f, id), tool, err) else EndedWell(closed, ArgsOf(f, id), tool, details)
  }

  // ----- The state of a run

  datatype RunView = RunView(
    turns: nat,
    stopReason: StopReason,
    finalError: string,
    usage: Option<Usage>,
    facts: Facts,
    shown: seq<Shown>,
    logged: seq<Logged>,
    appendFails: nat)

  const START := RunView(0, Absent, "", None, NO_FACTS, [], [], 0)

  /** What the surroundings answer: which append calls fail, what is pending, what the summary store and git say. */
  datatype World = World(
    task: string,
    launchFails: bool,
    agentsFileFails: bool,
    promptFails: bool,
    appendFails: nat -> bool,
    pendingApproval: Option<ApprovalFact>,
    summaryBefore: Option<Summary>,
    summarySaves: bool,
    diff: string,
    diffNote: string,
    dirtyAtStart: bool,
    exitCode: int,
    exitMessage: string)

  function EmitAndAppend(w: World, v: RunView, e: PiEvent): RunView {
    var entry := SessionEventFor(e);
    v.(shown := v.shown + Translate(e),
       logged := v.logged + entry,
       appendFails := if entry != [] && w.appendFails(|v.logged|) then v.appendFails + 1 else v.appendFails)
  }

  function UsageChange(before: Option<Usage>, e: PiEvent): seq<Shown> {
    if e.kind == MessageUpdate && e.usage.Some? && before != e.usage then [UsageUpdated(e.usage.value)] else []
  }

  function UsageAfter(before: Option<Usage>, e: PiEvent): Option<Usage> {
    if e.kind == MessageUpdate && e.usage.Some? then e.usage else before
  }

  /** The effect of one event that does not settle the run. */
  function Feed(w: World, v: RunView, e: PiEvent): RunView {
    match e.kind
    case Response => v
    case TurnStart => v.(turns := v.turns + 1)
    case MessageEnd =>
      v.(stopReason := if e.stopReason != Absent then e.stopReason else v.stopReason,
         finalError := if e.errorMessage != "" then e.errorMessage else v.finalError)
    case AgentSettled => v.(shown := v.shown + Translate(e))
    case MessageUpdate =>
      EmitAndAppend(w, v.(shown := v.shown + UsageChange(v.usage, e), usage := UsageAfter(v.usage, e)), e)
    case ToolExecutionStart =>
      EmitAndAppend(w, v.(facts := Started(v.facts, e.toolCallId, e.tool, e.args)), e)
    case ToolExecutionEnd =>
      EmitAndAppend(w, v.(facts := Ended(v.facts, e.toolCallId, e.tool, e.isError, e.details, e.toolError)), e)
    case OtherEvent => EmitAndAppend(w, v, e)
  }

  // ----- The report

  datatype RunError =
    | LaunchFailed
    | AgentsFileUnreadable
    | PromptNotSent
    | PromptRejected(message: string)
    | NotAcknowledged
    | GoneBeforeAck
    | AckTimedOut
    | CancelledBeforeAck
    | NoTerminal
    | RunTimedOut
    | SettledInError
    | NoTerminalState
    | ProviderFailed(message: string)
    | ExitedNonZero
    | ExitedUnsettled
    | StorageFailed

  datatype Report = Report(
    task: string,
    status: Status,
    modifiedFiles: seq<string>,
    diff: string,
    verifications: seq<Verification>,
    toolFailures: seq<ToolFailure>,
    pendingApproval: Option<ApprovalFact>,
    remainingRisks: seq<Risk>,
    usage: Option<Usage>,
    turns: nat)

  function RiskIf(present: bool, risk: Risk): seq<Risk> {
    if present then [risk] else []
  }

  /** The facts' part of the report; only a completed status is ever lowered. */
  function ApplyFacts(w: World, v: RunView, rep: Report): Report {
    var f := v.facts;
    var pending := if w.pendingApproval.Some? then w.pendingApproval else f.unapprovable;
    var lowered := |f.open| > 0 || pending.Some? || f.approvalDeclined;
    rep.(modifiedFiles := f.modified,
         verifications := f.verified,
         toolFailures := f.failures,
         pendingApproval := pending,
         status := if rep.status == Completed && lowered then Incomplete else rep.status,
         diff := if f.started > 0 then w.diff else "",
         remainingRisks :=
           RiskIf(|f.open| > 0, OpenCalls(|f.open|))
           + RiskIf(f.started > 0 && w.diffNote != "", DiffNote(w.diffNote))
           + RiskIf(f.started > 0 && w.dirtyAtStart && w.diff != "", DirtyAtStart))
  }

  function BlankReport(w: World, v: RunView, status: Status): Report {
    Report(w.task, status, [], "", [], [], None, [], v.usage, v.turns)
  }

  function ToolName(tool: Tool): string {
    match tool
    case CreateFile => "create_file"
    case WriteFile => "write_file"
    case ApplyPatch => "apply_patch"
    case RunPowershell => "run_powershell"
    case OtherTool(name) => name
  }
}
