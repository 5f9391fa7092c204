/** What a run shows, logs and reports, read off the fields of its events (internal/agent/runtime.go, facts.go). */
module RunTrace {
  import opened Basics
  import opened Sessions
  import opened RunModel
  import opened RunSpec
  import opened RunLaws

  // ----- Picking from a list

  function Pick<T>(s: seq<T>, wanted: T -> bool): seq<T> {
    if s == [] then [] else Pick(Init(s), wanted) + if wanted(Last(s)) then [Last(s)] else []
  }

  function Map<S, T>(s: seq<S>, f: S -> T): (r: seq<T>)
    ensures |r| == |s|
  {
    if s == [] then [] else Map(Init(s), f) + [f(Last(s))]
  }

  lemma {:induction false} PickSnoc<T>(s: seq<T>, x: T, wanted: T -> bool)
    ensures Pick(s + [x], wanted) == if wanted(x) then Pick(s, wanted) + [x] else Pick(s, wanted)
  {
    assert Init(s + [x]) == s;
  }

  lemma {:induction false} MapSnoc<S, T>(s: seq<S>, x: S, f: S -> T)
    ensures Map(s + [x], f) == Map(s, f) + [f(x)]
  {
    assert Init(s + [x]) == s;
  }

  lemma {:induction false} PickAppend<T>(a: seq<T>, b: seq<T>, wanted: T -> bool)
    ensures Pick(a + b, wanted) == Pick(a, wanted) + Pick(b, wanted)
    decreases |b|
  {
    if b == [] {
      assert a + b == a;
    } else {
      assert Init(a + b) == a + Init(b) && Last(a + b) == Last(b);
      PickAppend(a, Init(b), wanted);
    }
  }

  lemma {:induction false} PickFew<T>(few: seq<T>, wanted: T -> bool)
    requires |few| <= 1
    ensures Pick(few, wanted) == if few != [] && wanted(few[0]) then few else []
  {
    if few != [] {
      assert Init(few) == [] && few == [few[0]];
    }
  }

  /** What an event adds to a list, as far as it is wanted: `f` of the event, if `p` holds of it. */
  ghost predicate Adds<T(!new)>(more: PiEvent -> seq<T>, wanted: T -> bool, p: PiEvent -> bool, f: PiEvent -> T) {
    forall e ::
      && |more(e)| <= 1
      && (if more(e) != [] && wanted(more(e)[0]) then more(e) else [])
         == if p(e) then [f(e)] else []
  }

  lemma {:induction false} OneMoreEvent<T>(events: seq<PiEvent>, t: seq<T>, few: seq<T>, wanted: T -> bool,
                                           p: PiEvent -> bool, f: PiEvent -> T)
    requires events != [] && Pick(t, wanted) == Map(Pick(Init(events), p), f)
    requires |few| <= 1
    requires (if few != [] && wanted(few[0]) then few else []) == if p(Last(events)) then [f(Last(events))] else []
    ensures Pick(t + few, wanted) == Map(Pick(events, p), f)
  {
    hide *;
    InitLast(events);
    PickAppend(t, few, wanted);
    PickFew(few, wanted);
    PickSnoc(Init(events), Last(events), p);
    MapSnoc(Pick(Init(events), p), Last(events), f);
  }

  // ----- The session log

  predicate IsText(l: Logged) {
    l.AssistantText?
  }

  predicate IsCall(l: Logged) {
    l.ToolCallRecorded?
  }

  predicate IsResult(l: Logged) {
    l.ToolResultRecorded?
  }

  predicate SaysText(e: PiEvent) {
    e.kind == MessageUpdate && e.assistant == TextDelta
  }

  predicate EndsCallText(e: PiEvent) {
    e.kind == MessageUpdate && e.assistant == ToolCallEnd
  }

  predicate EndsTool(e: PiEvent) {
    e.kind == ToolExecutionEnd
  }

  function TextEntry(e: PiEvent): Logged {
    AssistantText(e.delta)
  }

  function CallEntry(e: PiEvent): Logged {
    ToolCallRecorded(e.callTool, e.callId)
  }

  function ResultEntry(e: PiEvent): Logged {
    ToolResultRecorded(e.tool, e.toolCallId)
  }

  lemma {:induction false} LogOfKind(events: seq<PiEvent>, wanted: Logged -> bool, p: PiEvent -> bool,
                                     f: PiEvent -> Logged)
    requires Adds(SessionEventFor, wanted, p, f)
    ensures Pick(LogImage(events), wanted) == Map(Pick(events, p), f)
    decreases |events|
  {
    if events != [] {
      LogOfKind(Init(events), wanted, p, f);
      hide SessionEventFor, Pick, Map;
      OneMoreEvent(events, LogImage(Init(events)), SessionEventFor(Last(events)), wanted, p, f);
    }
  }

  lemma {:induction false} LogGrows(before: seq<PiEvent>, after: seq<PiEvent>)
    ensures LogImage(before) <= LogImage(before + after)
    decreases |after|
  {
    if after == [] {
      assert before + after == before;
    } else {
      LogGrows(before, Init(after));
      assert Init(before + after) == before + Init(after);
    }
  }

  /**
   * The log has, in order, exactly the deltas of the assistant's text, the tool calls it finished writing, and the
   * tools that ended; and what an event adds comes after what earlier events added.
   */
  lemma {:induction false} LogTellsTheEvents(events: seq<PiEvent>, more: seq<PiEvent>)
    ensures Pick(LogImage(events), IsText) == Map(Pick(events, SaysText), TextEntry)
    ensures Pick(LogImage(events), IsCall) == Map(Pick(events, EndsCallText), CallEntry)
    ensures Pick(LogImage(events), IsResult) == Map(Pick(events, EndsTool), ResultEntry)
    ensures LogImage(events) <= LogImage(events + more)
  {
    hide LogImage, Pick, Map;
    LogGrows(events, more);
    LogOfKind(events, IsText, SaysText, TextEntry);
    LogOfKind(events, IsCall, EndsCallText, CallEntry);
    LogOfKind(events, IsResult, EndsTool, ResultEntry);
  }

  // ----- The display

  predicate IsDelta(x: Shown) {
    x.AssistantDelta?
  }

  predicate IsStarted(x: Shown) {
    x.ToolStarted?
  }

  predicate IsFinished(x: Shown) {
    x.ToolFinished?
  }

  predicate IsRunEnd(x: Shown) {
    x.RunFinished?
  }

  predicate SaysSomething(e: PiEvent) {
    SaysText(e) && e.delta != ""
  }

  predicate StartsTool(e: PiEvent) {
    e.kind == ToolExecutionStart
  }

  predicate Settles(e: PiEvent) {
    e.kind == AgentSettled
  }

  predicate BringsUsage(e: PiEvent) {
    e.kind == MessageUpdate && e.usage.Some?
  }

  function ShowDelta(e: PiEvent): Shown {
    AssistantDelta(e.delta)
  }

  function ShowStart(e: PiEvent): Shown {
    ToolStarted(e.toolCallId, e.tool)
  }

  function ShowFinish(e: PiEvent): Shown {
    ToolFinished(e.toolCallId, e.tool)
  }

  function ShowEnd(e: PiEvent): Shown {
    RunFinished
  }

  function UsageOf(e: PiEvent): Option<Usage> {
    e.usage
  }

  /** A list without the elements that repeat the one before. */
  function Changes<T(==)>(s: seq<T>): seq<T> {
    if |s| <= 1 then s
    else Changes(Init(s)) + if Last(s) == Last(Init(s)) then [] else [Last(s)]
  }

  lemma {:induction false} ChangesSnoc<T>(s: seq<T>, x: T)
    ensures Changes(s + [x]) == if s != [] && x == Last(s) then Changes(s) else Changes(s) + [x]
  {
    assert Init(s + [x]) == s && Last(s + [x]) == x;
    if s == [] {
      assert s + [x] == [x];
    }
  }

  lemma {:induction false} ShownImageStep(events: seq<PiEvent>)
    requires events != []
    ensures ShownImage(events)
            == ShownImage(Init(events)) + UsageChange(LastUsage(Init(events)), Last(events)) + Translate(Last(events))
  {}

  /** Everything shown except the usages comes from the events one by one. */
  lemma {:induction false} ShownOfKind(events: seq<PiEvent>, wanted: Shown -> bool, p: PiEvent -> bool,
                                       f: PiEvent -> Shown)
    requires Adds(Translate, wanted, p, f) && forall usage :: !wanted(UsageUpdated(usage))
    ensures Pick(ShownImage(events), wanted) == Map(Pick(events, p), f)
    decreases |events|
  {
    if events != [] {
      ShownOfKind(Init(events), wanted, p, f);
      var t, u := ShownImage(Init(events)), UsageChange(LastUsage(Init(events)), Last(events));
      PickFew(u, wanted);
      PickAppend(t, u, wanted);
      ShownImageStep(events);
      hide Translate, Pick, Map, UsageChange, ShownImage;
      OneMoreEvent(events, t + u, Translate(Last(events)), wanted, p, f);
    }
  }

  /** The display shows, in order, exactly the texts, the starts and ends of tools, and the end of the run. */
  lemma {:induction false} DisplayTellsTheEvents(events: seq<PiEvent>)
    ensures Pick(ShownImage(events), IsDelta) == Map(Pick(events, SaysSomething), ShowDelta)
    ensures Pick(ShownImage(events), IsStarted) == Map(Pick(events, StartsTool), ShowStart)
    ensures Pick(ShownImage(events), IsFinished) == Map(Pick(events, EndsTool), ShowFinish)
    ensures Pick(ShownImage(events), IsRunEnd) == Map(Pick(events, Settles), ShowEnd)
  {
    hide ShownImage, Pick, Map;
    ShownOfKind(events, IsDelta, SaysSomething, ShowDelta);
    ShownOfKind(events, IsStarted, StartsTool, ShowStart);
    ShownOfKind(events, IsFinished, EndsTool, ShowFinish);
    ShownOfKind(events, IsRunEnd, Settles, ShowEnd);
  }

  /** The usages in the order in which they arrive. */
  function Usages(events: seq<PiEvent>): seq<Option<Usage>> {
    Map(Pick(events, BringsUsage), UsageOf)
  }

  lemma {:induction false} UsagesStep(events: seq<PiEvent>)
    requires events != []
    ensures Usages(events)
            == if BringsUsage(Last(events)) then Usages(Init(events)) + [Last(events).usage] else Usages(Init(events))
  {
    hide Pick, Map;
    InitLast(events);
    PickSnoc(Init(events), Last(events), BringsUsage);
    MapSnoc(Pick(Init(events), BringsUsage), Last(events), UsageOf);
  }

  function UsagesShown(shown: seq<Shown>): seq<Option<Usage>> {
    if shown == [] then []
    else UsagesShown(Init(shown)) + if Last(shown).UsageUpdated? then [Some(Last(shown).usage)] else []
  }

  lemma {:induction false} UsagesShownMore(shown: seq<Shown>, few: seq<Shown>)
    requires |few| <= 1
    ensures UsagesShown(shown + few)
            == UsagesShown(shown) + if few != [] && few[0].UsageUpdated? then [Some(few[0].usage)] else []
  {
    if few == [] {
      assert shown + few == shown;
    } else {
      assert Init(shown + few) == shown && Last(shown + few) == few[0];
    }
  }

  lemma {:induction false} UsagesShownStep(events: seq<PiEvent>)
    requires events != []
    ensures var before, e := Init(events), Last(events);
            UsagesShown(ShownImage(events))
            == UsagesShown(ShownImage(before))
               + if BringsUsage(e) && LastUsage(before) != e.usage then [e.usage] else []
  {
    ShownImageStep(events);
    var t, u := ShownImage(Init(events)), UsageChange(LastUsage(Init(events)), Last(events));
    var more := Translate(Last(events));
    assert |u| <= 1 && |more| <= 1 && (more != [] ==> !more[0].UsageUpdated?);
    hide ShownImage, UsagesShown, LastUsage, Translate;
    UsagesShownMore(t, u);
    UsagesShownMore(t + u, more);
  }

  lemma {:induction false} LastUsageStep(events: seq<PiEvent>)
    requires events != []
    ensures LastUsage(events) == if BringsUsage(Last(events)) then Last(events).usage else LastUsage(Init(events))
  {}

  /** The usages that arrive are shown when they differ from the one before; the last one is reported. */
  lemma {:induction false} UsageTellsTheEvents(events: seq<PiEvent>)
    ensures UsagesShown(ShownImage(events)) == Changes(Usages(events))
    ensures LastUsage(events) == if Usages(events) == [] then None else Last(Usages(events))
    decreases |events|
  {
    hide ShownImage, Usages, UsagesShown, Changes, LastUsage;
    if events == [] {
      NoUsage();
    } else {
      var before, e := Init(events), Last(events);
      UsageTellsTheEvents(before);
      UsagesStep(events);
      UsagesShownStep(events);
      LastUsageStep(events);
      if BringsUsage(e) {
        ChangesSnoc(Usages(before), e.usage);
        assert Last(Usages(before) + [e.usage]) == e.usage;
      } else {
        assert UsagesShown(ShownImage(before)) + [] == UsagesShown(ShownImage(before));
      }
    }
  }

  lemma {:induction false} NoUsage()
    ensures Usages([]) == [] && UsagesShown(ShownImage([])) == [] && Changes<Option<Usage>>([]) == []
    ensures LastUsage([]) == None
  {}
}
