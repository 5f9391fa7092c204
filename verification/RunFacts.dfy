/** What the facts of a run say about its events (internal/agent/facts.go, runtime.go). */
module RunFacts {
  import opened Basics
  import opened RunModel
  import opened Sessions
  import opened RunLaws
  import opened RunTrace

  /** The call was last started with these arguments and has not ended since. */
  predicate StartedWith(events: seq<PiEvent>, id: string, args: Args) {
    exists i | 0 <= i < |events| :: LastStart(events, i, id) && events[i].args == args
  }

  predicate LastStart(events: seq<PiEvent>, i: nat, id: string)
    requires i < |events|
  {
    StartsCall(events[i], id) && forall j | i < j < |events| :: !EndsCall(events[j], id) && !StartsCall(events[j], id)
  }

  lemma {:induction false} LastStartSnoc(events: seq<PiEvent>, e: PiEvent, i: nat, id: string)
    requires i <= |events|
    ensures LastStart(events + [e], i, id) <==>
            if i == |events| then StartsCall(e, id)
            else LastStart(events, i, id) && !EndsCall(e, id) && !StartsCall(e, id)
  {
    var longer := events + [e];
    assert longer[|events|] == e;
    assert forall j | 0 <= j < |events| :: longer[j] == events[j];
  }

  lemma {:induction false} StartedWithSnoc(events: seq<PiEvent>, e: PiEvent, id: string, args: Args)
    ensures StartedWith(events + [e], id, args) <==>
            if StartsCall(e, id) then e.args == args else StartedWith(events, id, args) && !EndsCall(e, id)
  {
    hide LastStart, StartsCall, EndsCall;
    var longer := events + [e];
    forall i: nat | i <= |events|
      ensures LastStart(longer, i, id) <==>
              if i == |events| then StartsCall(e, id)
              else LastStart(events, i, id) && !EndsCall(e, id) && !StartsCall(e, id)
    {
      LastStartSnoc(events, e, i, id);
    }
    assert longer[|events|] == e;
  }

  /** The arguments kept for an open call are those of its last start. */
  lemma {:induction false} OpenCallKeepsItsArgs(events: seq<PiEvent>, id: string, args: Args)
    ensures var open := FactsAfter(events).open; id in open && open[id].args == args <==> StartedWith(events, id, args)
    decreases |events|
  {
    if events != [] {
      InitLast(events);
      OpenCallKeepsItsArgs(Init(events), id, args);
      StartedWithSnoc(Init(events), Last(events), id, args);
      hide StartedWith;
    }
  }

  /** Event i ends, without error, an editing call that was started with this path. */
  ghost predicate Edits(events: seq<PiEvent>, i: nat, path: string)
    requires i < |events|
  {
    var e := events[i];
    && e.kind == ToolExecutionEnd && !e.isError && e.tool in {CreateFile, WriteFile, ApplyPatch} && path != ""
    && exists args: Args :: args.path == Some(path) && StartedWith(events[..i], e.toolCallId, args)
  }

  lemma {:induction false} EditsSnoc(events: seq<PiEvent>, path: string)
    requires events != []
    ensures (exists i | 0 <= i < |events| :: Edits(events, i, path))
            <==> Edits(events, |events| - 1, path) || exists i | 0 <= i < |events| - 1 :: Edits(Init(events), i, path)
  {
    var before := Init(events);
    assert forall i | 0 <= i < |before| :: before[i] == events[i] && before[..i] == events[..i];
    assert forall i | 0 <= i < |before| :: Edits(before, i, path) <==> Edits(events, i, path);
  }

  /** The last event adds a path exactly when it ends an edit of it. */
  lemma {:induction false} LastEventEdits(events: seq<PiEvent>, path: string)
    requires events != []
    ensures path in FactsAfter(events).modified
            <==> path in FactsAfter(Init(events)).modified || Edits(events, |events| - 1, path)
  {
    var before, e := Init(events), Last(events);
    assert events[..|events| - 1] == before;
    var f := FactsAfter(before);
    forall args ensures e.toolCallId in f.open && f.open[e.toolCallId].args == args
                        <==> StartedWith(before, e.toolCallId, args)
    {
      OpenCallKeepsItsArgs(before, e.toolCallId, args);
    }
    hide StartedWith, FactsAfter;
    LastFacts(events);
  }

  lemma {:induction false} LastFacts(events: seq<PiEvent>)
    requires events != []
    ensures var f, e := FactsAfter(Init(events)), Last(events);
            FactsAfter(events).modified ==
            if e.kind == ToolExecutionEnd && !e.isError && EditsFile(e.tool)
                && OrEmpty(ArgsOf(f, e.toolCallId).path) != ""
            then AddOnce(f.modified, ArgsOf(f, e.toolCallId).path.value) else f.modified
  {}

  /** The report lists exactly the files that a successful editing call was started for, each once. */
  lemma {:induction false} ModifiedIffEdited(events: seq<PiEvent>, path: string)
    ensures path in FactsAfter(events).modified <==> exists i | 0 <= i < |events| :: Edits(events, i, path)
    ensures var m := FactsAfter(events).modified; forall i, j | 0 <= i < j < |m| :: m[i] != m[j]
    decreases |events|
  {
    if events != [] {
      ModifiedIffEdited(Init(events), path);
      LastEventEdits(events, path);
      EditsSnoc(events, path);
      LastFacts(events);
      hide Edits, FactsAfter;
    }
  }

  // ----- Failures, verifications, declined commands

  /** The arguments a call was last started with, if it has not ended since; otherwise nothing is known. */
  function LastArgs(events: seq<PiEvent>, id: string): Args
    decreases |events|
  {
    if events == [] then Args(None, None)
    else if StartsCall(Last(events), id) then Last(events).args
    else if EndsCall(Last(events), id) then Args(None, None)
    else LastArgs(Init(events), id)
  }

  lemma {:induction false} ArgsAreLastArgs(events: seq<PiEvent>, id: string)
    ensures ArgsOf(FactsAfter(events), id) == LastArgs(events, id)
    decreases |events|
  {
    if events != [] {
      ArgsAreLastArgs(Init(events), id);
    }
  }

  /** The call as it was last started, if it has not ended since. */
  function LastCall(events: seq<PiEvent>, id: string): Option<ToolCall>
    decreases |events|
  {
    if events == [] then None
    else if StartsCall(Last(events), id) then Some(ToolCall(Last(events).tool, Last(events).args))
    else if EndsCall(Last(events), id) then None
    else LastCall(Init(events), id)
  }

  /** An open call is kept with the tool and the arguments of its last start. */
  lemma {:induction false} OpenCallIsLastStart(events: seq<PiEvent>, id: string)
    ensures var open := FactsAfter(events).open; LastCall(events, id) == if id in open then Some(open[id]) else None
    decreases |events|
  {
    if events != [] {
      OpenCallIsLastStart(Init(events), id);
    }
  }

  predicate FailsCall(e: PiEvent) {
    e.kind == ToolExecutionEnd && e.isError
  }

  function FailureOf(e: PiEvent): ToolFailure {
    ToolFailure(e.tool, e.toolError.text)
  }

  /** The PowerShell commands that were started with a known command and ended with a known result. */
  function VerificationsOf(events: seq<PiEvent>): seq<Verification>
    decreases |events|
  {
    if events == [] then []
    else
      var before, e := VerificationsOf(Init(events)), Last(events);
      var command := LastArgs(Init(events), e.toolCallId).command;
      if e.kind == ToolExecutionEnd && !e.isError && e.tool == RunPowershell && command.Some? && e.details.Some?
      then before + [Verification(command.value, e.details.value.exitCode, e.details.value.output)]
      else before
  }

  /** The commands that a human refused. */
  function DeclinedOf(events: seq<PiEvent>): seq<string>
    decreases |events|
  {
    if events == [] then []
    else
      var before, e := DeclinedOf(Init(events)), Last(events);
      var command := LastArgs(Init(events), e.toolCallId).command;
      if FailsCall(e) && e.toolError.saysDenied && command.Some? && command.value != ""
      then before + [command.value] else before
  }

  /** The first command that needed approval with nobody to ask; the empty one when it is not known. */
  function NobodyAsked(events: seq<PiEvent>): Option<ApprovalFact>
    decreases |events|
  {
    if events == [] then None
    else
      var before, e := NobodyAsked(Init(events)), Last(events);
      var command := LastArgs(Init(events), e.toolCallId).command;
      if before.Some? || !NobodyToAsk(e) then before
      else Some(ApprovalFact(if command.Some? then command.value else ""))
  }

  lemma {:induction false} FailuresTell(events: seq<PiEvent>)
    ensures FactsAfter(events).failures == Map(Pick(events, FailsCall), FailureOf)
    ensures FactsAfter(events).started == |Pick(events, StartsTool)|
    decreases |events|
  {
    if events != [] {
      var before, e := Init(events), Last(events);
      InitLast(events);
      FailuresTell(before);
      PickSnoc(before, e, FailsCall);
      PickSnoc(before, e, StartsTool);
      if FailsCall(e) {
        MapSnoc(Pick(before, FailsCall), e, FailureOf);
      }
      hide Pick, Map;
    }
  }

  lemma {:induction false} CommandsTell(events: seq<PiEvent>)
    ensures var f := FactsAfter(events);
            && f.verified == VerificationsOf(events) && f.declined == DeclinedOf(events)
            && f.unapprovable == NobodyAsked(events)
    decreases |events|
  {
    if events != [] {
      CommandsTell(Init(events));
      ArgsAreLastArgs(Init(events), Last(events).toolCallId);
      hide LastArgs;
    }
  }

  /** The facts are exactly these lists, and the number of calls that were started. */
  lemma {:induction false} FactsTellTheEvents(events: seq<PiEvent>)
    ensures var f := FactsAfter(events);
            && f.failures == Map(Pick(events, FailsCall), FailureOf)
            && f.verified == VerificationsOf(events)
            && f.declined == DeclinedOf(events)
            && f.unapprovable == NobodyAsked(events)
            && f.started == |Pick(events, StartsTool)|
  {
    hide *;
    FailuresTell(events);
    CommandsTell(events);
  }

  // ----- Turns and the last error

  predicate StartsTurn(e: PiEvent) {
    e.kind == TurnStart
  }

  function LastError(events: seq<PiEvent>): string
    decreases |events|
  {
    if events == [] then ""
    else if Last(events).kind == MessageEnd && Last(events).errorMessage != "" then Last(events).errorMessage
    else LastError(Init(events))
  }

  lemma {:induction false} FeedCounts(w: World, v: RunView, e: PiEvent)
    ensures Feed(w, v, e).turns == v.turns + if StartsTurn(e) then 1 else 0
    ensures Feed(w, v, e).finalError
            == if e.kind == MessageEnd && e.errorMessage != "" then e.errorMessage else v.finalError
  {}

  lemma {:induction false} TurnsAndErrorTellTheEvents(w: World, events: seq<PiEvent>)
    ensures FeedAll(w, START, events).turns == |Pick(events, StartsTurn)|
    ensures FeedAll(w, START, events).finalError == LastError(events)
    decreases |events|
  {
    if events != [] {
      hide Feed;
      InitLast(events);
      TurnsAndErrorTellTheEvents(w, Init(events));
      FeedCounts(w, FeedAll(w, START, Init(events)), Last(events));
      PickSnoc(Init(events), Last(events), StartsTurn);
    }
  }
}
