/**
 * Nothing in the approval broker waits forever: every client can still be heard and granted, and Close can always
 * return (internal/approval/broker_windows.go, internal/approval/client.go).
 */
module BrokerProgress {
  import opened Basics
  import opened Broker

  // ----- Runs from a state

  lemma {:induction false} RunOn(token: string, s: State, a: seq<Step>, t: State, b: seq<Step>)
    requires Run(token, s, a) == Some(t)
    ensures Run(token, s, a + b) == Run(token, t, b)
    decreases |b|
  {
    hide Next;
    if b == [] {
      assert a + b == a;
    } else {
      RunOn(token, s, a, t, Init(b));
      assert Init(a + b) == a + Init(b) && Last(a + b) == Last(b);
    }
  }

  lemma {:induction false} RunOnce(token: string, s: State, step: Step)
    ensures Run(token, s, [step]) == Next(token, s, step)
  {
    hide Next;
    assert Init([step]) == [] && Last([step]) == step;
  }

  /** A run that starts where a run from the beginning ended. */
  lemma {:induction false} ReachOn(token: string, steps: seq<Step>, s: State, more: seq<Step>, t: State)
    requires Reachable(token, steps, s) && Run(token, s, more) == Some(t)
    ensures Reachable(token, steps + more, t)
  {
    RunFurther(token, steps, s, more);
  }

  // ----- One goroutine can always finish

  /** How far a goroutine is from its end. */
  function Stage(pc: Serving): nat {
    match pc
    case Reading => 8
    case WantsToAsk(_) => 7
    case MayAsk(_) => 6
    case Checked(_) => 5
    case Confirming(_) => 4
    case Replying(_) => 3
    case Leaving => 2
    case Closing => 1
    case Gone => 0
  }

  /** The goroutine may take the ask mutex or has it. */
  predicate Free(s: State, h: nat) {
    && h in s.serving && (HasAsked(s.serving[h]) <==> s.asker == Some(h))
    && (s.asker.None? || s.asker == Some(h))
  }

  /** Only the goroutine of connection h has moved. */
  predicate OnlyMoves(s: State, t: State, h: nat) {
    && h in s.serving && h in t.serving && t.serving == s.serving[h := t.serving[h]]
    && t.running == (if t.serving[h].Gone? then s.running - {h} else s.running)
    && t.accept == s.accept && t.closer == s.closer && t.closed == s.closed && t.cancelled == s.cancelled
    && t.sent == s.sent && t.result == s.result
  }

  /** A step that every surrounding allows: reading or asking may fail, and no reply need arrive. */
  function StepOf(pc: Serving, h: nat): Step {
    match pc
    case Reading => ReadRequest(h, ReadFailed)
    case WantsToAsk(_) => LockAsk(h)
    case MayAsk(_) => LookCancelled(h)
    case Checked(_) => CallConfirm(h)
    case Confirming(_) => ConfirmReturns(h, false, true)
    case Replying(_) => SendReply(h, false)
    case Leaving => LeaveActive(h)
    case _ => CloseConnection(h)
  }

  lemma {:induction false} LoopMovesOn(token: string, h: nat, pc: Serving, asker: Option<nat>, cancelled: bool,
                                       sent: Option<Request>)
    requires !pc.Gone? && (HasAsked(pc) <==> asker == Some(h)) && (asker.None? || asker == Some(h))
    ensures IsServe(StepOf(pc, h)) && StepOf(pc, h).h == h
    ensures var e := ServeLoop(token, h, pc, asker, cancelled, sent, StepOf(pc, h));
            && e.Some? && Stage(e.value.to) < Stage(pc)
            && (HasAsked(e.value.to) <==> e.value.asker == Some(h))
            && (e.value.asker.None? || e.value.asker == Some(h))
  {}

  lemma {:induction false} ServeMoves(token: string, s: State, step: Step)
    requires IsServe(step) && step.h in s.serving && step.h in s.running
    requires ServeLoop(token, step.h, s.serving[step.h], s.asker, s.cancelled, SentOn(s, step.h), step).Some?
    ensures var e := ServeLoop(token, step.h, s.serving[step.h], s.asker, s.cancelled, SentOn(s, step.h), step).value;
            && Next(token, s, step) == Some(AfterServe(s, step.h, e))
            && OnlyMoves(s, AfterServe(s, step.h, e), step.h)
            && AfterServe(s, step.h, e).serving[step.h] == e.to && AfterServe(s, step.h, e).asker == e.asker
  {
    hide ServeLoop, CloseIf;
  }

  lemma {:induction false} MovesOn(token: string, s: State, h: nat) returns (t: State)
    requires Free(s, h) && !s.serving[h].Gone? && h in s.running
    ensures Next(token, s, StepOf(s.serving[h], h)) == Some(t)
    ensures Free(t, h) && OnlyMoves(s, t, h) && Stage(t.serving[h]) < Stage(s.serving[h])
  {
    LoopMovesOn(token, h, s.serving[h], s.asker, s.cancelled, SentOn(s, h));
    hide ServeLoop, StepOf, Stage, HasAsked, Next, AfterServe, IsServe, SentOn;
    ServeMoves(token, s, StepOf(s.serving[h], h));
    t := Next(token, s, StepOf(s.serving[h], h)).value;
  }

  /** A goroutine that does not wait for the ask mutex can run to its end, whatever its surroundings do. */
  lemma {:induction false} CanFinish(token: string, s: State, h: nat) returns (more: seq<Step>, t: State)
    requires Free(s, h) && (h in s.running <==> !s.serving[h].Gone?)
    ensures Run(token, s, more) == Some(t)
    ensures OnlyMoves(s, t, h) && t.serving[h].Gone? && t.asker.None?
    decreases Stage(s.serving[h])
  {
    if s.serving[h].Gone? {
      more, t := [], s;
      assert s.serving == s.serving[h := s.serving[h]] && s.running - {h} == s.running;
    } else {
      hide Next, Run, HasAsked;
      var step := StepOf(s.serving[h], h);
      var u := MovesOn(token, s, h);
      var rest;
      rest, t := CanFinish(token, u, h);
      RunOnce(token, s, step);
      RunOn(token, s, [step], u, rest);
      more := [step] + rest;
      assert t.running == s.running - {h};
    }
  }

  lemma {:induction false} FreeNow(token: string, steps: seq<Step>, s: State, h: nat)
    requires Reachable(token, steps, s) && h in s.running && (s.asker.None? || s.asker == Some(h))
    ensures Free(s, h) && (h in s.running <==> !s.serving[h].Gone?)
  {
    hide Reachable;
    RunKeepsAll(token, steps, s);
    assert HandleOk(s, h) && ApprovalOk(token, s, h);
  }

  lemma {:induction false} AskerRuns(token: string, steps: seq<Step>, s: State)
    requires Reachable(token, steps, s) && s.asker.Some?
    ensures s.asker.value in s.running && s.asker.value in s.serving && HasAsked(s.serving[s.asker.value])
  {
    hide Reachable;
    RunKeepsAll(token, steps, s);
    assert HandleOk(s, s.asker.value) && ApprovalOk(token, s, s.asker.value);
  }

  // ----- Close can always return

  /** All goroutines can end, one after the other: first the holder of the ask mutex. */
  lemma {:induction false} AllCanFinish(token: string, steps: seq<Step>, s: State) returns (more: seq<Step>, t: State)
    requires Reachable(token, steps, s)
    ensures Run(token, s, more) == Some(t)
    ensures t.running == {} && t.accept == s.accept && t.closer == s.closer && t.closed == s.closed
    decreases |s.running|
  {
    hide Next, Reachable, Start, HasAsked, Free;
    if s.running == {} {
      more, t := [], s;
    } else {
      var h :| h in s.running;
      if s.asker.Some? {
        AskerRuns(token, steps, s);
        h := s.asker.value;
      }
      FreeNow(token, steps, s, h);
      var one, u := CanFinish(token, s, h);
      ReachOn(token, steps, s, one, u);
      assert u.running < s.running;
      SmallerSet(u.running, s.running);
      var rest;
      rest, t := AllCanFinish(token, steps + one, u);
      RunOn(token, s, one, u, rest);
      more := one + rest;
    }
  }

  lemma {:induction false} SmallerSet<T>(a: set<T>, b: set<T>)
    requires a < b
    ensures |a| < |b|
  {
    assert b == a + (b - a) && b - a != {};
  }

  function AcceptStage(a: Accepting): nat {
    match a
    case Listening(_) => 4
    case Woken(_, _) => 2
    case MakingNext(_) => 3
    case MadeNext(_, _) => 2
    case Dropping(_, _) => 1
    case Stopped => 0
  }

  function AcceptStepOf(a: Accepting): Step {
    match a
    case Listening(_) => ConnectReturns(false)
    case Woken(_, _) => LookClosed
    case MakingNext(_) => CreateNext(false)
    case MadeNext(_, _) => Register
    case _ => DropHandles
  }

  lemma {:induction false} AcceptMovesOn(token: string, s: State) returns (t: State)
    requires s.closed && s.accept != Stopped
    ensures Next(token, s, AcceptStepOf(s.accept)) == Some(t)
    ensures t.closed && t.closer == s.closer && AcceptStage(t.accept) < AcceptStage(s.accept)
  {
    hide CloseIf;
    t := Next(token, s, AcceptStepOf(s.accept)).value;
  }

  lemma {:induction false} AcceptCanStop(token: string, s: State) returns (more: seq<Step>, t: State)
    requires s.closed
    ensures Run(token, s, more) == Some(t) && t.accept == Stopped && t.closed && t.closer == s.closer
    decreases AcceptStage(s.accept)
  {
    if s.accept == Stopped {
      more, t := [], s;
    } else {
      hide Next, Run;
      var step := AcceptStepOf(s.accept);
      var u := AcceptMovesOn(token, s);
      var rest;
      rest, t := AcceptCanStop(token, u);
      RunOnce(token, s, step);
      RunOn(token, s, [step], u, rest);
      more := [step] + rest;
    }
  }

  lemma {:induction false} CloserMovesOn(token: string, s: State)
    ensures s.closer == WaitsForAccept && s.accept == Stopped ==>
              Next(token, s, SeeAcceptDone) == Some(s.(closer := WaitsForAll))
    ensures s.closer == WaitsForAll && s.running == {} ==>
              Next(token, s, SeeAllDone) == Some(s.(closer := ReturnedNil))
  {}

  /** No deadlock: wherever a broker is when Close waits, there is a way on for Close to return nil. */
  lemma {:induction false} CloseCanReturn(token: string, steps: seq<Step>, s: State)
    returns (more: seq<Step>, t: State)
    requires Reachable(token, steps, s) && s.closed && (s.closer == WaitsForAccept || s.closer == WaitsForAll)
    ensures Run(token, s, more) == Some(t) && t.closer == ReturnedNil
  {
    hide Next, Reachable, Start, Run;
    var stop, u := AcceptCanStop(token, s);
    ReachOn(token, steps, s, stop, u);
    if u.closer == WaitsForAccept {
      CloserMovesOn(token, u);
      RunOnce(token, u, SeeAcceptDone);
      var v := u.(closer := WaitsForAll);
      RunOn(token, s, stop, u, [SeeAcceptDone]);
      stop := stop + [SeeAcceptDone];
      ReachOn(token, steps, s, stop, v);
      u := v;
    }
    var rest, w := AllCanFinish(token, steps + stop, u);
    RunOn(token, s, stop, u, rest);
    CloserMovesOn(token, w);
    RunOnce(token, w, SeeAllDone);
    RunOn(token, s, stop + rest, w, [SeeAllDone]);
    more, t := stop + rest + [SeeAllDone], w.(closer := ReturnedNil);
  }

  // ----- Every client can be heard and granted

  /** The ask mutex can be freed without touching the connections that wait for it. */
  lemma {:induction false} AskCanBeFreed(token: string, steps: seq<Step>, s: State, h: nat)
    returns (more: seq<Step>, t: State)
    requires Reachable(token, steps, s) && h in s.serving && s.serving[h].WantsToAsk?
    ensures Run(token, s, more) == Some(t) && t.asker.None?
    ensures h in t.serving && t.serving[h] == s.serving[h]
    ensures t.cancelled == s.cancelled && t.closed == s.closed && t.accept == s.accept
    ensures t.sent == s.sent && t.result == s.result
  {
    if s.asker.None? {
      more, t := [], s;
    } else {
      hide Next, Reachable, Start, Run;
      AskerRuns(token, steps, s);
      FreeNow(token, steps, s, s.asker.value);
      more, t := CanFinish(token, s, s.asker.value);
    }
  }

  function LookSteps(h: nat): seq<Step> {
    [LockAsk(h), LookCancelled(h)]
  }

  /** The approver says yes, and the client hears it. */
  function YesSteps(h: nat): seq<Step> {
    [CallConfirm(h), ConfirmReturns(h, true, false)] + [SendReply(h, true), ClientReturns(h, true)]
  }

  lemma {:induction false} MayBeChecked(token: string, s: State, h: nat) returns (t: State)
    requires h in s.serving && s.serving[h].WantsToAsk? && s.asker.None? && !s.cancelled
    ensures Run(token, s, LookSteps(h)) == Some(t)
    ensures h in t.serving && t.serving[h].Checked?
    ensures t.sent == s.sent && t.result == s.result && t.accept == s.accept && t.closed == s.closed
  {
    TwoSteps(token, s, LockAsk(h), LookCancelled(h));
    t := Run(token, s, LookSteps(h)).value;
  }

  lemma {:induction false} MayBeConfirmed(token: string, s: State, h: nat) returns (t: State)
    requires h in s.serving && s.serving[h].Checked?
    ensures Run(token, s, [CallConfirm(h), ConfirmReturns(h, true, false)]) == Some(t)
    ensures h in t.serving && t.serving[h] == Replying(Reply(true, false))
    ensures t.sent == s.sent && t.result == s.result && t.accept == s.accept && t.closed == s.closed
  {
    TwoSteps(token, s, CallConfirm(h), ConfirmReturns(h, true, false));
    t := Run(token, s, [CallConfirm(h), ConfirmReturns(h, true, false)]).value;
  }

  lemma {:induction false} MayBeTold(token: string, s: State, h: nat) returns (t: State)
    requires h in s.serving && s.serving[h] == Replying(Reply(true, false)) && h in s.sent && h !in s.result
    ensures Run(token, s, [SendReply(h, true), ClientReturns(h, true)]) == Some(t)
    ensures h in t.result && t.result[h] && t.accept == s.accept && t.closed == s.closed
  {
    TwoSteps(token, s, SendReply(h, true), ClientReturns(h, true));
    t := Run(token, s, [SendReply(h, true), ClientReturns(h, true)]).value;
  }

  lemma {:induction false} MayHearYes(token: string, s: State, h: nat) returns (t: State)
    requires h in s.serving && s.serving[h].Checked? && h in s.sent && h !in s.result
    ensures Run(token, s, YesSteps(h)) == Some(t)
    ensures h in t.result && t.result[h] && t.accept == s.accept && t.closed == s.closed
  {
    hide Run;
    var u := MayBeConfirmed(token, s, h);
    t := MayBeTold(token, u, h);
    RunOn(token, s, [CallConfirm(h), ConfirmReturns(h, true, false)], u, [SendReply(h, true), ClientReturns(h, true)]);
  }

  /** Until the broker is cancelled, every waiting request can be put to the approver, and a yes reaches its client. */
  lemma {:induction false} WaitingCanBeGranted(token: string, steps: seq<Step>, s: State, h: nat)
    returns (more: seq<Step>, t: State)
    requires Reachable(token, steps, s) && !s.cancelled
    requires h in s.serving && s.serving[h].WantsToAsk? && h !in s.result
    ensures Run(token, s, more) == Some(t) && h in t.result && t.result[h]
    ensures t.accept == s.accept && t.closed == s.closed
  {
    hide Next, Reachable, Start, Run, LookSteps, YesSteps;
    RunKeepsAll(token, steps, s);
    assert ApprovalOk(token, s, h);
    var free, u := AskCanBeFreed(token, steps, s, h);
    var v := MayBeChecked(token, u, h);
    RunOn(token, s, free, u, LookSteps(h));
    t := MayHearYes(token, v, h);
    RunOn(token, s, free + LookSteps(h), v, YesSteps(h));
    more := free + LookSteps(h) + YesSteps(h);
  }

  lemma {:induction false} CanConnect(token: string, s: State, h: nat) returns (t: State)
    requires s.accept == Listening(h) && !s.closed && h in s.closes && h < s.created
    ensures Run(token, s, Connected()) == Some(t)
    ensures t.accept == Listening(s.created) && t.serving == s.serving[h := Reading] && h in t.closes
    ensures t.closed == s.closed && t.cancelled == s.cancelled && t.sent == s.sent && t.result == s.result
  {
    FourSteps(token, s, ConnectReturns(true), LookClosed, CreateNext(true), Register);
    t := Run(token, s, Connected()).value;
  }

  lemma {:induction false} CanSend(token: string, s: State, h: nat, req: Request) returns (t: State)
    requires h in s.serving && s.serving[h].Reading? && h in s.closes && h !in s.sent && req.token == token
    ensures Run(token, s, [ClientSends(h, req), ReadRequest(h, Line(req))]) == Some(t)
    ensures h in t.serving && t.serving[h] == WantsToAsk(req)
    ensures t.accept == s.accept && t.closed == s.closed && t.cancelled == s.cancelled && t.result == s.result
  {
    TwoSteps(token, s, ClientSends(h, req), ReadRequest(h, Line(req)));
    t := Run(token, s, [ClientSends(h, req), ReadRequest(h, Line(req))]).value;
  }

  /**
   * However many clients came before, as long as the broker listens and is not cancelled, the next one can connect,
   * be heard and be granted its request, and the broker listens on.
   */
  lemma {:induction false} NextClientCanBeGranted(token: string, steps: seq<Step>, s: State, h: nat, req: Request)
    returns (more: seq<Step>, t: State)
    requires Reachable(token, steps, s) && s.accept == Listening(h) && !s.closed && !s.cancelled
    requires h !in s.sent && h !in s.result && req.token == token
    ensures Run(token, s, more) == Some(t) && h in t.result && t.result[h]
    ensures t.accept.Listening? && !t.closed
  {
    hide Next, Reachable, Start, Run, Connected;
    RunKeepsAll(token, steps, s);
    assert HandleOk(s, h) && AcceptOwns(s.accept, h);
    hide HandleOk, Ownership, Approvals, ClosedDown;
    var u := CanConnect(token, s, h);
    var hears := [ClientSends(h, req), ReadRequest(h, Line(req))];
    var v := CanSend(token, u, h, req);
    RunOn(token, s, Connected(), u, hears);
    ReachOn(token, steps, s, Connected() + hears, v);
    var rest;
    rest, t := WaitingCanBeGranted(token, steps + (Connected() + hears), v, h);
    RunOn(token, s, Connected() + hears, v, rest);
    more := Connected() + hears + rest;
  }

  /** When no further pipe instance can be made, the client that is connected is still served. */
  lemma {:induction false} LastClientIsServed(token: string, s: State, h: nat) returns (t: State)
    requires s.accept == MakingNext(h) && !s.closed
    ensures Run(token, s, [CreateNext(false), Register]) == Some(t)
    ensures t.accept == Stopped && t.serving == s.serving[h := Reading] && h in t.running && h in t.active
  {
    TwoSteps(token, s, CreateNext(false), Register);
    t := Run(token, s, [CreateNext(false), Register]).value;
  }

  /** A run of one client from its connection to the yes. */
  lemma {:induction false} GrantedExample(token: string, req: Request) returns (s: State)
    requires req.token == token
    ensures Reachable(token, ReadyToPrompt(req) + YesSteps(0), s) && 0 in s.result && s.result[0]
  {
    var connected := AfterConnect(token);
    var ready := AfterCheck(token, req, connected);
    hide Start, Connected, Next, Run, YesSteps;
    RunFurther(token, Connected(), connected,
               [ClientSends(0, req), ReadRequest(0, Line(req)), LockAsk(0), LookCancelled(0)]);
    assert Reachable(token, ReadyToPrompt(req), ready);
    s := MayHearYes(token, ready, 0);
    RunFurther(token, ReadyToPrompt(req), ready, YesSteps(0));
  }
}
