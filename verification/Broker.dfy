/**
 * The approval channel as a step protocol: the accept loop, one serving goroutine per connection, Close, and
 * the clients at the other end (internal/approval/broker_windows.go, internal/approval/client.go).
 */
module Broker {
  import opened Basics

  datatype Request = Request(token: string, command: string, reason: string)

  /** One answer line; an error is any non-empty error text. */
  datatype Reply = Reply(approved: bool, isError: bool)

  const REFUSAL := Reply(false, true)

  /** Where the goroutine of one connection stands. */
  datatype Serving =
    | Reading
    | WantsToAsk(req: Request)
    | MayAsk(req: Request)
    | Checked(req: Request)
    | Confirming(req: Request)
    | Replying(reply: Reply)
    | Leaving
    | Closing
    | Gone

  /** Where the accept loop stands; handles are numbered in the order of their creation. */
  datatype Accepting =
    | Listening(h: nat)
    | Woken(h: nat, connected: bool)
    | MakingNext(h: nat)
    | MadeNext(h: nat, next: Option<nat>)
    | Dropping(h: nat, next: Option<nat>)
    | Stopped

  /** Where the first call of Close stands. */
  datatype Closer = NotCalled | WaitsForAccept | WaitsForAll | ReturnedNil | ReturnedError

  datatype Confirmation = Confirmation(h: nat, command: string, reason: string, approved: bool, failed: bool)

  /**
   * `closes` counts CloseHandle calls per handle, `running` holds the goroutines the wait group counts, `asker`
   * is the holder of the ask mutex, and `sent`, `answered` and `result` are the client's side of a connection.
   */
  datatype State = State(
    closed: bool,
    cancelled: bool,
    accept: Accepting,
    serving: map<nat, Serving>,
    active: set<nat>,
    running: set<nat>,
    asker: Option<nat>,
    created: nat,
    closes: map<nat, nat>,
    lateDisconnect: bool,
    closer: Closer,
    confirmed: seq<Confirmation>,
    sent: map<nat, Request>,
    answered: map<nat, Reply>,
    result: map<nat, bool>)

  datatype ReadOutcome = ReadFailed | Malformed | Line(req: Request)

  datatype Step =
    | ConnectReturns(connected: bool)
    | LookClosed
    | CreateNext(ok: bool)
    | Register
    | DropHandles
    | ReadRequest(h: nat, outcome: ReadOutcome)
    | LockAsk(h: nat)
    | LookCancelled(h: nat)
    | CallConfirm(h: nat)
    | ConfirmReturns(h: nat, approved: bool, failed: bool)
    | SendReply(h: nat, delivered: bool)
    | LeaveActive(h: nat)
    | CloseConnection(h: nat)
    | ContextCancelled
    | CallClose
    | SeeAcceptDone
    | SeeAllDone
    | CloseTimesOut
    | ClientSends(h: nat, req: Request)
    | ClientReturns(h: nat, gotReply: bool)

  function Start(): State {
    State(false, false, Listening(0), map[], {}, {}, None, 1, map[0 := 0], false, NotCalled, [], map[], map[], map[])
  }

  predicate IsAccept(step: Step) {
    step.ConnectReturns? || step.LookClosed? || step.CreateNext? || step.Register? || step.DropHandles?
  }

  predicate IsServe(step: Step) {
    || step.ReadRequest? || step.LockAsk? || step.LookCancelled? || step.CallConfirm? || step.ConfirmReturns?
    || step.SendReply? || step.LeaveActive? || step.CloseConnection?
  }

  /** What one step of the accept loop does: where it goes, and the handle it creates, hands over or drops. */
  datatype AcceptEffect = AcceptEffect(
    to: Accepting,
    creates: bool,
    hands: Option<nat>,
    drops: Option<nat>,
    alsoDrops: Option<nat>)

  function Goes(to: Accepting): Option<AcceptEffect> {
    Some(AcceptEffect(to, false, None, None, None))
  }

  function AcceptLoop(a: Accepting, closed: bool, created: nat, step: Step): Option<AcceptEffect>
    requires IsAccept(step)
  {
    match step
    case ConnectReturns(connected) => if !a.Listening? then None else Goes(Woken(a.h, connected))
    case LookClosed =>
      if !a.Woken? then None else Goes(if closed || !a.connected then Dropping(a.h, None) else MakingNext(a.h))
    case CreateNext(ok) =>
      if !a.MakingNext? then None
      else if ok then Some(AcceptEffect(MadeNext(a.h, Some(created)), true, None, None, None))
      else Goes(MadeNext(a.h, None))
    case Register =>
      if !a.MadeNext? then None
      else if closed then Goes(Dropping(a.h, a.next))
      else Some(AcceptEffect(if a.next.Some? then Listening(a.next.value) else Stopped, false, Some(a.h), None, None))
    case DropHandles => if !a.Dropping? then None else Some(AcceptEffect(Stopped, false, None, Some(a.h), a.next))
  }

  function CloseIf(closes: map<nat, nat>, h: Option<nat>): map<nat, nat> {
    if h.None? then closes
    else closes[h.value := (if h.value in closes then closes[h.value] else 0) + 1]
  }

  function AcceptStep(s: State, step: Step): Option<State>
    requires IsAccept(step)
  {
    var e := AcceptLoop(s.accept, s.closed, s.created, step);
    if e.None? then None else Some(AfterAccept(s, e.value))
  }

  function AfterAccept(s: State, e: AcceptEffect): State {
    var handed := if e.hands.Some? then {e.hands.value} else {};
    var closes := if e.creates then s.closes[s.created := 0] else s.closes;
    s.(accept := e.to,
       created := if e.creates then s.created + 1 else s.created,
       closes := CloseIf(CloseIf(closes, e.drops), e.alsoDrops),
       serving := if e.hands.Some? then s.serving[e.hands.value := Reading] else s.serving,
       active := s.active + handed,
       running := s.running + handed)
  }

  /** What one step of a serving goroutine does: where it goes, who holds the ask mutex, what was confirmed and sent. */
  datatype ServeEffect = ServeEffect(to: Serving, asker: Option<nat>, confirms: seq<Confirmation>, sends: Option<Reply>)

  function ServeLoop(token: string, h: nat, pc: Serving, asker: Option<nat>, cancelled: bool,
                     sent: Option<Request>, step: Step)
    : Option<ServeEffect>
    requires IsServe(step)
  {
    match step
    case ReadRequest(_, outcome) =>
      if !pc.Reading? || (outcome.Line? && sent != Some(outcome.req)) then None
      else
        Some(ServeEffect(
               if outcome.ReadFailed? then Leaving
               else if outcome.Line? && outcome.req.token == token then WantsToAsk(outcome.req)
               else Replying(REFUSAL),
               asker, [], None))
    case LockAsk(_) =>
      if !pc.WantsToAsk? || asker.Some? then None else Some(ServeEffect(MayAsk(pc.req), Some(h), [], None))
    case LookCancelled(_) =>
      if !pc.MayAsk? then None
      else if cancelled then Some(ServeEffect(Replying(REFUSAL), None, [], None))
      else Some(ServeEffect(Checked(pc.req), asker, [], None))
    case CallConfirm(_) => if !pc.Checked? then None else Some(ServeEffect(Confirming(pc.req), asker, [], None))
    case ConfirmReturns(_, approved, failed) =>
      if !pc.Confirming? then None
      else
        Some(ServeEffect(Replying(if failed then REFUSAL else Reply(approved, false)), None,
                         [Confirmation(h, pc.req.command, pc.req.reason, approved, failed)], None))
    case SendReply(_, delivered) =>
      if !pc.Replying? then None else Some(ServeEffect(Leaving, asker, [], if delivered then Some(pc.reply) else None))
    case LeaveActive(_) => if !pc.Leaving? then None else Some(ServeEffect(Closing, asker, [], None))
    case CloseConnection(_) => if !pc.Closing? then None else Some(ServeEffect(Gone, asker, [], None))
  }

  function SentOn(s: State, h: nat): Option<Request> {
    if h in s.sent then Some(s.sent[h]) else None
  }

  function ServeStep(token: string, s: State, step: Step): Option<State>
    requires IsServe(step)
  {
    if step.h !in s.serving then None
    else
      var e := ServeLoop(token, step.h, s.serving[step.h], s.asker, s.cancelled, SentOn(s, step.h), step);
      if e.None? then None else Some(AfterServe(s, step.h, e.value))
  }

  /** A goroutine leaves the active set before it closes its connection, and ends when it has closed it. */
  function AfterServe(s: State, h: nat, e: ServeEffect): State {
    s.(serving := s.serving[h := e.to],
       asker := e.asker,
       confirmed := s.confirmed + e.confirms,
       answered := if e.sends.Some? then s.answered[h := e.sends.value] else s.answered,
       active := if e.to.Closing? then s.active - {h} else s.active,
       running := if e.to.Gone? then s.running - {h} else s.running,
       closes := CloseIf(s.closes, if e.to.Gone? then Some(h) else None))
  }

  /**
   * Close marks, cancels and disconnects in one step: only the check for cancellation looks at any of it without
   * the broker's mutex, and it sees the context either before or after the cancellation.
   */
  function OtherStep(s: State, step: Step): Option<State>
    requires !IsAccept(step) && !IsServe(step)
  {
    match step
    case ContextCancelled => Some(s.(cancelled := true))
    case CallClose =>
      if s.closed then Some(s)
      else
        Some(s.(closed := true, cancelled := true, closer := WaitsForAccept,
                lateDisconnect := s.lateDisconnect || exists h | h in s.active :: h in s.closes && s.closes[h] > 0))
    case SeeAcceptDone =>
      if s.closer != WaitsForAccept || s.accept != Stopped then None else Some(s.(closer := WaitsForAll))
    case SeeAllDone =>
      if s.closer != WaitsForAll || s.running != {} then None else Some(s.(closer := ReturnedNil))
    case CloseTimesOut =>
      if s.closer != WaitsForAccept then None else Some(s.(closer := ReturnedError))
    case ClientSends(h, req) =>
      if h in s.sent || h !in s.closes then None else Some(s.(sent := s.sent[h := req]))
    case ClientReturns(h, gotReply) =>
      if h in s.result || h !in s.sent || (gotReply && h !in s.answered) then None
      else Some(s.(result := s.result[h := gotReply && s.answered[h].approved && !s.answered[h].isError]))
  }

  function Next(token: string, s: State, step: Step): Option<State> {
    if IsAccept(step) then AcceptStep(s, step)
    else if IsServe(step) then ServeStep(token, s, step)
    else OtherStep(s, step)
  }

  /** The state after a sequence of steps, or None when one of them cannot happen. */
  function Run(token: string, s: State, steps: seq<Step>): Option<State>
    decreases |steps|
  {
    if steps == [] then Some(s)
    else
      var before := Run(token, s, Init(steps));
      if before.None? then None else Next(token, before.value, Last(steps))
  }

  predicate Reachable(token: string, steps: seq<Step>, s: State) {
    Run(token, Start(), steps) == Some(s)
  }

  // ----- Who owns which handle

  predicate AcceptOwns(a: Accepting, h: nat) {
    match a
    case Listening(g) => h == g
    case Woken(g, _) => h == g
    case MakingNext(g) => h == g
    case MadeNext(g, next) => h == g || next == Some(h)
    case Dropping(g, next) => h == g || next == Some(h)
    case Stopped => false
  }

  predicate TwoHandles(a: Accepting) {
    (a.MadeNext? || a.Dropping?) && a.next.Some? ==> a.next.value != a.h
  }

  predicate HasAsked(pc: Serving) {
    pc.MayAsk? || pc.Checked? || pc.Confirming?
  }

  /** A handle is the accept loop's, or its goroutine's, or closed; it is closed once, by its owner. */
  predicate HandleOk(s: State, h: nat) {
    && (h in s.closes <==> h < s.created)
    && (AcceptOwns(s.accept, h) ==> h in s.closes && s.closes[h] == 0 && h !in s.serving)
    && (h in s.serving ==> h in s.closes && s.closes[h] == if s.serving[h].Gone? then 1 else 0)
    && (h in s.closes && !AcceptOwns(s.accept, h) && h !in s.serving ==> s.closes[h] == 1)
    && (h in s.running <==> h in s.serving && !s.serving[h].Gone?)
    && (h in s.active ==> h in s.serving && !s.serving[h].Closing? && !s.serving[h].Gone?)
  }

  ghost predicate Ownership(s: State) {
    && (forall h: nat :: HandleOk(s, h))
    && TwoHandles(s.accept)
    && !s.lateDisconnect
  }

  /** The accept loop hands over, drops and creates only what it owns. */
  lemma {:induction false} AcceptEffects(a: Accepting, closed: bool, created: nat, step: Step)
    requires IsAccept(step) && AcceptLoop(a, closed, created, step).Some?
    requires TwoHandles(a) && forall g: nat | AcceptOwns(a, g) :: g < created
    ensures var e := AcceptLoop(a, closed, created, step).value;
            && TwoHandles(e.to)
            && (e.hands.Some? ==> AcceptOwns(a, e.hands.value) && e.drops.None?)
            && (e.drops.Some? ==> AcceptOwns(a, e.drops.value) && e.alsoDrops != e.drops)
            && (e.alsoDrops.Some? ==> AcceptOwns(a, e.alsoDrops.value) && e.drops.Some?)
            && (e.creates ==> e.hands.None? && e.drops.None?)
            && forall g: nat :: AcceptOwns(e.to, g) <==>
                 (AcceptOwns(a, g) && e.hands != Some(g) && e.drops != Some(g) && e.alsoDrops != Some(g))
                 || (e.creates && g == created)
  {
    if step.CreateNext? {
      assert AcceptOwns(a, a.h);
    }
  }

  lemma {:induction false} AcceptKeepsHandle(s: State, step: Step, h: nat)
    requires IsAccept(step) && AcceptStep(s, step).Some?
    requires HandleOk(s, h) && TwoHandles(s.accept)
    requires forall g: nat | AcceptOwns(s.accept, g) :: g < s.created
    ensures HandleOk(AcceptStep(s, step).value, h)
    ensures TwoHandles(AcceptStep(s, step).value.accept)
  {
    AcceptEffects(s.accept, s.closed, s.created, step);
    hide AcceptLoop, AcceptOwns, TwoHandles;
  }

  /** A goroutine ends only by closing its connection, after it has left the active set. */
  lemma {:induction false} ServeEffects(token: string, h: nat, pc: Serving, asker: Option<nat>, cancelled: bool,
                                        sent: Option<Request>, step: Step)
    requires IsServe(step) && ServeLoop(token, h, pc, asker, cancelled, sent, step).Some?
    ensures var e := ServeLoop(token, h, pc, asker, cancelled, sent, step).value;
            && !pc.Gone? && (e.to.Gone? <==> pc.Closing?) && !e.to.Reading?
            && (e.to.Closing? <==> pc.Leaving?)
  {}

  lemma {:induction false} ServeKeepsHandle(token: string, s: State, step: Step, h: nat)
    requires IsServe(step) && ServeStep(token, s, step).Some?
    requires HandleOk(s, h) && HandleOk(s, step.h)
    ensures HandleOk(ServeStep(token, s, step).value, h)
  {
    ServeEffects(token, step.h, s.serving[step.h], s.asker, s.cancelled, SentOn(s, step.h), step);
    hide ServeLoop, AcceptOwns;
  }

  lemma {:induction false} ServeLeavesAccept(token: string, s: State, step: Step)
    requires IsServe(step) && ServeStep(token, s, step).Some?
    ensures var s' := ServeStep(token, s, step).value; s'.accept == s.accept && s'.lateDisconnect == s.lateDisconnect
  {
    hide ServeLoop;
  }

  lemma {:induction false} AcceptLeavesDisconnect(s: State, step: Step)
    requires IsAccept(step) && AcceptStep(s, step).Some?
    ensures AcceptStep(s, step).value.lateDisconnect == s.lateDisconnect
  {
    hide AcceptLoop;
  }

  lemma {:induction false} OtherKeepsHandle(s: State, step: Step, h: nat)
    requires !IsAccept(step) && !IsServe(step) && OtherStep(s, step).Some? && HandleOk(s, h)
    ensures HandleOk(OtherStep(s, step).value, h)
    ensures OtherStep(s, step).value.accept == s.accept
  {}

  /** At the moment Close disconnects, no active handle has been closed. */
  lemma {:induction false} DisconnectInTime(s: State, step: Step)
    requires !IsAccept(step) && !IsServe(step) && OtherStep(s, step).Some? && Ownership(s)
    ensures !OtherStep(s, step).value.lateDisconnect
  {
    assert forall h | h in s.active :: HandleOk(s, h);
  }

  lemma {:induction false} StepKeepsOwnership(token: string, s: State, step: Step)
    requires Ownership(s) && Next(token, s, step).Some?
    ensures Ownership(Next(token, s, step).value)
  {
    var s' := Next(token, s, step).value;
    assert forall g: nat | AcceptOwns(s.accept, g) :: HandleOk(s, g);
    hide HandleOk, AcceptStep, ServeStep, OtherStep, TwoHandles, AcceptOwns;
    forall h: nat ensures HandleOk(s', h) {
      if IsAccept(step) {
        AcceptKeepsHandle(s, step, h);
      } else if IsServe(step) {
        ServeKeepsHandle(token, s, step, h);
      } else {
        OtherKeepsHandle(s, step, h);
      }
    }
    if IsAccept(step) {
      AcceptKeepsHandle(s, step, 0);
      AcceptLeavesDisconnect(s, step);
    } else if IsServe(step) {
      ServeLeavesAccept(token, s, step);
    } else {
      OtherKeepsHandle(s, step, 0);
      DisconnectInTime(s, step);
    }
  }

  // ----- Who may be told yes

  predicate Pending(pc: Serving) {
    pc.WantsToAsk? || pc.MayAsk? || pc.Checked? || pc.Confirming?
  }

  predicate Yes(r: Reply) {
    r.approved && !r.isError
  }

  /** The client's own command and reason, sent with the right token, were confirmed by the host's approver. */
  predicate Granted(token: string, s: State, h: nat) {
    && h in s.sent && s.sent[h].token == token
    && Confirmation(h, s.sent[h].command, s.sent[h].reason, true, false) in s.confirmed
  }

  predicate ApprovalOk(token: string, s: State, h: nat) {
    && (h in s.serving ==> (HasAsked(s.serving[h]) <==> s.asker == Some(h)))
    && (s.asker == Some(h) ==> h in s.serving)
    && (h in s.serving && Pending(s.serving[h]) ==>
          h in s.sent && s.sent[h] == s.serving[h].req && s.serving[h].req.token == token)
    && (h in s.serving && s.serving[h].Replying? && Yes(s.serving[h].reply) ==> Granted(token, s, h))
    && (h in s.answered && Yes(s.answered[h]) ==> Granted(token, s, h))
    && (h in s.result && s.result[h] ==> Granted(token, s, h))
  }

  ghost predicate Approvals(token: string, s: State) {
    forall h: nat :: ApprovalOk(token, s, h)
  }

  /** What a goroutine's step means for approvals: the mutex, the request in hand, and where a yes comes from. */
  lemma {:induction false} ServeApprovals(token: string, h: nat, pc: Serving, asker: Option<nat>, cancelled: bool,
                                          sent: Option<Request>, step: Step)
    requires IsServe(step) && ServeLoop(token, h, pc, asker, cancelled, sent, step).Some?
    requires HasAsked(pc) <==> asker == Some(h)
    requires Pending(pc) ==> sent == Some(pc.req) && pc.req.token == token
    ensures var e := ServeLoop(token, h, pc, asker, cancelled, sent, step).value;
            && (HasAsked(e.to) <==> e.asker == Some(h))
            && (e.asker == asker || (asker.None? && e.asker == Some(h)) || (asker == Some(h) && e.asker.None?))
            && (Pending(e.to) ==> sent == Some(e.to.req) && e.to.req.token == token)
            && (e.to.Replying? && Yes(e.to.reply) ==>
                  sent.Some? && sent.value.token == token
                  && Confirmation(h, sent.value.command, sent.value.reason, true, false) in e.confirms)
            && (e.sends.Some? ==> pc == Replying(e.sends.value))
  {}

  lemma {:induction false} ServeKeepsApproval(token: string, s: State, step: Step, h: nat)
    requires IsServe(step) && ServeStep(token, s, step).Some?
    requires ApprovalOk(token, s, h) && ApprovalOk(token, s, step.h)
    ensures ApprovalOk(token, ServeStep(token, s, step).value, h)
  {
    ServeApprovals(token, step.h, s.serving[step.h], s.asker, s.cancelled, SentOn(s, step.h), step);
    hide ServeLoop, HasAsked, Pending, Yes;
    var s' := ServeStep(token, s, step).value;
    assert s'.sent == s.sent;
    assert Granted(token, s, h) ==> Granted(token, s', h);
  }

  /** A new goroutine starts with nothing asked and nothing to answer. */
  lemma {:induction false} HandOver(token: string, s: State, s': State, h: nat)
    requires ApprovalOk(token, s, h)
    requires s'.sent == s.sent && s'.confirmed == s.confirmed && s'.asker == s.asker
    requires s'.answered == s.answered && s'.result == s.result
    requires h in s.serving ==> h in s'.serving && s'.serving[h] == s.serving[h]
    requires h !in s.serving && h in s'.serving ==> s'.serving[h].Reading?
    ensures ApprovalOk(token, s', h)
  {
    assert Granted(token, s, h) == Granted(token, s', h);
  }

  lemma {:induction false} AcceptKeepsApproval(token: string, s: State, step: Step, h: nat)
    requires IsAccept(step) && AcceptStep(s, step).Some? && ApprovalOk(token, s, h)
    requires TwoHandles(s.accept) && forall g: nat | AcceptOwns(s.accept, g) :: g < s.created && g !in s.serving
    ensures ApprovalOk(token, AcceptStep(s, step).value, h)
  {
    AcceptEffects(s.accept, s.closed, s.created, step);
    hide AcceptLoop, AcceptOwns, TwoHandles, ApprovalOk, CloseIf;
    HandOver(token, s, AcceptStep(s, step).value, h);
  }

  lemma {:induction false} OtherKeepsApproval(token: string, s: State, step: Step, h: nat)
    requires !IsAccept(step) && !IsServe(step) && OtherStep(s, step).Some? && ApprovalOk(token, s, h)
    ensures ApprovalOk(token, OtherStep(s, step).value, h)
  {}

  lemma {:induction false} StepKeepsApprovals(token: string, s: State, step: Step)
    requires Approvals(token, s) && Ownership(s) && Next(token, s, step).Some?
    ensures Approvals(token, Next(token, s, step).value)
  {
    var s' := Next(token, s, step).value;
    assert forall g: nat | AcceptOwns(s.accept, g) :: HandleOk(s, g);
    hide HandleOk, AcceptStep, ServeStep, OtherStep, ApprovalOk, AcceptOwns;
    forall h: nat ensures ApprovalOk(token, s', h) {
      if IsAccept(step) {
        AcceptKeepsApproval(token, s, step, h);
      } else if IsServe(step) {
        ServeKeepsApproval(token, s, step, h);
      } else {
        OtherKeepsApproval(token, s, step, h);
      }
    }
  }

  // ----- When Close has returned

  predicate ClosedDown(s: State) {
    && (s.closer != NotCalled <==> s.closed)
    && (s.closed ==> s.cancelled)
    && (s.closer == WaitsForAll || s.closer == ReturnedNil ==> s.accept == Stopped)
    && (s.closer == ReturnedNil ==> s.running == {})
  }

  lemma {:induction false} AcceptKeepsClosedDown(s: State, step: Step)
    requires IsAccept(step) && AcceptStep(s, step).Some? && ClosedDown(s)
    ensures ClosedDown(AcceptStep(s, step).value)
  {
    assert s.accept != Stopped;
    hide AcceptLoop;
  }

  lemma {:induction false} ServeKeepsClosedDown(token: string, s: State, step: Step)
    requires IsServe(step) && ServeStep(token, s, step).Some? && ClosedDown(s)
    ensures ClosedDown(ServeStep(token, s, step).value)
  {
    hide ServeLoop;
  }

  lemma {:induction false} OtherKeepsClosedDown(s: State, step: Step)
    requires !IsAccept(step) && !IsServe(step) && OtherStep(s, step).Some? && ClosedDown(s)
    ensures ClosedDown(OtherStep(s, step).value)
  {}

  lemma {:induction false} StepKeepsAll(token: string, s: State, step: Step)
    requires Ownership(s) && Approvals(token, s) && ClosedDown(s) && Next(token, s, step).Some?
    ensures var s' := Next(token, s, step).value; Ownership(s') && Approvals(token, s') && ClosedDown(s')
  {
    hide Ownership, Approvals, ClosedDown, AcceptStep, ServeStep, OtherStep;
    StepKeepsOwnership(token, s, step);
    StepKeepsApprovals(token, s, step);
    if IsAccept(step) {
      AcceptKeepsClosedDown(s, step);
    } else if IsServe(step) {
      ServeKeepsClosedDown(token, s, step);
    } else {
      OtherKeepsClosedDown(s, step);
    }
  }

  lemma {:induction false} StartIsOk(token: string)
    ensures Ownership(Start()) && Approvals(token, Start()) && ClosedDown(Start())
  {}

  lemma {:induction false} RunKeepsAll(token: string, steps: seq<Step>, s: State)
    requires Reachable(token, steps, s)
    ensures Ownership(s) && Approvals(token, s) && ClosedDown(s)
    decreases |steps|
  {
    hide Ownership, Approvals, ClosedDown, Next, Start;
    StartIsOk(token);
    if steps != [] {
      var before := Run(token, Start(), Init(steps)).value;
      RunKeepsAll(token, Init(steps), before);
      StepKeepsAll(token, before, Last(steps));
    }
  }

  // ----- The guarantees

  /** A human is asked at most one thing at a time. */
  lemma {:induction false} OneConfirmAtATime(token: string, steps: seq<Step>, s: State, g: nat, h: nat)
    requires Reachable(token, steps, s)
    requires g in s.serving && s.serving[g].Confirming? && h in s.serving && s.serving[h].Confirming?
    ensures g == h
  {
    RunKeepsAll(token, steps, s);
    assert ApprovalOk(token, s, g) && ApprovalOk(token, s, h);
  }

  /** A client is told yes only for the very command and reason the host's approver said yes to. */
  lemma {:induction false} ApprovedMeansConfirmed(token: string, steps: seq<Step>, s: State, h: nat)
    requires Reachable(token, steps, s) && h in s.result && s.result[h]
    ensures h in s.sent && s.sent[h].token == token
    ensures Confirmation(h, s.sent[h].command, s.sent[h].reason, true, false) in s.confirmed
  {
    RunKeepsAll(token, steps, s);
    assert ApprovalOk(token, s, h);
  }

  /** No handle is closed twice, and Close never disconnects one that is already closed. */
  lemma {:induction false} HandlesClosedOnce(token: string, steps: seq<Step>, s: State, h: nat)
    requires Reachable(token, steps, s)
    ensures h in s.closes <==> h < s.created
    ensures h in s.closes ==> s.closes[h] <= 1
    ensures h in s.active ==> h in s.closes && s.closes[h] == 0
    ensures !s.lateDisconnect
  {
    RunKeepsAll(token, steps, s);
    assert HandleOk(s, h);
    hide Reachable;
  }

  /** When the first Close returns nil, every handle ever created is closed and every goroutine has ended. */
  lemma {:induction false} CloseLeavesNothing(token: string, steps: seq<Step>, s: State, h: nat)
    requires Reachable(token, steps, s) && s.closer == ReturnedNil
    ensures s.accept == Stopped
    ensures h in s.serving ==> s.serving[h].Gone?
    ensures h < s.created ==> h in s.closes && s.closes[h] == 1
  {
    RunKeepsAll(token, steps, s);
    assert HandleOk(s, h);
    assert h !in s.running;
    hide Reachable;
  }

  // ----- Prompts after Close

  /** A run that starts where another one ended. */
  lemma {:induction false} RunFurther(token: string, steps: seq<Step>, s: State, more: seq<Step>)
    requires Reachable(token, steps, s)
    ensures Run(token, Start(), steps + more) == Run(token, s, more)
    decreases |more|
  {
    hide Start, Next;
    if more == [] {
      assert steps + more == steps;
    } else {
      RunFurther(token, steps, s, Init(more));
      assert Init(steps + more) == steps + Init(more) && Last(steps + more) == Last(more);
    }
  }

  /** The goroutine has passed the check for cancellation and its prompt is up or about to be put up. */
  predicate PastCheck(s: State, h: nat) {
    h in s.serving && (s.serving[h].Checked? || s.serving[h].Confirming?)
  }

  /** The prompts that can still be answered when nobody passes the check any more. */
  function Due(s: State): nat {
    if s.asker.Some? && PastCheck(s, s.asker.value) then 1 else 0
  }

  lemma {:induction false} AcceptPassesNoCheck(s: State, step: Step, h: nat)
    requires IsAccept(step) && AcceptStep(s, step).Some? && HandleOk(s, h) && TwoHandles(s.accept)
    requires forall g: nat | AcceptOwns(s.accept, g) :: g < s.created && g !in s.serving
    ensures var s' := AcceptStep(s, step).value;
            && s'.asker == s.asker && s'.confirmed == s.confirmed
            && (PastCheck(s', h) <==> PastCheck(s, h))
            && (h in s.serving ==> h in s'.serving && s'.serving[h] == s.serving[h])
  {
    AcceptEffects(s.accept, s.closed, s.created, step);
    hide AcceptLoop, AcceptOwns, TwoHandles, HandleOk, CloseIf;
  }

  /** A cancelled goroutine only moves on: no check is passed, and a confirmation uses up its prompt. */
  lemma {:induction false} ServePassesNoCheck(token: string, s: State, step: Step, h: nat)
    requires IsServe(step) && ServeStep(token, s, step).Some? && s.cancelled
    requires ApprovalOk(token, s, step.h) && ApprovalOk(token, s, h)
    ensures var s' := ServeStep(token, s, step).value;
            && (PastCheck(s', h) ==> PastCheck(s, h))
            && |s'.confirmed| + Due(s') <= |s.confirmed| + Due(s)
  {
    hide Granted, Yes, CloseIf;
  }

  /** Once cancelled, as by Close, no step lets another goroutine past the check. */
  lemma {:induction false} StepPassesNoCheck(token: string, s: State, step: Step, h: nat)
    requires Ownership(s) && Approvals(token, s) && ClosedDown(s) && s.cancelled && Next(token, s, step).Some?
    ensures var s' := Next(token, s, step).value;
            && s'.cancelled && (s.closed ==> s'.closed) && (PastCheck(s', h) ==> PastCheck(s, h))
            && |s'.confirmed| + Due(s') <= |s.confirmed| + Due(s)
  {
    assert HandleOk(s, h) && ApprovalOk(token, s, h);
    if IsAccept(step) {
      assert forall g: nat | AcceptOwns(s.accept, g) :: HandleOk(s, g);
      hide AcceptLoop, AcceptOwns, HandleOk, ApprovalOk, Approvals, TwoHandles;
      AcceptPassesNoCheck(s, step, h);
      if s.asker.Some? {
        assert HandleOk(s, s.asker.value);
        AcceptPassesNoCheck(s, step, s.asker.value);
      }
    } else if IsServe(step) {
      assert ApprovalOk(token, s, step.h);
      hide ServeLoop, ApprovalOk, Approvals, Ownership;
      ServePassesNoCheck(token, s, step, h);
    } else {
      hide Ownership, Approvals, ApprovalOk;
    }
  }

  /**
   * Close, or another cancellation, can fall between the check for it and the call of the approver, so a prompt can
   * be put up after it: only by the goroutine that held the ask mutex and had passed the check, and only once.
   */
  lemma {:induction false} PromptAfterCloseWasChecked(token: string, steps: seq<Step>, s: State, more: seq<Step>,
                                                      s': State, h: nat)
    requires Reachable(token, steps, s) && (s.closed || s.cancelled) && Run(token, s, more) == Some(s')
    ensures PastCheck(s', h) ==> PastCheck(s, h) && s.asker == Some(h)
    ensures |s'.confirmed| + Due(s') <= |s.confirmed| + Due(s) <= |s.confirmed| + 1
    ensures s'.cancelled && (s.closed ==> s'.closed)
    decreases |more|
  {
    RunKeepsAll(token, steps, s);
    hide Next, Ownership, ClosedDown, Start;
    assert ApprovalOk(token, s, h);
    hide Approvals;
    if more != [] {
      var before := Run(token, s, Init(more)).value;
      PromptAfterCloseWasChecked(token, steps, s, Init(more), before, h);
      RunFurther(token, steps, s, Init(more));
      RunKeepsAll(token, steps + Init(more), before);
      StepPassesNoCheck(token, before, Last(more), h);
    }
  }

  /** The end of the context and Close both cancel, at once and whatever else goes on. */
  lemma {:induction false} BothCancel(token: string, steps: seq<Step>, s: State)
    requires Reachable(token, steps, s)
    ensures var t := Next(token, s, ContextCancelled); t == Some(s.(cancelled := true))
    ensures var t := Next(token, s, CallClose);
            t.Some? && t.value.closed && t.value.cancelled && t.value.serving == s.serving
            && (s.closed ==> t.value == s) && (!s.closed ==> t.value.closer == WaitsForAccept)
  {
    RunKeepsAll(token, steps, s);
    hide Reachable, Ownership, Approvals;
  }

  /** The step from s to t puts the prompt of connection h up. */
  predicate Prompts(s: State, t: State, h: nat) {
    && h in t.serving && t.serving[h].Confirming?
    && !(h in s.serving && s.serving[h].Confirming?)
  }

  lemma {:induction false} ServePromptsOnlyChecked(token: string, s: State, step: Step, h: nat)
    requires IsServe(step) && ServeStep(token, s, step).Some? && Prompts(s, ServeStep(token, s, step).value, h)
    ensures h in s.serving && s.serving[h].Checked?
  {
    hide CloseIf;
  }

  lemma {:induction false} PromptsOnlyChecked(token: string, s: State, step: Step, h: nat)
    requires Ownership(s) && Next(token, s, step).Some? && Prompts(s, Next(token, s, step).value, h)
    ensures h in s.serving && s.serving[h].Checked?
  {
    assert HandleOk(s, h);
    assert forall g: nat | AcceptOwns(s.accept, g) :: HandleOk(s, g);
    hide AcceptLoop, ServeLoop, AcceptOwns, TwoHandles, CloseIf;
    if IsAccept(step) {
      hide Ownership;
      AcceptEffects(s.accept, s.closed, s.created, step);
    } else if IsServe(step) {
      hide HandleOk, Ownership, ServeStep, Prompts;
      ServePromptsOnlyChecked(token, s, step, h);
    }
  }

  /** The condition is exact: a prompt can be put up, closed or not, just by a goroutine past the check. */
  lemma {:induction false} CheckedCanPrompt(token: string, steps: seq<Step>, s: State, h: nat)
    requires Reachable(token, steps, s)
    ensures (exists step :: Next(token, s, step).Some? && Prompts(s, Next(token, s, step).value, h))
            <==> h in s.serving && s.serving[h].Checked?
  {
    RunKeepsAll(token, steps, s);
    hide Reachable, Ownership, Approvals, ClosedDown;
    if h in s.serving && s.serving[h].Checked? {
      CheckedMayCall(token, s, h);
    }
    hide Next, Prompts;
    forall step | Next(token, s, step).Some? && Prompts(s, Next(token, s, step).value, h)
      ensures h in s.serving && s.serving[h].Checked?
    {
      PromptsOnlyChecked(token, s, step, h);
    }
  }

  lemma {:induction false} CheckedMayCall(token: string, s: State, h: nat)
    requires h in s.serving && s.serving[h].Checked?
    ensures var t := Next(token, s, CallConfirm(h)); t.Some? && Prompts(s, t.value, h)
  {
    hide CloseIf;
  }

  /** Once Close has returned nil, no prompt is up or put up any more. */
  lemma {:induction false} NoPromptAfterReturn(token: string, steps: seq<Step>, s: State, more: seq<Step>,
                                               s': State, h: nat)
    requires Reachable(token, steps, s) && s.closer == ReturnedNil && Run(token, s, more) == Some(s')
    ensures s'.closer == ReturnedNil && (h in s'.serving ==> s'.serving[h].Gone?)
    decreases |more|
  {
    if more == [] {
      CloseLeavesNothing(token, steps, s, h);
    } else {
      var before := Run(token, s, Init(more)).value;
      NoPromptAfterReturn(token, steps, s, Init(more), before, h);
      RunFurther(token, steps, s, Init(more));
      RunFurther(token, steps, s, more);
      RunKeepsAll(token, steps + Init(more), before);
      ReturnStays(token, before, Last(more));
      CloseLeavesNothing(token, steps + more, s', h);
    }
  }

  lemma {:induction false} ReturnStays(token: string, s: State, step: Step)
    requires s.closer == ReturnedNil && ClosedDown(s) && Next(token, s, step).Some?
    ensures Next(token, s, step).value.closer == ReturnedNil
  {
    hide AcceptLoop, ServeLoop;
  }

  /** A client connects and asks; the broker is closed between the check and the call of the approver. */
  function LateSteps(req: Request): seq<Step> {
    ReadyToPrompt(req) + [CallClose, CallConfirm(0)]
  }

  function ReadyToPrompt(req: Request): seq<Step> {
    Connected() + [ClientSends(0, req), ReadRequest(0, Line(req)), LockAsk(0), LookCancelled(0)]
  }

  function Connected(): seq<Step> {
    [ConnectReturns(true), LookClosed, CreateNext(true), Register]
  }

  lemma {:induction false} TwoSteps(token: string, s: State, a: Step, b: Step)
    requires Next(token, s, a).Some?
    ensures Run(token, s, [a, b]) == Next(token, Next(token, s, a).value, b)
  {
    assert Init([a]) == [] && Run(token, s, [a]) == Next(token, s, a);
    hide Next;
    assert Init([a, b]) == [a];
  }

  lemma {:induction false} FourSteps(token: string, s: State, a: Step, b: Step, c: Step, d: Step)
    requires Next(token, s, a).Some? && Next(token, Next(token, s, a).value, b).Some?
    requires var t := Next(token, Next(token, s, a).value, b).value; Next(token, t, c).Some?
    ensures var t := Next(token, Next(token, s, a).value, b).value;
            Run(token, s, [a, b, c, d]) == Next(token, Next(token, t, c).value, d)
  {
    hide Next;
    TwoSteps(token, s, a, b);
    assert Init([a, b, c, d]) == [a, b, c] && Init([a, b, c]) == [a, b];
  }

  /** A run in which the approver is asked after the broker was closed. */
  lemma {:induction false} LatePromptExample(token: string, req: Request) returns (s: State)
    requires req.token == token
    ensures Reachable(token, LateSteps(req), s) && s.closed
    ensures 0 in s.serving && s.serving[0] == Confirming(req)
  {
    var connected := AfterConnect(token);
    var ready := AfterCheck(token, req, connected);
    s := AfterClose(token, req, ready);
    hide Start, Connected, Next, Run;
    RunFurther(token, Connected(), connected,
               [ClientSends(0, req), ReadRequest(0, Line(req)), LockAsk(0), LookCancelled(0)]);
    RunFurther(token, ReadyToPrompt(req), ready, [CallClose, CallConfirm(0)]);
  }

  lemma {:induction false} AfterClose(token: string, req: Request, from: State) returns (s: State)
    requires 0 in from.serving && from.serving[0] == Checked(req) && !from.closed
    ensures Run(token, from, [CallClose, CallConfirm(0)]) == Some(s) && s.closed
    ensures 0 in s.serving && s.serving[0] == Confirming(req)
  {
    TwoSteps(token, from, CallClose, CallConfirm(0));
    s := Next(token, Next(token, from, CallClose).value, CallConfirm(0)).value;
  }

  lemma {:induction false} AfterConnect(token: string) returns (s: State)
    ensures Reachable(token, Connected(), s)
    ensures s.serving == map[0 := Reading] && s.asker.None? && !s.cancelled && !s.closed && s.sent == map[]
            && 0 in s.closes && s.result == map[]
  {
    FourSteps(token, Start(), ConnectReturns(true), LookClosed, CreateNext(true), Register);
    s := Run(token, Start(), Connected()).value;
  }

  lemma {:induction false} AfterCheck(token: string, req: Request, from: State) returns (s: State)
    requires req.token == token
    requires from.serving == map[0 := Reading] && from.asker.None? && !from.cancelled && !from.closed
    requires from.sent == map[] && 0 in from.closes
    ensures Run(token, from, [ClientSends(0, req), ReadRequest(0, Line(req)), LockAsk(0), LookCancelled(0)]) == Some(s)
    ensures 0 in s.serving && s.serving[0] == Checked(req) && !s.closed && 0 in s.sent && s.result == from.result
  {
    FourSteps(token, from, ClientSends(0, req), ReadRequest(0, Line(req)), LockAsk(0), LookCancelled(0));
    s := Run(token, from, [ClientSends(0, req), ReadRequest(0, Line(req)), LockAsk(0), LookCancelled(0)]).value;
  }
}
