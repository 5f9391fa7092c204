/**
 * What clients of the approval broker are told, and that nobody waits forever
 * (internal/approval/broker_windows.go, internal/approval/client.go).
 */
module BrokerReplies {
  import opened Basics
  import opened Broker

  // ----- The answer is the approver's

  predicate Answering(pc: Serving) {
    pc.Leaving? || pc.Closing? || pc.Gone?
  }

  function AnswerTo(c: Confirmation): Reply {
    if c.failed then Reply(false, true) else Reply(c.approved, false)
  }

  predicate Asked(s: State, h: nat) {
    exists c | c in s.confirmed :: c.h == h
  }

  /** The reply passes on what the approver said, and refuses when nobody was asked. */
  predicate Fits(s: State, h: nat, r: Reply) {
    && (forall c | c in s.confirmed && c.h == h :: r == AnswerTo(c))
    && (!Asked(s, h) ==> r == Reply(false, true))
  }

  /** A connection is asked about at most once, for its own request, and answered at most once, after that. */
  predicate AnswerOk(s: State, h: nat) {
    && (forall c | c in s.confirmed && c.h == h ::
          && h in s.serving && (s.serving[h].Replying? || Answering(s.serving[h]))
          && h in s.sent && c.command == s.sent[h].command && c.reason == s.sent[h].reason)
    && (h in s.serving && s.serving[h].Replying? ==> h !in s.answered && Fits(s, h, s.serving[h].reply))
    && (h in s.answered ==> h in s.serving && Answering(s.serving[h]) && Fits(s, h, s.answered[h]))
    && (h in s.result && s.result[h] ==> h in s.answered && Yes(s.answered[h]))
  }

  ghost predicate Answers(s: State) {
    forall h: nat :: AnswerOk(s, h)
  }

  /** What a goroutine's step means for its answer. */
  lemma {:induction false} ServeAnswers(token: string, h: nat, pc: Serving, asker: Option<nat>, cancelled: bool,
                                        sent: Option<Request>, step: Step)
    requires IsServe(step) && ServeLoop(token, h, pc, asker, cancelled, sent, step).Some?
    requires Pending(pc) ==> sent == Some(pc.req)
    ensures var e := ServeLoop(token, h, pc, asker, cancelled, sent, step).value;
            && (e.confirms != [] ==>
                  && pc.Confirming? && |e.confirms| == 1 && e.confirms[0].h == h
                  && e.to == Replying(AnswerTo(e.confirms[0]))
                  && sent.Some? && e.confirms[0].command == sent.value.command
                  && e.confirms[0].reason == sent.value.reason)
            && (e.confirms == [] && e.to.Replying? ==> e.to.reply == Reply(false, true))
            && (e.to.Replying? ==> !pc.Replying? && !Answering(pc))
            && (e.sends.Some? ==> pc == Replying(e.sends.value) && e.to.Leaving?)
            && (Answering(pc) || pc.Replying? ==> Answering(e.to))
  {}

  /** A step of one goroutine changes nothing about the answers of the others. */
  lemma {:induction false} OtherAnswersStay(s: State, s': State, h: nat)
    requires AnswerOk(s, h) && s'.sent == s.sent && s'.result == s.result
    requires h in s.serving <==> h in s'.serving
    requires h in s.serving ==> s'.serving[h] == s.serving[h]
    requires h in s.answered <==> h in s'.answered
    requires h in s.answered ==> s'.answered[h] == s.answered[h]
    requires forall c: Confirmation | c.h == h :: c in s'.confirmed <==> c in s.confirmed
    ensures AnswerOk(s', h)
  {
    hide Yes, AnswerTo;
    assert Asked(s', h) <==> Asked(s, h);
  }

  lemma {:induction false} OwnAnswerKept(token: string, s: State, step: Step)
    requires IsServe(step) && ServeStep(token, s, step).Some?
    requires AnswerOk(s, step.h) && ApprovalOk(token, s, step.h)
    ensures AnswerOk(ServeStep(token, s, step).value, step.h)
  {
    var h := step.h;
    var e := ServeLoop(token, h, s.serving[h], s.asker, s.cancelled, SentOn(s, h), step).value;
    ServeAnswers(token, h, s.serving[h], s.asker, s.cancelled, SentOn(s, h), step);
    OwnFields(token, s, step);
    hide ServeLoop, ServeStep, Granted, Yes, AnswerTo, HasAsked;
    var s' := ServeStep(token, s, step).value;
    if e.confirms != [] {
      assert e.confirms == [e.confirms[0]] && e.confirms[0] in s'.confirmed;
    } else {
      assert Asked(s', h) <==> Asked(s, h);
    }
  }

  lemma {:induction false} OwnFields(token: string, s: State, step: Step)
    requires IsServe(step) && ServeStep(token, s, step).Some?
    ensures var h, s' := step.h, ServeStep(token, s, step).value;
            var e := ServeLoop(token, h, s.serving[h], s.asker, s.cancelled, SentOn(s, h), step).value;
            && h in s'.serving && s'.serving[h] == e.to && s'.sent == s.sent && s'.result == s.result
            && (forall c :: c in s'.confirmed <==> c in s.confirmed || c in e.confirms)
            && s'.answered == if e.sends.Some? then s.answered[h := e.sends.value] else s.answered
  {
    hide ServeLoop, CloseIf;
  }

  lemma {:induction false} ServeKeepsAnswer(token: string, s: State, step: Step, h: nat)
    requires IsServe(step) && ServeStep(token, s, step).Some?
    requires AnswerOk(s, h) && AnswerOk(s, step.h) && ApprovalOk(token, s, step.h)
    ensures AnswerOk(ServeStep(token, s, step).value, h)
  {
    if h == step.h {
      OwnAnswerKept(token, s, step);
    } else {
      ServeAnswers(token, step.h, s.serving[step.h], s.asker, s.cancelled, SentOn(s, step.h), step);
      hide ServeLoop, AnswerOk, CloseIf, ApprovalOk;
      OtherAnswersStay(s, ServeStep(token, s, step).value, h);
    }
  }

  lemma {:induction false} AcceptKeepsAnswer(s: State, step: Step, h: nat)
    requires IsAccept(step) && AcceptStep(s, step).Some? && AnswerOk(s, h)
    requires TwoHandles(s.accept) && forall g: nat | AcceptOwns(s.accept, g) :: g < s.created && g !in s.serving
    ensures AnswerOk(AcceptStep(s, step).value, h)
  {
    AcceptFields(s, step, h);
    hide AcceptStep, AcceptOwns, TwoHandles, AnswerOk;
    var s' := AcceptStep(s, step).value;
    if h in s.serving || h !in s'.serving {
      OtherAnswersStay(s, s', h);
    } else {
      NewIsUnanswered(s, s', h);
    }
  }

  lemma {:induction false} AcceptFields(s: State, step: Step, h: nat)
    requires IsAccept(step) && AcceptStep(s, step).Some? && TwoHandles(s.accept)
    requires forall g: nat | AcceptOwns(s.accept, g) :: g < s.created && g !in s.serving
    ensures var s' := AcceptStep(s, step).value;
            && s'.sent == s.sent && s'.result == s.result && s'.answered == s.answered && s'.confirmed == s.confirmed
            && (h in s.serving ==> h in s'.serving && s'.serving[h] == s.serving[h])
            && (h in s'.serving && h !in s.serving ==> s'.serving[h].Reading?)
  {
    AcceptEffects(s.accept, s.closed, s.created, step);
    hide AcceptLoop, AcceptOwns, TwoHandles, CloseIf;
  }

  /** A connection that was not there before has not been asked about. */
  lemma {:induction false} NewIsUnanswered(s: State, s': State, h: nat)
    requires AnswerOk(s, h) && h !in s.serving && h in s'.serving && s'.serving[h].Reading?
    requires s'.confirmed == s.confirmed && s'.answered == s.answered && s'.result == s.result
    ensures AnswerOk(s', h)
  {}

  lemma {:induction false} OtherKeepsAnswer(s: State, step: Step, h: nat)
    requires !IsAccept(step) && !IsServe(step) && OtherStep(s, step).Some? && AnswerOk(s, h)
    ensures AnswerOk(OtherStep(s, step).value, h)
  {
    var s' := OtherStep(s, step).value;
    assert s'.confirmed == s.confirmed;
    assert Asked(s', h) <==> Asked(s, h);
  }

  lemma {:induction false} StepKeepsAnswers(token: string, s: State, step: Step)
    requires Answers(s) && Approvals(token, s) && Ownership(s) && Next(token, s, step).Some?
    ensures Answers(Next(token, s, step).value)
  {
    var s' := Next(token, s, step).value;
    assert forall g: nat | AcceptOwns(s.accept, g) :: HandleOk(s, g);
    hide HandleOk, AcceptStep, ServeStep, OtherStep, AnswerOk, ApprovalOk, AcceptOwns;
    forall h: nat ensures AnswerOk(s', h) {
      if IsAccept(step) {
        AcceptKeepsAnswer(s, step, h);
      } else if IsServe(step) {
        ServeKeepsAnswer(token, s, step, h);
      } else {
        OtherKeepsAnswer(s, step, h);
      }
    }
  }

  lemma {:induction false} RunKeepsAnswers(token: string, steps: seq<Step>, s: State)
    requires Reachable(token, steps, s)
    ensures Answers(s)
    decreases |steps|
  {
    if steps == [] {
      assert s == Start();
    } else {
      hide Answers, Approvals, Ownership, Next, Start, ClosedDown;
      var before := Run(token, Start(), Init(steps)).value;
      RunKeepsAnswers(token, Init(steps), before);
      RunKeepsAll(token, Init(steps), before);
      StepKeepsAnswers(token, before, Last(steps));
    }
  }

  /**
   * A client is answered yes, or no, exactly when the approver said so, without error, to its own command and reason;
   * every other answer is a refusal.
   */
  lemma {:induction false} AnsweredAsConfirmed(token: string, steps: seq<Step>, s: State, h: nat, approved: bool)
    requires Reachable(token, steps, s) && h in s.answered
    ensures s.answered[h] == Reply(approved, false)
            <==> h in s.sent && Confirmation(h, s.sent[h].command, s.sent[h].reason, approved, false) in s.confirmed
    ensures s.answered[h].isError ==> s.answered[h] == Reply(false, true)
  {
    hide Reachable;
    RunKeepsAnswers(token, steps, s);
    RunKeepsAll(token, steps, s);
    assert AnswerOk(s, h) && ApprovalOk(token, s, h);
  }

  /** A client that gets its answer takes it for a yes exactly when the approver said yes to its request. */
  lemma {:induction false} ClientHearsTheAnswer(token: string, steps: seq<Step>, s: State, h: nat, gotReply: bool,
                                                t: State)
    requires Reachable(token, steps, s) && Next(token, s, ClientReturns(h, gotReply)) == Some(t)
    ensures h in t.result && h in s.sent
    ensures t.result[h]
            <==> gotReply && Confirmation(h, s.sent[h].command, s.sent[h].reason, true, false) in s.confirmed
  {
    if gotReply {
      AnsweredAsConfirmed(token, steps, s, h, true);
    }
    hide Reachable;
  }
}
