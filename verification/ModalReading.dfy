/** That approvals can be read and are answered, each in its turn (internal/tui/tui.go). */
module ModalReading {
  import opened Basics
  import opened Modal
  import opened ModalLaws

  // ----- Scrolling

  /** The text is shown whole if it fits; otherwise with as many rows as the screen leaves, at least one. */
  lemma {:induction false} BodyIsLargestFit(t: Layout, width: int, height: int, total: int)
    requires total >= 1
    ensures var w, room, body := Max(width, 1), height - 2, Body(t, width, height, total);
            if total + t.shortRows(w) <= room then body == total
            else
              && 1 <= body <= total && (body + t.longRows(w) <= room || body == 1)
              && (body == total || body + 1 + t.longRows(w) > room)
  {}

  predicate InRange(t: Layout, v: View)
    requires v.approvals != []
  {
    0 <= v.off <= MaxOff(t, v)
  }

  /** Where every key leads from a window within the text. */
  lemma {:induction false} KeysMoveTheWindow(t: Layout, v: View)
    requires t.NeverEmpty() && v.approvals != [] && InRange(t, v)
    ensures MaxOff(t, v) == Total(t, v) - Rows(t, v) && 1 <= Rows(t, v) <= Total(t, v)
    ensures v.off < MaxOff(t, v) ==> Scroll(t, v, Down).off == v.off + 1
    ensures v.off > 0 ==> Scroll(t, v, Up).off == v.off - 1
    ensures v.off + Rows(t, v) <= MaxOff(t, v) ==> Scroll(t, v, PageDown).off == v.off + Rows(t, v)
    ensures v.off >= Rows(t, v) ==> Scroll(t, v, PageUp).off == v.off - Rows(t, v)
    ensures v.off + Rows(t, v) > MaxOff(t, v) ==>
              Scroll(t, v, PageDown).off == Scroll(t, v, End).off == MaxOff(t, v)
    ensures v.off == MaxOff(t, v) ==> Scroll(t, v, Down).off == v.off
    ensures v.off == 0 ==> Scroll(t, v, Up).off == 0
    ensures v.off < Rows(t, v) ==> Scroll(t, v, PageUp).off == 0
    ensures Scroll(t, v, Home).off == 0 && Scroll(t, v, End).off == MaxOff(t, v)
  {
    RowsMonotone(t, v, v.height);
    hide Body;
  }

  /** Everything down to the end of the window has been read, and the window lies within the text. */
  predicate ReadSoFar(t: Layout, v: View) {
    v.approvals != [] && InRange(t, v) && v.off + Rows(t, v) <= v.seen
  }

  /** The views differ in what is on screen and what was read at most. */
  predicate OnlyScrolled(v: View, v': View) {
    v' == v.(off := v'.off, seen := v'.seen)
  }

  lemma {:induction false} HomeIsRead(t: Layout, v: View)
    requires t.NeverEmpty() && v.approvals != []
    ensures var v' := Update(t, v, Press(Home)); OnlyScrolled(v, v') && ReadSoFar(t, v') && v'.off == 0
  {
    RowsMonotone(t, v, v.height);
    hide Body;
  }

  lemma {:induction false} PageDownReadsOn(t: Layout, v: View)
    requires t.NeverEmpty() && ReadSoFar(t, v)
    ensures var v' := Update(t, v, Press(PageDown));
            OnlyScrolled(v, v') && ReadSoFar(t, v') && v'.off >= Min(v.off + 1, MaxOff(t, v))
  {
    RowsMonotone(t, v, v.height);
    hide Body;
  }

  function Updates(t: Layout, v: View, messages: seq<Message>): View
    decreases |messages|
  {
    if messages == [] then v else Update(t, Updates(t, v, Init(messages)), Last(messages))
  }

  function Pages(n: nat): seq<Message> {
    if n == 0 then [Press(Home)] else Pages(n - 1) + [Press(PageDown)]
  }

  /** Paging down from the start reads on without a gap, and comes to the end. */
  lemma {:induction false} PagingReadsOn(t: Layout, v: View, n: nat)
    requires t.NeverEmpty() && v.approvals != []
    ensures var v' := Updates(t, v, Pages(n));
            OnlyScrolled(v, v') && ReadSoFar(t, v') && v'.off >= Min(n, MaxOff(t, v))
    decreases n
  {
    hide Update, MaxOff, Rows;
    if n == 0 {
      assert Init([Press(Home)]) == [];
      HomeIsRead(t, v);
      MaxOffIsNatural(t, v);
    } else {
      PagingReadsOn(t, v, n - 1);
      assert Init(Pages(n)) == Pages(n - 1);
      var before := Updates(t, v, Pages(n - 1));
      PageDownReadsOn(t, before);
      SameGeometry(t, v, before);
    }
  }

  lemma {:induction false} MaxOffIsNatural(t: Layout, v: View)
    requires v.approvals != []
    ensures MaxOff(t, v) >= 0
  {}

  lemma {:induction false} SameGeometry(t: Layout, v: View, v': View)
    requires v.approvals != [] && OnlyScrolled(v, v')
    ensures MaxOff(t, v') == MaxOff(t, v) && Total(t, v') == Total(t, v) && Rows(t, v') == Rows(t, v)
  {}

  lemma {:induction false} ReadToTheEnd(t: Layout, v: View)
    requires ReadSoFar(t, v) && v.off >= MaxOff(t, v)
    ensures FullySeen(t, v)
  {}

  /** However long its text and whatever was done before, the head can be read through and then approved. */
  lemma {:induction false} HeadCanBeApproved(t: Layout, v: View) returns (messages: seq<Message>)
    requires t.NeverEmpty() && v.approvals != []
    ensures var v' := Updates(t, v, messages);
            v'.answers == v.answers + [Answer(v.approvals[0].reply, true)] && v'.approvals == v.approvals[1..]
  {
    MaxOffIsNatural(t, v);
    var n: nat := MaxOff(t, v);
    PagingReadsOn(t, v, n);
    var read := Updates(t, v, Pages(n));
    SameGeometry(t, v, read);
    ReadToTheEnd(t, read);
    messages := Pages(n) + [Press(Approve)];
    assert Init(messages) == Pages(n) && Last(messages) == Press(Approve);
    hide Updates, FullySeen, Pages;
  }

  /** A text that fits on the screen can be approved at once. */
  lemma {:induction false} FittingIsReadAtOnce(t: Layout, v: View)
    requires v.approvals != [] && Rows(t, v) >= Total(t, v)
    ensures Update(t, v, Press(Approve)).answers == v.answers + [Answer(v.approvals[0].reply, true)]
  {}

  /** While the same text is at the head, nothing that was read is forgotten, and only scrolling moves the window. */
  lemma {:induction false} ReadingIsNeverLost(t: Layout, v: View, m: Message)
    requires Distinct(Replies(v)) && SameText(v, Update(t, v, m))
    ensures Update(t, v, m).seen >= v.seen
    ensures !(m.Press? && Scrolls(m.key)) ==> Update(t, v, m).off == v.off && Update(t, v, m).seen == v.seen
  {
    hide Body, DenyAll, MaxOff;
    DenyKeepsRun(v);
    if |v.approvals| >= 2 {
      NextHeadDiffers(v);
    }
    if m.Withdraw? {
      DropAndHead(v, m.reply);
    }
  }

  /** A new width, under which lines break elsewhere, starts the reading over; a new height alone does not. */
  lemma {:induction false} RewrapStartsOver(t: Layout, v: View, width: int, height: int)
    ensures var v' := Update(t, v, Resize(width, height));
            && v'.width == width && v'.height == height && v'.approvals == v.approvals && v'.answers == v.answers
            && (v.approvals != [] && width != v.width ==> v'.off == v'.seen == 0)
            && (width == v.width ==> v'.off == v.off && v'.seen == v.seen)
  {}

  // ----- Answers

  function NoTo(approvals: seq<Approval>): seq<Answer> {
    seq(|approvals|, i requires 0 <= i < |approvals| => Answer(approvals[i].reply, false))
  }

  lemma {:induction false} DenyAllIsNoToAll(v: View)
    ensures DenyAll(v).approvals == [] && DenyAll(v).answers == v.answers + NoTo(v.approvals)
    decreases |v.approvals|
  {
    if v.approvals != [] {
      DenyAllIsNoToAll(AnswerHead(v, false));
      assert NoTo(v.approvals) == [Answer(v.approvals[0].reply, false)] + NoTo(v.approvals[1..]);
    }
  }

  /** A no goes to the head alone; an interrupt and the end of the run say no to everybody waiting. */
  lemma {:induction false} WhoIsToldNo(t: Layout, v: View)
    ensures v.approvals != [] ==>
              var v' := Update(t, v, Press(Deny));
              v'.answers == v.answers + NoTo(v.approvals[..1]) && v'.approvals == v.approvals[1..]
    ensures Update(t, v, Press(CtrlC)).answers == Update(t, v, RunDone).answers == v.answers + NoTo(v.approvals)
    ensures Update(t, v, Press(CtrlC)).approvals == Update(t, v, RunDone).approvals == []
  {
    DenyAllIsNoToAll(v);
    hide DenyAll;
  }

  /** An idle program quits on one interrupt; a run is cancelled by the first and left when it ends by the second. */
  lemma {:induction false} InterruptsLeadOut(t: Layout, v: View)
    ensures v.run == Idle ==> Update(t, v, Press(CtrlC)).quit
    ensures v.run == Running ==>
              var once := Update(t, v, Press(CtrlC));
              var twice := Update(t, once, Press(CtrlC));
              && once.run == twice.run == Cancelling && once.quit == twice.quit == v.quit
              && once.quitOnDone == v.quitOnDone && Update(t, twice, RunDone).quit
    ensures var done := Update(t, v, RunDone); done.run == Idle && (done.quit <==> v.quit || v.quitOnDone)
  {
    DenyKeepsRun(v);
    DenyKeepsRun(Update(t, v, Press(CtrlC)));
    DenyKeepsRun(Update(t, Update(t, v, Press(CtrlC)), Press(CtrlC)));
    hide DenyAll;
  }

  /** A run is started by a line of input alone, with nothing running and no approval waiting. */
  lemma {:induction false} StartsOnlyOnInput(t: Layout, v: View, m: Message)
    requires v.run != Running
    ensures Update(t, v, m).run == Running <==> m == Press(Enter(false)) && v.run == Idle && v.approvals == []
  {
    DenyKeepsRun(v);
    hide DenyAll;
  }

  // ----- No request is lost

  function RemoveFirst(waiting: seq<Approval>, reply: nat): seq<Approval> {
    if waiting == [] then []
    else if waiting[0].reply == reply then waiting[1..]
    else [waiting[0]] + RemoveFirst(waiting[1..], reply)
  }

  /** The requests in the order of their arrival, without those withdrawn while they waited. */
  function Requests(t: Layout, messages: seq<Message>): seq<Approval>
    decreases |messages|
  {
    if messages == [] then []
    else RequestsAfter(Requests(t, Init(messages)), |ViewAfter(t, Init(messages)).answers|, Last(messages))
  }

  function RequestsAfter(before: seq<Approval>, answered: nat, m: Message): seq<Approval> {
    match m
    case Request(approval) => before + [approval]
    case Withdraw(reply) =>
      if answered <= |before| then before[..answered] + RemoveFirst(before[answered..], reply) else before
    case _ => before
  }

  /** The first requests have been answered on their own channels, and the others wait, unchanged and in order. */
  predicate InTurn(v: View, requests: seq<Approval>) {
    && |v.answers| <= |requests| && v.approvals == requests[|v.answers|..]
    && forall i | 0 <= i < |v.answers| :: v.answers[i].reply == requests[i].reply
  }

  lemma {:induction false} FirstIsAtIndex(waiting: seq<Approval>, reply: nat)
    ensures var i := IndexOf(waiting, reply);
            RemoveFirst(waiting, reply) == if i < |waiting| then waiting[..i] + waiting[i + 1..] else waiting
    decreases |waiting|
  {
    if waiting != [] && waiting[0].reply != reply {
      var rest, i := waiting[1..], IndexOf(waiting[1..], reply);
      FirstIsAtIndex(rest, reply);
      assert IndexOf(waiting, reply) == i + 1 && RemoveFirst(waiting, reply) == [waiting[0]] + RemoveFirst(rest, reply);
      hide IndexOf, RemoveFirst;
      assert waiting == [waiting[0]] + rest;
      if i < |rest| {
        assert [waiting[0]] + rest[..i] == waiting[..i + 1] && rest[i + 1..] == waiting[i + 2..];
      }
    }
  }

  lemma {:induction false} DropRemovesFirst(v: View, reply: nat)
    ensures Drop(v, reply).approvals == RemoveFirst(v.approvals, reply) && Drop(v, reply).answers == v.answers
  {
    FirstIsAtIndex(v.approvals, reply);
    hide IndexOf, RemoveFirst;
  }

  lemma {:induction false} AnswersInTurn(v: View, v': View, requests: seq<Approval>, n: nat)
    requires InTurn(v, requests) && n <= |v.approvals| && v'.approvals == v.approvals[n..]
    requires |v'.answers| == |v.answers| + n && v'.answers[..|v.answers|] == v.answers
    requires forall i | 0 <= i < n :: v'.answers[|v.answers| + i].reply == v.approvals[i].reply
    ensures InTurn(v', requests)
  {
    var k := |v.answers|;
    forall i | 0 <= i < |v'.answers| ensures v'.answers[i].reply == requests[i].reply {
      if i < k {
        assert v'.answers[i] == v'.answers[..k][i];
      } else {
        assert v'.answers[k + (i - k)].reply == v.approvals[i - k].reply;
      }
    }
  }

  lemma {:induction false} KeyAnswersInTurn(t: Layout, v: View, key: Key, requests: seq<Approval>)
    requires InTurn(v, requests)
    ensures InTurn(PressKey(t, v, key), requests)
  {
    hide InTurn, DenyAll;
    var v' := PressKey(t, v, key);
    DenyAllIsNoToAll(v);
    if key.CtrlC? {
      assert v.approvals[|v.approvals|..] == [];
      AnswersInTurn(v, v', requests, |v.approvals|);
    } else if v.approvals != [] && (key.Deny? || (key.Approve? && FullySeen(t, v))) {
      AnswersInTurn(v, v', requests, 1);
    } else {
      if v.approvals != [] && Scrolls(key) {
        ScrollKeepsLists(t, v, key);
      }
      AnswersInTurn(v, v', requests, 0);
    }
  }

  lemma {:induction false} MessageInTurn(t: Layout, v: View, m: Message, requests: seq<Approval>)
    requires InTurn(v, requests)
    ensures InTurn(Update(t, v, m), RequestsAfter(requests, |v.answers|, m))
  {
    match m {
      case Press(key) =>
        hide InTurn, PressKey;
        KeyAnswersInTurn(t, v, key, requests);
      case RunDone =>
        DenyAllIsNoToAll(v);
        hide InTurn, DenyAll;
        assert v.approvals[|v.approvals|..] == [];
        AnswersInTurn(v, Update(t, v, m), requests, |v.approvals|);
      case Withdraw(reply) =>
        DropRemovesFirst(v, reply);
        hide Drop, RemoveFirst;
      case _ =>
    }
  }

  /** Requests are answered in the order in which they came; none is lost, changed or answered for another. */
  lemma {:induction false} AnsweredInTurn(t: Layout, messages: seq<Message>)
    ensures InTurn(ViewAfter(t, messages), Requests(t, messages))
    decreases |messages|
  {
    if messages != [] {
      AnsweredInTurn(t, Init(messages));
      MessageInTurn(t, ViewAfter(t, Init(messages)), Last(messages), Requests(t, Init(messages)));
      hide Update, InTurn, RequestsAfter;
    }
  }
}
