/** What the modal guarantees over any sequence of messages, and where the guarantee ends. */
module ModalLaws {
  import opened Basics
  import opened Modal

  // ----- What has been on screen

  function Range(from: int, to: int): (r: set<int>)
    decreases Max(to - from, 0)
    ensures forall i :: (i in r <==> from <= i < to)
  {
    if from >= to then {} else Range(from, to - 1) + {to - 1}
  }

  /** The lines of the head approval's text that are on screen. */
  function Window(t: Layout, v: View): set<int> {
    if v.approvals == [] then {} else Range(Top(t, v), Top(t, v) + Rows(t, v))
  }

  /** The same approval is at the head, wrapped to the same width. */
  predicate SameText(v: View, v': View) {
    v.approvals != [] && v'.approvals != [] && v.approvals[0] == v'.approvals[0] && v.width == v'.width
  }

  /** The lines of the head's text displayed since it became the head at this width. */
  function Shown(t: Layout, v: View, shown: set<int>, v': View): set<int> {
    if SameText(v, v') then shown + Window(t, v') else Window(t, v')
  }

  /** Only lines that were on screen count as read. */
  ghost predicate Honest(t: Layout, v: View, shown: set<int>) {
    if v.approvals == [] then v.off == v.seen == 0
    else Window(t, v) <= shown && Range(0, Credited(t, v)) <= shown
  }

  /** The guard for a taller terminal: no more rows than already read, or the window touches what was read. */
  predicate Harmless(t: Layout, v: View, height: int) {
    v.approvals == [] || height <= v.height ||
    (var taller := v.(height := height); Rows(t, taller) <= Credited(t, v) || Top(t, taller) <= Credited(t, v))
  }

  predicate Fresh(v: View, approval: Approval) {
    && (forall a | a in v.approvals :: a.reply != approval.reply)
    && (forall a | a in v.answers :: a.reply != approval.reply)
  }

  /** What the surroundings keep to: fresh reply channels, a run finishes only when one is active. */
  predicate Expected(v: View, m: Message) {
    (m.Request? ==> Fresh(v, m.approval)) && (m.RunDone? ==> v.run != Idle)
  }

  /** A terminal that changes its height credits only lines that have been, or are then, on screen. */
  ghost predicate CreditsShown(t: Layout, v: View, shown: set<int>, m: Message) {
    m.Resize? && m.width == v.width && v.approvals != [] ==>
      var resized := v.(height := m.height);
      Range(Credited(t, v), Rows(t, resized)) <= shown + Window(t, resized)
  }

  lemma {:induction false} RowsMonotone(t: Layout, v: View, height: int)
    requires t.NeverEmpty() && v.approvals != []
    ensures 1 <= Rows(t, v) <= Total(t, v)
    ensures height <= v.height ==> Rows(t, v.(height := height)) <= Rows(t, v)
    ensures height >= v.height ==> Rows(t, v.(height := height)) >= Rows(t, v)
  {}

  /** A new height keeps the account honest exactly when it credits only shown lines. */
  lemma {:induction false} ResizeHonestIff(t: Layout, v: View, shown: set<int>, m: Message)
    requires t.NeverEmpty() && Honest(t, v, shown) && m.Resize?
    ensures var v' := Update(t, v, m); Honest(t, v', Shown(t, v, shown, v')) <==> CreditsShown(t, v, shown, m)
  {
    var v' := Update(t, v, m);
    if v.approvals != [] {
      RowsMonotone(t, v', m.height);
      if m.width == v.width {
        assert v' == v.(height := m.height) && SameText(v, v');
        ResizeCredits(t, v, v');
        var after := Shown(t, v, shown, v');
        assert after == shown + Window(t, v');
        if Range(Credited(t, v), Rows(t, v')) <= after {
          assert forall i | i in Range(0, Credited(t, v')) ::
              i in Range(0, Credited(t, v)) || i in Range(Credited(t, v), Rows(t, v'));
        }
        if Range(0, Credited(t, v')) <= after {
          assert forall i | i in Range(Credited(t, v), Rows(t, v')) :: i in Range(0, Credited(t, v'));
        }
      }
    }
  }

  lemma {:induction false} ResizeCredits(t: Layout, v: View, v': View)
    requires t.NeverEmpty() && v.approvals != [] && v' == v.(height := v'.height)
    ensures v.seen <= Credited(t, v') && Rows(t, v') <= Credited(t, v') && Credited(t, v) >= 1
    ensures Credited(t, v') <= Max(Credited(t, v), Rows(t, v'))
  {}

  /** The guard on the view alone is enough. */
  lemma {:induction false} HarmlessCreditsShown(t: Layout, v: View, shown: set<int>, m: Message)
    requires t.NeverEmpty() && Honest(t, v, shown)
    requires m.Resize? && m.width == v.width ==> Harmless(t, v, m.height)
    ensures CreditsShown(t, v, shown, m)
  {
    if m.Resize? && m.width == v.width && v.approvals != [] {
      RowsMonotone(t, v, m.height);
    }
  }

  lemma {:induction false} ScrollKeepsHonest(t: Layout, v: View, shown: set<int>, key: Key)
    requires t.NeverEmpty() && Honest(t, v, shown) && v.approvals != []
    ensures var v' := Scroll(t, v, key); SameText(v, v') && Honest(t, v', Shown(t, v, shown, v'))
  {
    RowsMonotone(t, v, v.height);
  }

  /** A newly shown head has been displayed from its first line on. */
  lemma {:induction false} NewHeadIsHonest(t: Layout, v: View)
    requires t.NeverEmpty() && v.off == v.seen == 0
    ensures Honest(t, v, Window(t, v))
  {
    if v.approvals != [] {
      RowsMonotone(t, v, v.height);
    }
  }

  /** A step that keeps the head, its text and the geometry, or shows a new head from the top, stays honest. */
  lemma {:induction false} SameHeadIsHonest(t: Layout, v: View, shown: set<int>, v': View)
    requires t.NeverEmpty() && Honest(t, v, shown)
    requires if SameText(v, v')
             then v'.off == v.off && v'.seen == v.seen && v'.height == v.height
             else v'.off == v'.seen == 0
    ensures Honest(t, v', Shown(t, v, shown, v'))
  {
    if SameText(v, v') {
      assert Rows(t, v') == Rows(t, v) && Top(t, v') == Top(t, v);
    } else {
      NewHeadIsHonest(t, v');
    }
  }

  // ----- Reply channels

  function Replies(v: View): seq<nat> {
    seq(|v.answers|, i requires 0 <= i < |v.answers| => v.answers[i].reply)
    + seq(|v.approvals|, i requires 0 <= i < |v.approvals| => v.approvals[i].reply)
  }

  predicate Distinct(s: seq<nat>) {
    forall i, j | 0 <= i < j < |s| :: s[i] != s[j]
  }

  /** Answering moves a reply channel from the waiting to the answered; the list of both stays the same. */
  lemma {:induction false} AnswerKeepsReplies(v: View, approved: bool)
    ensures Replies(AnswerHead(v, approved)) == Replies(v)
  {}

  lemma {:induction false} DenyKeepsReplies(v: View)
    ensures Replies(DenyAll(v)) == Replies(v)
    ensures v.answers <= DenyAll(v).answers
    ensures forall k | |v.answers| <= k < |DenyAll(v).answers| :: !DenyAll(v).answers[k].approved
    decreases |v.approvals|
  {
    if v.approvals != [] {
      AnswerKeepsReplies(v, false);
      DenyKeepsReplies(AnswerHead(v, false));
    }
  }

  lemma {:induction false} DropKeepsDistinct(v: View, reply: nat)
    requires Distinct(Replies(v))
    ensures Distinct(Replies(Drop(v, reply)))
  {
    var i := IndexOf(v.approvals, reply);
    if i < |v.approvals| {
      var r, r', n := Replies(v), Replies(Drop(v, reply)), |v.answers|;
      forall a, b | 0 <= a < b < |r'| ensures r'[a] != r'[b] {
        assert r'[a] == r[if a < n + i then a else a + 1];
        assert r'[b] == r[if b < n + i then b else b + 1];
      }
    }
  }

  lemma {:induction false} RequestKeepsDistinct(v: View, approval: Approval)
    requires Distinct(Replies(v)) && Fresh(v, approval)
    ensures Distinct(Replies(v.(approvals := v.approvals + [approval])))
  {
    var r, r' := Replies(v), Replies(v.(approvals := v.approvals + [approval]));
    assert r' == r + [approval.reply];
    forall k | 0 <= k < |r| ensures r[k] != approval.reply {
      if k < |v.answers| {
        assert v.answers[k] in v.answers;
      } else {
        assert v.approvals[k - |v.answers|] in v.approvals;
      }
    }
  }

  lemma {:induction false} StepKeepsDistinct(t: Layout, v: View, m: Message)
    requires Distinct(Replies(v)) && Expected(v, m)
    ensures Distinct(Replies(Update(t, v, m)))
  {
    hide DenyAll, Drop, AnswerHead, Scroll, FullySeen, Distinct;
    match m {
      case Press(key) =>
        DenyKeepsReplies(v);
        AnswerKeepsReplies(v, true);
        AnswerKeepsReplies(v, false);
        if v.approvals != [] && Scrolls(key) {
          ScrollKeepsLists(t, v, key);
        }
        RepliesOf(DenyAll(v), Update(t, v, m));
        RepliesOf(v, Update(t, v, m));
      case Request(approval) => RequestKeepsDistinct(v, approval);
      case Withdraw(reply) => DropKeepsDistinct(v, reply);
      case _ =>
        DenyKeepsReplies(v);
        RepliesOf(DenyAll(v), Update(t, v, m));
        RepliesOf(v, Update(t, v, m));
    }
  }

  lemma {:induction false} RepliesOf(v: View, v': View)
    ensures v.approvals == v'.approvals && v.answers == v'.answers ==> Replies(v) == Replies(v')
  {}

  lemma {:induction false} ScrollKeepsLists(t: Layout, v: View, key: Key)
    requires v.approvals != []
    ensures var v' := Scroll(t, v, key);
            v'.approvals == v.approvals && v'.answers == v.answers && v'.run == v.run && v'.quit == v.quit
  {}

  // ----- Every step

  lemma {:induction false} DropAndHead(v: View, reply: nat)
    ensures var v' := Drop(v, reply);
            && v'.width == v.width && v'.height == v.height
            && v'.answers == v.answers && v'.run == v.run && v'.quit == v.quit
            && (|| v' == v
                || (v.approvals != [] && v'.approvals != [] && v'.approvals[0] == v.approvals[0]
                    && v'.off == v.off && v'.seen == v.seen)
                || (v'.off == v'.seen == 0 && v.approvals != [] && v'.approvals == v.approvals[1..]))
  {}

  /** With distinct reply channels, the approval behind the head is another one. */
  lemma {:induction false} NextHeadDiffers(v: View)
    requires Distinct(Replies(v)) && |v.approvals| >= 2
    ensures v.approvals[1] != v.approvals[0]
  {
    var r, n := Replies(v), |v.answers|;
    assert r[n] == v.approvals[0].reply && r[n + 1] == v.approvals[1].reply;
  }

  lemma {:induction false} HeadGone(t: Layout, v: View, shown: set<int>, v': View)
    requires t.NeverEmpty() && Honest(t, v, shown) && Distinct(Replies(v))
    requires v.approvals != [] && v'.approvals == v.approvals[1..] && v'.off == v'.seen == 0
    ensures Honest(t, v', Shown(t, v, shown, v'))
  {
    if |v.approvals| >= 2 {
      NextHeadDiffers(v);
    }
    SameHeadIsHonest(t, v, shown, v');
  }

  lemma {:induction false} PressKeepsHonest(t: Layout, v: View, shown: set<int>, key: Key)
    requires t.NeverEmpty() && Honest(t, v, shown) && Distinct(Replies(v))
    ensures var v' := PressKey(t, v, key); Honest(t, v', Shown(t, v, shown, v'))
  {
    var v' := PressKey(t, v, key);
    DenyKeepsRun(v);
    hide DenyAll, Honest, Shown, Scroll, Distinct, Replies;
    if key.CtrlC? && v.approvals != [] {
      DenyIsHonest(t, v, shown, v');
    } else if v.approvals != [] && !key.CtrlC? && (key.Deny? || (key.Approve? && FullySeen(t, v))) {
      HeadGone(t, v, shown, v');
    } else if v.approvals != [] && Scrolls(key) {
      ScrollKeepsHonest(t, v, shown, key);
    } else {
      NothingDoneIsHonest(t, v, shown, v');
    }
  }

  lemma {:induction false} DenyIsHonest(t: Layout, v: View, shown: set<int>, v': View)
    requires t.NeverEmpty() && Honest(t, v, shown)
    requires v'.approvals == [] && v'.off == v'.seen == 0
    ensures Honest(t, v', Shown(t, v, shown, v'))
  {}

  lemma {:induction false} NothingDoneIsHonest(t: Layout, v: View, shown: set<int>, v': View)
    requires t.NeverEmpty() && Honest(t, v, shown)
    requires v' == v.(run := v'.run, quit := v'.quit, quitOnDone := v'.quitOnDone)
    ensures Honest(t, v', Shown(t, v, shown, v'))
  {
    SameHeadIsHonest(t, v, shown, v');
  }

  lemma {:induction false} StepHonestIff(t: Layout, v: View, shown: set<int>, m: Message)
    requires t.NeverEmpty() && Honest(t, v, shown) && Distinct(Replies(v)) && Expected(v, m)
    ensures var v' := Update(t, v, m); Honest(t, v', Shown(t, v, shown, v')) <==> CreditsShown(t, v, shown, m)
  {
    var v' := Update(t, v, m);
    match m {
      case Resize(_, _) => ResizeHonestIff(t, v, shown, m);
      case Press(key) => PressKeepsHonest(t, v, shown, key);
      case Request(approval) => SameHeadIsHonest(t, v, shown, v');
      case Withdraw(reply) =>
        DropAndHead(v, reply);
        if v.approvals != [] && v'.approvals == v.approvals[1..] && v'.off == v'.seen == 0 && v' != v {
          HeadGone(t, v, shown, v');
        } else {
          SameHeadIsHonest(t, v, shown, v');
        }
      case RunDone =>
        DenyKeepsRun(v);
        DenyIsHonest(t, v, shown, v');
      case OtherMessage => NothingDoneIsHonest(t, v, shown, v');
    }
  }

  // ----- Runs

  function ViewAfter(t: Layout, messages: seq<Message>): View
    decreases |messages|
  {
    if messages == [] then Start() else Update(t, ViewAfter(t, Init(messages)), Last(messages))
  }

  /** The lines of the head's text displayed in the course of the run. */
  function ShownAfter(t: Layout, messages: seq<Message>): set<int>
    decreases |messages|
  {
    if messages == [] then {}
    else Shown(t, ViewAfter(t, Init(messages)), ShownAfter(t, Init(messages)), ViewAfter(t, messages))
  }

  predicate AllExpected(t: Layout, messages: seq<Message>)
    decreases |messages|
  {
    messages == [] || (AllExpected(t, Init(messages)) && Expected(ViewAfter(t, Init(messages)), Last(messages)))
  }

  /** Every change of height credits only shown lines. */
  ghost predicate AllCreditsShown(t: Layout, messages: seq<Message>)
    decreases |messages|
  {
    messages == [] ||
    (AllCreditsShown(t, Init(messages))
     && CreditsShown(t, ViewAfter(t, Init(messages)), ShownAfter(t, Init(messages)), Last(messages)))
  }

  /** Every change of height passes the guard on the view. */
  predicate AllHarmless(t: Layout, messages: seq<Message>)
    decreases |messages|
  {
    messages == [] ||
    (AllHarmless(t, Init(messages)) &&
     var v, m := ViewAfter(t, Init(messages)), Last(messages);
     m.Resize? && m.width == v.width ==> Harmless(t, v, m.height))
  }

  /** At every moment of the run only lines that were on screen count as read. */
  ghost predicate HonestThroughout(t: Layout, messages: seq<Message>)
    decreases |messages|
  {
    Honest(t, ViewAfter(t, messages), ShownAfter(t, messages))
    && (messages == [] || HonestThroughout(t, Init(messages)))
  }

  lemma {:induction false} RunKeepsDistinct(t: Layout, messages: seq<Message>)
    requires AllExpected(t, messages)
    ensures Distinct(Replies(ViewAfter(t, messages)))
    decreases |messages|
  {
    hide Distinct, Replies, Update, Expected;
    if messages == [] {
      StartHasNoReplies();
    } else {
      RunKeepsDistinct(t, Init(messages));
      StepKeepsDistinct(t, ViewAfter(t, Init(messages)), Last(messages));
    }
  }

  lemma {:induction false} StartHasNoReplies()
    ensures Distinct(Replies(Start()))
  {}

  // ----- The guarantees

  /**
   * Over any run the account of read lines is honest throughout exactly when every new height credits only shown
   * lines.
   */
  lemma {:induction false} HonestIffCreditsShown(t: Layout, messages: seq<Message>)
    requires t.NeverEmpty() && AllExpected(t, messages)
    ensures HonestThroughout(t, messages) <==> AllCreditsShown(t, messages)
    decreases |messages|
  {
    if messages != [] {
      hide Honest, Distinct, Replies, Update, Shown, Expected, CreditsShown;
      HonestIffCreditsShown(t, Init(messages));
      RunKeepsDistinct(t, Init(messages));
      var u, before := ViewAfter(t, Init(messages)), ShownAfter(t, Init(messages));
      if Honest(t, u, before) {
        StepHonestIff(t, u, before, Last(messages));
      }
    }
  }

  /** A run whose new heights all pass the guard on the view is honest throughout. */
  lemma {:induction false} HarmlessRunIsHonest(t: Layout, messages: seq<Message>)
    requires t.NeverEmpty() && AllExpected(t, messages) && AllHarmless(t, messages)
    ensures AllCreditsShown(t, messages) && HonestThroughout(t, messages)
    decreases |messages|
  {
    if messages != [] {
      hide Honest, Distinct, Replies, Update, Shown, Expected, CreditsShown, Harmless;
      HarmlessRunIsHonest(t, Init(messages));
      HarmlessCreditsShown(t, ViewAfter(t, Init(messages)), ShownAfter(t, Init(messages)), Last(messages));
    }
    HonestIffCreditsShown(t, messages);
  }

  /** When the head counts as fully seen, every line of its text has been on screen since it became the head. */
  lemma {:induction false} FullySeenMeansShown(t: Layout, messages: seq<Message>)
    requires t.NeverEmpty() && AllExpected(t, messages) && AllCreditsShown(t, messages)
    requires FullySeen(t, ViewAfter(t, messages))
    ensures Range(0, Total(t, ViewAfter(t, messages))) <= ShownAfter(t, messages)
  {
    HonestIffCreditsShown(t, messages);
    hide ViewAfter, ShownAfter;
  }

  /** No reply channel is answered twice, nor answered while its approval still waits. */
  lemma {:induction false} AnsweredOnce(t: Layout, messages: seq<Message>)
    requires AllExpected(t, messages)
    ensures var v := ViewAfter(t, messages);
            && (forall i, j | 0 <= i < j < |v.answers| :: v.answers[i].reply != v.answers[j].reply)
            && forall i, j | 0 <= i < |v.answers| && 0 <= j < |v.approvals| ::
                 v.answers[i].reply != v.approvals[j].reply
  {
    RunKeepsDistinct(t, messages);
    hide ViewAfter, AllExpected;
    var v := ViewAfter(t, messages);
    var r, n := Replies(v), |v.answers|;
    forall i, j | 0 <= i < n && 0 <= j < |v.approvals| ensures v.answers[i].reply != v.approvals[j].reply {
      assert r[i] == v.answers[i].reply && r[n + j] == v.approvals[j].reply;
    }
    forall i, j | 0 <= i < j < n ensures v.answers[i].reply != v.answers[j].reply {
      assert r[i] == v.answers[i].reply && r[j] == v.answers[j].reply;
    }
  }

  /** Answers are only ever added, and a yes is added only by the approve key on a fully seen head. */
  lemma {:induction false} YesNeedsTheKey(t: Layout, v: View, m: Message, k: nat)
    requires k < |Update(t, v, m).answers|
    ensures v.answers <= Update(t, v, m).answers
    ensures k >= |v.answers| && Update(t, v, m).answers[k].approved ==>
              && m == Press(Approve) && FullySeen(t, v)
              && Update(t, v, m).answers == v.answers + [Answer(v.approvals[0].reply, true)]
  {
    DenyKeepsReplies(v);
    hide DenyAll, Replies, FullySeen;
    if m.Withdraw? {
      DropAndHead(v, m.reply);
    }
  }

  /** The same over a whole run whose new heights credit only shown lines: a yes means the whole command was shown. */
  lemma {:induction false} YesMeansAllShown(t: Layout, messages: seq<Message>, m: Message, k: nat)
    requires t.NeverEmpty() && AllExpected(t, messages) && AllCreditsShown(t, messages)
    requires var v, v' := ViewAfter(t, messages), Update(t, ViewAfter(t, messages), m);
             |v.answers| <= k < |v'.answers| && v'.answers[k].approved
    ensures var v := ViewAfter(t, messages);
            && m == Press(Approve) && v.approvals != [] && Update(t, v, m).answers[k].reply == v.approvals[0].reply
            && Range(0, Total(t, v)) <= ShownAfter(t, messages)
  {
    hide Update, ViewAfter, ShownAfter, AllExpected, AllCreditsShown;
    YesNeedsTheKey(t, ViewAfter(t, messages), m, k);
    FullySeenMeansShown(t, messages);
  }

  /** The program quits only when no run is active. */
  lemma {:induction false} QuitsOnlyWhenIdle(t: Layout, v: View, m: Message)
    requires !v.quit && Update(t, v, m).quit
    ensures Update(t, v, m).run == Idle
    ensures m.RunDone? || v.run == Idle
    ensures Update(t, v, m).approvals == []
  {
    DenyKeepsRun(v);
    hide DenyAll;
    if m.Withdraw? {
      DropAndHead(v, m.reply);
    }
  }

  // ----- The limits of the guarantee

  /** With the least honest history the guard on the view is also necessary. */
  lemma {:induction false} GrowthIsHonestIffHarmless(t: Layout, v: View, height: int)
    requires t.NeverEmpty() && v.approvals != [] && height > v.height
    ensures var shown := Range(0, Credited(t, v)) + Window(t, v);
            var v' := Update(t, v, Resize(v.width, height));
            Honest(t, v', Shown(t, v, shown, v')) <==> Harmless(t, v, height)
  {
    RowsMonotone(t, v, height);
    var shown, v' := Range(0, Credited(t, v)) + Window(t, v), Update(t, v, Resize(v.width, height));
    assert v' == v.(height := height) && SameText(v, v');
    if !Harmless(t, v, height) {
      assert Credited(t, v) in Range(0, Credited(t, v')) && Credited(t, v) !in Shown(t, v, shown, v');
    }
  }

  /** A layout in which every text has a hundred lines and the modal no further rows. */
  const LONG := Layout((p, width) => 100, width => 0, width => 0)

  /** Jump to the end, grow the terminal, press End again. */
  function GrowingRun(a: Approval): seq<Message> {
    [Request(a), Press(End), Resize(80, 62), Press(End)]
  }

  lemma {:induction false} OneMore(t: Layout, messages: seq<Message>, m: Message)
    ensures ViewAfter(t, messages + [m]) == Update(t, ViewAfter(t, messages), m)
    ensures ShownAfter(t, messages + [m])
            == Shown(t, ViewAfter(t, messages), ShownAfter(t, messages), ViewAfter(t, messages + [m]))
    ensures AllExpected(t, messages + [m]) <==> AllExpected(t, messages) && Expected(ViewAfter(t, messages), m)
  {
    hide Update, Shown, Expected;
    assert Init(messages + [m]) == messages;
  }

  lemma {:induction false} FourMessages(t: Layout, a: Message, b: Message, c: Message, d: Message)
    ensures var v1 := Update(t, Start(), a);
            var v2 := Update(t, v1, b);
            var v3 := Update(t, v2, c);
            var v4 := Update(t, v3, d);
            && ViewAfter(t, [a, b, c, d]) == v4
            && ShownAfter(t, [a, b, c, d])
               == Shown(t, v3, Shown(t, v2, Shown(t, v1, Shown(t, Start(), {}, v1), v2), v3), v4)
            && (AllExpected(t, [a, b, c, d])
                <==> Expected(Start(), a) && Expected(v1, b) && Expected(v2, c) && Expected(v3, d))
  {
    assert ViewAfter(t, []) == Start() && ShownAfter(t, []) == {} && AllExpected(t, []);
    hide Update, Shown, Expected, ViewAfter, ShownAfter, AllExpected;
    OneMore(t, [], a);
    OneMore(t, [a], b);
    OneMore(t, [a, b], c);
    OneMore(t, [a, b, c], d);
    assert [] + [a] == [a] && [a] + [b] == [a, b] && [a, b] + [c] == [a, b, c] && [a, b, c] + [d] == [a, b, c, d];
  }

  function HeadOnly(a: Approval, height: int, off: int, seen: int): View {
    Start().(approvals := [a], height := height, off := off, seen := seen)
  }

  /** What is on screen of a long text at the head. */
  lemma {:induction false} LongWindow(a: Approval, height: int, off: int, seen: int)
    requires 3 <= height <= 102 && 0 <= off
    ensures var v := HeadOnly(a, height, off, seen);
            && Total(LONG, v) == 100 && Rows(LONG, v) == height - 2 && Top(LONG, v) == Min(off, 102 - height)
            && Window(LONG, v) == Range(Min(off, 102 - height), Min(off, 102 - height) + height - 2)
  {}

  lemma {:induction false} FirstRequest(a: Approval)
    ensures Update(LONG, Start(), Request(a)) == HeadOnly(a, 24, 0, 0) && Expected(Start(), Request(a))
    ensures Update(LONG, HeadOnly(a, 24, 0, 0), Press(End)) == HeadOnly(a, 24, 78, 0)
    ensures Shown(LONG, Start(), {}, HeadOnly(a, 24, 0, 0)) == Range(0, 22)
  {
    hide Range;
    assert [] + [a] == [a];
    LongWindow(a, 24, 0, 0);
  }

  lemma {:induction false} NewHeight(a: Approval, before: int, off: int, seen: int, height: int)
    ensures Update(LONG, HeadOnly(a, before, off, seen), Resize(80, height)) == HeadOnly(a, height, off, seen)
  {}

  lemma {:induction false} SameHead(a: Approval, shown: set<int>, h: int, o: int, s: int, height: int, off: int,
                                    seen: int)
    requires 3 <= height <= 102 && 0 <= off
    ensures var top := Min(off, 102 - height);
            Shown(LONG, HeadOnly(a, h, o, s), shown, HeadOnly(a, height, off, seen))
                == shown + Range(top, top + height - 2)
  {
    LongWindow(a, height, off, seen);
    hide Window;
  }

  /** In this run the head counts as fully seen, and is approved, with lines 22 to 39 never on screen. */
  lemma {:induction false} UnshownLinesExample(a: Approval)
    ensures LONG.NeverEmpty() && AllExpected(LONG, GrowingRun(a))
    ensures var v := ViewAfter(LONG, GrowingRun(a));
            && FullySeen(LONG, v) && Update(LONG, v, Press(Approve)).answers == [Answer(a.reply, true)]
            && Total(LONG, v) == 100 && forall line | 22 <= line < 40 :: line !in ShownAfter(LONG, GrowingRun(a))
  {
    hide Range;
    FourMessages(LONG, Request(a), Press(End), Resize(80, 62), Press(End));
    FirstRequest(a);
    NewHeight(a, 24, 78, 0, 62);
    EndAfterGrowth(a);
    SameHead(a, Range(0, 22), 24, 0, 0, 24, 78, 0);
    SameHead(a, Range(0, 22) + Range(78, 100), 24, 78, 0, 62, 78, 0);
    SameHead(a, Range(0, 22) + Range(78, 100) + Range(40, 100), 62, 78, 0, 62, 40, 100);
    hide Update, Shown, ViewAfter, ShownAfter, AllExpected, HeadOnly, FullySeen, Total;
  }

  lemma {:induction false} EndAfterGrowth(a: Approval)
    ensures Update(LONG, HeadOnly(a, 62, 78, 0), Press(End)) == HeadOnly(a, 62, 40, 100)
    ensures var v := HeadOnly(a, 62, 40, 100);
            && FullySeen(LONG, v) && Total(LONG, v) == 100
            && Update(LONG, v, Press(Approve)).answers == [Answer(a.reply, true)]
  {
    LongWindow(a, 62, 78, 0);
    LongWindow(a, 62, 40, 100);
  }

  /** The guard is not necessary over runs: here growth fails it, but everything it credits was shown before. */
  lemma {:induction false} HarmlessNotNeededExample(a: Approval)
    ensures var messages := [Request(a), Resize(80, 34), Resize(80, 24), Press(End)];
            var v, shown := ViewAfter(LONG, messages), ShownAfter(LONG, messages);
            && AllExpected(LONG, messages) && v.width == 80
            && !Harmless(LONG, v, 28) && CreditsShown(LONG, v, shown, Resize(80, 28))
  {
    hide Range;
    FourMessages(LONG, Request(a), Resize(80, 34), Resize(80, 24), Press(End));
    FirstRequest(a);
    NewHeight(a, 24, 0, 0, 34);
    NewHeight(a, 34, 0, 0, 24);
    SameHead(a, Range(0, 22), 24, 0, 0, 34, 0, 0);
    SameHead(a, Range(0, 22) + Range(0, 32), 34, 0, 0, 24, 0, 0);
    SameHead(a, Range(0, 22) + Range(0, 32) + Range(0, 22), 24, 0, 0, 24, 78, 0);
    GrowthFailsGuard(a, Range(0, 22) + Range(0, 32) + Range(0, 22) + Range(78, 100));
    hide Update, Shown, ViewAfter, ShownAfter, AllExpected, Harmless, CreditsShown;
  }

  lemma {:induction false} GrowthFailsGuard(a: Approval, shown: set<int>)
    requires Range(0, 32) <= shown
    ensures var v := HeadOnly(a, 24, 78, 0); !Harmless(LONG, v, 28) && CreditsShown(LONG, v, shown, Resize(80, 28))
  {
    hide Range;
    LongWindow(a, 24, 78, 0);
    LongWindow(a, 28, 78, 0);
    var v := HeadOnly(a, 24, 78, 0);
    assert v.(height := 28) == HeadOnly(a, 28, 78, 0);
  }
}
