/** The approval queue and its scrolling modal, with the run states around it (internal/tui/tui.go). */
module Modal {
  import opened Basics

  datatype Prompt = Prompt(command: string, reason: string)

  /** An approval waiting for an answer on its own reply channel. */
  datatype Approval = Approval(prompt: Prompt, reply: nat)

  /** The text layout: lines of a wrapped prompt, and rows of the modal's short and long title and key lines. */
  datatype Layout = Layout(lines: (Prompt, int) -> int, shortRows: int -> int, longRows: int -> int) {
    ghost predicate NeverEmpty() {
      forall p: Prompt, width: int :: lines(p, width) >= 1
    }
  }

  datatype RunState = Idle | Running | Cancelling

  datatype Key = Approve | Deny | Up | Down | PageUp | PageDown | Home | End | CtrlC | Enter(empty: bool) | OtherKey

  datatype Message =
    | Resize(width: int, height: int)
    | Press(key: Key)
    | Request(approval: Approval)
    | Withdraw(reply: nat)
    | RunDone
    | OtherMessage

  datatype Answer = Answer(reply: nat, approved: bool)

  datatype View = View(
    width: int,
    height: int,
    approvals: seq<Approval>,
    off: int,
    seen: int,
    run: RunState,
    quitOnDone: bool,
    answers: seq<Answer>,
    quit: bool)

  function Start(): View {
    View(80, 24, [], 0, 0, Idle, false, [], false)
  }

  // ----- Geometry

  function Total(t: Layout, v: View): int
    requires v.approvals != []
  {
    t.lines(v.approvals[0].prompt, Max(v.width, 1))
  }

  /** Rows left for the text: the transcript and the input keep one each. */
  function Body(t: Layout, width: int, height: int, total: int): int {
    var w, room := Max(width, 1), height - 1 - 1;
    if total <= room - t.shortRows(w) then total else Max(Min(total, room - t.longRows(w)), 1)
  }

  function Rows(t: Layout, v: View): int
    requires v.approvals != []
  {
    Body(t, v.width, v.height, Total(t, v))
  }

  function MaxOff(t: Layout, v: View): int
    requires v.approvals != []
  {
    Max(Total(t, v) - Rows(t, v), 0)
  }

  /** The first line on screen. */
  function Top(t: Layout, v: View): int
    requires v.approvals != []
  {
    Max(Min(v.off, MaxOff(t, v)), 0)
  }

  /** How many lines, from the first, count as read. */
  function Credited(t: Layout, v: View): int
    requires v.approvals != []
  {
    Max(v.seen, Rows(t, v))
  }

  predicate FullySeen(t: Layout, v: View) {
    v.approvals != [] && Credited(t, v) >= Total(t, v)
  }

  // ----- Messages

  function AnswerHead(v: View, approved: bool): View {
    if v.approvals == [] then v
    else
      v.(approvals := v.approvals[1..], off := 0, seen := 0,
         answers := v.answers + [Answer(v.approvals[0].reply, approved)])
  }

  function DenyAll(v: View): View
    decreases |v.approvals|
  {
    if v.approvals == [] then v else DenyAll(AnswerHead(v, false))
  }

  function IndexOf(approvals: seq<Approval>, reply: nat): nat {
    if approvals == [] || approvals[0].reply == reply then 0 else 1 + IndexOf(approvals[1..], reply)
  }

  function Drop(v: View, reply: nat): View {
    var i := IndexOf(v.approvals, reply);
    if i >= |v.approvals| then v
    else
      v.(approvals := v.approvals[..i] + v.approvals[i + 1..],
         off := if i == 0 then 0 else v.off,
         seen := if i == 0 then 0 else v.seen)
  }

  function Target(t: Layout, v: View, key: Key): int
    requires v.approvals != []
  {
    match key
    case Up => v.off - 1
    case Down => v.off + 1
    case PageUp => v.off - Rows(t, v)
    case PageDown => v.off + Rows(t, v)
    case Home => 0
    case End => Total(t, v)
    case _ => v.off
  }

  predicate Scrolls(key: Key) {
    key.Up? || key.Down? || key.PageUp? || key.PageDown? || key.Home? || key.End?
  }

  /** Reading progress grows only through windows that touch what was read before. */
  function Scroll(t: Layout, v: View, key: Key): View
    requires v.approvals != []
  {
    var off := Max(Min(Target(t, v, key), MaxOff(t, v)), 0);
    var seen := Credited(t, v);
    v.(off := off, seen := if off <= seen then Max(seen, off + Rows(t, v)) else v.seen)
  }

  function Interrupt(v: View): View {
    var free := DenyAll(v);
    match v.run
    case Running => free.(run := Cancelling)
    case Cancelling => free.(quitOnDone := true)
    case Idle => free.(quit := true)
  }

  function PressKey(t: Layout, v: View, key: Key): View {
    if key.CtrlC? then Interrupt(v)
    else if v.approvals != [] then
      if key.Approve? then if FullySeen(t, v) then AnswerHead(v, true) else v
      else if key.Deny? then AnswerHead(v, false)
      else if Scrolls(key) then Scroll(t, v, key)
      else v
    else if key.Enter? && !key.empty && v.run == Idle then v.(run := Running)
    else v
  }

  function Update(t: Layout, v: View, m: Message): View {
    match m
    case Resize(width, height) =>
      var reset := width != v.width && v.approvals != [];
      v.(off := if reset then 0 else v.off, seen := if reset then 0 else v.seen, width := width, height := height)
    case Press(key) => PressKey(t, v, key)
    case Request(approval) => v.(approvals := v.approvals + [approval])
    case Withdraw(reply) => Drop(v, reply)
    case RunDone => DenyAll(v).(run := Idle, quit := v.quit || v.quitOnDone)
    case OtherMessage => v
  }

  // ----- The model itself

  class Model {
    const t: Layout
    var width: int
    var height: int
    var approvals: seq<Approval>
    var modalOff: int
    var modalSeen: int
    var run: RunState
    var quitOnDone: bool
    var answers: seq<Answer>
    var quit: bool

    ghost function Now(): View
      reads this
    {
      View(width, height, approvals, modalOff, modalSeen, run, quitOnDone, answers, quit)
    }

    constructor (t: Layout)
      ensures Now() == Start() && this.t == t
    {
      this.t := t;
      width, height, approvals, modalOff, modalSeen := 80, 24, [], 0, 0;
      run, quitOnDone, answers, quit := Idle, false, [], false;
    }

    method AnswerApproval(ok: bool)
      modifies this
      ensures Now() == AnswerHead(old(Now()), ok)
    {
      if |approvals| == 0 {
        return;
      }
      var head := approvals[0];
      approvals := approvals[1..];
      modalOff, modalSeen := 0, 0;
      answers := answers + [Answer(head.reply, ok)];
    }

    method DenyEverything()
      modifies this
      ensures Now() == DenyAll(old(Now()))
    {
      while |approvals| > 0
        invariant DenyAll(Now()) == DenyAll(old(Now()))
        decreases |approvals|
      {
        AnswerApproval(false);
      }
    }

    method DropApproval(reply: nat)
      modifies this
      ensures Now() == Drop(old(Now()), reply)
    {
      for i := 0 to |approvals|
        invariant Now() == old(Now())
        invariant IndexOf(approvals, reply) == i + IndexOf(approvals[i..], reply)
      {
        assert approvals[i..][1..] == approvals[i + 1..];
        if approvals[i].reply == reply {
          approvals := approvals[..i] + approvals[i + 1..];
          if i == 0 {
            modalOff, modalSeen := 0, 0;
          }
          return;
        }
      }
    }

    method ScrollModal(key: Key)
      requires Scrolls(key)
      modifies this`modalOff, this`modalSeen
      ensures Now() == if old(approvals) == [] then old(Now()) else Scroll(t, old(Now()), key)
    {
      hide Body;
      if |approvals| == 0 {
        return;
      }
      var total := t.lines(approvals[0].prompt, Max(width, 1));
      var body := Body(t, width, height, total);
      var off := modalOff;
      match key {
        case Up => off := off - 1;
        case Down => off := off + 1;
        case PageUp => off := off - body;
        case PageDown => off := off + body;
        case Home => off := 0;
        case End => off := total;
      }
      assert off == Target(t, old(Now()), key);
      hide Target;
      modalOff := Max(Min(off, Max(total - body, 0)), 0);
      var seen := Max(modalSeen, body);
      if modalOff <= seen {
        modalSeen := Max(seen, modalOff + body);
      }
    }

    method HandleCtrlC()
      modifies this
      ensures Now() == Interrupt(old(Now()))
    {
      hide DenyAll;
      DenyKeepsRun(Now());
      DenyEverything();
      match run {
        case Running => run := Cancelling;
        case Cancelling => quitOnDone := true;
        case Idle => quit := true;
      }
    }

    method FinishRun()
      modifies this
      ensures Now() == Update(t, old(Now()), RunDone)
    {
      hide DenyAll;
      DenyKeepsRun(Now());
      DenyEverything();
      run := Idle;
      if quitOnDone {
        quit := true;
      }
    }

    method HandleMessage(m: Message)
      modifies this
      ensures Now() == Update(t, old(Now()), m)
    {
      hide DenyAll, Drop, Scroll, AnswerHead, Interrupt;
      match m {
        case Resize(w, h) =>
          if w != width && |approvals| > 0 {
            modalOff, modalSeen := 0, 0;
          }
          width, height := w, h;
        case Press(key) =>
          if key.CtrlC? {
            HandleCtrlC();
          } else if |approvals| > 0 {
            if key.Approve? {
              var total := t.lines(approvals[0].prompt, Max(width, 1));
              if Max(modalSeen, Body(t, width, height, total)) >= total {
                AnswerApproval(true);
              }
            } else if key.Deny? {
              AnswerApproval(false);
            } else if Scrolls(key) {
              ScrollModal(key);
            }
          } else if key.Enter? {
            if run == Idle && !key.empty {
              run := Running;
            }
          }
        case Request(approval) => approvals := approvals + [approval];
        case Withdraw(reply) => DropApproval(reply);
        case RunDone => FinishRun();
        case OtherMessage =>
      }
    }
  }

  lemma {:induction false} DenyKeepsRun(v: View)
    ensures var d := DenyAll(v);
            && d.run == v.run && d.quit == v.quit && d.quitOnDone == v.quitOnDone
            && d.width == v.width && d.height == v.height
            && d.approvals == [] && (v.approvals == [] ==> d == v) && (v.approvals != [] ==> d.off == d.seen == 0)
    decreases |v.approvals|
  {
    if v.approvals != [] {
      DenyKeepsRun(AnswerHead(v, false));
    }
  }
}
