/** A session read as a ledger of what its caller asked for (internal/session/store.go). */
module SessionLedger {
  import opened Basics
  import opened SessionLog
  import opened Sessions

  /**
   * The appends whose whole line reached the disk, whether a partial line stands behind them and the handle knows of
   * it, whether the handle took the last of them for failed, whether it is open, and the summary saved last.
   */
  datatype Ledger = Ledger(
    appended: seq<Op>,
    torn: bool,
    known: bool,
    behind: bool,
    open: bool,
    saved: Option<Summary>)

  const BLANK := Ledger([], false, false, false, true, None)

  function Booked(op: Op, number: int): Event
    requires op.Append?
  {
    Event(number, op.kind, op.payload, op.tokens, op.source, op.time)
  }

  predicate OnlyAppended(ops: seq<Op>) {
    forall op | op in ops :: op.Append?
  }

  /** The appends as events, numbered from 1. */
  function Events(appended: seq<Op>): (r: seq<Event>)
    requires OnlyAppended(appended)
    ensures |r| == |appended|
  {
    seq(|appended|, i requires 0 <= i < |appended| => Booked(appended[i], i + 1))
  }

  /** How many bytes of a line of `size` bytes reach the disk. */
  function Reaching(io: AppendIo, size: nat): nat {
    match io
    case EncodeFails => 0
    case OpenFails => 0
    case WriteCut(n) => Min(n, size)
    case _ => size
  }

  function Number(l: Ledger): nat {
    if l.behind then |l.appended| else |l.appended| + 1
  }

  function BookAppend(codec: Codec, l: Ledger, op: Op): Ledger
    requires op.Append?
  {
    var size := |codec.encode(Booked(op, Number(l)))| + 1;
    var reaching := Reaching(op.io, size);
    if !l.open || l.known || op.kind == "" then l
    else if reaching == size then
      l.(appended := l.appended + [op], behind := l.behind || op.io.WriteCut? || op.io.SyncFails? || op.io.CloseFails?)
    else l.(torn := l.torn || reaching > 0)
  }

  function Book(codec: Codec, l: Ledger, op: Op): Ledger {
    match op
    case Append(_, _, _, _, _, _) => BookAppend(codec, l, op)
    case Read(ok) => if ok then l.(known := l.torn, behind := false) else l
    case Save(summary, ok) => if l.open && ok then l.(saved := Some(summary)) else l
    case Close(status, ok) => if ok && (status == "clean" || status == "aborted") then l.(open := false) else l
    case Resume(ok) => if ok then l.(open := true, known := l.torn, behind := false) else l.(open := false)
  }

  function BookAll(codec: Codec, l: Ledger, ops: seq<Op>): Ledger
    decreases |ops|
  {
    if ops == [] then l else BookAll(codec, Book(codec, l, ops[0]), ops[1..])
  }

  /** Two summaries that say the same and may stand at different events. */
  predicate SameWork(a: Summary, b: Summary) {
    a == b.(lastEventSeq := a.lastEventSeq)
  }

  function SavedOf(l: Ledger): Summary {
    if l.saved.Some? then l.saved.value else EMPTY_SUMMARY
  }

  /** The ledger is right about the files and the handle. */
  predicate Right(l: Ledger, s: Store, h: History) {
    && OnlyAppended(l.appended) && h.events == Events(l.appended)
    && (l.torn <==> h.fragment != [])
    && (l.known <==> s.trailing)
    && s.lastSeq == |l.appended| - (if l.behind then 1 else 0)
    && (l.open <==> !s.closed)
    && SameWork(s.summary, SavedOf(l))
  }

  lemma {:induction false} EventsSnoc(appended: seq<Op>, op: Op)
    requires OnlyAppended(appended) && op.Append?
    ensures OnlyAppended(appended + [op])
    ensures Events(appended + [op]) == Events(appended) + [Booked(op, |appended| + 1)]
  {}

  lemma {:induction false} LineIsLonger(codec: Codec, e: Event, n: nat)
    ensures |codec.Line(e)| == |codec.encode(e)| + 1
    ensures n < |codec.Line(e)| ==> codec.Line(e)[..n] != codec.Line(e)
    ensures codec.Line(e)[..|codec.Line(e)|] == codec.Line(e)
  {
    assert n < |codec.Line(e)| ==> |codec.Line(e)[..n]| == n;
  }

  lemma {:induction false} AppendIsBooked(codec: Codec, l: Ledger, s: Store, h: History, op: Op)
    requires Right(l, s, h) && op.Append? && Allowed(codec, s, h, op)
    requires h.unread || s.lastSeq == |h.events|
    ensures Right(BookAppend(codec, l, op), AppendStore(codec, s, op), Track(codec, s, h, op))
  {
    var e := NextEvent(s, op);
    assert e == Booked(op, Number(l));
    LineIsLonger(codec, e, Reaching(op.io, |codec.encode(e)| + 1));
    EventsSnoc(l.appended, op);
    hide Events;
    if WritesLine(codec, s, op) {
      assert !h.unread && !l.behind;
    }
  }

  /** Every operation keeps the ledger right. */
  lemma {:induction false} OpIsBooked(codec: Codec, l: Ledger, s: Store, h: History, op: Op)
    requires codec.Faithful() && Sound(codec, s, h) && Allowed(codec, s, h, op) && Right(l, s, h)
    ensures Right(Book(codec, l, op), Do(codec, s, op), Track(codec, s, h, op))
  {
    if op.Append? {
      AppendIsBooked(codec, l, s, h, op);
    } else {
      ReadsBack(codec, s, h);
      hide Sound, Events;
    }
  }

  lemma {:induction false} RunIsBooked(codec: Codec, l: Ledger, s: Store, h: History, ops: seq<Op>)
    requires codec.Faithful() && Sound(codec, s, h) && AllAllowed(codec, s, h, ops) && Right(l, s, h)
    ensures Right(BookAll(codec, l, ops), RunStore(codec, s, ops), RunHistory(codec, s, h, ops))
    decreases |ops|
  {
    if ops != [] {
      hide Sound, Right, Do, Track, Book;
      OpKeepsSound(codec, s, h, ops[0]);
      OpIsBooked(codec, l, s, h, ops[0]);
      RunIsBooked(codec, Book(codec, l, ops[0]), Do(codec, s, ops[0]), Track(codec, s, h, ops[0]), ops[1..]);
    }
  }

  lemma {:induction false} BlankIsRight()
    ensures Right(BLANK, FRESH, NOTHING)
  {}

  /** Over any run the log reads back as exactly the appends in the ledger, with all their fields. */
  lemma {:induction false} LogReadsAsTheLedger(codec: Codec, ops: seq<Op>)
    requires codec.Faithful() && AllAllowed(codec, FRESH, NOTHING, ops)
    ensures var l := BookAll(codec, BLANK, ops);
            && OnlyAppended(l.appended)
            && ReadLog(codec, RunStore(codec, FRESH, ops).log, 0) == Some(ReadResult(Events(l.appended), l.torn))
  {
    hide Sound, Do, Track, Book;
    BlankIsRight();
    FreshIsSound(codec);
    LogSurvivesAnyRun(codec, ops, []);
    RunIsBooked(codec, BLANK, FRESH, NOTHING, ops);
  }

  /** Over any run the stored summary is the one saved last, but for the cursor; empty when none was. */
  lemma {:induction false} SummaryIsTheLastSaved(codec: Codec, ops: seq<Op>)
    requires codec.Faithful() && AllAllowed(codec, FRESH, NOTHING, ops)
    ensures SameWork(RunStore(codec, FRESH, ops).summary, SavedOf(BookAll(codec, BLANK, ops)))
  {
    hide Sound, Do, Track, Book;
    BlankIsRight();
    FreshIsSound(codec);
    RunIsBooked(codec, BLANK, FRESH, NOTHING, ops);
  }

  lemma {:induction false} AnswerIsBooked(codec: Codec, l: Ledger, s: Store, h: History, op: Op)
    requires Right(l, s, h) && op.Append? && Allowed(codec, s, h, op) && (h.unread || s.lastSeq == |h.events|)
    ensures var answer := AppendAnswer(s, op);
            answer.Ok? ==> && BookAppend(codec, l, op).appended == l.appended + [op]
                           && answer.value == Booked(op, |l.appended| + 1)
  {
    hide Events;
    if AppendAnswer(s, op).Ok? {
      assert WritesLine(codec, s, op) && !h.unread;
    }
  }

  lemma {:induction false} SoundCount(codec: Codec, s: Store, h: History)
    requires Sound(codec, s, h)
    ensures h.unread || s.lastSeq == |h.events|
  {}

  lemma {:induction false} RightHandle(l: Ledger, s: Store, h: History)
    requires Right(l, s, h)
    ensures OnlyAppended(l.appended) && (l.known <==> s.trailing) && (l.open <==> !s.closed)
  {}

  /** What an append answers, after any run: each refusal has its reason, and success means an event in the log. */
  lemma {:induction false} AnswerTellsTheLedger(codec: Codec, ops: seq<Op>, op: Op)
    requires codec.Faithful() && AllAllowed(codec, FRESH, NOTHING, ops) && op.Append?
    requires Allowed(codec, RunStore(codec, FRESH, ops), RunHistory(codec, FRESH, NOTHING, ops), op)
    ensures var l, answer := BookAll(codec, BLANK, ops), AppendAnswer(RunStore(codec, FRESH, ops), op);
            && (answer == Err(Closed) <==> !l.open)
            && (answer == Err(EventLogTail) <==> l.open && l.known)
            && (answer == Err(InvalidArgument) <==> l.open && !l.known && (op.kind == "" || op.io.EncodeFails?))
            && (answer.Ok? <==> l.open && !l.known && op.kind != "" && op.io.Completes?)
            && (answer.Ok? ==> && BookAppend(codec, l, op).appended == l.appended + [op]
                               && answer.value == Booked(op, |l.appended| + 1))
            && (answer.Err? ==> answer.error in {Closed, EventLogTail, InvalidArgument, Storage})
  {
    hide Sound, Right, Do, Track, Book, BookAppend, Booked, NextEvent, Allowed;
    BlankIsRight();
    FreshIsSound(codec);
    RunIsBooked(codec, BLANK, FRESH, NOTHING, ops);
    RunKeepsSound(codec, FRESH, NOTHING, ops);
    var s, h, l := RunStore(codec, FRESH, ops), RunHistory(codec, FRESH, NOTHING, ops), BookAll(codec, BLANK, ops);
    hide BookAll, RunStore, RunHistory, AllAllowed;
    SoundCount(codec, s, h);
    RightHandle(l, s, h);
    AnswerIsBooked(codec, l, s, h, op);
  }
}
