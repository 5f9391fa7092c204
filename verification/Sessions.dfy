/** The session handle and what its files hold over any run of operations and crashes (internal/session/store.go). */
module Sessions {
  import opened Basics
  import opened SessionLog

  datatype Verification = Verification(command: string, exitCode: int, output: string)

  datatype Status = Completed | Incomplete | Failed

  /** A remaining risk of a report. */
  datatype Risk =
    | OpenCalls(count: nat)
    | DiffNote(text: string)
    | DirtyAtStart
    | SummaryNotSaved
    | EventLogIncomplete(failed: nat)

  /** One entry of a summary's lists; the wording of the entries is not modelled. */
  datatype Note =
    | UserInstruction(text: string)
    | UserDeclined(command: string)
    | ToolFailed(tool: string, text: string)
    | RiskNote(risk: Risk)
    | LogIncomplete(failed: nat)
    | RunEnded(status: Status)
    | WaitingForApproval(command: string)
    | TreatedAsFailed

  datatype Summary = Summary(
    goal: string,
    decisions: seq<Note>,
    modifiedFiles: seq<string>,
    latestDiff: string,
    verifications: seq<Verification>,
    openErrors: seq<Note>,
    pending: seq<Note>,
    lastEventSeq: nat)

  const EMPTY_SUMMARY := Summary("", [], [], "", [], [], [], 0)

  /** How far the storage got with one append: a write can be cut after any number of bytes. */
  datatype AppendIo =
    | EncodeFails
    | OpenFails
    | WriteCut(n: nat)
    | SyncFails
    | CloseFails
    | MetaFails
    | Completes

  /** The two files of a session and the handle that is open on them. */
  datatype Store = Store(log: seq<byte>, summary: Summary, lastSeq: nat, trailing: bool, closed: bool)

  const FRESH := Store([], EMPTY_SUMMARY, 0, false, false)

  datatype Op =
    | Append(kind: string, payload: seq<byte>, tokens: int, source: string, time: int, io: AppendIo)
    | Read(ok: bool)
    | Save(summary: Summary, ok: bool)
    | Close(status: string, ok: bool)
    | Resume(ok: bool)

  function NextEvent(s: Store, op: Op): Event
    requires op.Append?
  {
    Event(s.lastSeq + 1, op.kind, op.payload, op.tokens, op.source, op.time)
  }

  /** The append is turned away before anything is written. */
  predicate Refused(s: Store, op: Op)
    requires op.Append?
  {
    s.closed || s.trailing || op.kind == "" || op.io.EncodeFails? || op.io.OpenFails?
  }

  /** The bytes an append adds to the log. */
  function Written(codec: Codec, s: Store, op: Op): (bytes: seq<byte>)
    requires op.Append?
  {
    var line := codec.Line(NextEvent(s, op));
    if Refused(s, op) then []
    else if op.io.WriteCut? then line[..Min(op.io.n, |line|)]
    else line
  }

  function AppendStore(codec: Codec, s: Store, op: Op): Store
    requires op.Append?
  {
    var acked := !Refused(s, op) && (op.io.MetaFails? || op.io.Completes?);
    s.(log := s.log + Written(codec, s, op), lastSeq := if acked then s.lastSeq + 1 else s.lastSeq)
  }

  function AppendAnswer(s: Store, op: Op): Result<Event, SessionError>
    requires op.Append?
  {
    if s.closed then Err(Closed)
    else if s.trailing then Err(EventLogTail)
    else if op.kind == "" || op.io.EncodeFails? then Err(InvalidArgument)
    else if op.io.Completes? then Ok(NextEvent(s, op))
    else Err(Storage)
  }

  /** The handle after reading the log; a file that cannot be read changes nothing. */
  function ReadStore(codec: Codec, s: Store): Store {
    var r := ReadLog(codec, s.log, 0);
    if r.None? then s else s.(lastSeq := |r.value.events|, trailing := r.value.trailingFragment)
  }

  function SaveStore(s: Store, summary: Summary, ok: bool): Store {
    if s.closed || !ok then s
    else s.(summary := summary.(lastEventSeq := Max(summary.lastEventSeq, s.lastSeq)))
  }

  /** A new handle on the same files; without a readable log there is none. */
  function ResumeStore(codec: Codec, s: Store): Store {
    if ReadLog(codec, s.log, 0).None? then s.(closed := true) else ReadStore(codec, s).(closed := false)
  }

  predicate EndsSession(status: string) {
    status == "clean" || status == "aborted"
  }

  function Do(codec: Codec, s: Store, op: Op): Store {
    match op
    case Append(_, _, _, _, _, _) => AppendStore(codec, s, op)
    case Read(ok) => if ok then ReadStore(codec, s) else s
    case Save(summary, ok) => SaveStore(s, summary, ok)
    case Close(status, ok) => if ok && EndsSession(status) then s.(closed := true) else s
    case Resume(ok) => if ok then ResumeStore(codec, s) else s.(closed := true)
  }

  /** The handle itself. */
  class Session {
    const codec: Codec
    var log: seq<byte>
    var summary: Summary
    var lastSeq: nat
    var trailingEvents: bool
    var closed: bool

    ghost function View(): Store
      reads this
    {
      Store(log, summary, lastSeq, trailingEvents, closed)
    }

    constructor Create(codec: Codec)
      ensures View() == FRESH && this.codec == codec
    {
      this.codec := codec;
      log, summary := [], EMPTY_SUMMARY;
      lastSeq, trailingEvents, closed := 0, false, false;
    }

    /** `openSession`: the handle another process gets on the files as they are. */
    constructor Open(codec: Codec, log: seq<byte>, summary: Summary, result: ReadResult)
      requires ReadLog(codec, log, 0) == Some(result)
      ensures forall s: Store | s.log == log && s.summary == summary :: View() == ResumeStore(codec, s)
      ensures this.codec == codec
    {
      this.codec, this.log, this.summary := codec, log, summary;
      lastSeq, trailingEvents, closed := |result.events|, result.trailingFragment, false;
    }

    method AppendEvent(kind: string, payload: seq<byte>, tokens: int, source: string, time: int, io: AppendIo)
      returns (r: Result<Event, SessionError>)
      modifies this
      ensures var op := Append(kind, payload, tokens, source, time, io);
              View() == AppendStore(codec, old(View()), op) && r == AppendAnswer(old(View()), op)
    {
      if closed {
        return Err(Closed);
      }
      if trailingEvents {
        return Err(EventLogTail);
      }
      if kind == "" || io.EncodeFails? {
        return Err(InvalidArgument);
      }
      var event := Event(lastSeq + 1, kind, payload, tokens, source, time);
      var line := codec.encode(event) + [LF];
      if io.OpenFails? {
        return Err(Storage);
      }
      var written := if io.WriteCut? then Min(io.n, |line|) else |line|;
      log := log + line[..written];
      if io.WriteCut? || io.SyncFails? || io.CloseFails? {
        return Err(Storage);
      }
      lastSeq := lastSeq + 1;
      if io.MetaFails? {
        return Err(Storage);
      }
      return Ok(event);
    }

    /** `readable` is false when the file cannot be read. */
    method ReadEvents(readable: bool) returns (r: Result<ReadResult, SessionError>)
      modifies this`lastSeq, this`trailingEvents
      ensures View() == Do(codec, old(View()), Read(readable))
      ensures r.Ok? <==> readable && ReadLog(codec, log, 0).Some?
      ensures r.Ok? ==> Some(r.value) == ReadLog(codec, log, 0)
      ensures r.Err? ==> r.error == Corrupt
    {
      if !readable {
        return Err(Corrupt);
      }
      r := ReadEventsLoop(codec, log);
      if r.Ok? {
        lastSeq, trailingEvents := |r.value.events|, r.value.trailingFragment;
      }
    }

    method SaveSummary(saved: Summary, ok: bool) returns (r: Result<(), SessionError>)
      modifies this`summary
      ensures View() == SaveStore(old(View()), saved, ok)
      ensures r == if closed then Err(Closed) else if ok then Ok(()) else Err(Storage)
    {
      if closed {
        return Err(Closed);
      }
      var cursor := if saved.lastEventSeq < lastSeq then lastSeq else saved.lastEventSeq;
      if !ok {
        return Err(Storage);
      }
      summary := saved.(lastEventSeq := cursor);
      return Ok(());
    }

    /** `ok` is false when the metadata cannot be written or the lock cannot be released. */
    method CloseSession(status: string, ok: bool) returns (r: Result<(), SessionError>)
      modifies this`closed
      ensures View() == Do(codec, old(View()), Close(status, ok))
      ensures r == if old(closed) then Ok(()) else if !EndsSession(status) then Err(InvalidArgument)
                   else if ok then Ok(()) else Err(Storage)
    {
      if closed {
        return Ok(());
      }
      if status != "clean" && status != "aborted" {
        return Err(InvalidArgument);
      }
      if !ok {
        return Err(Storage);
      }
      closed := true;
      return Ok(());
    }
  }

  // ----- What really happened, against what the handle believes

  /** An append that fails but leaves bytes in the log. */
  predicate LeavesBytes(codec: Codec, s: Store, op: Op)
    requires op.Append?
  {
    !op.io.MetaFails? && !op.io.Completes? && Written(codec, s, op) != []
  }

  /** An append that writes its line to the end, reported as a failure or not. */
  predicate WritesLine(codec: Codec, s: Store, op: Op)
    requires op.Append?
  {
    !Refused(s, op) && Written(codec, s, op) == codec.Line(NextEvent(s, op))
  }

  /** The three ways an append can leave the log. */
  lemma {:induction false} WrittenBytes(codec: Codec, s: Store, op: Op)
    requires op.Append?
    ensures AppendStore(codec, s, op).log == s.log + Written(codec, s, op)
    ensures WritesLine(codec, s, op) ==> Written(codec, s, op) == codec.encode(NextEvent(s, op)) + [LF]
    ensures !WritesLine(codec, s, op) ==>
              && AppendStore(codec, s, op).lastSeq == s.lastSeq
              && |Written(codec, s, op)| <= |codec.encode(NextEvent(s, op))|
              && Written(codec, s, op) == codec.encode(NextEvent(s, op))[..|Written(codec, s, op)|]
              && (LeavesBytes(codec, s, op) <==> Written(codec, s, op) != [])
    ensures AppendStore(codec, s, op).lastSeq
            == s.lastSeq + (if WritesLine(codec, s, op) && !LeavesBytes(codec, s, op) then 1 else 0)
  {
    var line := codec.Line(NextEvent(s, op));
    assert line[..|line|] == line;
    if !WritesLine(codec, s, op) && !Refused(s, op) {
      var n := |Written(codec, s, op)|;
      assert n < |line| && line[..n] == codec.encode(NextEvent(s, op))[..n];
    }
  }

  /** What a torn beginning adds to a torn tail. */
  lemma {:induction false} TornLonger(codec: Codec, tail: seq<byte>, e: Event, n: nat)
    requires codec.Torn(tail) && n <= |codec.encode(e)|
    ensures codec.Torn(tail + codec.encode(e)[..n])
  {
    var longer := tail + codec.encode(e)[..n];
    if n > 0 {
      assert longer[..|longer| - n] == tail && longer[|longer| - n..] == codec.encode(e)[..n];
      assert codec.EndsInPiece(longer, e, n);
    } else {
      assert longer == tail;
    }
  }

  /**
   * The complete events on disk, the partial line after them, whether a failed append has left bytes since the log
   * was last read, and the number of complete events when the summary was last saved - and whether the handle missed
   * the last of them, having seen its write fail.
   */
  datatype History = History(events: seq<Event>, fragment: seq<byte>, unread: bool, atSave: nat, saveMissedOne: bool)

  const NOTHING := History([], [], false, 0, false)

  function Track(codec: Codec, s: Store, h: History, op: Op): History {
    match op
    case Append(_, _, _, _, _, io) =>
      var unread := h.unread || LeavesBytes(codec, s, op);
      if WritesLine(codec, s, op) then h.(events := h.events + [NextEvent(s, op)], unread := unread)
      else h.(fragment := h.fragment + Written(codec, s, op), unread := unread)
    case Read(ok) => if ok then h.(unread := false) else h
    case Save(_, ok) =>
      if s.closed || !ok then h else h.(atSave := |h.events|, saveMissedOne := s.lastSeq < |h.events|)
    case Close(_, _) => h
    case Resume(ok) => if ok then h.(unread := false) else h
  }

  /** No line is written while bytes of a failed append are unread, and a summary is saved on top of the last one. */
  predicate Allowed(codec: Codec, s: Store, h: History, op: Op) {
    && (op.Append? && h.unread ==> !WritesLine(codec, s, op))
    && (op.Save? ==> op.summary.lastEventSeq <= s.summary.lastEventSeq)
  }

  ghost predicate Sound(codec: Codec, s: Store, h: History) {
    && s.log == LogBytes(codec, h.events) + h.fragment
    && NumberedFrom(h.events, 0) && LF !in h.fragment && codec.Torn(h.fragment)
    && (!h.unread ==> s.lastSeq == |h.events| && (s.trailing <==> h.fragment != []))
    && (h.unread ==> !s.trailing && |h.events| - 1 <= s.lastSeq <= |h.events|
                     && (h.fragment != [] || s.lastSeq < |h.events|))
    && s.summary.lastEventSeq <= s.lastSeq
    && h.atSave <= |h.events|
    && s.summary.lastEventSeq == h.atSave - (if h.saveMissedOne then 1 else 0)
  }

  lemma {:induction false} ReadsBack(codec: Codec, s: Store, h: History)
    requires codec.Faithful() && Sound(codec, s, h)
    ensures ReadLog(codec, s.log, 0) == Some(ReadResult(h.events, h.fragment != []))
  {
    ReadBack(codec, h.events, h.fragment, 0);
  }

  lemma {:induction false} CutHasNoLf(codec: Codec, e: Event, n: nat)
    requires codec.Faithful() && n <= |codec.encode(e)|
    ensures LF !in codec.encode(e)[..n]
  {
    assert forall b | b in codec.encode(e)[..n] :: b in codec.encode(e);
  }

  lemma {:induction false} AppendKeepsSound(codec: Codec, s: Store, h: History, op: Op)
    requires codec.Faithful() && Sound(codec, s, h) && Allowed(codec, s, h, op) && op.Append?
    ensures Sound(codec, AppendStore(codec, s, op), Track(codec, s, h, op))
  {
    WrittenBytes(codec, s, op);
    RefusedWritesNothing(codec, s, op);
    AppendTouchesTheLog(codec, s, op);
    var e, w := NextEvent(s, op), Written(codec, s, op);
    hide WritesLine, Written, AppendStore, LeavesBytes, Refused;
    if WritesLine(codec, s, op) {
      assert h.fragment == [];
      LogBytesSnoc(codec, h.events, e);
      assert LogBytes(codec, h.events) + [] == LogBytes(codec, h.events);
      assert LogBytes(codec, h.events + [e]) + [] == LogBytes(codec, h.events + [e]);
    } else {
      TornLonger(codec, h.fragment, e, |w|);
      CutHasNoLf(codec, e, |w|);
      assert s.log + w == LogBytes(codec, h.events) + (h.fragment + w);
    }
  }

  lemma {:induction false} AppendTouchesTheLog(codec: Codec, s: Store, op: Op)
    requires op.Append?
    ensures var t := AppendStore(codec, s, op);
            t.summary == s.summary && t.trailing == s.trailing && t.closed == s.closed
  {}

  lemma {:induction false} RefusedWritesNothing(codec: Codec, s: Store, op: Op)
    requires op.Append?
    ensures s.trailing ==> !WritesLine(codec, s, op) && Written(codec, s, op) == []
  {}

  lemma {:induction false} OpKeepsSound(codec: Codec, s: Store, h: History, op: Op)
    requires codec.Faithful() && Sound(codec, s, h) && Allowed(codec, s, h, op)
    ensures Sound(codec, Do(codec, s, op), Track(codec, s, h, op))
    ensures s.log <= Do(codec, s, op).log
    ensures h.events <= Track(codec, s, h, op).events
  {
    if op.Append? {
      WrittenBytes(codec, s, op);
      hide Sound, Written, WritesLine, LeavesBytes;
      AppendKeepsSound(codec, s, h, op);
    } else {
      ReadsBack(codec, s, h);
    }
  }

  // ----- Runs

  function RunStore(codec: Codec, s: Store, ops: seq<Op>): Store
    decreases |ops|
  {
    if ops == [] then s else RunStore(codec, Do(codec, s, ops[0]), ops[1..])
  }

  function RunHistory(codec: Codec, s: Store, h: History, ops: seq<Op>): History
    decreases |ops|
  {
    if ops == [] then h else RunHistory(codec, Do(codec, s, ops[0]), Track(codec, s, h, ops[0]), ops[1..])
  }

  predicate AllAllowed(codec: Codec, s: Store, h: History, ops: seq<Op>)
    decreases |ops|
  {
    ops == [] ||
    (Allowed(codec, s, h, ops[0]) && AllAllowed(codec, Do(codec, s, ops[0]), Track(codec, s, h, ops[0]), ops[1..]))
  }

  lemma {:induction false} RunKeepsSound(codec: Codec, s: Store, h: History, ops: seq<Op>)
    requires codec.Faithful() && Sound(codec, s, h) && AllAllowed(codec, s, h, ops)
    ensures Sound(codec, RunStore(codec, s, ops), RunHistory(codec, s, h, ops))
    ensures s.log <= RunStore(codec, s, ops).log
    ensures h.events <= RunHistory(codec, s, h, ops).events
    decreases |ops|
  {
    if ops != [] {
      hide Sound, Do, Track;
      OpKeepsSound(codec, s, h, ops[0]);
      RunKeepsSound(codec, Do(codec, s, ops[0]), Track(codec, s, h, ops[0]), ops[1..]);
    }
  }

  /**
   * Over any run that starts with a new session: the log only grows, it reads back as exactly the events
   * whose line was written to the end, numbered from 1, and a fragment is reported iff a partial line remains.
   */
  lemma {:induction false} LogSurvivesAnyRun(codec: Codec, ops: seq<Op>, more: seq<Op>)
    requires codec.Faithful() && AllAllowed(codec, FRESH, NOTHING, ops)
    requires AllAllowed(codec, RunStore(codec, FRESH, ops), RunHistory(codec, FRESH, NOTHING, ops), more)
    ensures var s, h := RunStore(codec, FRESH, ops), RunHistory(codec, FRESH, NOTHING, ops);
            && ReadLog(codec, s.log, 0) == Some(ReadResult(h.events, h.fragment != []))
            && NumberedFrom(h.events, 0)
            && s.log <= RunStore(codec, s, more).log
            && h.events <= RunHistory(codec, s, h, more).events
            && ReadStore(codec, s).lastSeq == |h.events|
            && (ReadStore(codec, s).trailing <==> h.fragment != [])
  {
    hide Sound, Do, Track;
    FreshIsSound(codec);
    RunKeepsSound(codec, FRESH, NOTHING, ops);
    var s, h := RunStore(codec, FRESH, ops), RunHistory(codec, FRESH, NOTHING, ops);
    RunKeepsSound(codec, s, h, more);
    ReadsBack(codec, s, h);
    SoundIsNumbered(codec, s, h);
  }

  lemma {:induction false} FreshIsSound(codec: Codec)
    ensures Sound(codec, FRESH, NOTHING)
  {}

  lemma {:induction false} SoundIsNumbered(codec: Codec, s: Store, h: History)
    requires Sound(codec, s, h)
    ensures NumberedFrom(h.events, 0)
    ensures s.summary.lastEventSeq <= |h.events|
    ensures s.summary.lastEventSeq == h.atSave - (if h.saveMissedOne then 1 else 0)
  {}

  /** With a partial line at the end of the log, every append is refused and changes nothing. */
  lemma {:induction false} FragmentRefusesAppends(codec: Codec, ops: seq<Op>, op: Op)
    requires codec.Faithful() && AllAllowed(codec, FRESH, NOTHING, ops) && op.Append?
    requires var h := RunHistory(codec, FRESH, NOTHING, ops); !h.unread && h.fragment != []
    ensures var s := RunStore(codec, FRESH, ops); AppendStore(codec, s, op) == s && AppendAnswer(s, op).Err?
  {
    FreshIsSound(codec);
    RunKeepsSound(codec, FRESH, NOTHING, ops);
    var s := RunStore(codec, FRESH, ops);
    assert s.log + [] == s.log;
  }

  /**
   * The summary's cursor never passes the complete events. It stands at the number of events that were complete
   * when the summary was saved, less the one the handle took for failed, if it saved on top of that.
   */
  lemma {:induction false} CursorGapIsExact(codec: Codec, ops: seq<Op>)
    requires codec.Faithful() && AllAllowed(codec, FRESH, NOTHING, ops)
    ensures var s, h := RunStore(codec, FRESH, ops), RunHistory(codec, FRESH, NOTHING, ops);
            && s.summary.lastEventSeq <= |h.events|
            && s.summary.lastEventSeq == h.atSave - (if h.saveMissedOne then 1 else 0)
  {
    hide Sound, Do, Track;
    FreshIsSound(codec);
    RunKeepsSound(codec, FRESH, NOTHING, ops);
    SoundIsNumbered(codec, RunStore(codec, FRESH, ops), RunHistory(codec, FRESH, NOTHING, ops));
  }
}
