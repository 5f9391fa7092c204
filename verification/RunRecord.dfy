/** What a run leaves in the session's event log (internal/agent/runtime.go with internal/session/store.go). */
module RunRecord {
  import opened Basics
  import opened SessionLog
  import opened Sessions
  import opened SessionFailures
  import opened RunModel
  import opened RunSpec
  import opened RunLaws
  import opened RunTrace

  function KindOf(l: Logged): (kind: string)
    ensures kind != ""
  {
    match l
    case AssistantText(_) => "assistant_text"
    case ToolCallRecorded(_, _) => "tool_call"
    case ToolResultRecorded(_, _) => "tool_result"
  }

  /** How the entries are written: the payload's encoding, the time and the storage's answer for each append. */
  datatype Recorder = Recorder(payload: Logged -> seq<byte>, source: string, time: nat -> int, io: nat -> AppendIo)

  /** The append calls for a list of entries. */
  function Appends(r: Recorder, image: seq<Logged>): (ops: seq<Op>)
    ensures OnlyAppends(ops) && |ops| == |image|
  {
    seq(|image|, k requires 0 <= k < |image| =>
      Append(KindOf(image[k]), r.payload(image[k]), 0, r.source, r.time(k), r.io(k)))
  }

  /** The entries as events of the log, numbered on from `count`. */
  function Recorded(r: Recorder, image: seq<Logged>, count: nat): seq<Event> {
    seq(|image|, k requires 0 <= k < |image| =>
      Event(count + k + 1, KindOf(image[k]), r.payload(image[k]), 0, r.source, r.time(k)))
  }

  function Entries(arrivals: seq<Arrival>): seq<Logged> {
    if FindAck(arrivals).Acked? then LogImage(RunEvents(arrivals)) else []
  }

  predicate Succeeds(codec: Codec, s: Store, ops: seq<Op>, k: nat)
    requires OnlyAppends(ops) && k < |ops|
  {
    AppendAnswer(StoreAt(codec, s, ops, k), ops[k]).Ok?
  }

  /** The failures the run sees are those of its appends to this log. */
  ghost predicate WritesTo(codec: Codec, s: Store, w: World, r: Recorder, arrivals: seq<Arrival>) {
    var ops := Appends(r, Entries(arrivals));
    forall k | 0 <= k < |ops| :: w.appendFails(k) <==> !Succeeds(codec, s, ops, k)
  }

  // ----- Appends that all succeed

  lemma {:induction false} SuccessIsWritten(codec: Codec, s: Store, op: Op, events: seq<Event>)
    requires codec.Faithful() && Whole(codec, s, events) && op.Append? && AppendAnswer(s, op).Ok?
    ensures Whole(codec, AppendStore(codec, s, op), events + [NextEvent(s, op)])
  {
    assert op.io.Completes? && !Refused(s, op);
    assert WritesLine(codec, s, op) && !LeavesBytes(codec, s, op);
    FirstAppend(codec, s, op, events);
  }

  /** The first n appends succeeded, so the log holds their events. */
  lemma {:induction false} AppendedSoFar(codec: Codec, s: Store, r: Recorder, image: seq<Logged>,
                                         events: seq<Event>, n: nat)
    requires codec.Faithful() && Whole(codec, s, events) && n <= |image|
    requires forall k | 0 <= k < n :: Succeeds(codec, s, Appends(r, image), k)
    ensures Whole(codec, StoreAt(codec, s, Appends(r, image), n), events + Recorded(r, image, |events|)[..n])
    decreases n
  {
    var ops := Appends(r, image);
    if n == 0 {
      assert ops[..0] == [] && events + Recorded(r, image, |events|)[..0] == events;
    } else {
      AppendedSoFar(codec, s, r, image, events, n - 1);
      StoreAtNext(codec, s, ops, n - 1);
      assert Succeeds(codec, s, ops, n - 1);
      NextIsRecorded(codec, StoreAt(codec, s, ops, n - 1), r, image, events, n - 1);
      hide Appends, Recorded, StoreAt, Whole, AppendStore;
      var before := Recorded(r, image, |events|)[..n - 1];
      SuccessIsWritten(codec, StoreAt(codec, s, ops, n - 1), ops[n - 1], events + before);
    }
  }

  lemma {:induction false} StoreAtNext(codec: Codec, s: Store, ops: seq<Op>, k: nat)
    requires OnlyAppends(ops) && k < |ops|
    ensures StoreAt(codec, s, ops, k + 1) == AppendStore(codec, StoreAt(codec, s, ops, k), ops[k])
    decreases k
  {
    assert ops[k] in ops;
    if k == 0 {
      assert ops[..1] == [ops[0]] && ops[..0] == [] && [ops[0]][1..] == [];
      assert RunStore(codec, s, [ops[0]]) == RunStore(codec, Do(codec, s, ops[0]), []);
    } else {
      AfterFirst(codec, s, ops, k);
      assert StoreAt(codec, s, ops, k + 1) == StoreAt(codec, AppendStore(codec, s, ops[0]), ops[1..], k) by {
        assert ops[..k + 1][0] == ops[0] && ops[..k + 1][1..] == ops[1..][..k] && ops[0] in ops;
      }
      StoreAtNext(codec, AppendStore(codec, s, ops[0]), ops[1..], k - 1);
    }
  }

  lemma {:induction false} NextIsRecorded(codec: Codec, s: Store, r: Recorder, image: seq<Logged>,
                                          events: seq<Event>, k: nat)
    requires k < |image| && Whole(codec, s, events + Recorded(r, image, |events|)[..k])
    ensures Appends(r, image)[k].Append?
    ensures var recorded := Recorded(r, image, |events|);
            events + recorded[..k] + [NextEvent(s, Appends(r, image)[k])] == events + recorded[..k + 1]
  {
    var recorded := Recorded(r, image, |events|);
    assert NextEvent(s, Appends(r, image)[k]) == recorded[k];
    assert recorded[..k + 1] == recorded[..k] + [recorded[k]];
  }

  // ----- The run and its record

  lemma {:induction false} NoneFail(fails: nat -> bool, n: nat)
    requires Failing(fails, n) == 0
    ensures forall k | 0 <= k < n :: !fails(k)
    decreases n
  {
    if n > 0 {
      NoneFail(fails, n - 1);
    }
  }

  lemma {:induction false} SomeFail(fails: nat -> bool, n: nat, k: nat)
    requires k < n && fails(k)
    ensures Failing(fails, n) > 0
    decreases n
  {
    if k < n - 1 {
      SomeFail(fails, n - 1, k);
    }
  }

  /**
   * A run that is reported completed has left a log that reads back as the events that were there before, followed
   * by exactly one event for every entry of the run, in order and numbered on.
   */
  lemma {:induction false} CompletedRunIsRecorded(codec: Codec, s: Store, events: seq<Event>, w: World, r: Recorder,
                                                  arrivals: seq<Arrival>)
    requires codec.Faithful() && Whole(codec, s, events) && WritesTo(codec, s, w, r, arrivals)
    requires OnePass(w, arrivals).report.status == Completed
    ensures var after := RunStore(codec, s, Appends(r, Entries(arrivals)));
            ReadLog(codec, after.log, 0) == Some(ReadResult(events + Recorded(r, Entries(arrivals), |events|), false))
  {
    CompletedIffClean(w, arrivals);
    var image := Entries(arrivals);
    var ops, recorded := Appends(r, image), Recorded(r, image, |events|);
    NoneFail(w.appendFails, |image|);
    hide OnePass, CleanRun, Entries, Appends, Recorded;
    AppendedSoFar(codec, s, r, image, events, |image|);
    assert ops[..|image|] == ops && recorded[..|image|] == recorded;
    assert LogBytes(codec, events + recorded) + [] == LogBytes(codec, events + recorded);
    ReadBack(codec, events + recorded, [], 0);
  }

  /** A launched run one of whose entries could not be appended is reported failed, with an error. */
  lemma {:induction false} UnrecordedRunFails(codec: Codec, s: Store, w: World, r: Recorder,
                                              arrivals: seq<Arrival>, k: nat)
    requires Launched(w, arrivals) && WritesTo(codec, s, w, r, arrivals) && k < |Entries(arrivals)|
    requires !Succeeds(codec, s, Appends(r, Entries(arrivals)), k)
    ensures OnePass(w, arrivals).report.status == Failed && OnePass(w, arrivals).error.Some?
  {
    SomeFail(w.appendFails, |Entries(arrivals)|, k);
    hide Appends, Succeeds;
    RunIsImageOfEvents(w, arrivals);
    EveryExitIsConsistent(w, arrivals);
    var v := Drive(w, START, Without(arrivals, FindAck(arrivals).at)).0;
    hide Drive, FindAck, OnePass;
    ConcludedFailed(w, v, EndOf(Without(arrivals, FindAck(arrivals).at)));
  }

  lemma {:induction false} ConcludedFailed(w: World, v: RunView, end: End)
    requires v.appendFails > 0
    ensures Conclude(w, v, end).report.status == Failed
  {
    FinishStatus(w, v, SettleStatus(v), SettleError(v));
    FinishStatus(w, v, Incomplete, Some(NoTerminal));
    FinishStatus(w, v, Incomplete, None);
    FinishStatus(w, v, Failed, Some(RunTimedOut));
    FinishStatus(w, v, Failed, Some(ExitError(w, v)));
    hide Finish;
  }

  // ----- What the log of a completed run says

  /** The payloads of the events of one kind, in order. */
  function PayloadsOf(events: seq<Event>, kind: string): seq<seq<byte>> {
    if events == [] then []
    else PayloadsOf(Init(events), kind) + if Last(events).kind == kind then [Last(events).payload] else []
  }

  lemma {:induction false} RecordedLast(r: Recorder, image: seq<Logged>, count: nat)
    requires image != []
    ensures var recorded := Recorded(r, image, count);
            && recorded != [] && Init(recorded) == Recorded(r, Init(image), count)
            && Last(recorded).kind == KindOf(Last(image)) && Last(recorded).payload == r.payload(Last(image))
  {}

  lemma {:induction false} PickLast<T>(s: seq<T>, wanted: T -> bool)
    requires s != []
    ensures Pick(s, wanted) == if wanted(Last(s)) then Pick(Init(s), wanted) + [Last(s)] else Pick(Init(s), wanted)
  {}

  lemma {:induction false} PayloadsLast(events: seq<Event>, kind: string)
    requires events != []
    ensures PayloadsOf(events, kind)
            == if Last(events).kind == kind then PayloadsOf(Init(events), kind) + [Last(events).payload]
               else PayloadsOf(Init(events), kind)
  {}

  lemma {:induction false} NothingRecorded(r: Recorder, count: nat, kind: string, wanted: Logged -> bool)
    ensures PayloadsOf(Recorded(r, [], count), kind) == Map(Pick([], wanted), r.payload)
  {}

  lemma {:induction false} RecordedOfKind(r: Recorder, image: seq<Logged>, count: nat, kind: string,
                                          wanted: Logged -> bool)
    requires forall l :: wanted(l) <==> KindOf(l) == kind
    ensures PayloadsOf(Recorded(r, image, count), kind) == Map(Pick(image, wanted), r.payload)
    decreases |image|
  {
    hide *;
    if image == [] {
      NothingRecorded(r, count, kind, wanted);
    } else {
      InitLast(image);
      RecordedOfKind(r, Init(image), count, kind, wanted);
      RecordedLast(r, image, count);
      PayloadsLast(Recorded(r, image, count), kind);
      PickLast(image, wanted);
      MapSnoc(Pick(Init(image), wanted), Last(image), r.payload);
    }
  }

  lemma {:induction false} EveryKind(r: Recorder, image: seq<Logged>, count: nat)
    ensures var recorded := Recorded(r, image, count);
            && PayloadsOf(recorded, "tool_result") == Map(Pick(image, IsResult), r.payload)
            && PayloadsOf(recorded, "tool_call") == Map(Pick(image, IsCall), r.payload)
            && PayloadsOf(recorded, "assistant_text") == Map(Pick(image, IsText), r.payload)
            && forall e | e in recorded :: e.kind in {"tool_result", "tool_call", "assistant_text"}
  {
    hide PayloadsOf, Pick, Map;
    RecordedOfKind(r, image, count, "tool_result", IsResult);
    RecordedOfKind(r, image, count, "tool_call", IsCall);
    RecordedOfKind(r, image, count, "assistant_text", IsText);
  }

  /**
   * After a completed run, what the log has gained is one `tool_result` per tool that ended, one `tool_call` per call
   * the assistant finished writing and one `assistant_text` per delta, each kind in the order of the events.
   */
  lemma {:induction false} CompletedRunTellsTheEvents(codec: Codec, s: Store, events: seq<Event>, w: World,
                                                      r: Recorder, arrivals: seq<Arrival>)
    requires codec.Faithful() && Whole(codec, s, events) && WritesTo(codec, s, w, r, arrivals)
    requires OnePass(w, arrivals).report.status == Completed
    ensures FindAck(arrivals).Acked?
    ensures var log := ReadLog(codec, RunStore(codec, s, Appends(r, Entries(arrivals))).log, 0);
            && log.Some? && !log.value.trailingFragment && events <= log.value.events
            && var gained := log.value.events[|events|..];
               var arrived := RunEvents(arrivals);
            && PayloadsOf(gained, "tool_result") == Map(Map(Pick(arrived, EndsTool), ResultEntry), r.payload)
            && PayloadsOf(gained, "tool_call") == Map(Map(Pick(arrived, EndsCallText), CallEntry), r.payload)
            && PayloadsOf(gained, "assistant_text") == Map(Map(Pick(arrived, SaysText), TextEntry), r.payload)
            && forall e | e in gained :: e.kind in {"tool_result", "tool_call", "assistant_text"}
  {
    CompletedRunIsRecorded(codec, s, events, w, r, arrivals);
    CompletedWasLaunched(w, arrivals);
    EntriesOf(arrivals);
    hide *;
    var image := Entries(arrivals);
    LogTellsTheEvents(RunEvents(arrivals), []);
    EveryKind(r, image, |events|);
    var log := events + Recorded(r, image, |events|);
    assert log[|events|..] == Recorded(r, image, |events|);
  }

  lemma {:induction false} CompletedWasLaunched(w: World, arrivals: seq<Arrival>)
    requires OnePass(w, arrivals).report.status == Completed
    ensures FindAck(arrivals).Acked?
  {
    CompletedIffClean(w, arrivals);
  }

  lemma {:induction false} EntriesOf(arrivals: seq<Arrival>)
    requires FindAck(arrivals).Acked?
    ensures Entries(arrivals) == LogImage(RunEvents(arrivals))
  {}
}
