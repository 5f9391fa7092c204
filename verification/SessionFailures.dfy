/** Appending on after a failed append, without reading the log in between (internal/session/store.go). */
module SessionFailures {
  import opened Basics
  import opened SessionLog
  import opened Sessions

  predicate OnlyAppends(ops: seq<Op>) {
    forall op | op in ops :: op.Append?
  }

  function StoreAt(codec: Codec, s: Store, ops: seq<Op>, k: nat): Store
    requires k <= |ops|
  {
    RunStore(codec, s, ops[..k])
  }

  predicate LineAt(codec: Codec, s: Store, ops: seq<Op>, k: nat)
    requires OnlyAppends(ops) && k < |ops|
  {
    WritesLine(codec, StoreAt(codec, s, ops, k), ops[k])
  }

  predicate BytesLeftAt(codec: Codec, s: Store, ops: seq<Op>, k: nat)
    requires OnlyAppends(ops) && k < |ops|
  {
    LeavesBytes(codec, StoreAt(codec, s, ops, k), ops[k])
  }

  /** Some append wrote its whole line after an earlier one had failed and left bytes. */
  predicate Spoiled(codec: Codec, s: Store, ops: seq<Op>)
    requires OnlyAppends(ops)
  {
    exists i, j | 0 <= i < j < |ops| :: BytesLeftAt(codec, s, ops, i) && LineAt(codec, s, ops, j)
  }

  predicate SomeLine(codec: Codec, s: Store, ops: seq<Op>)
    requires OnlyAppends(ops)
  {
    exists j | 0 <= j < |ops| :: LineAt(codec, s, ops, j)
  }

  // ----- The first append of several

  lemma {:induction false} AfterFirst(codec: Codec, s: Store, ops: seq<Op>, k: nat)
    requires OnlyAppends(ops) && ops != [] && k < |ops|
    ensures OnlyAppends(ops[1..])
    ensures var t := AppendStore(codec, s, ops[0]);
            && (k == 0 ==> StoreAt(codec, s, ops, k) == s)
            && (k > 0 ==> StoreAt(codec, s, ops, k) == StoreAt(codec, t, ops[1..], k - 1) && ops[k] == ops[1..][k - 1])
  {
    if k > 0 {
      assert ops[..k][0] == ops[0] && ops[..k][1..] == ops[1..][..k - 1];
      assert ops[0] in ops;
    }
  }

  lemma {:induction false} SomeLineFirst(codec: Codec, s: Store, ops: seq<Op>)
    requires OnlyAppends(ops) && ops != []
    ensures OnlyAppends(ops[1..])
    ensures SomeLine(codec, s, ops)
            <==> WritesLine(codec, s, ops[0]) || SomeLine(codec, AppendStore(codec, s, ops[0]), ops[1..])
  {
    var t := AppendStore(codec, s, ops[0]);
    hide WritesLine, StoreAt, AppendStore;
    forall k | 0 <= k < |ops|
      ensures LineAt(codec, s, ops, k)
              <==> if k == 0 then WritesLine(codec, s, ops[0]) else LineAt(codec, t, ops[1..], k - 1)
    {
      AfterFirst(codec, s, ops, k);
    }
    hide LineAt;
    assert LineAt(codec, s, ops, 0) == WritesLine(codec, s, ops[0]);
    assert forall j | 0 <= j < |ops[1..]| :: LineAt(codec, t, ops[1..], j) == LineAt(codec, s, ops, j + 1);
  }

  lemma {:induction false} SpoiledFirst(codec: Codec, s: Store, ops: seq<Op>)
    requires OnlyAppends(ops) && ops != []
    ensures OnlyAppends(ops[1..])
    ensures var t := AppendStore(codec, s, ops[0]);
            Spoiled(codec, s, ops)
            <==> (LeavesBytes(codec, s, ops[0]) && SomeLine(codec, t, ops[1..])) || Spoiled(codec, t, ops[1..])
  {
    var t, rest := AppendStore(codec, s, ops[0]), ops[1..];
    assert OnlyAppends(rest);
    hide WritesLine, LeavesBytes, StoreAt, AppendStore;
    forall k | 0 <= k < |ops|
      ensures k > 0 ==> (LineAt(codec, s, ops, k) <==> LineAt(codec, t, rest, k - 1))
      ensures BytesLeftAt(codec, s, ops, k)
              <==> if k == 0 then LeavesBytes(codec, s, ops[0]) else BytesLeftAt(codec, t, rest, k - 1)
    {
      AfterFirst(codec, s, ops, k);
    }
    hide LineAt, BytesLeftAt;
    assert BytesLeftAt(codec, s, ops, 0) == LeavesBytes(codec, s, ops[0]);
    if Spoiled(codec, t, rest) {
      var i, j :| 0 <= i < j < |rest| && BytesLeftAt(codec, t, rest, i) && LineAt(codec, t, rest, j);
      assert BytesLeftAt(codec, s, ops, i + 1) && LineAt(codec, s, ops, j + 1);
    }
    if LeavesBytes(codec, s, ops[0]) && SomeLine(codec, t, rest) {
      var j :| 0 <= j < |rest| && LineAt(codec, t, rest, j);
      assert BytesLeftAt(codec, s, ops, 0) && LineAt(codec, s, ops, j + 1);
    }
    if Spoiled(codec, s, ops) {
      var i, j :| 0 <= i < j < |ops| && BytesLeftAt(codec, s, ops, i) && LineAt(codec, s, ops, j);
      assert LineAt(codec, t, rest, j - 1);
      assert i > 0 ==> BytesLeftAt(codec, t, rest, i - 1);
    }
  }

  // ----- Three states of the log

  /** Complete events and nothing else, and the handle knows it. */
  ghost predicate Whole(codec: Codec, s: Store, events: seq<Event>) {
    s.log == LogBytes(codec, events) && NumberedFrom(events, 0) && s.lastSeq == |events|
  }

  /** Complete events and a torn tail, or one event that the handle took for failed. */
  ghost predicate Damaged(codec: Codec, s: Store, events: seq<Event>, tail: seq<byte>) {
    && s.log == LogBytes(codec, events) + tail && NumberedFrom(events, 0)
    && LF !in tail && codec.Torn(tail)
    && s.lastSeq <= |events| && (tail != [] || s.lastSeq < |events|)
  }

  /** A line that is no event, or has the wrong number. */
  ghost predicate Broken(codec: Codec, s: Store, events: seq<Event>, bad: seq<byte>, more: seq<byte>) {
    && s.log == LogBytes(codec, events) + (bad + [LF] + more) && NumberedFrom(events, 0) && LF !in bad
    && (codec.parse(bad).None? || codec.parse(bad).value.seqNo != |events| + 1)
  }

  /** No operation takes bytes from the log. */
  lemma {:induction false} LogGrows(codec: Codec, s: Store, op: Op)
    ensures s.log <= Do(codec, s, op).log
  {
    if op.Append? {
      WrittenBytes(codec, s, op);
    }
  }

  lemma {:induction false} BrokenGrows(
    codec: Codec, s: Store, t: Store, events: seq<Event>, bad: seq<byte>, more: seq<byte>)
    requires Broken(codec, s, events, bad, more) && s.log <= t.log
    ensures Broken(codec, t, events, bad, more + t.log[|s.log|..])
  {
    var w := t.log[|s.log|..];
    assert t.log == s.log + w;
    assert LogBytes(codec, events) + (bad + [LF] + more) + w == LogBytes(codec, events) + (bad + [LF] + (more + w));
  }

  lemma {:induction false} BrokenStays(codec: Codec, s: Store, ops: seq<Op>, events: seq<Event>, bad: seq<byte>,
                                       more: seq<byte>)
    requires codec.Faithful() && Broken(codec, s, events, bad, more)
    ensures ReadLog(codec, RunStore(codec, s, ops).log, 0) == None
    decreases |ops|
  {
    if ops == [] {
      ReadStopsAt(codec, events, bad, more, 0);
    } else {
      var t := Do(codec, s, ops[0]);
      assert RunStore(codec, s, ops) == RunStore(codec, t, ops[1..]);
      hide *;
      LogGrows(codec, s, ops[0]);
      BrokenGrows(codec, s, t, events, bad, more);
      BrokenStays(codec, t, ops[1..], events, bad, more + t.log[|s.log|..]);
    }
  }

  /** In a damaged log a line that is written to the end cannot be read. */
  lemma {:induction false} LineAfterDamage(codec: Codec, s: Store, op: Op, events: seq<Event>, tail: seq<byte>)
    requires codec.Faithful() && codec.RejectsGlue() && Damaged(codec, s, events, tail)
    requires op.Append? && WritesLine(codec, s, op)
    ensures Broken(codec, AppendStore(codec, s, op), events, tail + codec.encode(NextEvent(s, op)), [])
  {
    WrittenBytes(codec, s, op);
    hide WritesLine, Written, AppendStore;
    var line := codec.encode(NextEvent(s, op));
    assert s.log + (line + [LF]) == LogBytes(codec, events) + (tail + line + [LF] + []);
    if tail == [] {
      assert tail + line == line;
    }
  }

  /** Without a whole line, a damaged log only gets a longer tail. */
  lemma {:induction false} DamageGrows(codec: Codec, s: Store, op: Op, events: seq<Event>, tail: seq<byte>)
    requires codec.Faithful() && Damaged(codec, s, events, tail) && op.Append? && !WritesLine(codec, s, op)
    ensures Damaged(codec, AppendStore(codec, s, op), events, tail + Written(codec, s, op))
  {
    WrittenBytes(codec, s, op);
    hide WritesLine, Written, AppendStore, LeavesBytes;
    var e, w := NextEvent(s, op), Written(codec, s, op);
    TornLonger(codec, tail, e, |w|);
    assert s.log + w == LogBytes(codec, events) + (tail + w);
  }

  lemma {:induction false} DamagedReadsBack(codec: Codec, s: Store, events: seq<Event>, tail: seq<byte>)
    requires codec.Faithful() && Damaged(codec, s, events, tail)
    ensures ReadLog(codec, s.log, 0).Some?
  {
    ReadBack(codec, events, tail, 0);
  }

  lemma {:induction false} DamagedRun(codec: Codec, s: Store, ops: seq<Op>, events: seq<Event>, tail: seq<byte>)
    requires codec.Faithful() && codec.RejectsGlue() && OnlyAppends(ops) && Damaged(codec, s, events, tail)
    ensures ReadLog(codec, RunStore(codec, s, ops).log, 0).Some? <==> !SomeLine(codec, s, ops)
    decreases |ops|
  {
    if ops == [] {
      DamagedReadsBack(codec, s, events, tail);
    } else {
      var op, rest := ops[0], ops[1..];
      assert op in ops;
      SomeLineFirst(codec, s, ops);
      var t := AppendStore(codec, s, op);
      assert Do(codec, s, op) == t;
      assert RunStore(codec, s, ops) == RunStore(codec, t, rest);
      hide *;
      if WritesLine(codec, s, op) {
        LineAfterDamage(codec, s, op, events, tail);
        BrokenStays(codec, t, rest, events, tail + codec.encode(NextEvent(s, op)), []);
      } else {
        DamageGrows(codec, s, op, events, tail);
        DamagedRun(codec, t, rest, events, tail + Written(codec, s, op));
      }
    }
  }

  /**
   * However appends follow on each other without a read in between, the log can be read back exactly unless one of
   * them wrote its whole line after an earlier one had failed and left bytes.
   */
  lemma {:induction false} AppendsReadableIff(codec: Codec, s: Store, ops: seq<Op>, events: seq<Event>)
    requires codec.Faithful() && codec.RejectsGlue() && OnlyAppends(ops) && Whole(codec, s, events)
    ensures ReadLog(codec, RunStore(codec, s, ops).log, 0).Some? <==> !Spoiled(codec, s, ops)
    decreases |ops|
  {
    if ops == [] {
      assert s.log == LogBytes(codec, events) + [];
      ReadBack(codec, events, [], 0);
    } else {
      var op, rest := ops[0], ops[1..];
      assert op in ops;
      SpoiledFirst(codec, s, ops);
      WrittenBytes(codec, s, op);
      if !LeavesBytes(codec, s, op) {
        FirstAppend(codec, s, op, events);
      }
      hide Spoiled, SomeLine, WritesLine, Written, AppendStore, LeavesBytes;
      var t := AppendStore(codec, s, op);
      assert Do(codec, s, op) == t;
      if LeavesBytes(codec, s, op) {
        var events', tail := DamagedBy(codec, s, op, events);
        DamagedRun(codec, t, rest, events', tail);
        SpoiledNeedsLine(codec, t, rest);
      } else if WritesLine(codec, s, op) {
        AppendsReadableIff(codec, t, rest, events + [NextEvent(s, op)]);
      } else {
        AppendsReadableIff(codec, t, rest, events);
      }
    }
  }

  lemma {:induction false} SpoiledNeedsLine(codec: Codec, s: Store, ops: seq<Op>)
    requires OnlyAppends(ops)
    ensures Spoiled(codec, s, ops) ==> SomeLine(codec, s, ops)
  {
    hide LineAt, BytesLeftAt;
  }

  lemma {:induction false} FirstAppend(codec: Codec, s: Store, op: Op, events: seq<Event>)
    requires codec.Faithful() && Whole(codec, s, events) && op.Append? && !LeavesBytes(codec, s, op)
    ensures Whole(codec, AppendStore(codec, s, op),
                  if WritesLine(codec, s, op) then events + [NextEvent(s, op)] else events)
  {
    WrittenBytes(codec, s, op);
    hide Written, AppendStore;
    if WritesLine(codec, s, op) {
      LogBytesSnoc(codec, events, NextEvent(s, op));
    }
  }

  lemma {:induction false} DamagedBy(codec: Codec, s: Store, op: Op, events: seq<Event>)
    returns (events': seq<Event>, tail: seq<byte>)
    requires codec.Faithful() && Whole(codec, s, events) && op.Append? && LeavesBytes(codec, s, op)
    ensures Damaged(codec, AppendStore(codec, s, op), events', tail)
  {
    WrittenBytes(codec, s, op);
    hide Written, AppendStore, LeavesBytes;
    var e, w := NextEvent(s, op), Written(codec, s, op);
    if WritesLine(codec, s, op) {
      LogBytesSnoc(codec, events, e);
      events', tail := events + [e], [];
      assert LogBytes(codec, events') + [] == LogBytes(codec, events');
    } else {
      TornLonger(codec, [], e, |w|);
      assert [] + w == w;
      events', tail := events, w;
    }
  }

  /** The same after any run of the session that left a whole log. */
  lemma {:induction false} AppendsAfterAnyRun(codec: Codec, before: seq<Op>, ops: seq<Op>)
    requires codec.Faithful() && codec.RejectsGlue() && AllAllowed(codec, FRESH, NOTHING, before) && OnlyAppends(ops)
    requires var h := RunHistory(codec, FRESH, NOTHING, before); !h.unread && h.fragment == []
    ensures var s := RunStore(codec, FRESH, before);
            ReadLog(codec, RunStore(codec, s, ops).log, 0).Some? <==> !Spoiled(codec, s, ops)
  {
    FreshIsSound(codec);
    RunKeepsSound(codec, FRESH, NOTHING, before);
    hide RunStore, RunHistory, AllAllowed, Spoiled;
    AppendsReadableIff(codec, RunStore(codec, FRESH, before), ops, RunHistory(codec, FRESH, NOTHING, before).events);
  }

  /**
   * Once an append has failed and left bytes, the log stays readable exactly as long as no later append writes
   * its line.
   */
  lemma {:induction false} AppendAfterFailedWrite(codec: Codec, s: Store, failed: Op, later: seq<Op>,
                                                  events: seq<Event>)
    requires codec.Faithful() && codec.RejectsGlue() && Whole(codec, s, events)
    requires failed.Append? && LeavesBytes(codec, s, failed) && OnlyAppends(later)
    ensures var t := AppendStore(codec, s, failed);
            ReadLog(codec, RunStore(codec, t, later).log, 0).Some? <==> !SomeLine(codec, t, later)
  {
    hide SomeLine;
    var events', tail := DamagedBy(codec, s, failed, events);
    DamagedRun(codec, AppendStore(codec, s, failed), later, events', tail);
  }

  // ----- Any run

  /** Every summary is saved on top of the last saved one. */
  predicate SavesOnTop(codec: Codec, s: Store, ops: seq<Op>)
    decreases |ops|
  {
    ops == [] ||
    ((ops[0].Save? ==> ops[0].summary.lastEventSeq <= s.summary.lastEventSeq)
     && SavesOnTop(codec, Do(codec, s, ops[0]), ops[1..]))
  }

  /** No line is written while bytes that a failed append left have not been read. */
  predicate NeverSpoiled(codec: Codec, s: Store, h: History, ops: seq<Op>)
    decreases |ops|
  {
    ops == [] ||
    ((ops[0].Append? && h.unread ==> !WritesLine(codec, s, ops[0]))
     && NeverSpoiled(codec, Do(codec, s, ops[0]), Track(codec, s, h, ops[0]), ops[1..]))
  }

  lemma {:induction false} AllowedIff(codec: Codec, s: Store, h: History, ops: seq<Op>)
    requires SavesOnTop(codec, s, ops)
    ensures AllAllowed(codec, s, h, ops) <==> NeverSpoiled(codec, s, h, ops)
    decreases |ops|
  {
    if ops != [] {
      hide Do, Track, WritesLine;
      AllowedIff(codec, Do(codec, s, ops[0]), Track(codec, s, h, ops[0]), ops[1..]);
    }
  }

  /** A line written after unread bytes breaks the log. */
  lemma {:induction false} LineSpoils(codec: Codec, s: Store, h: History, op: Op)
    requires codec.Faithful() && codec.RejectsGlue() && Sound(codec, s, h) && h.unread
    requires op.Append? && WritesLine(codec, s, op)
    ensures Broken(codec, AppendStore(codec, s, op), h.events, h.fragment + codec.encode(NextEvent(s, op)), [])
  {
    assert Damaged(codec, s, h.events, h.fragment);
    LineAfterDamage(codec, s, op, h.events, h.fragment);
  }

  lemma {:induction false} SpoiledRunIsUnreadable(codec: Codec, s: Store, h: History, ops: seq<Op>)
    requires codec.Faithful() && codec.RejectsGlue() && Sound(codec, s, h)
    requires SavesOnTop(codec, s, ops) && !NeverSpoiled(codec, s, h, ops)
    ensures ReadLog(codec, RunStore(codec, s, ops).log, 0) == None
    decreases |ops|
  {
    var op, rest := ops[0], ops[1..];
    var t := Do(codec, s, op);
    assert op.Append? ==> t == AppendStore(codec, s, op);
    assert RunStore(codec, s, ops) == RunStore(codec, t, rest);
    hide Sound, Do, Track, WritesLine, ReadLog, Broken, RunStore;
    if op.Append? && h.unread && WritesLine(codec, s, op) {
      LineSpoils(codec, s, h, op);
      BrokenStays(codec, t, rest, h.events, h.fragment + codec.encode(NextEvent(s, op)), []);
    } else {
      OpKeepsSound(codec, s, h, op);
      SpoiledRunIsUnreadable(codec, t, Track(codec, s, h, op), rest);
    }
  }

  /**
   * Over any run of a new session - appends that fail anywhere or are refused, reads, saves, closes, resumes - the
   * log can be read back exactly when no line was written while bytes of a failed append were unread.
   */
  lemma {:induction false} AnyRunReadableIff(codec: Codec, ops: seq<Op>)
    requires codec.Faithful() && codec.RejectsGlue() && SavesOnTop(codec, FRESH, ops)
    ensures ReadLog(codec, RunStore(codec, FRESH, ops).log, 0).Some? <==> NeverSpoiled(codec, FRESH, NOTHING, ops)
  {
    FreshIsSound(codec);
    hide Sound, RunStore, RunHistory, ReadLog, SavesOnTop, NeverSpoiled, AllAllowed;
    if NeverSpoiled(codec, FRESH, NOTHING, ops) {
      AllowedIff(codec, FRESH, NOTHING, ops);
      RunKeepsSound(codec, FRESH, NOTHING, ops);
      ReadsBack(codec, RunStore(codec, FRESH, ops), RunHistory(codec, FRESH, NOTHING, ops));
    } else {
      SpoiledRunIsUnreadable(codec, FRESH, NOTHING, ops);
    }
  }

  /** And then the saved cursor is at most one event behind the events that were complete when it was saved. */
  lemma {:induction false} CursorAtMostOneBehind(codec: Codec, ops: seq<Op>)
    requires codec.Faithful() && SavesOnTop(codec, FRESH, ops) && NeverSpoiled(codec, FRESH, NOTHING, ops)
    ensures var s, h := RunStore(codec, FRESH, ops), RunHistory(codec, FRESH, NOTHING, ops);
            h.atSave - 1 <= s.summary.lastEventSeq <= h.atSave <= |h.events|
  {
    FreshIsSound(codec);
    AllowedIff(codec, FRESH, NOTHING, ops);
    RunKeepsSound(codec, FRESH, NOTHING, ops);
    hide RunStore, RunHistory, AllAllowed, NeverSpoiled, SavesOnTop;
  }
}
