/** The append-only event log of a session and the cursor of its saved summary (internal/session/store.go). */
module SessionLog {
  import opened Basics
  import Lines

  datatype Event = Event(seqNo: int, kind: string, payload: seq<byte>, tokens: int, source: string, time: int)

  /** The JSON encoder of one event, and what becomes of a line on reading (trim, refuse an empty line, decode). */
  datatype Codec = Codec(encode: Event -> seq<byte>, parse: seq<byte> -> Option<Event>) {
    /** Encoding is a single line that decodes to the same event. */
    ghost predicate Faithful() {
      forall e: Event :: LF !in encode(e) && parse(encode(e)) == Some(e)
    }

    /** Cut beginnings of encoded events, one after the other. */
    ghost predicate Torn(bytes: seq<byte>)
      decreases |bytes|
    {
      bytes == [] || exists e: Event, k: nat :: EndsInPiece(bytes, e, k) && Torn(bytes[..|bytes| - k])
    }

    ghost predicate EndsInPiece(bytes: seq<byte>, e: Event, k: nat) {
      0 < k <= |encode(e)| && k <= |bytes| && bytes[|bytes| - k..] == encode(e)[..k]
    }

    /** Cut beginnings of events followed by a whole event are not an event. */
    ghost predicate RejectsGlue() {
      forall torn: seq<byte>, f: Event | torn != [] && Torn(torn) :: parse(torn + encode(f)) == None
    }

    function Line(e: Event): seq<byte> {
      encode(e) + [LF]
    }
  }

  datatype SessionError = Closed | EventLogTail | InvalidArgument | Storage | Corrupt

  datatype ReadResult = ReadResult(events: seq<Event>, trailingFragment: bool)

  // ----- Reading the log

  function Prepend(events: seq<Event>, r: Option<ReadResult>): Option<ReadResult> {
    if r.None? then None else Some(r.value.(events := events + r.value.events))
  }

  /** What reading `data` yields after `count` events have been read; None when the log is corrupt. */
  function ReadLog(codec: Codec, data: seq<byte>, count: nat): Option<ReadResult>
    decreases |data|
  {
    if data == [] then Some(ReadResult([], false))
    else
      var i := Lines.FirstLf(data);
      if i == |data| then Some(ReadResult([], true))
      else
        var event := codec.parse(data[..i]);
        if event.None? || event.value.seqNo != count + 1 then None
        else Prepend([event.value], ReadLog(codec, data[i + 1..], count + 1))
  }

  /** The bytes of complete events. */
  function LogBytes(codec: Codec, events: seq<Event>): seq<byte> {
    if events == [] then [] else codec.Line(events[0]) + LogBytes(codec, events[1..])
  }

  predicate NumberedFrom(events: seq<Event>, count: nat) {
    forall i | 0 <= i < |events| :: events[i].seqNo == count + i + 1
  }

  lemma {:induction false} LogBytesSnoc(codec: Codec, events: seq<Event>, e: Event)
    ensures LogBytes(codec, events + [e]) == LogBytes(codec, events) + codec.Line(e)
    decreases |events|
  {
    if events == [] {
      assert (events + [e])[1..] == [];
    } else {
      assert (events + [e])[1..] == events[1..] + [e];
      LogBytesSnoc(codec, events[1..], e);
    }
  }

  lemma {:induction false} FirstLfAt(body: seq<byte>, rest: seq<byte>)
    requires LF !in body
    ensures var data := body + [LF] + rest;
            Lines.FirstLf(data) == |body| && data[..|body|] == body && data[|body| + 1..] == rest
  {
    var data := body + [LF] + rest;
    assert data[|body|] == LF;
    assert forall k | 0 <= k < |body| :: data[k] == body[k];
  }

  lemma {:induction false} ReadOneLine(codec: Codec, body: seq<byte>, rest: seq<byte>, count: nat)
    requires LF !in body
    ensures ReadLog(codec, body + [LF] + rest, count) ==
            var event := codec.parse(body);
            if event.None? || event.value.seqNo != count + 1 then None
            else Prepend([event.value], ReadLog(codec, rest, count + 1))
  {
    FirstLfAt(body, rest);
  }

  /** Complete, numbered events and a fragment without a line feed are read back exactly. */
  lemma {:induction false} ReadBack(codec: Codec, events: seq<Event>, fragment: seq<byte>, count: nat)
    requires codec.Faithful() && NumberedFrom(events, count) && LF !in fragment
    ensures ReadLog(codec, LogBytes(codec, events) + fragment, count) == Some(ReadResult(events, fragment != []))
    decreases |events|
  {
    if events == [] {
      assert LogBytes(codec, events) + fragment == fragment;
    } else {
      hide ReadLog;
      var e, rest := events[0], LogBytes(codec, events[1..]) + fragment;
      assert NumberedFrom(events[1..], count + 1);
      ReadBack(codec, events[1..], fragment, count + 1);
      assert LogBytes(codec, events) + fragment == codec.encode(e) + [LF] + rest;
      ReadOneLine(codec, codec.encode(e), rest, count);
      assert events == [e] + events[1..];
    }
  }

  /** A bad line after complete events makes the whole log unreadable, whatever follows. */
  lemma {:induction false} ReadStopsAt(codec: Codec, events: seq<Event>, bad: seq<byte>, more: seq<byte>, count: nat)
    requires codec.Faithful() && NumberedFrom(events, count) && LF !in bad
    requires codec.parse(bad).None? || codec.parse(bad).value.seqNo != count + |events| + 1
    ensures ReadLog(codec, LogBytes(codec, events) + (bad + [LF] + more), count) == None
    decreases |events|
  {
    hide ReadLog;
    if events == [] {
      assert LogBytes(codec, events) + (bad + [LF] + more) == bad + [LF] + more;
      ReadOneLine(codec, bad, more, count);
    } else {
      var e, rest := events[0], LogBytes(codec, events[1..]) + (bad + [LF] + more);
      assert NumberedFrom(events[1..], count + 1);
      ReadStopsAt(codec, events[1..], bad, more, count + 1);
      assert LogBytes(codec, events) + (bad + [LF] + more) == codec.encode(e) + [LF] + rest;
      ReadOneLine(codec, codec.encode(e), rest, count);
    }
  }

  lemma {:induction false} PrependTwice(a: seq<Event>, e: Event, r: Option<ReadResult>)
    ensures Prepend(a, Prepend([e], r)) == Prepend(a + [e], r)
  {
    if r.Some? {
      assert a + ([e] + r.value.events) == a + [e] + r.value.events;
    }
  }

  lemma {:induction false} PrependNothing(r: Option<ReadResult>)
    ensures Prepend([], r) == r
  {
    if r.Some? {
      assert [] + r.value.events == r.value.events;
    }
  }

  /** The loop of `readEvents`, which consumes the bytes line by line. */
  method ReadEventsLoop(codec: Codec, bytes: seq<byte>) returns (r: Result<ReadResult, SessionError>)
    ensures r.Ok? <==> ReadLog(codec, bytes, 0).Some?
    ensures r.Ok? ==> Some(r.value) == ReadLog(codec, bytes, 0)
    ensures r.Err? ==> r.error == Corrupt
  {
    var data: seq<byte>, events: seq<Event> := bytes, [];
    PrependNothing(ReadLog(codec, bytes, 0));
    while |data| > 0
      invariant ReadLog(codec, bytes, 0) == Prepend(events, ReadLog(codec, data, |events|))
      decreases |data|
    {
      var idx := Lines.FirstLf(data);
      if idx == |data| {
        assert events + [] == events;
        return Ok(ReadResult(events, true));
      }
      var event := codec.parse(data[..idx]);
      if event.None? || event.value.seqNo != |events| + 1 {
        return Err(Corrupt);
      }
      PrependTwice(events, event.value, ReadLog(codec, data[idx + 1..], |events| + 1));
      events, data := events + [event.value], data[idx + 1..];
    }
    assert events + [] == events;
    return Ok(ReadResult(events, false));
  }
}
