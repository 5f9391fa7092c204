/** A codec that keeps every promise made of the event encoder, and sample runs of a session that uses it. */
module SampleCodec {
  import opened Basics
  import opened SessionLog
  import opened Sessions
  import opened SessionFailures

  const OPEN: byte := 123
  const ONE: byte := 49
  const COMMA: byte := 44

  // ----- Numbers

  function Unary(n: nat): (r: seq<byte>)
    ensures |r| == n + 1
    ensures forall i | 0 <= i < n :: r[i] == ONE
    ensures r[n] == COMMA
  {
    if n == 0 then [COMMA] else [ONE] + Unary(n - 1)
  }

  function Body(numbers: seq<nat>): seq<byte> {
    if numbers == [] then [] else Unary(numbers[0]) + Body(numbers[1..])
  }

  lemma {:induction false} BodyIsPlain(numbers: seq<nat>)
    ensures forall b | b in Body(numbers) :: b == ONE || b == COMMA
    decreases |numbers|
  {
    if numbers != [] {
      BodyIsPlain(numbers[1..]);
      assert forall b | b in Unary(numbers[0]) :: b == ONE || b == COMMA;
    }
  }

  /** The first comma tells the first number. */
  lemma {:induction false} UnaryAt(n: nat, rest: seq<byte>, k: nat)
    ensures k < n ==> (Unary(n) + rest)[k] == ONE
    ensures (Unary(n) + rest)[n] == COMMA && (Unary(n) + rest)[n + 1..] == rest
  {}

  lemma {:induction false} FirstNumber(a: nat, b: nat, x: seq<byte>, y: seq<byte>)
    requires Unary(a) + x == Unary(b) + y
    ensures a == b && x == y
  {
    UnaryAt(a, x, b);
    UnaryAt(b, y, a);
  }

  lemma {:induction false} BodyIsOneToOne(a: seq<nat>, b: seq<nat>)
    requires Body(a) == Body(b)
    ensures a == b
    decreases |a|
  {
    if a != [] && b != [] {
      FirstNumber(a[0], b[0], Body(a[1..]), Body(b[1..]));
      BodyIsOneToOne(a[1..], b[1..]);
      assert a == [a[0]] + a[1..] && b == [b[0]] + b[1..];
    } else {
      assert a != [] ==> |Body(a)| > 0;
      assert b != [] ==> |Body(b)| > 0;
    }
  }

  // ----- Events

  function Coded(i: int): nat {
    if i >= 0 then 2 * i else -2 * i - 1
  }

  function Codes(text: string): seq<nat> {
    seq(|text|, i requires 0 <= i < |text| => text[i] as int)
  }

  function Numbers(e: Event): seq<nat> {
    [Coded(e.seqNo), Coded(e.tokens), Coded(e.time), |e.kind|, |e.source|] + Codes(e.kind) + Codes(e.source)
    + seq(|e.payload|, i requires 0 <= i < |e.payload| => e.payload[i])
  }

  lemma {:induction false} CodesAreOneToOne(a: string, b: string)
    requires Codes(a) == Codes(b)
    ensures a == b
  {
    assert |a| == |Codes(a)| && |b| == |Codes(b)|;
    forall i | 0 <= i < |a| ensures a[i] == b[i] {
      assert Codes(a)[i] == Codes(b)[i];
    }
  }

  lemma {:induction false} PartsOfNumbers(e: Event)
    ensures var n := Numbers(e);
            && |n| == 5 + |e.kind| + |e.source| + |e.payload|
            && n[0] == Coded(e.seqNo) && n[1] == Coded(e.tokens) && n[2] == Coded(e.time)
            && n[3] == |e.kind| && n[4] == |e.source|
            && n[5..5 + |e.kind|] == Codes(e.kind) && n[5 + |e.kind|..5 + |e.kind| + |e.source|] == Codes(e.source)
            && forall i | 0 <= i < |e.payload| :: n[5 + |e.kind| + |e.source| + i] == e.payload[i]
  {}

  lemma {:induction false} NumbersAreOneToOne(e: Event, f: Event)
    requires Numbers(e) == Numbers(f)
    ensures e == f
  {
    PartsOfNumbers(e);
    PartsOfNumbers(f);
    hide Numbers, Codes;
    CodesAreOneToOne(e.kind, f.kind);
    CodesAreOneToOne(e.source, f.source);
    assert |e.payload| == |f.payload|;
    forall i | 0 <= i < |e.payload| ensures e.payload[i] == f.payload[i] {
      assert Numbers(e)[5 + |e.kind| + |e.source| + i] == Numbers(f)[5 + |f.kind| + |f.source| + i];
    }
    assert e.payload == f.payload;
  }

  // ----- The codec

  function Encode(e: Event): seq<byte> {
    [OPEN] + Body(Numbers(e))
  }

  ghost function Parse(bytes: seq<byte>): Option<Event> {
    if exists e: Event :: Encode(e) == bytes then
      var e: Event :| Encode(e) == bytes;
      Some(e)
    else None
  }

  ghost function Sample(): Codec {
    Codec(Encode, Parse)
  }

  lemma {:induction false} EncodeIsOneToOne(e: Event, f: Event)
    requires Encode(e) == Encode(f)
    ensures e == f
  {
    assert Body(Numbers(e)) == Encode(e)[1..] && Body(Numbers(f)) == Encode(f)[1..];
    BodyIsOneToOne(Numbers(e), Numbers(f));
    NumbersAreOneToOne(e, f);
  }

  lemma {:induction false} OneOpening(e: Event)
    ensures Encode(e) != [] && Encode(e)[0] == OPEN && LF !in Encode(e)
    ensures forall i | 0 < i < |Encode(e)| :: Encode(e)[i] != OPEN
  {
    BodyIsPlain(Numbers(e));
    hide Numbers, Body;
    var body := Body(Numbers(e));
    assert Encode(e) == [OPEN] + body;
    forall i | 0 < i < |Encode(e)| ensures Encode(e)[i] != OPEN && Encode(e)[i] != LF {
      assert Encode(e)[i] == body[i - 1] && body[i - 1] in body;
    }
  }

  lemma {:induction false} NoEventOpensTwice(e: Event, torn: seq<byte>, f: Event)
    requires torn != []
    ensures Encode(e) != torn + Encode(f)
  {
    OneOpening(e);
    OneOpening(f);
    hide Encode;
    assert (torn + Encode(f))[|torn|] == OPEN;
  }

  lemma {:induction false} GlueIsNoEvent(torn: seq<byte>, f: Event)
    requires torn != []
    ensures Parse(torn + Encode(f)) == None
  {
    forall e: Event ensures Encode(e) != torn + Encode(f) {
      NoEventOpensTwice(e, torn, f);
    }
  }

  /** What the session laws ask of a codec can be had. */
  lemma {:induction false} SampleKeepsItsPromises()
    ensures Sample().Faithful() && Sample().RejectsGlue()
  {
    hide Encode;
    forall e: Event ensures LF !in Encode(e) && Parse(Encode(e)) == Some(e) {
      OneOpening(e);
      var f := Parse(Encode(e)).value;
      EncodeIsOneToOne(e, f);
    }
    forall torn: seq<byte>, f: Event | torn != [] && Sample().Torn(torn) ensures Parse(torn + Encode(f)) == None {
      GlueIsNoEvent(torn, f);
    }
  }

  // ----- Sample runs

  function SampleAppend(io: AppendIo): Op {
    Append("tool_call", [], 0, "pi", 0, io)
  }

  lemma {:induction false} FirstByteOnly(codec: Codec)
    requires codec.Faithful()
    ensures var a := SampleAppend(WriteCut(1));
            && Whole(codec, FRESH, []) && LeavesBytes(codec, FRESH, a)
            && WritesLine(codec, AppendStore(codec, FRESH, a), SampleAppend(Completes))
  {
    var a := SampleAppend(WriteCut(1));
    assert |Written(codec, FRESH, a)| == 1;
  }

  /** One byte of the first append reaches the disk, the second append is complete: the log cannot be read. */
  lemma {:induction false} TornLogExample()
    ensures var ops := [SampleAppend(WriteCut(1)), SampleAppend(Completes)];
            ReadLog(Sample(), RunStore(Sample(), FRESH, ops).log, 0) == None
  {
    SampleKeepsItsPromises();
    var codec, a, b := Sample(), SampleAppend(WriteCut(1)), SampleAppend(Completes);
    FirstByteOnly(codec);
    var t := AppendStore(codec, FRESH, a);
    assert [a, b][1..] == [b] && RunStore(codec, FRESH, [a, b]) == RunStore(codec, t, [b]);
    assert [b][..0] == [] && StoreAt(codec, t, [b], 0) == t;
    assert LineAt(codec, t, [b], 0);
    hide *;
    assert SomeLine(codec, t, [b]) by { OneLineIsSome(codec, t, b); }
    AppendAfterFailedWrite(codec, FRESH, a, [b], []);
  }

  lemma {:induction false} OneLineIsSome(codec: Codec, s: Store, op: Op)
    requires OnlyAppends([op]) && LineAt(codec, s, [op], 0)
    ensures SomeLine(codec, s, [op])
  {
    hide LineAt;
  }

  /** The line reaches the disk, but its sync fails; a summary saved then stands one event behind. */
  lemma {:induction false} MissedEventExample(summary: Summary)
    requires summary.lastEventSeq == 0
    ensures var ops := [SampleAppend(SyncFails), Save(summary, true)];
            var s, h := RunStore(Sample(), FRESH, ops), RunHistory(Sample(), FRESH, NOTHING, ops);
            && AllAllowed(Sample(), FRESH, NOTHING, ops)
            && h.saveMissedOne && |h.events| == 1 && s.summary.lastEventSeq == 0
  {
    var codec, a, b := Sample(), SampleAppend(SyncFails), Save(summary, true);
    assert AllAllowed(codec, Do(codec, Do(codec, FRESH, a), b),
                      Track(codec, Do(codec, FRESH, a), Track(codec, FRESH, NOTHING, a), b), []);
    hide Sample;
    var t, h := Do(codec, FRESH, a), Track(codec, FRESH, NOTHING, a);
    assert [a, b][1..] == [b] && [b][1..] == [];
    assert RunStore(codec, FRESH, [a, b]) == RunStore(codec, t, [b]) && RunStore(codec, t, [b]) == Do(codec, t, b);
    assert RunHistory(codec, FRESH, NOTHING, [a, b]) == RunHistory(codec, t, h, [b]);
    assert RunHistory(codec, t, h, [b]) == Track(codec, t, h, b);
    assert AllAllowed(codec, t, h, [b]);
    assert AllAllowed(codec, FRESH, NOTHING, [a, b]) == AllAllowed(codec, t, h, [b]);
  }
}
