/**
 * Reading pipes: the framing of the event stream (internal/pirpc/launch_windows.go) and the capped pipe
 * (internal/exec/runner_windows.go).
 */
module Framing {
  import opened Basics
  import opened Lines

  // ----- Splitting at every line feed

  /** The pieces between line feeds; there is one more piece than there are line feeds. */
  function Pieces(data: seq<byte>): (r: seq<seq<byte>>)
    ensures r != []
    decreases |data|
  {
    var i := FirstLf(data);
    if i == |data| then [data] else [data[..i]] + Pieces(data[i + 1..])
  }

  function Glue(pieces: seq<seq<byte>>): seq<byte> {
    if pieces == [] then []
    else if |pieces| == 1 then pieces[0]
    else pieces[0] + [LF] + Glue(pieces[1..])
  }

  lemma {:induction false} PiecesFirst(body: seq<byte>, rest: seq<byte>)
    requires LF !in body
    ensures Pieces(body) == [body]
    ensures Pieces(body + [LF] + rest) == [body] + Pieces(rest)
  {
    var data := body + [LF] + rest;
    assert data[|body|] == LF;
    assert forall k | 0 <= k < |body| :: data[k] == body[k];
    assert FirstLf(data) == |body|;
    assert data[..|body|] == body && data[|body| + 1..] == rest;
  }

  /** Nothing is lost between the pieces, and no piece holds a line feed. */
  lemma {:induction false} PiecesGlued(data: seq<byte>)
    ensures Glue(Pieces(data)) == data
    ensures forall p | p in Pieces(data) :: LF !in p
    decreases |data|
  {
    var i := FirstLf(data);
    if i < |data| {
      PiecesGlued(data[i + 1..]);
      CutAt(data, 0, i);
      assert Pieces(data)[1..] == Pieces(data[i + 1..]);
    }
  }

  // ----- The event stream

  /** What one read of a pipe answers: bytes, and whether it failed. No bytes and no failure is the end. */
  datatype Read = Read(bytes: seq<byte>, failed: bool)

  /** The stream ends with a read that brings nothing or fails. */
  predicate Ends(read: Read) {
    read.failed || read.bytes == []
  }

  /** The bytes that come before the end of the stream. */
  function BytesBeforeEnd(chunks: seq<Read>): seq<byte> {
    if chunks == [] || Ends(chunks[0]) then [] else chunks[0].bytes + BytesBeforeEnd(chunks[1..])
  }

  function EndRead(chunks: seq<Read>): Read {
    if chunks == [] then Read([], false) else if Ends(chunks[0]) then chunks[0] else EndRead(chunks[1..])
  }

  datatype Reply = Reply(line: Option<seq<byte>>, failed: bool)

  /** One call: the reply, the bytes kept for the next call, and the chunks that are left. */
  function ReadLineOf(partial: seq<byte>, chunks: seq<Read>): (Reply, seq<byte>, seq<Read>)
    decreases |chunks|
  {
    var i := FirstLf(partial);
    if i < |partial| then (Reply(Some(partial[..i]), false), partial[i + 1..], chunks)
    else
      var read := if chunks == [] then Read([], false) else chunks[0];
      var rest := if chunks == [] then [] else chunks[1..];
      var whole := partial + read.bytes;
      if read.failed || read.bytes == [] then
        (Reply(if whole == [] then None else Some(whole), read.failed), [], rest)
      else ReadLineOf(whole, rest)
  }

  /** `jsonlReader`; once `chunks` is used up the pipe is at its end. */
  class JsonlReader {
    var chunks: seq<Read>
    var partial: seq<byte>

    constructor (chunks: seq<Read>)
      ensures this.chunks == chunks && partial == []
    {
      this.chunks := chunks;
      partial := [];
    }

    method ReadLine() returns (r: Reply)
      modifies this
      ensures (r, partial, chunks) == ReadLineOf(old(partial), old(chunks))
    {
      ghost var p0, r0 := partial, chunks;
      while true
        invariant ReadLineOf(partial, chunks) == ReadLineOf(p0, r0)
        decreases |chunks|
      {
        var i := FirstLf(partial);
        if i < |partial| {
          r := Reply(Some(partial[..i]), false);
          partial := partial[i + 1..];
          return;
        }
        var read := Read([], false);
        if chunks != [] {
          read := chunks[0];
          chunks := chunks[1..];
        }
        partial := partial + read.bytes;
        if read.failed || read.bytes == [] {
          r := Reply(if |partial| > 0 then Some(partial) else None, read.failed);
          partial := [];
          return;
        }
      }
    }
  }

  /** The bytes a reader still has before it, up to the end of the stream. */
  function Ahead(partial: seq<byte>, chunks: seq<Read>): seq<byte> {
    partial + BytesBeforeEnd(chunks)
  }

  /** The reply at the end of the stream: what is left, with what a failing read still brought. */
  function LastReply(rest: seq<byte>, end: Read): Reply {
    Reply(if rest + end.bytes == [] then None else Some(rest + end.bytes), end.failed)
  }

  /** One call hands out the first piece ahead and keeps the others; the last piece goes with the end of the stream. */
  lemma {:induction false} CallTakesFirstPiece(partial: seq<byte>, chunks: seq<Read>)
    ensures var pieces := Pieces(Ahead(partial, chunks));
            var (reply, kept, left) := ReadLineOf(partial, chunks);
            if |pieces| > 1
            then reply == Reply(Some(pieces[0]), false) && EndRead(left) == EndRead(chunks)
                 && Pieces(Ahead(kept, left)) == pieces[1..] && |Ahead(kept, left)| < |Ahead(partial, chunks)|
            else reply == LastReply(pieces[0], EndRead(chunks)) && kept == []
    decreases |chunks|
  {
    var bytes := Ahead(partial, chunks);
    var i := FirstLf(partial);
    if i < |partial| {
      var line, kept := partial[..i], partial[i + 1..];
      CutAt(partial, 0, i);
      assert bytes == line + [LF] + Ahead(kept, chunks);
      PiecesFirst(line, Ahead(kept, chunks));
    } else if chunks == [] || Ends(chunks[0]) {
      assert bytes == partial && LF !in partial;
      PiecesFirst(partial, []);
    } else {
      assert Ahead(partial + chunks[0].bytes, chunks[1..]) == bytes;
      CallTakesFirstPiece(partial + chunks[0].bytes, chunks[1..]);
    }
  }

  /** The replies of calling until the end of the stream. */
  function Replies(partial: seq<byte>, chunks: seq<Read>): seq<Reply>
    decreases |Ahead(partial, chunks)|
  {
    CallTakesFirstPiece(partial, chunks);
    var (reply, kept, left) := ReadLineOf(partial, chunks);
    if |Pieces(Ahead(partial, chunks))| == 1 then [reply] else [reply] + Replies(kept, left)
  }

  /** A line for every piece but the last, and the last reply. */
  function RepliesFor(pieces: seq<seq<byte>>, end: Read): seq<Reply>
    requires pieces != []
  {
    seq(|pieces| - 1, i requires 0 <= i < |pieces| - 1 => Reply(Some(pieces[i]), false))
        + [LastReply(Last(pieces), end)]
  }

  /** However the bytes are cut into reads, and however the stream ends, the same lines come out. */
  lemma {:induction false} FramingIgnoresChunks(partial: seq<byte>, chunks: seq<Read>)
    ensures Replies(partial, chunks) == RepliesFor(Pieces(Ahead(partial, chunks)), EndRead(chunks))
    decreases |Ahead(partial, chunks)|
  {
    CallTakesFirstPiece(partial, chunks);
    var pieces := Pieces(Ahead(partial, chunks));
    var (reply, kept, left) := ReadLineOf(partial, chunks);
    if |pieces| > 1 {
      FramingIgnoresChunks(kept, left);
      hide Pieces, ReadLineOf;
      assert RepliesFor(pieces, EndRead(chunks)) == [reply] + RepliesFor(pieces[1..], EndRead(chunks));
    }
  }

  function LinesIn(replies: seq<Reply>): seq<seq<byte>> {
    seq(|replies|, i requires 0 <= i < |replies| => if replies[i].line.Some? then replies[i].line.value else [])
  }

  /** The lines with line feeds between them are exactly the bytes that were read. */
  lemma {:induction false} RepliesLoseNothing(partial: seq<byte>, chunks: seq<Read>)
    ensures Glue(LinesIn(Replies(partial, chunks))) == Ahead(partial, chunks) + EndRead(chunks).bytes
  {
    FramingIgnoresChunks(partial, chunks);
    var bytes, end := Ahead(partial, chunks), EndRead(chunks);
    PiecesGlued(bytes);
    hide Pieces, Glue, Replies;
    var pieces := Pieces(bytes);
    GlueLonger(Init(pieces), Last(pieces), end.bytes);
    InitLast(pieces);
    assert LinesIn(RepliesFor(pieces, end)) == Init(pieces) + [Last(pieces) + end.bytes];
  }

  lemma {:induction false} GlueLonger(pieces: seq<seq<byte>>, last: seq<byte>, more: seq<byte>)
    ensures Glue(pieces + [last + more]) == Glue(pieces + [last]) + more
    decreases |pieces|
  {
    if pieces == [] {
      assert pieces + [last] == [last] && pieces + [last + more] == [last + more];
    } else {
      GlueLonger(pieces[1..], last, more);
      assert (pieces + [last])[1..] == pieces[1..] + [last];
      assert (pieces + [last + more])[1..] == pieces[1..] + [last + more];
    }
  }

  // ----- The capped pipe

  /** The bytes delivered before the end of the pipe: up to an empty read, or with a failed one. */
  function Delivered(chunks: seq<Read>): seq<byte> {
    if chunks == [] || chunks[0].bytes == [] then []
    else if chunks[0].failed then chunks[0].bytes
    else chunks[0].bytes + Delivered(chunks[1..])
  }

  /** The bytes kept of a whole output, and whether it counts as truncated. */
  function Drained(whole: seq<byte>, maxBytes: int): (seq<byte>, bool) {
    (whole[..Min(|whole|, Max(maxBytes, 0))], whole != [] && |whole| >= maxBytes)
  }

  /** Bytes are lost exactly beyond the limit, but an output of exactly the limit counts as truncated too. */
  lemma {:induction false} TruncatedAtTheLimit(whole: seq<byte>, maxBytes: int)
    requires maxBytes > 0
    ensures var (kept, truncated) := Drained(whole, maxBytes);
            && kept <= whole && |kept| == Min(|whole|, maxBytes)
            && (kept != whole <==> |whole| > maxBytes)
            && (truncated && kept == whole <==> |whole| == maxBytes)
  {
    var (kept, truncated) := Drained(whole, maxBytes);
    assert |kept| == Min(|whole|, maxBytes);
    assert |whole| <= maxBytes ==> kept == whole;
  }

  /** What one more read changes: nothing once truncated, else what there is room for. */
  lemma {:induction false} DrainedMore(seen: seq<byte>, more: seq<byte>, maxBytes: int)
    requires more != []
    ensures var before, after := Drained(seen, maxBytes), Drained(seen + more, maxBytes);
            var room := maxBytes - |before.0|;
            && after.0 == (if before.1 || room <= 0 then before.0 else before.0 + more[..Min(|more|, room)])
            && (after.1 <==> before.1 || |after.0| >= maxBytes)
  {
    var limit := Max(maxBytes, 0);
    if |seen| >= limit {
      assert (seen + more)[..limit] == seen[..limit];
    } else {
      assert (seen + more)[..Min(|seen + more|, limit)] == seen + more[..Min(|more|, limit - |seen|)];
    }
  }

  lemma {:induction false} NothingDrained(maxBytes: int)
    ensures Drained([], maxBytes) == ([], false)
  {}

  lemma {:induction false} DeliveredFirst(seen: seq<byte>, chunks: seq<Read>)
    ensures chunks == [] ==> seen + Delivered(chunks) == seen
    ensures chunks != [] ==>
              seen + Delivered(chunks) ==
              if chunks[0].bytes == [] then seen
              else if chunks[0].failed then seen + chunks[0].bytes
              else seen + chunks[0].bytes + Delivered(chunks[1..])
  {}

  /** `drainPipe`: everything is read, and the first `maxBytes` bytes are kept. */
  method DrainPipe(chunks: seq<Read>, maxBytes: int) returns (kept: seq<byte>, truncated: bool)
    ensures kept == Drained(Delivered(chunks), maxBytes).0
    ensures truncated == Drained(Delivered(chunks), maxBytes).1
  {
    hide Drained, Delivered;
    kept, truncated := [], false;
    NothingDrained(maxBytes);
    ghost var seen: seq<byte> := [];
    ghost var total := Delivered(chunks);
    assert seen + total == total;
    var left := chunks;
    while true
      invariant seen + Delivered(left) == total
      invariant kept == Drained(seen, maxBytes).0 && truncated == Drained(seen, maxBytes).1
      decreases |left|
    {
      DeliveredFirst(seen, left);
      var read := Read([], false);
      if left != [] {
        read := left[0];
        left := left[1..];
      }
      if |read.bytes| > 0 {
        DrainedMore(seen, read.bytes, maxBytes);
        if !truncated {
          var remaining := maxBytes - |kept|;
          if remaining > 0 {
            kept := kept + read.bytes[..Min(|read.bytes|, remaining)];
          }
          if |kept| >= maxBytes {
            truncated := true;
          }
        }
        seen := seen + read.bytes;
      }
      if |read.bytes| == 0 || read.failed {
        assert seen == total;
        return;
      }
    }
  }

  // ----- Which reads count

  function AllBytes(chunks: seq<Read>): seq<byte> {
    if chunks == [] then [] else chunks[0].bytes + AllBytes(chunks[1..])
  }

  /** The reads up to the first that fails or brings nothing, that one included. */
  function UpToEnd(chunks: seq<Read>, k: nat): seq<Read>
    requires k <= |chunks|
  {
    if k < |chunks| then chunks[..k + 1] else chunks
  }

  predicate FirstEnd(chunks: seq<Read>, k: nat) {
    && k <= |chunks| && (forall i | 0 <= i < k :: !chunks[i].failed && chunks[i].bytes != [])
    && (k < |chunks| ==> chunks[k].failed || chunks[k].bytes == [])
  }

  lemma {:induction false} EndAtOnce(chunks: seq<Read>)
    requires FirstEnd(chunks, 0)
    ensures BytesBeforeEnd(chunks) + EndRead(chunks).bytes == Delivered(chunks) == AllBytes(UpToEnd(chunks, 0))
    ensures EndRead(chunks).failed <==> 0 < |chunks| && chunks[0].failed
  {
    if chunks != [] {
      assert UpToEnd(chunks, 0) == [chunks[0]] && [chunks[0]][1..] == [];
      assert BytesBeforeEnd(chunks) == [] && EndRead(chunks) == chunks[0] && Delivered(chunks) == chunks[0].bytes;
      assert AllBytes([chunks[0]]) == chunks[0].bytes + AllBytes([]);
    }
  }

  lemma {:induction false} FirstGoesOn(chunks: seq<Read>)
    requires chunks != [] && !chunks[0].failed && chunks[0].bytes != []
    ensures BytesBeforeEnd(chunks) == chunks[0].bytes + BytesBeforeEnd(chunks[1..])
    ensures EndRead(chunks) == EndRead(chunks[1..])
    ensures Delivered(chunks) == chunks[0].bytes + Delivered(chunks[1..])
  {}

  lemma {:induction false} AllBytesFirst(chunks: seq<Read>)
    requires chunks != []
    ensures AllBytes(chunks) == chunks[0].bytes + AllBytes(chunks[1..])
  {}

  /** Both readers take exactly the bytes of the reads up to the first that fails or brings nothing. */
  lemma {:induction false} ReadUpToTheEnd(chunks: seq<Read>, k: nat)
    requires FirstEnd(chunks, k)
    ensures BytesBeforeEnd(chunks) + EndRead(chunks).bytes == Delivered(chunks) == AllBytes(UpToEnd(chunks, k))
    ensures EndRead(chunks).failed <==> k < |chunks| && chunks[k].failed
    decreases k
  {
    hide BytesBeforeEnd, EndRead, Delivered, AllBytes;
    if k == 0 {
      EndAtOnce(chunks);
    } else {
      var counted := UpToEnd(chunks, k);
      ReadUpToTheEnd(chunks[1..], k - 1);
      assert counted[1..] == UpToEnd(chunks[1..], k - 1) && counted[0] == chunks[0];
      FirstGoesOn(chunks);
      AllBytesFirst(counted);
    }
  }

  /** The last reply alone says that the stream failed, and says so exactly when its last read did. */
  lemma {:induction false} FailureIsTold(partial: seq<byte>, chunks: seq<Read>, k: nat)
    requires FirstEnd(chunks, k)
    ensures var replies := Replies(partial, chunks);
            && replies != [] && (Last(replies).failed <==> k < |chunks| && chunks[k].failed)
            && (forall i | 0 <= i < |replies| - 1 :: !replies[i].failed && replies[i].line.Some?)
            && Glue(LinesIn(replies)) == partial + AllBytes(UpToEnd(chunks, k))
  {
    FramingIgnoresChunks(partial, chunks);
    RepliesLoseNothing(partial, chunks);
    ReadUpToTheEnd(chunks, k);
    hide Replies, Pieces, Glue, LinesIn, Delivered;
    assert Ahead(partial, chunks) + EndRead(chunks).bytes == partial + (BytesBeforeEnd(chunks) + EndRead(chunks).bytes);
  }
}
