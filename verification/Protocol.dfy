/** services/kmip_protocol.py: whole messages from a socket that delivers bytes in
    pieces of its own choice. */
module Protocol {
  import opened Wrappers
  import opened Bytes
  import opened Enums
  import opened Ttlv
  import opened TtlvRoundTrip
  import opened TtlvTheorems

  const HEADER_SIZE: nat := 8

  // ---- what one read amounts to

  /** A header whose last four bytes count the bytes behind it, and those bytes. */
  predicate IsFrame(f: seq<byte>) {
    |f| >= HEADER_SIZE && |f| == HEADER_SIZE + UnpackU(f[4..8])
  }

  /** The next frame and what follows it, from all that the peer will send before
      it closes the connection. */
  function ReadFrame(stream: seq<byte>): Result<(seq<byte>, seq<byte>)> {
    if stream == [] then Err(EofError)
    else if |stream| < HEADER_SIZE then Err(RequestLengthMismatch(HEADER_SIZE, |stream|))
    else
      var size := UnpackU(stream[4..8]);
      if |stream| < HEADER_SIZE + size then Err(RequestLengthMismatch(size, |stream| - HEADER_SIZE))
      else Ok((stream[..HEADER_SIZE + size], stream[HEADER_SIZE + size..]))
  }

  /** k reads in a row. */
  function ReadFrames(stream: seq<byte>, k: nat): Result<(seq<seq<byte>>, seq<byte>)> {
    if k == 0 then Ok(([], stream))
    else
      var (frame, rest) :- ReadFrame(stream);
      var (frames, rest) :- ReadFrames(rest, k - 1);
      Ok(([frame] + frames, rest))
  }

  lemma FrameFirst(frame: seq<byte>, rest: seq<byte>)
    requires IsFrame(frame)
    ensures ReadFrame(frame + rest) == Ok((frame, rest))
  {
    assert (frame + rest)[4..8] == frame[4..8];
  }

  /** As many reads as there are frames return them in order and leave the rest. */
  lemma {:induction false} FramesInOrder(frames: seq<seq<byte>>, rest: seq<byte>)
    requires forall i :: 0 <= i < |frames| ==> IsFrame(frames[i])
    ensures ReadFrames(Concat(frames) + rest, |frames|) == Ok((frames, rest))
  {
    if frames == [] {
      assert Concat(frames) + rest == rest;
    } else {
      assert Concat(frames) + rest == frames[0] + (Concat(frames[1..]) + rest);
      FrameFirst(frames[0], Concat(frames[1..]) + rest);
      FramesInOrder(frames[1..], rest);
      assert [frames[0]] + frames[1..] == frames;
    }
  }

  /** A read fails exactly when the stream ends inside a frame: when some frame is
      longer than it and starts with it. */
  lemma FailsInsideFrame(stream: seq<byte>)
    ensures ReadFrame(stream).Err? <==> exists frame :: IsFrame(frame) && stream < frame
  {
    if ReadFrame(stream).Err? {
      var frame;
      if |stream| < 8 {
        var header := stream + Zeros(8 - |stream|);
        frame := header + Zeros(UnpackU(header[4..8]));
        assert frame[4..8] == header[4..8];
      } else {
        frame := stream + Zeros(8 + UnpackU(stream[4..8]) - |stream|);
        assert frame[4..8] == stream[4..8];
      }
      assert IsFrame(frame) && stream < frame;
    }
    if frame :| IsFrame(frame) && stream < frame {
      if |stream| >= 8 {
        assert stream[4..8] == frame[4..8];
      }
    }
  }

  /** A message that was written is a frame. */
  lemma MessageIsFrame(tag: Tag, kind: Kind, v: Value)
    requires kind.StructK? && Writable(kind, v)
    ensures IsFrame(Encode(tag, kind, v))
  {
    hide Writable, Body, Radix;
    assert |Body(kind, v)| < Radix(4) by {
      assert Writable(kind, v);
      LengthFits(kind, v);
    }
    var s := Encode(tag, kind, v);
    HeaderFirst(tag, kind, v);
    assert s[4..8] == PackU(4, |Body(kind, v)|);
    PackUnpackU(4, |Body(kind, v)|);
  }

  lemma HeaderFirst(tag: Tag, kind: Kind, v: Value)
    requires kind.StructK?
    ensures Encode(tag, kind, v) == Header(tag, TypeCode(kind), |Body(kind, v)|) + Body(kind, v)
  {
    assert Body(kind, v) + Zeros(0) == Body(kind, v);
  }

  lemma LengthFits(kind: Kind, v: Value)
    requires Writable(kind, v)
    ensures |Body(kind, v)| < Radix(4)
  {
  }

  /** A message goes through the socket whole and can be decoded again, whatever
      else is sent behind it. */
  lemma MessageArrives(tag: Tag, kind: Kind, v: Value, rest: seq<byte>)
    requires WellFormed(kind) && IsTag(tag) && kind.StructK? && Writable(kind, v) && !HasStale(v)
    ensures var r := ReadFrame(Encode(tag, kind, v) + rest);
      && r.Ok? && r.value.1 == rest
      && Decode(tag, kind, r.value.0) == Ok((Aged(v), []))
  {
    MessageIsFrame(tag, kind, v);
    FrameFirst(Encode(tag, kind, v), rest);
    assert v.Struct?;
    StructureRoundTrip(tag, kind, v, []);
    assert Encode(tag, kind, v) + [] == Encode(tag, kind, v);
  }

  // ---- the socket and its reader

  /** A connection. Pending is everything the peer will still send; recv returns
      any nonempty part of it that fits, and nothing only at the end. */
  class Socket {
    var pending: seq<byte>

    constructor (pending: seq<byte>)
      ensures this.pending == pending
    {
      this.pending := pending;
    }

    method Recv(n: nat) returns (msg: seq<byte>)
      requires n > 0
      modifies this
      ensures msg + pending == old(pending) && |msg| <= n
      ensures msg == [] <==> old(pending) == []
    {
      if pending == [] {
        return [];
      }
      var size: nat :| 1 <= size <= n && size <= |pending|;
      msg := pending[..size];
      pending := pending[size..];
    }
  }

  class KMIPProtocol {
    const socket: Socket

    constructor (socket: Socket)
      ensures this.socket == socket
    {
      this.socket := socket;
    }

    /** As many bytes as asked for, or the number there were. */
    method RecvAll(total: nat) returns (r: Result<seq<byte>>)
      modifies socket
      ensures r == if total <= |old(socket.pending)| then Ok(old(socket.pending)[..total])
                   else Err(RequestLengthMismatch(total, |old(socket.pending)|))
      ensures socket.pending == if total <= |old(socket.pending)| then old(socket.pending)[total..] else []
    {
      var bytesRead := 0;
      var totalMsg: seq<byte> := [];
      while bytesRead < total
        invariant bytesRead == |totalMsg| <= total
        invariant totalMsg + socket.pending == old(socket.pending)
        decreases |socket.pending| + if bytesRead < total then 1 else 0
      {
        var msg := socket.Recv(total - bytesRead);
        if msg == [] {
          break;
        }
        bytesRead := bytesRead + |msg|;
        totalMsg := totalMsg + msg;
      }
      if bytesRead != total {
        return Err(RequestLengthMismatch(total, bytesRead));
      }
      r := Ok(totalMsg);
    }

    /** However the socket cuts the stream, exactly the next frame is read. */
    method Read() returns (r: Result<seq<byte>>)
      modifies socket
      ensures var frame := ReadFrame(old(socket.pending));
        && r == (if frame.Ok? then Ok(frame.value.0) else Err(frame.error))
        && socket.pending == (if frame.Ok? then frame.value.1 else [])
      ensures var stream := old(socket.pending);
        && (stream == [] ==> r == Err(EofError))
        && (0 < |stream| < 8 ==> r == Err(RequestLengthMismatch(8, |stream|)))
        && (|stream| >= 8 ==>
              var size := UnpackU(stream[4..8]);
              if |stream| < 8 + size then r == Err(RequestLengthMismatch(size, |stream| - 8))
              else r == Ok(stream[..8 + size]) && socket.pending == stream[8 + size..])
    {
      ghost var stream := socket.pending;
      var header := RecvAll(HEADER_SIZE);
      if header.Err? {
        var nothing := header.error.RequestLengthMismatch? && header.error.received == 0;
        return Err(if nothing then EofError else header.error);
      }
      var size := UnpackU(header.value[4..]);
      assert header.value[4..] == stream[4..8];
      var payload :- RecvAll(size);
      assert stream[..8] + stream[8..][..size] == stream[..8 + size];
      r := Ok(header.value + payload);
    }
  }
}
