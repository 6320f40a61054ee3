/**
 The IVF demuxer for VP9 and AV1: a 32-byte DKIF header, then frames of a 12-byte
 header and a payload. A frame on which the key frame test fails stops the reader.
 */
module Ivf {
  import opened Streams
  import opened Keyframes

  const MAX_FRAME: nat := 32 * MIB

  const DKIF: Bytes := [0x44, 0x4B, 0x49, 0x46]

  datatype Codec = VP9 | AV1 | OtherCodec

  datatype Frame = Frame(data: Bytes, key: bool)

  // Open: waiting for more; Rejected: bad signature or size, the reader returned;
  // Failed: the key frame test went out of range, the reader panicked.
  datatype Status = Open | Rejected | Failed

  datatype Demuxed = Demuxed(frames: seq<Frame>, status: Status)

  function Test(codec: Codec, frame: Bytes): Verdict {
    match codec
    case VP9 => if Vp9Key(frame) then Key else Delta
    case AV1 => Walk(frame, 0)
    case OtherCodec => Delta
  }

  method IsVideoKeyframe(codec: Codec, frame: Bytes) returns (verdict: Verdict)
    ensures verdict == Test(codec, frame)
  {
    match codec {
      case VP9 =>
        var key := Vp9IsKeyframe(frame);
        verdict := if key then Key else Delta;
      case AV1 =>
        verdict := Av1IsKeyframe(frame);
      case OtherCodec =>
        verdict := Delta;
    }
  }

  // ----- one-shot parse

  function Prepend(f: Frame, rest: Demuxed): Demuxed {
    rest.(frames := [f] + rest.frames)
  }

  function Frames(codec: Codec, b: Bytes): Demuxed
    decreases |b|
  {
    if |b| < 12 then Demuxed([], Open)
    else
      var size := Le32(b, 0);
      if size > MAX_FRAME then Demuxed([], Rejected)
      else if |b| < 12 + size then Demuxed([], Open)
      else
        var data := b[12..12 + size];
        var verdict := Test(codec, data);
        if verdict == OutOfRange then Demuxed([], Failed)
        else Prepend(Frame(data, verdict == Key), Frames(codec, b[12 + size..]))
  }

  function File(codec: Codec, b: Bytes): Demuxed {
    if |b| < 32 then Demuxed([], Open)
    else if b[0..4] != DKIF then Demuxed([], Rejected)
    else Frames(codec, b[32..])
  }

  // Delivered so far, followed by what the undecided bytes hold.
  function Onto(frames: seq<Frame>, rest: Demuxed): Demuxed {
    rest.(frames := frames + rest.frames)
  }

  lemma FrameStable(codec: Codec, b: Bytes, more: Bytes)
    requires |b| >= 12
    ensures Le32(b + more, 0) == Le32(b, 0)
    ensures 12 + Le32(b, 0) <= |b| ==>
              var n := 12 + Le32(b, 0);
              (b + more)[12..n] == b[12..n] && (b + more)[n..] == b[n..] + more
  {
  }

  lemma OntoPrepend(frames: seq<Frame>, f: Frame, rest: Demuxed)
    ensures Onto(frames, Prepend(f, rest)) == Onto(frames + [f], rest)
  {
    Assoc(frames, [f], rest.frames);
  }

  // ----- the reader

  /** The inner loop: deliver every frame that is all there. */
  method Extract(codec: Codec, buf: Bytes, frames: seq<Frame>, ghost more: Bytes)
    returns (buf': Bytes, frames': seq<Frame>, status: Status)
    ensures Onto(frames, Frames(codec, buf + more)) ==
            if status == Open then Onto(frames', Frames(codec, buf' + more)) else Demuxed(frames', status)
    ensures status == Open ==> Frames(codec, buf') == Demuxed([], Open)
  {
    buf', frames', status := buf, frames, Open;
    while true
      invariant status == Open
      invariant Onto(frames, Frames(codec, buf + more)) == Onto(frames', Frames(codec, buf' + more))
      decreases |buf'|
    {
      if |buf'| < 12 {
        break;
      }
      FrameStable(codec, buf', more);
      var size := Le32(buf', 0);
      if size > MAX_FRAME {
        status := Rejected;
        assert frames' + [] == frames';
        break;
      }
      if |buf'| < 12 + size {
        break;
      }
      var frame := buf'[12..12 + size];
      var key := IsVideoKeyframe(codec, frame);
      if key == OutOfRange {
        status := Failed;
        assert frames' + [] == frames';
        break;
      }
      OntoPrepend(frames', Frame(frame, key == Key), Frames(codec, buf'[12 + size..] + more));
      frames' := frames' + [Frame(frame, key == Key)];
      buf' := buf'[12 + size..];
    }
  }

  /** For every cutting, and for every stream, the reader delivers what the one-shot parse of
      the whole stream finds, and stops where that stops. */
  method ReadIVFFrames(codec: Codec, chunks: seq<Bytes>) returns (frames: seq<Frame>, status: Status)
    ensures Demuxed(frames, status) == File(codec, Flatten(chunks))
  {
    frames, status := [], Open;
    var buf: Bytes := [];
    var headerSkipped := false;
    ghost var goal := File(codec, Flatten(chunks));
    var k := 0;
    assert chunks[0..] == chunks;
    assert [] + Flatten(chunks) == Flatten(chunks);
    while k < |chunks|
      invariant k <= |chunks| && status == Open
      invariant !headerSkipped ==>
                  frames == [] && |buf| < 32 && goal == File(codec, buf + Flatten(chunks[k..]))
      invariant headerSkipped ==>
                  && goal == Onto(frames, Frames(codec, buf + Flatten(chunks[k..])))
                  && Frames(codec, buf) == Demuxed([], Open)
    {
      ghost var more := Flatten(chunks[k + 1..]);
      assert chunks[k..][1..] == chunks[k + 1..];
      Assoc(buf, chunks[k], more);
      buf := buf + chunks[k];
      k := k + 1;
      if !headerSkipped {
        if |buf| < 32 {
          continue;
        }
        assert (buf + more)[0..4] == buf[0..4];
        if buf[0..4] != DKIF {
          return frames, Rejected;
        }
        assert (buf + more)[32..] == buf[32..] + more;
        buf := buf[32..];
        headerSkipped := true;
        EmptyOnto(Frames(codec, buf + more));
      }
      buf, frames, status := Extract(codec, buf, frames, more);
      if status != Open {
        return;
      }
    }
    assert buf + [] == buf;
    assert frames + [] == frames;
  }

  lemma EmptyOnto(d: Demuxed)
    ensures Onto([], d) == d
  {
    assert [] + d.frames == d.frames;
  }

  // ----- round trip

  // One muxed frame: an eight-byte timestamp and the payload.
  datatype Packet = Packet(stamp: Bytes, data: Bytes)

  ghost predicate AllFit(ps: seq<Packet>) {
    forall i :: 0 <= i < |ps| ==> |ps[i].stamp| == 8 && |ps[i].data| <= MAX_FRAME
  }

  ghost function Muxed(ps: seq<Packet>): Bytes
    requires AllFit(ps)
  {
    if ps == [] then []
    else PutLe32(|ps[0].data|) + ps[0].stamp + ps[0].data + Muxed(ps[1..])
  }

  /** The packets with their flags and then `rest`, up to the first packet on which the key
      frame test fails. */
  function Expected(codec: Codec, ps: seq<Packet>, rest: Demuxed): Demuxed {
    if ps == [] then rest
    else if Test(codec, ps[0].data) == OutOfRange then Demuxed([], Failed)
    else Prepend(Frame(ps[0].data, Test(codec, ps[0].data) == Key), Expected(codec, ps[1..], rest))
  }

  lemma {:induction false} FramesOfMuxed(codec: Codec, ps: seq<Packet>, tail: Bytes)
    requires AllFit(ps)
    ensures Frames(codec, Muxed(ps) + tail) == Expected(codec, ps, Frames(codec, tail))
  {
    hide Test;
    if ps == [] {
      assert [] + tail == tail;
    } else {
      OnePacket(ps[0], Muxed(ps[1..]) + tail);
      FramesOfMuxed(codec, ps[1..], tail);
      Assoc(PutLe32(|ps[0].data|) + ps[0].stamp + ps[0].data, Muxed(ps[1..]), tail);
    }
  }

  lemma OnePacket(p: Packet, more: Bytes)
    requires |p.stamp| == 8 && |p.data| <= MAX_FRAME
    ensures var b, size := PutLe32(|p.data|) + p.stamp + p.data + more, |p.data|;
            |b| >= 12 + size && Le32(b, 0) == size && b[12..12 + size] == p.data && b[12 + size..] == more
  {
    var b, size := PutLe32(|p.data|) + p.stamp + p.data + more, |p.data|;
    Le32RoundTrip(size);
    assert b[..4] == PutLe32(size);
    assert Le32(b, 0) == Le32(b[..4], 0);
  }

  ghost predicate NoneFails(codec: Codec, ps: seq<Packet>) {
    forall i :: 0 <= i < |ps| ==> Test(codec, ps[i].data) != OutOfRange
  }

  // The packets as delivered frames.
  ghost predicate Flagged(codec: Codec, ps: seq<Packet>, frames: seq<Frame>) {
    |frames| == |ps| && forall i :: 0 <= i < |ps| ==> frames[i] == Frame(ps[i].data, Test(codec, ps[i].data) == Key)
  }

  lemma {:induction false} ExpectedAll(codec: Codec, ps: seq<Packet>, frames: seq<Frame>, rest: Demuxed)
    requires Flagged(codec, ps, frames)
    ensures NoneFails(codec, ps) ==> Expected(codec, ps, rest) == Onto(frames, rest)
    ensures !NoneFails(codec, ps) ==> Expected(codec, ps, rest).status == Failed
  {
    hide Test;
    if ps == [] {
      EmptyOnto(rest);
    } else {
      ExpectedAll(codec, ps[1..], frames[1..], rest);
      assert forall i :: 0 < i < |ps| ==> ps[i] == ps[1..][i - 1];
      assert forall i :: 0 <= i < |ps| - 1 ==> ps[1..][i] == ps[i + 1];
      assert frames == [frames[0]] + frames[1..];
      Assoc([frames[0]], frames[1..], rest.frames);
    }
  }

  /** Muxed frames behind any DKIF header and followed by any bytes: the frames come out in
      order, each with its flag, and then what the bytes hold, provided the key frame test
      fails on none. */
  lemma MuxedThen(codec: Codec, header: Bytes, ps: seq<Packet>, frames: seq<Frame>, tail: Bytes)
    requires |header| == 32 && header[0..4] == DKIF && AllFit(ps) && Flagged(codec, ps, frames)
    ensures var d := File(codec, header + (Muxed(ps) + tail));
            if NoneFails(codec, ps) then d == Onto(frames, Frames(codec, tail)) else d.status == Failed
  {
    var b := header + (Muxed(ps) + tail);
    assert b[0..4] == header[0..4];
    assert b[32..] == Muxed(ps) + tail;
    FramesOfMuxed(codec, ps, tail);
    ExpectedAll(codec, ps, frames, Frames(codec, tail));
  }

  /** Muxing frames and demuxing them under any cutting gives back the frames with their
      flags if and only if the key frame test fails on none. */
  lemma RoundTrip(codec: Codec, header: Bytes, ps: seq<Packet>, frames: seq<Frame>)
    requires |header| == 32 && header[0..4] == DKIF && AllFit(ps) && Flagged(codec, ps, frames)
    ensures File(codec, header + Muxed(ps)) == Demuxed(frames, Open) <==> NoneFails(codec, ps)
  {
    MuxedThen(codec, header, ps, frames, []);
    assert Muxed(ps) + [] == Muxed(ps);
    assert frames + [] == frames;
  }

  /** A file of one AV1 frame, a lone header byte with both flags: the reader panics. */
  lemma LoneHeaderStops(header: Bytes, stamp: Bytes)
    requires |header| == 32 && header[0..4] == DKIF && |stamp| == 8
    ensures File(AV1, header + Muxed([Packet(stamp, [0x06])])) == Demuxed([], Failed)
  {
    var ps := [Packet(stamp, [0x06])];
    var b := header + Muxed(ps);
    assert b[0..4] == header[0..4] && b[32..] == Muxed(ps) == Muxed(ps) + [];
    FramesOfMuxed(AV1, ps, []);
    LoneHeaderFails();
  }

  /** An oversized length after muxed frames: the frames are delivered, then the reader
      gives up, whatever follows. */
  lemma OversizedStops(codec: Codec, header: Bytes, ps: seq<Packet>, frames: seq<Frame>, tail: Bytes)
    requires |header| == 32 && header[0..4] == DKIF && AllFit(ps) && Flagged(codec, ps, frames)
    requires NoneFails(codec, ps) && |tail| >= 12 && Le32(tail, 0) > MAX_FRAME
    ensures File(codec, header + (Muxed(ps) + tail)) == Demuxed(frames, Rejected)
  {
    MuxedThen(codec, header, ps, frames, tail);
    assert frames + [] == frames;
  }
}
