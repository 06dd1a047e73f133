/** The length-prefixed frames of the audio socket: a header byte, an operation
    code, a big-endian u16 length, the payload. */
module Socket {
  import opened Chunks
  import opened Ints

  const HEADER: u8 := 0xAE
  const PAYLOAD_MAX: nat := 0xFFFF

  datatype Op = Audio | Transcript

  datatype Frame = Frame(op: Op, payload: Bytes)

  function OpCode(op: Op): u8 {
    match op case Audio => 1 case Transcript => 2
  }

  /** What decode makes of the bytes received so far. */
  datatype Outcome = NeedMore | Decoded(frame: Frame, rest: Bytes) | Invalid

  function LengthOf(high: u8, low: u8): nat {
    high as nat * 256 + low as nat
  }

  function DecodeFrame(src: Bytes): Outcome {
    if |src| < 4 then NeedMore
    else if src[0] != HEADER || src[1] !in {1, 2} then Invalid
    else
      var len := LengthOf(src[2], src[3]);
      if |src| < 4 + len then NeedMore
      else Decoded(Frame(if src[1] == 1 then Audio else Transcript, src[4..4 + len]), src[4 + len..])
  }

  /** The length field is the payload length truncated to sixteen bits. */
  function EncodeFrame(f: Frame): Bytes {
    var len := |f.payload| % 0x1_0000;
    [HEADER, OpCode(f.op), (len / 256) as u8, (len % 256) as u8] + f.payload
  }

  /** The receive buffer, consumed in place. */
  class Buffer {
    var bytes: Bytes

    constructor ()
      ensures bytes == []
    {
      bytes := [];
    }
  }

  /** Decoder::decode: an incomplete or invalid frame leaves the buffer untouched. */
  method Decode(src: Buffer) returns (o: Outcome)
    modifies src
    ensures o == DecodeFrame(old(src.bytes))
    ensures src.bytes == if o.Decoded? then o.rest else old(src.bytes)
  {
    if |src.bytes| < 4 {
      return NeedMore;
    }
    var header := src.bytes[0];
    if header != HEADER {
      return Invalid;
    }
    var op: Op;
    if src.bytes[1] == 1 {
      op := Audio;
    } else if src.bytes[1] == 2 {
      op := Transcript;
    } else {
      return Invalid;
    }
    var len := LengthOf(src.bytes[2], src.bytes[3]);
    if |src.bytes| < 4 + len {
      return NeedMore;
    }
    src.bytes := src.bytes[4..];
    var payload := src.bytes[..len];
    src.bytes := src.bytes[len..];
    return Decoded(Frame(op, payload), src.bytes);
  }

  /** Encoder::encode and msg_to_frame: appends one frame. */
  method Encode(f: Frame, dst: Buffer)
    modifies dst
    ensures dst.bytes == old(dst.bytes) + EncodeFrame(f)
  {
    var len := |f.payload| % 0x1_0000;
    dst.bytes := dst.bytes + [HEADER];
    dst.bytes := dst.bytes + [OpCode(f.op)];
    dst.bytes := dst.bytes + [(len / 256) as u8, (len % 256) as u8];
    dst.bytes := dst.bytes + f.payload;
  }

  // ----- Round trip of one frame -----

  /** A frame survives encoding exactly when its payload fits the length field. */
  lemma FrameRoundTripIff(f: Frame)
    ensures DecodeFrame(EncodeFrame(f)) == Decoded(f, []) <==> |f.payload| <= PAYLOAD_MAX
  {
    var e := EncodeFrame(f);
    var len := |f.payload| % 0x1_0000;
    assert LengthOf(e[2], e[3]) == len;
    assert e[4..] == f.payload;
    assert e[4..4 + len] == f.payload[..len];
    if |f.payload| <= PAYLOAD_MAX {
      assert f.payload[..len] == f.payload;
    }
  }

  /** Bytes that arrive later never change a decision already made. */
  lemma DecisionStands(a: Bytes, b: Bytes)
    ensures DecodeFrame(a).Invalid? ==> DecodeFrame(a + b).Invalid?
    ensures DecodeFrame(a).Decoded? ==>
              DecodeFrame(a + b) == Decoded(DecodeFrame(a).frame, DecodeFrame(a).rest + b)
  {
    if DecodeFrame(a).Decoded? {
      var n := 4 + LengthOf(a[2], a[3]);
      assert (a + b)[4..n] == a[4..n];
      assert (a + b)[n..] == a[n..] + b;
    }
  }

  // ----- A whole stream -----

  /** The frames of a byte stream, what is left over, and whether it ended on a
      frame that is not one. */
  datatype Parsed = Parsed(frames: seq<Frame>, rest: Bytes, invalid: bool)

  function Parse(bytes: Bytes): Parsed
    decreases |bytes|
  {
    match DecodeFrame(bytes)
    case NeedMore => Parsed([], bytes, false)
    case Invalid => Parsed([], bytes, true)
    case Decoded(f, rest) =>
      var p := Parse(rest);
      Parsed([f] + p.frames, p.rest, p.invalid)
  }

  /** What more bytes make of a parse. */
  function Resumed(p: Parsed, b: Bytes): Parsed {
    if p.invalid then Parsed(p.frames, p.rest + b, true)
    else var q := Parse(p.rest + b); Parsed(p.frames + q.frames, q.rest, q.invalid)
  }

  function Prefixed(f: Frame, p: Parsed): Parsed {
    p.(frames := [f] + p.frames)
  }

  lemma ParseFirst(bytes: Bytes, f: Frame, rest: Bytes)
    requires DecodeFrame(bytes) == Decoded(f, rest)
    ensures Parse(bytes) == Prefixed(f, Parse(rest))
  {
  }

  lemma PrefixedResumes(f: Frame, p: Parsed, b: Bytes)
    ensures Resumed(Prefixed(f, p), b) == Prefixed(f, Resumed(p, b))
  {
    if !p.invalid {
      var q := Parse(p.rest + b);
      assert [f] + p.frames + q.frames == [f] + (p.frames + q.frames);
    }
  }

  lemma NoFrameYet(a: Bytes, b: Bytes)
    requires !DecodeFrame(a).Decoded?
    ensures Parse(a + b) == Resumed(Parse(a), b)
  {
    DecisionStands(a, b);
    assert [] + Parse(a + b).frames == Parse(a + b).frames;
  }

  /** Parsing goes on from where the bytes so far left it. */
  lemma {:induction false} ParseResumes(a: Bytes, b: Bytes)
    ensures Parse(a + b) == Resumed(Parse(a), b)
    decreases |a|
  {
    if DecodeFrame(a).Decoded? {
      var f, rest := DecodeFrame(a).frame, DecodeFrame(a).rest;
      DecisionStands(a, b);
      ParseFirst(a, f, rest);
      ParseFirst(a + b, f, rest + b);
      ParseResumes(rest, b);
      PrefixedResumes(f, Parse(rest), b);
    } else {
      NoFrameYet(a, b);
    }
  }

  /** The framed reader: append each chunk, take frames until more bytes are
      needed, stop at the first invalid frame. Any chunking gives the frames of
      the joined stream, and leaves exactly its incomplete tail in the buffer. */
  method ReadFrames(chunks: seq<Bytes>) returns (frames: seq<Frame>, rest: Bytes, invalid: bool)
    ensures frames == Parse(Joined(chunks)).frames && invalid == Parse(Joined(chunks)).invalid
    ensures !invalid ==> rest == Parse(Joined(chunks)).rest
  {
    frames := [];
    var src := new Buffer();
    for i := 0 to |chunks|
      invariant fresh(src)
      invariant DecodeFrame(src.bytes).NeedMore?
      invariant Parse(Joined(chunks[..i])) == Parsed(frames, src.bytes, false)
    {
      assert chunks[..i + 1][..i] == chunks[..i];
      ParseResumes(Joined(chunks[..i]), chunks[i]);
      ghost var done := frames;
      src.bytes := src.bytes + chunks[i];
      ghost var p := Parse(src.bytes);
      frames, invalid := TakeFrames(src, frames);
      assert Parse(Joined(chunks[..i + 1])).frames == done + p.frames;
      if invalid {
        assert chunks == chunks[..i + 1] + chunks[i + 1..];
        JoinedAppend(chunks[..i + 1], chunks[i + 1..]);
        ParseResumes(Joined(chunks[..i + 1]), Joined(chunks[i + 1..]));
        return frames, src.bytes, true;
      }
    }
    assert chunks[..|chunks|] == chunks;
    return frames, src.bytes, false;
  }

  method TakeFrames(src: Buffer, before: seq<Frame>) returns (frames: seq<Frame>, invalid: bool)
    modifies src
    ensures frames == before + Parse(old(src.bytes)).frames
    ensures invalid == Parse(old(src.bytes)).invalid
    ensures src.bytes == Parse(old(src.bytes)).rest
    ensures !invalid ==> DecodeFrame(src.bytes).NeedMore?
  {
    frames := before;
    ghost var p := Parse(src.bytes);
    while true
      invariant p == Parsed(p.frames, Parse(src.bytes).rest, Parse(src.bytes).invalid)
      invariant before + p.frames == frames + Parse(src.bytes).frames
      decreases |src.bytes|
    {
      var o := Decode(src);
      match o
      case NeedMore => return frames, false;
      case Invalid => return frames, true;
      case Decoded(f, _) => frames := frames + [f];
    }
  }

  function EncodeAll(frames: seq<Frame>): Bytes {
    if frames == [] then [] else EncodeFrame(frames[0]) + EncodeAll(frames[1..])
  }

  lemma FirstFrame(f: Frame, rest: Bytes)
    requires |f.payload| <= PAYLOAD_MAX
    ensures Parse(EncodeFrame(f) + rest) == Prefixed(f, Parse(rest))
  {
    FrameRoundTripIff(f);
    DecisionStands(EncodeFrame(f), rest);
    assert [] + rest == rest;
    ParseFirst(EncodeFrame(f) + rest, f, rest);
  }

  /** Encoding any list of frames that fit and parsing the result, followed by any
      incomplete tail, gives back the list and the tail. With ReadFrames, this is
      so over every chunking of the encoded bytes. */
  lemma {:induction false} FramesRoundTrip(frames: seq<Frame>, tail: Bytes)
    requires forall i :: 0 <= i < |frames| ==> |frames[i].payload| <= PAYLOAD_MAX
    requires DecodeFrame(tail).NeedMore?
    ensures Parse(EncodeAll(frames) + tail) == Parsed(frames, tail, false)
    decreases |frames|
  {
    if frames == [] {
      assert EncodeAll(frames) + tail == tail;
    } else {
      var rest := EncodeAll(frames[1..]) + tail;
      assert EncodeAll(frames) + tail == EncodeFrame(frames[0]) + rest;
      FirstFrame(frames[0], rest);
      FramesRoundTrip(frames[1..], tail);
    }
  }

  // ----- The wire -----

  /** A frame as it is laid out: the header byte, 1 for audio or 2 for a transcript, the
      payload's length in two bytes, the high one first, and the payload. */
  ghost predicate IsFrame(bytes: Bytes, f: Frame) {
    && |bytes| == 4 + |f.payload| && bytes[0] == 0xAE
    && bytes[1] == (if f.op.Audio? then 1 else 2)
    && bytes[2] as nat * 256 + bytes[3] as nat == |f.payload|
    && bytes[4..] == f.payload
  }

  lemma FrameIsDecoded(bytes: Bytes, f: Frame, rest: Bytes)
    requires IsFrame(bytes, f)
    ensures DecodeFrame(bytes + rest) == Decoded(f, rest)
  {
    var src := bytes + rest;
    assert src[4..4 + |f.payload|] == bytes[4..];
    assert src[4 + |f.payload|..] == rest;
  }

  /** Exactly the bytes of a frame are taken, and nothing else is a frame. */
  lemma DecodesExactly(src: Bytes, f: Frame, rest: Bytes)
    ensures DecodeFrame(src) == Decoded(f, rest) <==> exists bytes :: src == bytes + rest && IsFrame(bytes, f)
    ensures DecodeFrame(src).Invalid? <==> |src| >= 4 && (src[0] != 0xAE || (src[1] != 1 && src[1] != 2))
  {
    if DecodeFrame(src) == Decoded(f, rest) {
      var n := 4 + |f.payload|;
      assert src == src[..n] + rest && src[..n][4..] == src[4..n];
      assert IsFrame(src[..n], f);
    }
    if exists bytes :: src == bytes + rest && IsFrame(bytes, f) {
      var bytes :| src == bytes + rest && IsFrame(bytes, f);
      FrameIsDecoded(bytes, f, rest);
    }
  }

  lemma EncodesTheWire(f: Frame)
    ensures IsFrame(EncodeFrame(f), f) <==> |f.payload| <= PAYLOAD_MAX
  {
    assert EncodeFrame(f)[4..] == f.payload;
  }
}
