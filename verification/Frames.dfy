/** src/secsgem/hsms/frame.cpp: HSMS frames and their encoding. */
module Frames {
  import opened Common
  import opened Bytes

  const LENGTH_FIELD_SIZE := 4
  const HEADER_SIZE := 10
  const CONTROL_SESSION_ID := 0xFFFF

  const ERR_FRAME_TOO_SHORT := 400
  const ERR_FRAME_TOO_LONG := 401
  const ERR_FRAME_TOO_BIG := 402

  type Word16 = x: int | 0 <= x < 0x1_0000
  type Word32 = x: int | 0 <= x < 0x1_0000_0000

  datatype SType =
    Data | SelectReq | SelectRsp | DeselectReq | DeselectRsp | LinktestReq | LinktestRsp
    | RejectReq | SeparateReq

  datatype Header = Header(sessionId: Word16, byte2: Byte, byte3: Byte, ptype: Byte, stype: Byte,
                           systemBytes: Word32)

  datatype Frame = Frame(header: Header, body: seq<Byte>)

  function STypeByte(t: SType): Byte {
    match t
    case Data => 0
    case SelectReq => 1
    case SelectRsp => 2
    case DeselectReq => 3
    case DeselectRsp => 4
    case LinktestReq => 5
    case LinktestRsp => 6
    case RejectReq => 7
    case SeparateReq => 9
  }

  function STypeFromByte(b: Byte): Option<SType> {
    match b
    case 0 => Some(Data)
    case 1 => Some(SelectReq)
    case 2 => Some(SelectRsp)
    case 3 => Some(DeselectReq)
    case 4 => Some(DeselectRsp)
    case 5 => Some(LinktestReq)
    case 6 => Some(LinktestRsp)
    case 7 => Some(RejectReq)
    case 9 => Some(SeparateReq)
    case _ => None
  }

  /** The SType bytes that are understood are exactly the ones that are sent. */
  lemma STypeRoundTrip(b: Byte, t: SType)
    ensures STypeFromByte(b) == Some(t) <==> b == STypeByte(t)
  {
  }

  function ControlFrame(t: SType, systemBytes: Word32, byte2: Byte, byte3: Byte): Frame {
    Frame(Header(CONTROL_SESSION_ID, byte2, byte3, 0, STypeByte(t), systemBytes), [])
  }

  /** Byte 2 of a data message: the W-bit above the seven stream bits. */
  function StreamByte(stream: Byte, wBit: bool): Byte {
    stream % 128 + if wBit then 128 else 0
  }

  function DataFrame(sessionId: Word16, stream: Byte, function_: Byte, wBit: bool,
                     systemBytes: Word32, body: seq<Byte>): Frame {
    Frame(Header(sessionId, StreamByte(stream, wBit), function_, 0, STypeByte(Data), systemBytes), body)
  }

  /** put_be16 and put_be32: the bytes of a word, highest first. */
  function Put16(v: Word16): seq<Byte> {
    [v / 0x100, v % 0x100]
  }

  function Put32(v: Word32): seq<Byte> {
    [v / 0x100_0000, v / 0x1_0000 % 0x100, v / 0x100 % 0x100, v % 0x100]
  }

  /** load_be16 and load_be32. */
  function Get16(b0: Byte, b1: Byte): Word16 {
    0x100 * b0 + b1
  }

  function Get32(b0: Byte, b1: Byte, b2: Byte, b3: Byte): Word32 {
    0x100_0000 * b0 + 0x1_0000 * b1 + 0x100 * b2 + b3
  }

  lemma WordReadsBack(v: Word32)
    ensures var s := Put32(v); Get32(s[0], s[1], s[2], s[3]) == v
  {
    var a, b := v / 0x100, v / 0x1_0000;
    assert b == a / 0x100 && v / 0x100_0000 == b / 0x100;
    assert v == 0x100 * a + v % 0x100 && a == 0x100 * b + a % 0x100;
    assert b == 0x100 * (b / 0x100) + b % 0x100;
  }

  lemma WordWritesBack(b0: Byte, b1: Byte, b2: Byte, b3: Byte)
    ensures Put32(Get32(b0, b1, b2, b3)) == [b0, b1, b2, b3]
  {
    var v := Get32(b0, b1, b2, b3);
    assert v / 0x100 == 0x1_0000 * b0 + 0x100 * b1 + b2;
    assert v / 0x1_0000 == 0x100 * b0 + b1;
  }

  /** The ten header bytes. */
  function HeaderBytes(h: Header): (s: seq<Byte>)
    ensures |s| == HEADER_SIZE
  {
    Put16(h.sessionId) + [h.byte2, h.byte3, h.ptype, h.stype] + Put32(h.systemBytes)
  }

  /** A frame fits the 32-bit length field. */
  predicate Fits(f: Frame) {
    HEADER_SIZE + |f.body| < 0x1_0000_0000
  }

  function EncodeFrame(f: Frame): Result<seq<Byte>> {
    if Fits(f) then Ok(Wire(f)) else Err(ERR_FRAME_TOO_BIG)
  }

  /** The bytes of a frame: length, header, body. */
  function Wire(f: Frame): seq<Byte>
    requires Fits(f)
  {
    Put32(HEADER_SIZE + |f.body|) + HeaderBytes(f.header) + f.body
  }

  /** put_be32: one shifted and masked byte per turn. */
  method AppendWord(v: Word32, out: seq<Byte>) returns (r: seq<Byte>)
    ensures r == out + Put32(v)
  {
    r := out;
    var divisor := 0x100_0000;
    for i := 0 to 4
      invariant r == out + Put32(v)[..i]
      invariant i == 0 ==> divisor == 0x100_0000
      invariant i == 1 ==> divisor == 0x1_0000
      invariant i == 2 ==> divisor == 0x100
      invariant i == 3 ==> divisor == 1
    {
      r := r + [v / divisor % 0x100];
      divisor := divisor / 0x100;
    }
  }

  /** encode_frame appends the fields one after another. */
  method EncodeFrameTo(f: Frame) returns (r: Result<seq<Byte>>)
    ensures r == EncodeFrame(f)
  {
    var length := HEADER_SIZE + |f.body|;
    if length > 0xFFFF_FFFF {
      return Err(ERR_FRAME_TOO_BIG);
    }
    var out := AppendWord(length, []);
    out := out + Put16(f.header.sessionId);
    out := out + [f.header.byte2];
    out := out + [f.header.byte3];
    out := out + [f.header.ptype];
    out := out + [f.header.stype];
    out := AppendWord(f.header.systemBytes, out);
    out := out + f.body;
    assert out == Wire(f);
    r := Ok(out);
  }
}

/** src/secsgem/hsms/frame_decoder.cpp: the incremental parser of a stream of frames. */
module FrameDecoding {
  import opened Common
  import opened Bytes
  import opened Frames

  /** The header that follows the length field, read field by field. */
  function ReadHeader(s: seq<Byte>): Header
    requires |s| >= LENGTH_FIELD_SIZE + HEADER_SIZE
  {
    Header(Get16(s[4], s[5]), s[6], s[7], s[8], s[9], Get32(s[10], s[11], s[12], s[13]))
  }

  /** What a whole stream contains: frames, then an unfinished rest or a framing error. */
  datatype Parsed = Parsed(frames: seq<Frame>, rest: seq<Byte>, error: Option<int>)

  function LengthError(max: nat, length: nat): Option<int> {
    if length < HEADER_SIZE then Some(ERR_FRAME_TOO_SHORT)
    else if length > max then Some(ERR_FRAME_TOO_LONG)
    else None
  }

  /** What the front of the buffer holds: too little, a bad length, or a frame and its size. */
  datatype Cut = NeedMore | Bad(code: int) | Got(frame: Frame, size: nat)

  function FirstCut(max: nat, s: seq<Byte>): (c: Cut)
    ensures c.Got? ==> LENGTH_FIELD_SIZE + HEADER_SIZE <= c.size <= |s|
  {
    if |s| < LENGTH_FIELD_SIZE then NeedMore
    else
      var length := Get32(s[0], s[1], s[2], s[3]);
      if LengthError(max, length).Some? then Bad(LengthError(max, length).value)
      else if |s| < LENGTH_FIELD_SIZE + length then NeedMore
      else Got(Frame(ReadHeader(s), s[14..4 + length]), 4 + length)
  }

  function Parse(max: nat, s: seq<Byte>): Parsed
    decreases |s|
  {
    match FirstCut(max, s)
    case NeedMore => Parsed([], s, None)
    case Bad(code) => Parsed([], s, Some(code))
    case Got(frame, size) => Prepend([frame], Parse(max, s[size..]))
  }

  function Prepend(frames: seq<Frame>, p: Parsed): Parsed {
    p.(frames := frames + p.frames)
  }

  lemma PrependTwice(a: seq<Frame>, b: seq<Frame>, p: Parsed)
    ensures Prepend(a, Prepend(b, p)) == Prepend(a + b, p)
  {
    assert a + (b + p.frames) == a + b + p.frames;
  }

  // ---- one feed -------------------------------------------------------------------------------

  /** The decoder's fields: the buffered bytes and the error that stopped it. */
  datatype Decoder = Decoder(buffer: seq<Byte>, error: Option<int>)

  const NEW := Decoder([], None)

  function Feed(max: nat, d: Decoder, bytes: seq<Byte>): (Decoder, Result<seq<Frame>>) {
    if d.error.Some? then (d, Err(d.error.value))
    else
      var p := Parse(max, d.buffer + bytes);
      if p.error.Some? then (Decoder(d.buffer + bytes, p.error), Err(p.error.value))
      else (Decoder(p.rest, None), Ok(p.frames))
  }

  class FrameDecoder {
    const max: nat
    var buffer: seq<Byte>
    var failed: bool
    var error: int

    ghost function Value(): Decoder
      reads this
    {
      Decoder(buffer, if failed then Some(error) else None)
    }

    constructor (max: nat)
      ensures this.max == max && Value() == NEW
    {
      this.max, buffer, failed, error := max, [], false, 0;
    }

    method FeedBytes(bytes: seq<Byte>) returns (r: Result<seq<Frame>>)
      modifies this
      ensures (Value(), r) == Feed(max, old(Value()), bytes)
    {
      if failed {
        return Err(error);
      }
      buffer := buffer + bytes;
      var frames, offset, problem := TakeFrames(max, buffer);
      if problem.Some? {
        failed, error := true, problem.value;
        return Err(error);
      }
      buffer := buffer[offset..];
      r := Ok(frames);
    }
  }

  /** How one turn of the loop relates the frames found so far to what is left of the buffer. */
  lemma TurnOfLoop(max: nat, frames: seq<Frame>, rest: seq<Byte>, c: Cut)
    requires c == FirstCut(max, rest)
    ensures c.NeedMore? ==> Prepend(frames, Parse(max, rest)) == Parsed(frames, rest, None)
    ensures c.Bad? ==> Prepend(frames, Parse(max, rest)) == Parsed(frames, rest, Some(c.code))
    ensures c.Got? ==> Prepend(frames, Parse(max, rest))
                       == Prepend(frames + [c.frame], Parse(max, rest[c.size..]))
  {
    assert frames + [] == frames;
    if c.Got? {
      PrependTwice(frames, [c.frame], Parse(max, rest[c.size..]));
    }
  }

  /** The loop of feed: complete frames are cut off the front until none is left. */
  method TakeFrames(max: nat, buffer: seq<Byte>)
    returns (frames: seq<Frame>, offset: nat, problem: Option<int>)
    ensures offset <= |buffer|
    ensures Parse(max, buffer) == Parsed(frames, buffer[offset..], problem)
  {
    frames, offset, problem := [], 0, None;
    var p := buffer;
    var c := FirstCut(max, p);
    TurnOfLoop(max, frames, p, c);
    while c.Got?
      invariant offset <= |buffer| && p == buffer[offset..] && c == FirstCut(max, p)
      invariant Parse(max, buffer) ==
                match c
                case NeedMore => Parsed(frames, p, None)
                case Bad(code) => Parsed(frames, p, Some(code))
                case Got(frame, size) => Prepend(frames + [frame], Parse(max, p[size..]))
      decreases |p|
    {
      frames, offset := frames + [c.frame], offset + c.size;
      p := p[c.size..];
      c := FirstCut(max, p);
      TurnOfLoop(max, frames, p, c);
    }
    problem := if c.Bad? then Some(c.code) else None;
  }

  /** A header, field by field at its place in the bytes of a frame. */
  predicate IsHeaderOf(h: Header, s: seq<Byte>) {
    && |s| >= 14
    && h.sessionId == 0x100 * (s[4] as int) + s[5]
    && h.byte2 == s[6] && h.byte3 == s[7] && h.ptype == s[8] && h.stype == s[9]
    && h.systemBytes == 0x100_0000 * (s[10] as int) + 0x1_0000 * (s[11] as int) + 0x100 * (s[12] as int) + s[13]
  }

  lemma HeaderByPosition(s: seq<Byte>)
    requires |s| >= 14
    ensures IsHeaderOf(ReadHeader(s), s)
  {
  }

  /** The front of a stream, byte by byte: a length of four bytes, which may be missing, below 10, above the
      limit or ahead of the bytes that came; or a frame of ten header bytes and a body, then the rest. */
  lemma ParseByPosition(max: nat, s: seq<Byte>)
    ensures var p := Parse(max, s);
            if |s| < 4 then p == Parsed([], s, None)
            else
              var length := 0x100_0000 * (s[0] as int) + 0x1_0000 * (s[1] as int) + 0x100 * (s[2] as int) + s[3];
              if length < 10 then p == Parsed([], s, Some(400))
              else if length > max then p == Parsed([], s, Some(401))
              else if |s| < 4 + length then p == Parsed([], s, None)
              else
                var rest := Parse(max, s[4 + length..]);
                && p.frames != [] && p.frames[1..] == rest.frames
                && p.rest == rest.rest && p.error == rest.error
                && p.frames[0].body == s[14..4 + length] && IsHeaderOf(p.frames[0].header, s)
  {
    var c := FirstCut(max, s);
    if c.Got? {
      HeaderByPosition(s);
      var rest := Parse(max, s[c.size..]);
      assert ([c.frame] + rest.frames)[1..] == rest.frames;
    }
  }

  // ---- any split of the stream gives the same frames --------------------------------------------

  lemma {:induction false} ParseSplit(max: nat, s: seq<Byte>, t: seq<Byte>)
    ensures var p := Parse(max, s);
            if p.error.Some? then Parse(max, s + t).error == p.error && Parse(max, s + t).frames == p.frames
            else Parse(max, s + t) == Prepend(p.frames, Parse(max, p.rest + t))
    decreases |s|
  {
    var c := FirstCut(max, s);
    if c.Got? {
      var rest := s[c.size..];
      var q := Parse(max, rest);
      assert Parse(max, s + t) == Prepend([c.frame], Parse(max, rest + t)) by { FrontIsStable(max, s, t); }
      ParseSplit(max, rest, t);
      if q.error.None? {
        PrependTwice([c.frame], q.frames, Parse(max, q.rest + t));
      }
    } else if c.Bad? {
      FrontIsStable(max, s, t);
    }
  }

  /** Bytes that follow do not change a frame or an error that was found. */
  lemma FrontIsStable(max: nat, s: seq<Byte>, t: seq<Byte>)
    requires !FirstCut(max, s).NeedMore?
    ensures FirstCut(max, s + t) == FirstCut(max, s)
    ensures FirstCut(max, s).Got? ==>
              (s + t)[FirstCut(max, s).size..] == s[FirstCut(max, s).size..] + t
  {
    var c := FirstCut(max, s);
    if c.Got? {
      assert (s + t)[14..c.size] == s[14..c.size];
    }
  }

  function Concat(chunks: seq<seq<Byte>>): seq<Byte> {
    if chunks == [] then [] else Concat(chunks[..|chunks| - 1]) + chunks[|chunks| - 1]
  }

  /** The decoder after all feeds, and the result of each. */
  function FeedAll(max: nat, chunks: seq<seq<Byte>>): (Decoder, seq<Result<seq<Frame>>>) {
    if chunks == [] then (NEW, [])
    else
      var (d, results) := FeedAll(max, chunks[..|chunks| - 1]);
      var (d', r) := Feed(max, d, chunks[|chunks| - 1]);
      (d', results + [r])
  }

  /** The frames of the successful feeds, in order. */
  function Delivered(results: seq<Result<seq<Frame>>>): seq<Frame> {
    if results == [] then []
    else
      var last := results[|results| - 1];
      Delivered(results[..|results| - 1]) + if last.Ok? then last.value else []
  }

  lemma DeliveredMore(results: seq<Result<seq<Frame>>>, r: Result<seq<Frame>>)
    ensures Delivered(results + [r]) == Delivered(results) + if r.Ok? then r.value else []
  {
    assert (results + [r])[..|results|] == results;
  }

  /** What the feeds so far have made of the bytes so far. */
  ghost predicate Agrees(max: nat, s: seq<Byte>, d: Decoder, results: seq<Result<seq<Frame>>>) {
    var p := Parse(max, s);
    && d.error == p.error
    && (p.error.None? ==> d.buffer == p.rest && Delivered(results) == p.frames)
    && (p.error.Some? ==> Delivered(results) <= p.frames)
    && (forall i :: 0 <= i < |results| && results[i].Err? ==> p.error == Some(results[i].code))
  }

  lemma FeedAgrees(max: nat, s: seq<Byte>, d: Decoder, results: seq<Result<seq<Frame>>>, chunk: seq<Byte>)
    requires Agrees(max, s, d, results)
    ensures var (d', r) := Feed(max, d, chunk); Agrees(max, s + chunk, d', results + [r])
  {
    ParseSplit(max, s, chunk);
    DeliveredMore(results, Feed(max, d, chunk).1);
  }

  /**
   * However a stream is cut into feeds, the decoder agrees with one parse of the whole: without a
   * framing error the same frames and the same leftover, with one the same error and a prefix of
   * the frames.
   */
  lemma {:induction false} ChunkingIndependence(max: nat, chunks: seq<seq<Byte>>)
    ensures var (d, results) := FeedAll(max, chunks); Agrees(max, Concat(chunks), d, results)
    decreases |chunks|
  {
    if chunks != [] {
      var front := chunks[..|chunks| - 1];
      ChunkingIndependence(max, front);
      var (d, results) := FeedAll(max, front);
      FeedAgrees(max, Concat(front), d, results, chunks[|chunks| - 1]);
    }
  }

  /** The buffer never holds a whole frame of the largest size. */
  lemma {:induction false} LeftoverIsBounded(max: nat, s: seq<Byte>)
    ensures Parse(max, s).error.None? ==> |Parse(max, s).rest| < LENGTH_FIELD_SIZE + max
    decreases |s|
  {
    if FirstCut(max, s).Got? {
      LeftoverIsBounded(max, s[FirstCut(max, s).size..]);
    }
  }

  // ---- encoding and decoding are inverse ----------------------------------------------------------

  predicate AllFit(frames: seq<Frame>) {
    forall i :: 0 <= i < |frames| ==> Fits(frames[i])
  }

  function WireAll(frames: seq<Frame>): seq<Byte>
    requires AllFit(frames)
  {
    if frames == [] then [] else Wire(frames[0]) + WireAll(frames[1..])
  }

  lemma LengthOnWire(f: Frame, t: seq<Byte>)
    requires Fits(f)
    ensures var s := Wire(f) + t;
            Get32(s[0], s[1], s[2], s[3]) == HEADER_SIZE + |f.body|
  {
    var n := HEADER_SIZE + |f.body|;
    WordReadsBack(n);
    var s := Wire(f) + t;
    assert s[0] == Put32(n)[0] && s[1] == Put32(n)[1] && s[2] == Put32(n)[2] && s[3] == Put32(n)[3];
  }

  lemma HalfWordReadsBack(v: Word16)
    ensures Get16(Put16(v)[0], Put16(v)[1]) == v
  {
  }

  lemma HeaderByteOnWire(f: Frame, t: seq<Byte>, i: nat)
    requires Fits(f) && i < HEADER_SIZE
    ensures (Wire(f) + t)[4 + i] == HeaderBytes(f.header)[i]
  {
  }

  lemma HeaderFields(h: Header)
    ensures var b := HeaderBytes(h);
            && Get16(b[0], b[1]) == h.sessionId && b[2] == h.byte2 && b[3] == h.byte3
            && b[4] == h.ptype && b[5] == h.stype && Get32(b[6], b[7], b[8], b[9]) == h.systemBytes
  {
    var b := HeaderBytes(h);
    HalfWordReadsBack(h.sessionId);
    WordReadsBack(h.systemBytes);
    assert b[6] == Put32(h.systemBytes)[0] && b[7] == Put32(h.systemBytes)[1];
    assert b[8] == Put32(h.systemBytes)[2] && b[9] == Put32(h.systemBytes)[3];
  }

  lemma HeaderReadsBack(f: Frame, t: seq<Byte>)
    requires Fits(f)
    ensures ReadHeader(Wire(f) + t) == f.header
  {
    var s := Wire(f) + t;
    HeaderFields(f.header);
    forall i | 0 <= i < HEADER_SIZE
      ensures s[4 + i] == HeaderBytes(f.header)[i]
    {
      HeaderByteOnWire(f, t, i);
    }
    assert s[4 + 0] == s[4] && s[4 + 1] == s[5] && s[4 + 2] == s[6] && s[4 + 3] == s[7] && s[4 + 4] == s[8];
    assert s[4 + 5] == s[9] && s[4 + 6] == s[10] && s[4 + 7] == s[11] && s[4 + 8] == s[12] && s[4 + 9] == s[13];
  }

  lemma BodyOnWire(f: Frame, t: seq<Byte>)
    requires Fits(f)
    ensures var s, n := Wire(f) + t, HEADER_SIZE + |f.body|;
            |s| >= 4 + n && s[14..4 + n] == f.body && s[4 + n..] == t
  {
  }

  /** A frame on the wire is found at the front of any stream that starts with it. */
  lemma FrameParsesFirst(max: nat, f: Frame, t: seq<Byte>)
    requires HEADER_SIZE + |f.body| <= max && Fits(f)
    ensures Parse(max, Wire(f) + t) == Prepend([f], Parse(max, t))
  {
    LengthOnWire(f, t);
    HeaderReadsBack(f, t);
    BodyOnWire(f, t);
    assert FirstCut(max, Wire(f) + t) == Got(f, 4 + HEADER_SIZE + |f.body|);
  }

  /** The concatenated encodings of frames that fit decode to those frames and nothing is left. */
  lemma {:induction false} EncodedFramesDecode(max: nat, frames: seq<Frame>)
    requires AllFit(frames)
    requires forall i :: 0 <= i < |frames| ==> HEADER_SIZE + |frames[i].body| <= max
    ensures Parse(max, WireAll(frames)) == Parsed(frames, [], None)
    decreases |frames|
  {
    if frames != [] {
      EncodedFramesDecode(max, frames[1..]);
      FrameParsesFirst(max, frames[0], WireAll(frames[1..]));
    }
  }

  /** No byte is lost: the frames re-encode to what was consumed, and the rest follows. */
  lemma {:induction false} NoByteIsLost(max: nat, s: seq<Byte>)
    ensures AllFit(Parse(max, s).frames) && WireAll(Parse(max, s).frames) + Parse(max, s).rest == s
    decreases |s|
  {
    var c := FirstCut(max, s);
    if c.Got? {
      NoByteIsLost(max, s[c.size..]);
      FrameWritesBack(max, s);
      var p := Parse(max, s[c.size..]);
      WireAllCons(c.frame, p.frames, p.rest);
    }
  }

  lemma WireAllCons(f: Frame, frames: seq<Frame>, rest: seq<Byte>)
    requires Fits(f) && AllFit(frames)
    ensures AllFit([f] + frames)
    ensures WireAll([f] + frames) + rest == Wire(f) + (WireAll(frames) + rest)
  {
    assert ([f] + frames)[1..] == frames;
  }

  lemma HeaderWritesBack(s: seq<Byte>)
    requires |s| >= 14
    ensures HeaderBytes(ReadHeader(s)) == s[4..14]
  {
    WordWritesBack(s[10], s[11], s[12], s[13]);
    HalfWordWritesBack(s[4], s[5]);
    var b := HeaderBytes(ReadHeader(s));
    assert b[..2] == s[4..6] && b[2..6] == s[6..10] && b[6..] == s[10..14];
    assert b == b[..2] + b[2..6] + b[6..];
  }

  lemma HalfWordWritesBack(b0: Byte, b1: Byte)
    ensures Put16(Get16(b0, b1)) == [b0, b1]
  {
  }

  lemma InFourParts(s: seq<Byte>, n: nat)
    requires 14 <= 4 + n <= |s|
    ensures s[..4] + s[4..14] + s[14..4 + n] + s[4 + n..] == s
  {
  }

  lemma FrameWritesBack(max: nat, s: seq<Byte>)
    requires FirstCut(max, s).Got?
    ensures var c := FirstCut(max, s); Fits(c.frame) && Wire(c.frame) + s[c.size..] == s
  {
    var n := Get32(s[0], s[1], s[2], s[3]);
    WordWritesBack(s[0], s[1], s[2], s[3]);
    assert Put32(n) == s[..4];
    HeaderWritesBack(s);
    InFourParts(s, n);
  }
}
