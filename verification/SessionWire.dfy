/** What the peer of a session sees on the wire. */
module SessionWire {
  import opened Common
  import opened Bytes
  import opened Frames
  import opened FrameDecoding
  import opened SessionModel
  import opened SessionProofs
  import opened SessionTheorems

  // ---- whole frames only ------------------------------------------------------------------------

  /** A control frame is sent even where the configured limit is below its size. */
  function Limit(c: Config): nat {
    if c.maxFrame < HEADER_SIZE then HEADER_SIZE else c.maxFrame
  }

  ghost predicate IsWire(max: nat, bytes: seq<Byte>) {
    exists f :: Fits(f) && HEADER_SIZE + |f.body| <= max && bytes == Wire(f)
  }

  ghost predicate AllWire(max: nat, sends: seq<seq<Byte>>) {
    forall i :: 0 <= i < |sends| ==> IsWire(max, sends[i])
  }

  lemma ControlIsWire(max: nat, t: SType, id: Word32, byte2: Byte, byte3: Byte)
    requires max >= HEADER_SIZE
    ensures AllWire(max, [Control(t, id, byte2, byte3)])
  {
    var f := ControlFrame(t, id, byte2, byte3);
    assert Fits(f) && Control(t, id, byte2, byte3) == Wire(f);
  }

  lemma QueuedIsWire(c: Config, m: Message, id: Word32)
    requires QueueData(c, m, id).Ok?
    ensures AllWire(Limit(c), [QueueData(c, m, id).value])
  {
    var f := Outgoing(c, m, id, EncodedBody(m).value);
    assert Fits(f) && QueueData(c, m, id).value == Wire(f);
  }

  lemma RejectionIsWire(max: nat, f: Frame, reason: Byte)
    requires max >= HEADER_SIZE
    ensures AllWire(max, [Rejection(f, reason)])
  {
    var what := if reason == REJECT_PTYPE_NOT_SUPPORTED then f.header.ptype else f.header.stype;
    ControlIsWire(max, RejectReq, f.header.systemBytes, what, reason);
  }

  lemma TypedSendsFrames(c: Config, s: State, now: int, f: Frame, t: SType)
    ensures AllWire(Limit(c), HandleTyped(c, s, now, f, t).out.toSend)
  {
    var id := f.header.systemBytes;
    match t
    case Data => RejectionIsWire(Limit(c), f, REJECT_ENTITY_NOT_SELECTED);
    case SelectReq =>
      ControlIsWire(Limit(c), SelectRsp, id, 0, SELECT_OK);
      ControlIsWire(Limit(c), SelectRsp, id, 0, SELECT_ALREADY_ACTIVE);
    case DeselectReq =>
      ControlIsWire(Limit(c), DeselectRsp, id, 0, DESELECT_OK);
      ControlIsWire(Limit(c), DeselectRsp, id, 0, DESELECT_NOT_SELECTED);
    case LinktestReq => ControlIsWire(Limit(c), LinktestRsp, id, 0, 0);
    case LinktestRsp => RejectionIsWire(Limit(c), f, REJECT_TRANSACTION_NOT_OPEN);
    case SelectRsp => RejectionIsWire(Limit(c), f, REJECT_TRANSACTION_NOT_OPEN);
    case DeselectRsp => RejectionIsWire(Limit(c), f, REJECT_TRANSACTION_NOT_OPEN);
    case RejectReq =>
    case SeparateReq =>
  }

  lemma FrameSendsFrames(c: Config, s: State, now: int, f: Frame)
    ensures AllWire(Limit(c), HandleFrame(c, s, now, f).out.toSend)
  {
    if f.header.ptype != 0 {
      RejectionIsWire(Limit(c), f, REJECT_PTYPE_NOT_SUPPORTED);
    } else if STypeFromByte(f.header.stype).None? {
      RejectionIsWire(Limit(c), f, REJECT_STYPE_NOT_SUPPORTED);
    } else {
      TypedSendsFrames(c, s, now, f, STypeFromByte(f.header.stype).value);
    }
  }

  lemma {:induction false} FramesSendFrames(c: Config, s: State, now: int, frames: seq<Frame>)
    ensures AllWire(Limit(c), HandleFrames(c, s, now, frames).out.toSend)
    decreases |frames|
  {
    if frames != [] {
      FrameSendsFrames(c, s, now, frames[0]);
      FramesSendFrames(c, HandleFrame(c, s, now, frames[0]).s, now, frames[1..]);
    }
  }

  lemma JoinedSends(o: Outcome, l: Outcome)
    requires o.out.toSend == []
    ensures Join(o, l).out.toSend == l.out.toSend
  {
    assert [] + l.out.toSend == l.out.toSend;
  }

  /** A tick that does not close sends at most a Linktest.req. */
  lemma SurvivedTickSends(c: Config, s: State, now: int)
    requires CanAllocate(s.ids)
    ensures AllWire(Limit(c), SurvivedTick(c, s, now).out.toSend)
  {
    var o := ReportOverdue(s, now);
    FewerBlocked(s.ids, o.s.ids);
    var l := StartLinktest(c, o.s, now);
    assert AllWire(Limit(c), l.out.toSend) by {
      ControlIsWire(Limit(c), LinktestReq, Allocated(o.s.ids), 0, 0);
    }
    JoinedSends(o, l);
  }

  lemma TickSendsFrames(c: Config, s: State, now: int)
    requires CanAllocate(s.ids)
    ensures AllWire(Limit(c), OnTick(c, s, now).out.toSend)
  {
    SurvivedTickSends(c, s, now);
  }

  lemma StepSendsFrames(c: Config, s: State, call: Call)
    requires CanAllocate(s.ids)
    ensures AllWire(Limit(c), Step(c, s, call).out.toSend)
  {
    match call
    case CallConnect(now) =>
    case CallBytes(now, bytes) =>
      var (d, r) := Feed(c.maxFrame, s.decoder, bytes);
      if r.Ok? {
        FramesSendFrames(c, s.(lastActivity := now, decoder := d), now, r.value);
      }
    case CallTick(now) => TickSendsFrames(c, s, now);
    case CallDisconnect =>
    case CallRequest(now, m) =>
      if QueueData(c, m, Allocated(s.ids)).Ok? {
        QueuedIsWire(c, m, Allocated(s.ids));
      }
    case CallReply(id, m) =>
      if QueueData(c, m.(wBit := false), id).Ok? {
        QueuedIsWire(c, m.(wBit := false), id);
      }
  }

  /** Everything a run sends, in order. */
  function AllSends(outs: seq<Output>): seq<seq<Byte>> {
    if outs == [] then [] else outs[0].toSend + AllSends(outs[1..])
  }

  lemma {:induction false} RunSendsFrames(c: Config, s: State, calls: seq<Call>)
    requires Inv(c, s)
    ensures AllWire(Limit(c), AllSends(RunFrom(c, s, calls).outs))
    decreases |calls|
  {
    if calls != [] {
      StepKeeps(c, s, calls[0]);
      StepSendsFrames(c, s, calls[0]);
      var o := Step(c, s, calls[0]);
      RunSendsFrames(c, o.s, calls[1..]);
      var rest := RunFrom(c, o.s, calls[1..]).outs;
      assert ([o.out] + rest)[1..] == rest;
    }
  }

  /** The byte stream of these messages. */
  function Stream(sends: seq<seq<Byte>>): seq<Byte> {
    if sends == [] then [] else sends[0] + Stream(sends[1..])
  }

  /** The parse gives the frames that were sent, one for each message, and nothing else. */
  ghost predicate Returns(p: Parsed, sends: seq<seq<Byte>>) {
    && p.error == None && p.rest == [] && |p.frames| == |sends|
    && forall i :: 0 <= i < |sends| ==> Fits(p.frames[i]) && sends[i] == Wire(p.frames[i])
  }

  lemma ReturnsOneMore(f: Frame, p: Parsed, sends: seq<seq<Byte>>)
    requires sends != [] && Fits(f) && sends[0] == Wire(f) && Returns(p, sends[1..])
    ensures Returns(Prepend([f], p), sends)
  {
    var frames := [f] + p.frames;
    forall i | 0 <= i < |sends|
      ensures Fits(frames[i]) && sends[i] == Wire(frames[i])
    {
      if i > 0 {
        assert frames[i] == p.frames[i - 1] && sends[i] == sends[1..][i - 1];
      }
    }
  }

  lemma {:induction false} WholeFramesParse(max: nat, sends: seq<seq<Byte>>)
    requires AllWire(max, sends)
    ensures Returns(Parse(max, Stream(sends)), sends)
    decreases |sends|
  {
    if sends != [] {
      var f :| Fits(f) && HEADER_SIZE + |f.body| <= max && sends[0] == Wire(f);
      WholeFramesParse(max, sends[1..]);
      FrameParsesFirst(max, f, Stream(sends[1..]));
      ReturnsOneMore(f, Parse(max, Stream(sends[1..])), sends);
    }
  }

  /** All that a run sends is, to a peer with the same frame limit, exactly the frames of the messages,
      in order: no framing error, nothing left over. */
  lemma PeerReadsWholeFrames(c: Config, calls: seq<Call>)
    ensures var sends := AllSends(Run(c, calls).outs);
            Returns(Parse(Limit(c), Stream(sends)), sends)
  {
    InitInv(c);
    RunSendsFrames(c, Init(c), calls);
    WholeFramesParse(Limit(c), AllSends(Run(c, calls).outs));
  }

  // ---- answers to control frames ------------------------------------------------------------------

  /** The reason for which a frame is refused, if it is: 1 for its SType, 2 for its PType, 3 if it answers
      nothing, 4 while not selected. */
  function RefusalOf(s: State, f: Frame): Option<Byte> {
    if f.header.ptype != 0 then Some(2)
    else if f.header.stype == 8 || f.header.stype > 9 then Some(1)
    else if f.header.stype == 0 && s.link != Selected then Some(4)
    else if f.header.stype == 2 || f.header.stype == 4
            || (f.header.stype == 6 && s.ids.linktest != Some(f.header.systemBytes))
    then Some(3)
    else None
  }

  /** The SType byte of a frame on the wire. */
  function STypeOnWire(frame: seq<Byte>): Byte {
    if |frame| >= 14 then frame[9] else 0
  }

  /** A refused frame changes nothing and gets one Reject.req with its system bytes and the reason;
      any other frame gets no Reject.req. */
  lemma RefusedIff(c: Config, s: State, now: int, f: Frame)
    ensures RefusalOf(s, f).Some? ==>
              && HandleFrame(c, s, now, f).s == s
              && HandleFrame(c, s, now, f).out == NOTHING.(toSend := [Rejection(f, RefusalOf(s, f).value)])
    ensures RefusalOf(s, f).None? ==>
              forall i :: 0 <= i < |HandleFrame(c, s, now, f).out.toSend| ==>
                STypeOnWire(HandleFrame(c, s, now, f).out.toSend[i]) != STypeByte(RejectReq)
  {
    ControlSType(SelectRsp, f.header.systemBytes, 0, SELECT_OK);
    ControlSType(SelectRsp, f.header.systemBytes, 0, SELECT_ALREADY_ACTIVE);
    ControlSType(DeselectRsp, f.header.systemBytes, 0, DESELECT_OK);
    ControlSType(DeselectRsp, f.header.systemBytes, 0, DESELECT_NOT_SELECTED);
    ControlSType(LinktestRsp, f.header.systemBytes, 0, 0);
  }

  lemma ControlSType(t: SType, id: Word32, byte2: Byte, byte3: Byte)
    ensures STypeOnWire(Control(t, id, byte2, byte3)) == STypeByte(t)
  {
    var h := ControlFrame(t, id, byte2, byte3).header;
    assert HeaderBytes(h)[5] == h.stype;
  }

  /** reply is a control frame of this SType for these system bytes with this status in byte 3. */
  predicate IsReply(reply: seq<Byte>, stype: Byte, id: Word32, status: Byte) {
    |reply| == 14 && reply[9] == stype && reply[10..14] == Put32(id) && reply[7] == status
  }

  lemma ControlIsReply(t: SType, id: Word32, status: Byte)
    ensures IsReply(Control(t, id, 0, status), STypeByte(t), id, status)
  {
    ControlSType(t, id, 0, status);
    var h := ControlFrame(t, id, 0, status).header;
    assert HeaderBytes(h)[3] == status && HeaderBytes(h)[6..] == Put32(id);
    assert Control(t, id, 0, status)[10..14] == HeaderBytes(h)[6..];
  }

  /** Select.req and Deselect.req get one reply frame of the matching SType with their system bytes; the
      state afterwards is the one asked for, and the status byte is 0 exactly if it changed. */
  lemma StatusTellsTheChange(c: Config, s: State, now: int, f: Frame)
    requires s.link != NotConnected && f.header.ptype == 0
    requires f.header.stype == 1 || f.header.stype == 3
    ensures var o := HandleFrame(c, s, now, f);
            && o.s.link == (if f.header.stype == 1 then Selected else NotSelected)
            && |o.out.toSend| == 1
            && IsReply(o.out.toSend[0], f.header.stype + 1, f.header.systemBytes,
                       if o.s.link == s.link then 1 else 0)
            && (o.s.link == NotSelected && s.link == Selected ==> o.s.ids.open == map[])
  {
    ControlIsReply(SelectRsp, f.header.systemBytes, SELECT_OK);
    ControlIsReply(SelectRsp, f.header.systemBytes, SELECT_ALREADY_ACTIVE);
    ControlIsReply(DeselectRsp, f.header.systemBytes, DESELECT_OK);
    ControlIsReply(DeselectRsp, f.header.systemBytes, DESELECT_NOT_SELECTED);
  }

  // ---- frames byte by byte ------------------------------------------------------------------------

  /** bytes are one frame: length, session id, bytes 2 and 3, PType 0, SType, system bytes, then the body. */
  predicate IsFrame(
    bytes: seq<Byte>, session: Word16, byte2: Byte, byte3: Byte, stype: Byte, id: Word32, body: seq<Byte>
  ) {
    var n := 10 + |body|;
    && |bytes| == 4 + n && n < 0x1_0000_0000
    && bytes[0] == n / 0x100_0000 && bytes[1] == n / 0x1_0000 % 0x100
    && bytes[2] == n / 0x100 % 0x100 && bytes[3] == n % 0x100
    && bytes[4] == session / 0x100 && bytes[5] == session % 0x100
    && bytes[6] == byte2 && bytes[7] == byte3 && bytes[8] == 0 && bytes[9] == stype
    && bytes[10] == id / 0x100_0000 && bytes[11] == id / 0x1_0000 % 0x100
    && bytes[12] == id / 0x100 % 0x100 && bytes[13] == id % 0x100
    && bytes[14..] == body
  }

  lemma WireIsFrame(f: Frame)
    requires Fits(f) && f.header.ptype == 0
    ensures IsFrame(Wire(f), f.header.sessionId, f.header.byte2, f.header.byte3, f.header.stype,
                    f.header.systemBytes, f.body)
  {
    var h := HeaderBytes(f.header);
    var n := Put32(HEADER_SIZE + |f.body|);
    assert forall i :: 0 <= i < 4 ==> Wire(f)[i] == n[i];
    assert forall i :: 4 <= i < 14 ==> Wire(f)[i] == h[i - 4];
    assert h[2] == f.header.byte2 && h[3] == f.header.byte3 && h[4] == f.header.ptype && h[5] == f.header.stype;
    assert forall i :: 6 <= i < 10 ==> h[i] == Put32(f.header.systemBytes)[i - 6];
  }

  /** A reply is accepted exactly while selected, with a body that can be encoded and fits; it is one frame
      with the system bytes of the request and no W-bit, and no field changes. */
  lemma ReplyOnWire(c: Config, s: State, id: Word32, m: Message)
    ensures var r, body := SendReply(c, s, id, m), EncodedBody(m);
            && r.o.s == s
            && (r.result.Ok? <==> s.link == Selected && body.Ok? && 10 + |body.value| <= c.maxFrame
                                  && 10 + |body.value| < 0x1_0000_0000)
            && (if r.result.Ok? then
                  && |r.o.out.toSend| == 1
                  && IsFrame(r.o.out.toSend[0], c.deviceId, m.stream % 128, m.fun, 0, id, body.value)
                else r.o.out.toSend == [])
  {
    var reply := m.(wBit := false);
    assert EncodedBody(reply) == EncodedBody(m);
    if QueueData(c, reply, id).Ok? {
      WireIsFrame(Outgoing(c, reply, id, EncodedBody(m).value));
    }
  }

  /** A request that is accepted is one frame with its stream, function, W-bit and new system bytes. */
  lemma RequestOnWire(c: Config, s: State, now: int, m: Message)
    requires CanAllocate(s.ids) && SendRequest(c, s, now, m).result.Ok?
    ensures var r, body := SendRequest(c, s, now, m), EncodedBody(m);
            && body.Ok? && |r.o.out.toSend| == 1
            && IsFrame(r.o.out.toSend[0], c.deviceId, if m.wBit then 128 + m.stream % 128 else m.stream % 128,
                       m.fun, 0, r.result.value, body.value)
  {
    WireIsFrame(Outgoing(c, m, Allocated(s.ids), EncodedBody(m).value));
  }

  /** Linktest.req is answered with Linktest.rsp for its system bytes, and nothing changes. */
  lemma LinktestIsAnswered(c: Config, s: State, now: int, f: Frame)
    requires f.header.ptype == 0 && f.header.stype == 5
    ensures var o := HandleFrame(c, s, now, f);
            && o.s == s && |o.out.toSend| == 1
            && IsFrame(o.out.toSend[0], 0xFFFF, 0, 0, 6, f.header.systemBytes, [])
  {
    WireIsFrame(ControlFrame(LinktestRsp, f.header.systemBytes, 0, 0));
  }

  /** The Reject.req of a refused frame names its SType, or its PType if that is the reason, in byte 2 and
      the reason in byte 3. */
  lemma RejectionOnWire(f: Frame, reason: Byte)
    ensures IsFrame(Rejection(f, reason), 0xFFFF, if reason == 2 then f.header.ptype else f.header.stype, reason, 7,
                    f.header.systemBytes, [])
  {
    var what := if reason == REJECT_PTYPE_NOT_SUPPORTED then f.header.ptype else f.header.stype;
    WireIsFrame(ControlFrame(RejectReq, f.header.systemBytes, what, reason));
  }
}
