/** What a peer of a session can work out from the calls, the bytes it has sent and what came back: which
    of its messages are delivered, and when a tick ends the connection. */
module SessionSeen {
  import opened Common
  import opened Bytes
  import opened Frames
  import opened FrameDecoding
  import opened SessionModel
  import opened SessionLedger
  import opened SessionProofs
  import opened SessionTheorems

  // ---- the observer -------------------------------------------------------------------------------------

  datatype Linktest = Linktest(id: Word32, sent: int)

  /** since: when the peer connected or was deselected last; read: when the last bytes came; activity: when
      anything was last read, asked or tested. */
  datatype Watch = Watch(link: Link, since: int, buffer: seq<Byte>, read: int, activity: int,
                         open: set<Word32>, linktest: Option<Linktest>)

  const START := Watch(NotConnected, 0, [], 0, 0, {}, None)

  function Lost(w: Watch): Watch {
    w.(link := NotConnected, buffer := [], open := {}, linktest := None)
  }

  function Settled(l: Option<Linktest>, id: Word32): Option<Linktest> {
    if l.Some? && l.value.id == id then None else l
  }

  /** A frame from the peer, by its PType and SType bytes. */
  function AfterFrame(w: Watch, now: int, f: Frame): Watch {
    var id, stype := f.header.systemBytes, f.header.stype;
    if f.header.ptype != 0 then w
    else if stype == 0 && w.link == Selected && f.header.byte3 % 2 == 0 then w.(open := w.open - {id})
    else if stype == 1 && w.link == NotSelected then w.(link := Selected)
    else if stype == 3 && w.link == Selected then w.(link := NotSelected, since := now, open := {})
    else if stype == 6 then w.(linktest := Settled(w.linktest, id))
    else if stype == 7 then w.(linktest := Settled(w.linktest, id), open := w.open - {id})
    else if stype == 9 then Lost(w)
    else w
  }

  /** A data frame is delivered as it came exactly while selected; it is a reply exactly if its function is
      even and its system bytes are those of an open request. */
  function DeliveredBy(w: Watch, f: Frame): seq<Delivery> {
    var id := f.header.systemBytes;
    if f.header.ptype == 0 && f.header.stype == 0 && w.link == Selected then
      [Delivery(f, if f.header.byte3 % 2 == 0 && id in w.open then Some(id) else None)]
    else []
  }

  /** Frames of one read, up to a close. */
  function AfterFrames(w: Watch, now: int, frames: seq<Frame>): Watch
    decreases |frames|
  {
    if frames == [] || w.link == NotConnected then w
    else AfterFrames(AfterFrame(w, now, frames[0]), now, frames[1..])
  }

  function DeliveredByAll(w: Watch, now: int, frames: seq<Frame>): seq<Delivery>
    decreases |frames|
  {
    if frames == [] || w.link == NotConnected then []
    else DeliveredBy(w, frames[0]) + DeliveredByAll(AfterFrame(w, now, frames[0]), now, frames[1..])
  }

  function BeforeFrames(w: Watch, now: int, rest: seq<Byte>): Watch {
    w.(buffer := rest, read := now, activity := now)
  }

  function AfterRead(c: Config, w: Watch, now: int, bytes: seq<Byte>): Watch {
    var p := Parse(c.maxFrame, w.buffer + bytes);
    if w.link == NotConnected then w
    else if p.error.Some? then Lost(w)
    else AfterFrames(BeforeFrames(w, now, p.rest), now, p.frames)
  }

  function DeliveredByRead(c: Config, w: Watch, now: int, bytes: seq<Byte>): seq<Delivery> {
    var p := Parse(c.maxFrame, w.buffer + bytes);
    if w.link == NotConnected || p.error.Some? then []
    else DeliveredByAll(BeforeFrames(w, now, p.rest), now, p.frames)
  }

  /** The system bytes in the header of a frame that was sent. */
  function IdOnWire(frame: seq<Byte>): Word32 {
    if |frame| < 14 then 0 else Get32(frame[10], frame[11], frame[12], frame[13])
  }

  /** A call and what it gave back. */
  function AfterCall(c: Config, w: Watch, call: Call, out: Output): Watch {
    match call
    case CallConnect(now) =>
      if w.link == NotConnected then Watch(NotSelected, now, [], now, now, {}, None) else w
    case CallBytes(now, bytes) => AfterRead(c, w, now, bytes)
    case CallTick(now) =>
      if out.close then Lost(w)
      else
        var rest := w.(open := w.open - Members(out.timedOut));
        if out.toSend == [] then rest
        else rest.(activity := now, linktest := Some(Linktest(IdOnWire(out.toSend[0]), now)))
    case CallDisconnect => Lost(w)
    case CallRequest(now, m) =>
      if out.toSend == [] then w
      else w.(activity := now, open := if m.wBit then w.open + {IdOnWire(out.toSend[0])} else w.open)
    case CallReply(_, _) => w
  }

  /** T7 has passed since the connect or deselect, T8 since bytes that left a frame unfinished, or T6 since
      the unanswered Linktest.req. */
  predicate TooLate(c: Config, w: Watch, now: int) {
    || (w.link == NotSelected && now >= w.since + c.t7)
    || (w.buffer != [] && now >= w.read + c.t8)
    || (w.linktest.Some? && now >= w.linktest.value.sent + c.t6)
  }

  predicate LinktestTime(c: Config, w: Watch, now: int) {
    w.link == Selected && w.linktest.None? && now >= w.activity + c.linktestInterval
  }

  /** The output of a call, as far as it can be known before. */
  predicate Foreseen(c: Config, w: Watch, call: Call, out: Output) {
    match call
    case CallBytes(now, bytes) =>
      && out.deliveries == DeliveredByRead(c, w, now, bytes)
      && (out.close <==> w.link != NotConnected && AfterRead(c, w, now, bytes).link == NotConnected)
    case CallTick(now) =>
      && out.deliveries == []
      && (out.close <==> w.link != NotConnected && TooLate(c, w, now))
      && (out.toSend != [] <==> !out.close && LinktestTime(c, w, now))
    case _ => out.deliveries == [] && !out.close
  }

  predicate AllForeseen(c: Config, w: Watch, calls: seq<Call>, outs: seq<Output>)
    decreases |calls|
  {
    if calls == [] then outs == []
    else
      && outs != [] && Foreseen(c, w, calls[0], outs[0])
      && AllForeseen(c, AfterCall(c, w, calls[0], outs[0]), calls[1..], outs[1..])
  }

  // ---- the session does what the observer expects -----------------------------------------------------------

  ghost predicate FramesTied(c: Config, w: Watch, s: State) {
    && w.link == s.link && w.buffer == s.decoder.buffer && w.open == s.ids.open.Keys
    && (if w.linktest.None? then s.ids.linktest.None?
        else s.ids.linktest == Some(w.linktest.value.id) && s.timers.t6 == Some(w.linktest.value.sent + c.t6))
    && (w.link == NotSelected ==> s.timers.t7 == Some(w.since + c.t7))
    && (w.link != NotConnected ==> w.activity == s.lastActivity)
  }

  ghost predicate Tied(c: Config, w: Watch, s: State) {
    FramesTied(c, w, s) && (w.buffer != [] ==> s.timers.t8 == Some(w.read + c.t8))
  }

  /** A frame with PType 0 and this SType comes while connected. */
  ghost predicate FrameHere(c: Config, w: Watch, s: State, f: Frame, t: SType) {
    && MidInv(c, s) && FramesTied(c, w, s) && w.link != NotConnected
    && f.header.ptype == 0 && f.header.stype == STypeByte(t)
  }

  ghost predicate SeenAs(c: Config, w: Watch, now: int, f: Frame, o: Outcome) {
    var w' := AfterFrame(w, now, f);
    FramesTied(c, w', o.s) && o.out.deliveries == DeliveredBy(w, f) && w'.read == w.read
  }

  lemma DataIsSeen(c: Config, w: Watch, s: State, now: int, f: Frame)
    requires FrameHere(c, w, s, f, Data)
    ensures SeenAs(c, w, now, f, HandleTyped(c, s, now, f, Data))
  {
  }

  lemma SelectIsSeen(c: Config, w: Watch, s: State, now: int, f: Frame)
    requires FrameHere(c, w, s, f, SelectReq)
    ensures SeenAs(c, w, now, f, HandleTyped(c, s, now, f, SelectReq))
  {
  }

  lemma KeysWithout(open: map<Word32, int>, id: Word32)
    ensures (open - {id}).Keys == open.Keys - {id}
    ensures id !in open ==> open.Keys - {id} == open.Keys
  {
  }

  lemma DeselectIsSeen(c: Config, w: Watch, s: State, now: int, f: Frame)
    requires FrameHere(c, w, s, f, DeselectReq)
    ensures SeenAs(c, w, now, f, OnDeselectReq(c, s, now, f.header.systemBytes))
  {
  }

  lemma LinktestIsSeen(c: Config, w: Watch, s: State, now: int, f: Frame)
    requires FrameHere(c, w, s, f, LinktestRsp)
    ensures SeenAs(c, w, now, f, HandleTyped(c, s, now, f, LinktestRsp))
  {
  }

  lemma RejectIsSeen(c: Config, w: Watch, s: State, now: int, f: Frame)
    requires FrameHere(c, w, s, f, RejectReq)
    ensures SeenAs(c, w, now, f, OnRejectReq(s, f.header.systemBytes))
  {
    KeysWithout(s.ids.open, f.header.systemBytes);
  }

  lemma SeparateIsSeen(c: Config, w: Watch, s: State, now: int, f: Frame)
    requires FrameHere(c, w, s, f, SeparateReq)
    ensures SeenAs(c, w, now, f, HandleTyped(c, s, now, f, SeparateReq))
  {
  }

  lemma FrameIsSeen(c: Config, w: Watch, s: State, now: int, f: Frame)
    requires MidInv(c, s) && FramesTied(c, w, s) && w.link != NotConnected
    ensures SeenAs(c, w, now, f, HandleFrame(c, s, now, f))
  {
    if f.header.ptype == 0 && STypeFromByte(f.header.stype).Some? {
      var t := STypeFromByte(f.header.stype).value;
      STypeRoundTrip(f.header.stype, t);
      match t
      case Data => DataIsSeen(c, w, s, now, f);
      case SelectReq => SelectIsSeen(c, w, s, now, f);
      case DeselectReq => DeselectIsSeen(c, w, s, now, f);
      case LinktestRsp => LinktestIsSeen(c, w, s, now, f);
      case RejectReq => RejectIsSeen(c, w, s, now, f);
      case SeparateReq => SeparateIsSeen(c, w, s, now, f);
      case _ =>
    }
  }

  lemma {:induction false} FramesAreSeen(c: Config, w: Watch, s: State, now: int, frames: seq<Frame>)
    requires MidInv(c, s) && FramesTied(c, w, s) && w.link != NotConnected
    ensures var o := HandleFrames(c, s, now, frames);
            && FramesTied(c, AfterFrames(w, now, frames), o.s)
            && o.out.deliveries == DeliveredByAll(w, now, frames)
            && AfterFrames(w, now, frames).read == w.read
    decreases |frames|
  {
    if frames != [] {
      var o, w' := HandleFrame(c, s, now, frames[0]), AfterFrame(w, now, frames[0]);
      FrameKeeps(c, s, now, frames[0]);
      FrameIsSeen(c, w, s, now, frames[0]);
      if !o.out.close {
        FramesAreSeen(c, w', o.s, now, frames[1..]);
      } else {
        assert DeliveredByAll(w', now, frames[1..]) == [];
        assert DeliveredBy(w, frames[0]) + [] == DeliveredBy(w, frames[0]);
      }
    }
  }

  ghost predicate CallSeen(c: Config, w: Watch, call: Call, o: Outcome) {
    Foreseen(c, w, call, o.out) && Tied(c, AfterCall(c, w, call, o.out), o.s)
  }

  lemma ConnectIsSeen(c: Config, w: Watch, s: State, now: int)
    requires Inv(c, s) && Tied(c, w, s)
    ensures CallSeen(c, w, CallConnect(now), OnConnect(c, s, now))
  {
  }

  lemma DisconnectIsSeen(c: Config, w: Watch, s: State)
    requires Inv(c, s) && Tied(c, w, s)
    ensures CallSeen(c, w, CallDisconnect, OnDisconnect(s))
  {
  }

  /** The rest of a read once its bytes are cut into frames. */
  lemma FeedIsSeen(c: Config, w: Watch, s: State, now: int, frames: seq<Frame>)
    requires MidInv(c, s) && FramesTied(c, w, s) && w.link != NotConnected && w.read == now
    ensures var o := AfterFeed(c, s, now, Ok(frames));
            && Tied(c, AfterFrames(w, now, frames), o.s)
            && o.out.deliveries == DeliveredByAll(w, now, frames)
            && (o.out.close <==> AfterFrames(w, now, frames).link == NotConnected)
  {
    FramesKeep(c, s, now, frames);
    FramesAreSeen(c, w, s, now, frames);
    var o, w' := HandleFrames(c, s, now, frames), AfterFrames(w, now, frames);
    if o.out.close {
      OfflineIsTied(c, w', o.s);
    } else {
      T8IsSeen(c, w', o.s, now);
    }
  }

  lemma T8IsSeen(c: Config, w: Watch, s: State, now: int)
    requires FramesTied(c, w, s) && w.read == now
    ensures Tied(c, w, RestartT8(c, s, now))
  {
  }

  lemma OfflineIsTied(c: Config, w: Watch, s: State)
    requires MidInv(c, s) && FramesTied(c, w, s) && w.link == NotConnected
    ensures Tied(c, w, s)
  {
  }

  lemma FramingErrorIsSeen(c: Config, w: Watch, s: State, now: int, code: int)
    requires FramesTied(c, w, s) && w.link != NotConnected
    ensures var o := AfterFeed(c, s, now, Err(code));
            Tied(c, Lost(w), o.s) && o.out.deliveries == [] && o.out.close
  {
  }

  lemma BeforeFramesTied(c: Config, w: Watch, s: State, now: int, d: Decoder)
    requires Inv(c, s) && Tied(c, w, s) && s.link != NotConnected && d.error.None?
    ensures var s1 := s.(lastActivity := now, decoder := d);
            MidInv(c, s1) && FramesTied(c, BeforeFrames(w, now, d.buffer), s1)
  {
  }

  lemma BytesAreSeen(c: Config, w: Watch, s: State, now: int, bytes: seq<Byte>)
    requires Inv(c, s) && Tied(c, w, s)
    ensures CallSeen(c, w, CallBytes(now, bytes), OnBytes(c, s, now, bytes))
  {
    if s.link != NotConnected {
      var (d, r) := Feed(c.maxFrame, s.decoder, bytes);
      var s1 := s.(lastActivity := now, decoder := d);
      if r.Ok? {
        BeforeFramesTied(c, w, s, now, d);
        FeedIsSeen(c, BeforeFrames(w, now, d.buffer), s1, now, r.value);
      } else {
        FramingErrorIsSeen(c, BeforeFrames(w, now, d.buffer), s1, now, r.code);
      }
    }
  }

  lemma ReplyIsSeen(c: Config, w: Watch, s: State, id: Word32, m: Message)
    requires Inv(c, s) && Tied(c, w, s)
    ensures CallSeen(c, w, CallReply(id, m), SendReply(c, s, id, m).o)
  {
  }

  lemma FrameShowsId(f: Frame)
    requires Fits(f)
    ensures |Wire(f)| >= 14 && IdOnWire(Wire(f)) == f.header.systemBytes
  {
    var bytes := Put32(HEADER_SIZE + |f.body|) + HeaderBytes(f.header);
    assert Wire(f)[..14] == bytes;
    assert HeaderBytes(f.header)[6..10] == Put32(f.header.systemBytes);
    assert forall i :: 10 <= i < 14 ==> Wire(f)[i] == Put32(f.header.systemBytes)[i - 10];
    WordReadsBack(f.header.systemBytes);
  }

  lemma QueuedIsSeen(c: Config, w: Watch, s: State, now: int, m: Message, id: Word32, bytes: seq<Byte>)
    requires Tied(c, w, s) && IdOnWire(bytes) == id
    ensures CallSeen(c, w, CallRequest(now, m), Queued(c, s, now, m, id, bytes))
  {
  }

  lemma RequestIsSeen(c: Config, w: Watch, s: State, now: int, m: Message)
    requires Inv(c, s) && Tied(c, w, s) && CanAllocate(s.ids)
    ensures CallSeen(c, w, CallRequest(now, m), SendRequest(c, s, now, m).o)
  {
    if s.link == Selected && (m.wBit ==> |s.ids.open| < c.maxOpen) {
      SentIsSeen(c, w, s.(ids := AfterAllocation(s.ids)), now, m, Allocated(s.ids));
    }
  }

  lemma SentIsSeen(c: Config, w: Watch, s: State, now: int, m: Message, id: Word32)
    requires Tied(c, w, s)
    ensures CallSeen(c, w, CallRequest(now, m), SendAs(c, s, now, m, id).o)
  {
    if QueueData(c, m, id).Ok? {
      FrameShowsId(Outgoing(c, m, id, EncodedBody(m).value));
      QueuedIsSeen(c, w, s, now, m, id, QueueData(c, m, id).value);
    }
  }

  lemma KeysWithoutAll(open: map<Word32, int>, ids: set<Word32>)
    ensures (open - ids).Keys == open.Keys - ids
  {
  }

  lemma FewerAreTied(c: Config, w: Watch, s: State, gone: set<Word32>)
    requires Tied(c, w, s)
    ensures Tied(c, w.(open := w.open - gone), s.(ids := s.ids.(open := s.ids.open - gone)))
  {
    KeysWithoutAll(s.ids.open, gone);
  }

  lemma ReportIsSeen(c: Config, w: Watch, s: State, now: int)
    requires Tied(c, w, s)
    ensures var o := ReportOverdue(s, now);
            Tied(c, w.(open := w.open - Members(o.out.timedOut)), o.s)
  {
    OverdueIsOverdue(s.ids.open, now);
    FewerAreTied(c, w, s, Overdue(s.ids.open, now));
  }

  lemma LinktestIsSent(c: Config, w: Watch, s: State, now: int)
    requires Inv(c, s) && Tied(c, w, s) && CanAllocate(s.ids) && LinktestDue(c, s, now)
    ensures var o := StartLinktest(c, s, now);
            && |o.out.toSend| == 1
            && Tied(c, w.(activity := now, linktest := Some(Linktest(IdOnWire(o.out.toSend[0]), now))), o.s)
  {
    FrameShowsId(ControlFrame(LinktestReq, Allocated(s.ids), 0, 0));
  }

  lemma SurvivalIsSeen(c: Config, w: Watch, s: State, now: int)
    requires Inv(c, s) && Tied(c, w, s) && CanAllocate(s.ids)
    requires s.link != NotConnected && !MustClose(s, now)
    ensures CallSeen(c, w, CallTick(now), SurvivedTick(c, s, now))
  {
    var o := ReportOverdue(s, now);
    var w' := w.(open := w.open - Members(o.out.timedOut));
    FewerBlocked(s.ids, o.s.ids);
    ReportIsSeen(c, w, s, now);
    ReportKeeps(c, s, now);
    InTime(c, w, s, now);
    if LinktestDue(c, o.s, now) {
      LinktestIsSent(c, w', o.s, now);
      JoinedIsSeen(c, w, o, StartLinktest(c, o.s, now), now);
    } else {
      ReportedIsSeen(c, w, o, now);
    }
  }

  lemma InTime(c: Config, w: Watch, s: State, now: int)
    requires Inv(c, s) && Tied(c, w, s) && s.link != NotConnected
    ensures TooLate(c, w, now) <==> MustClose(s, now)
    ensures LinktestTime(c, w, now) <==> LinktestDue(c, s, now)
  {
  }

  lemma ReportedIsSeen(c: Config, w: Watch, o: Outcome, now: int)
    requires !TooLate(c, w, now) && !LinktestTime(c, w, now)
    requires o.out.deliveries == [] && o.out.toSend == [] && !o.out.close
    requires Tied(c, w.(open := w.open - Members(o.out.timedOut)), o.s)
    ensures CallSeen(c, w, CallTick(now), o)
  {
  }

  lemma JoinedIsSeen(c: Config, w: Watch, o: Outcome, l: Outcome, now: int)
    requires !TooLate(c, w, now) && LinktestTime(c, w, now)
    requires o.out.deliveries == [] && o.out.toSend == []
    requires l.out.deliveries == [] && |l.out.toSend| == 1 && l.out.timedOut == [] && !l.out.close
    requires var w' := w.(open := w.open - Members(o.out.timedOut));
             Tied(c, w'.(activity := now, linktest := Some(Linktest(IdOnWire(l.out.toSend[0]), now))), l.s)
    ensures CallSeen(c, w, CallTick(now), Join(o, l))
  {
    assert o.out.timedOut + [] == o.out.timedOut && [] + l.out.toSend == l.out.toSend;
  }

  lemma TickIsSeen(c: Config, w: Watch, s: State, now: int)
    requires Inv(c, s) && Tied(c, w, s) && CanAllocate(s.ids)
    ensures CallSeen(c, w, CallTick(now), OnTick(c, s, now))
  {
    if s.link != NotConnected {
      InTime(c, w, s, now);
    }
    if s.link != NotConnected && !MustClose(s, now) {
      SurvivalIsSeen(c, w, s, now);
    }
  }

  lemma CallIsSeen(c: Config, w: Watch, s: State, call: Call)
    requires Inv(c, s) && Tied(c, w, s) && CanAllocate(s.ids)
    ensures CallSeen(c, w, call, Step(c, s, call))
  {
    match call
    case CallConnect(now) => ConnectIsSeen(c, w, s, now);
    case CallBytes(now, bytes) => BytesAreSeen(c, w, s, now, bytes);
    case CallTick(now) => TickIsSeen(c, w, s, now);
    case CallDisconnect => DisconnectIsSeen(c, w, s);
    case CallRequest(now, m) => RequestIsSeen(c, w, s, now, m);
    case CallReply(id, m) => ReplyIsSeen(c, w, s, id, m);
  }

  lemma {:induction false} RunIsForeseen(c: Config, w: Watch, s: State, calls: seq<Call>)
    requires Inv(c, s) && Tied(c, w, s)
    ensures AllForeseen(c, w, calls, RunFrom(c, s, calls).outs)
    decreases |calls|
  {
    if calls != [] {
      InvCanAllocate(c, s.ids);
      StepKeeps(c, s, calls[0]);
      CallIsSeen(c, w, s, calls[0]);
      var o := Step(c, s, calls[0]);
      var rest := RunFrom(c, o.s, calls[1..]).outs;
      RunIsForeseen(c, AfterCall(c, w, calls[0], o.out), o.s, calls[1..]);
      assert ([o.out] + rest)[1..] == rest;
    }
  }

  /**
   * In every run, each read delivers, in order and unchanged, exactly the frames with PType 0 and SType 0
   * that it completes while selected and before a close, each as a reply exactly if its function is even
   * and a request with its system bytes is open; no other call delivers anything; and a tick closes exactly
   * when T7, T8 or T6 has passed, and otherwise tests the link exactly when the interval has.
   */
  lemma EveryRunIsForeseen(c: Config, calls: seq<Call>)
    ensures AllForeseen(c, START, calls, Run(c, calls).outs)
  {
    InitInv(c);
    RunIsForeseen(c, START, Init(c), calls);
  }
}
