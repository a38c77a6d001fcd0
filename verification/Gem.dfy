/** How the server drives session and GEM service (src/secsgem/hsms/server.cpp and
    src/secsgem/gem/gem_service.cpp): the requests that wait for a reply and the S9F9 for those
    that time out. Each step is one task of the I/O thread. */
module GemModel {
  import opened Common
  import opened Bytes
  import opened Frames
  import opened Secs2Items
  import opened SessionModel

  /** make_s9: an error report whose body is the header it is about. */
  function S9(fun: Byte, header: seq<Byte>): Message {
    HeaderIsItem(header);
    Message(9, fun, false, Some(Array(Binary, header)))
  }

  lemma HeaderIsItem(bytes: seq<Byte>)
    ensures ValidItem(Array(Binary, bytes))
  {
    assert Span(1) == 256 * Span(0);
  }

  /** The service's fields: the header of each request that waits, and what it has posted. */
  datatype Gem = Gem(requests: map<Word32, Header>, posted: seq<Message>)

  /** The header the service remembers; its ptype and stype stay 0. */
  function SentHeader(deviceId: Word16, m: Message, id: Word32): Header {
    Header(deviceId, StreamByte(m.stream, m.wBit), m.fun, 0, 0, id)
  }

  function OnSent(g: Gem, deviceId: Word16, m: Message, id: Word32): Gem {
    if m.wBit then g.(requests := g.requests[id := SentHeader(deviceId, m, id)]) else g
  }

  function OnDelivery(g: Gem, d: Delivery): Gem {
    if d.replyTo.Some? then g.(requests := g.requests - {d.replyTo.value}) else g
  }

  function OnTimeout(g: Gem, id: Word32): Gem {
    if id in g.requests then
      Gem(g.requests - {id}, g.posted + [S9(9, HeaderBytes(g.requests[id]))])
    else g
  }

  function OnSessionState(g: Gem, l: Link): Gem {
    if l != Selected then g.(requests := map[]) else g
  }

  function Deliveries(g: Gem, ds: seq<Delivery>): Gem
    decreases |ds|
  {
    if ds == [] then g else Deliveries(OnDelivery(g, ds[0]), ds[1..])
  }

  function Timeouts(g: Gem, ids: seq<Word32>): Gem
    decreases |ids|
  {
    if ids == [] then g else Timeouts(OnTimeout(g, ids[0]), ids[1..])
  }

  // ---- the server -----------------------------------------------------------------------------

  /** wire and expired are recorded for the proofs: the header bytes of the frame that opened each
      transaction, and those of every transaction the session reported as timed out. */
  datatype Server = Server(session: State, connected: bool, notified: Link, gem: Gem,
                           wire: map<Word32, seq<Byte>>, expired: seq<seq<Byte>>)

  function Start(c: Config): Server {
    Server(Init(c), false, NotConnected, Gem(map[], []), map[], [])
  }

  /** notify_state: the service hears of a state only if it differs from the last one. */
  function Notify(v: Server): Server {
    if v.session.link != v.notified then
      v.(notified := v.session.link, gem := OnSessionState(v.gem, v.session.link))
    else v
  }

  function CloseSocket(v: Server): Server {
    Notify(v.(connected := false, session := OnDisconnect(v.session).s))
  }

  function OnWire(wire: map<Word32, seq<Byte>>, ids: seq<Word32>): seq<seq<Byte>> {
    if ids == [] then []
    else [if ids[0] in wire then wire[ids[0]] else []] + OnWire(wire, ids[1..])
  }

  /** The loops of apply: first the deliveries, then the timeouts. */
  function Tell(v: Server, o: Outcome): Server {
    v.(session := o.s,
       gem := Timeouts(Deliveries(v.gem, o.out.deliveries), o.out.timedOut),
       expired := v.expired + OnWire(v.wire, o.out.timedOut))
  }

  /** apply: deliveries, timeouts, the state, then the close. */
  function Apply(v: Server, o: Outcome): Server {
    var n := Notify(Tell(v, o));
    if o.out.close then CloseSocket(n) else n
  }

  /** The ten header bytes behind the length field of a frame on the wire. */
  function HeaderOnWire(frame: seq<Byte>): seq<Byte> {
    if |frame| >= 14 then frame[4..14] else []
  }

  datatype Task =
    | Accept(now: int)
    | Read(now: int, bytes: seq<Byte>)
    | Tick(now: int)
    | SocketFails
    | PostRequest(now: int, message: Message)
    | PostReply(id: Word32, message: Message)

  ghost function Perform(c: Config, v: Server, t: Task): Server
    requires CanAllocate(v.session.ids)
  {
    match t
    case Accept(now) =>
      if v.connected then v else Apply(v.(connected := true), OnConnect(c, v.session, now))
    case Read(now, bytes) =>
      if v.connected then Apply(v, OnBytes(c, v.session, now, bytes)) else v
    case Tick(now) => if v.connected then Apply(v, OnTick(c, v.session, now)) else v
    case SocketFails => CloseSocket(v)
    case PostRequest(now, m) =>
      if v.connected then Requested(c, v, m, SendRequest(c, v.session, now, m)) else v
    case PostReply(id, m) =>
      if v.connected then Apply(v, SendReply(c, v.session, id, m).o) else v
  }

  /** post_request: apply first, then tell the service which system bytes were used. */
  function Requested(c: Config, v: Server, m: Message, r: Sent<Word32>): Server {
    var a := Apply(v, r.o);
    if r.result.Err? then a
    else if m.wBit && r.o.out.toSend != [] then
      a.(gem := OnSent(a.gem, c.deviceId, m, r.result.value),
         wire := a.wire[r.result.value := HeaderOnWire(r.o.out.toSend[0])])
    else a.(gem := OnSent(a.gem, c.deviceId, m, r.result.value))
  }

  // ---- the service's methods --------------------------------------------------------------------

  class GemService {
    const deviceId: Word16
    var requests: map<Word32, Header>
    var posted: seq<Message>

    ghost function Value(): Gem
      reads this
    {
      Gem(requests, posted)
    }

    constructor (deviceId: Word16)
      ensures this.deviceId == deviceId && Value() == Gem(map[], [])
    {
      this.deviceId, requests, posted := deviceId, map[], [];
    }

    /** The callback of send_request. */
    method Sent(m: Message, system: Word32)
      modifies this`requests
      ensures Value() == OnSent(old(Value()), deviceId, m, system)
    {
      if !m.wBit {
        return;
      }
      requests := requests[system := Header(deviceId, StreamByte(m.stream, m.wBit), m.fun, 0, 0, system)];
    }

    method Data(d: Delivery)
      modifies this`requests
      ensures Value() == OnDelivery(old(Value()), d)
    {
      if d.replyTo.Some? {
        requests := requests - {d.replyTo.value};
      }
    }

    method TransactionTimeout(system: Word32)
      modifies this
      ensures Value() == OnTimeout(old(Value()), system)
    {
      if system !in requests {
        return;
      }
      var sent := requests[system];
      requests := requests - {system};
      posted := posted + [S9(9, HeaderBytes(sent))];
    }

    method SessionState(l: Link)
      modifies this`requests
      ensures Value() == OnSessionState(old(Value()), l)
    {
      if l != Selected {
        requests := map[];
      }
    }
  }
}

/** Every T3 expiry posts one S9F9 with the header that was sent. */
module GemTheorems {
  import opened Common
  import opened Bytes
  import opened Frames
  import opened FrameDecoding
  import opened Secs2Items
  import opened SessionModel
  import opened SessionLedger
  import opened SessionProofs
  import opened SessionTheorems
  import opened GemModel

  // ---- what a session step leaves open ------------------------------------------------------------

  ghost predicate NoOpening(events: seq<Event>) {
    forall i :: 0 <= i < |events| ==> !events[i].Opened?
  }

  lemma {:induction false} EndedAreGone(t3: int, open: map<Word32, int>, events: seq<Event>, id: Word32)
    requires NoOpening(events) && Ledger(t3, open, events).Some?
    requires id in Ledger(t3, open, events).value
    ensures id in open && id !in Answers(events) && id !in Reports(events)
    decreases |events|
  {
    if events != [] {
      var next := Entry(t3, open, events[0]).value;
      EndedAreGone(t3, next, events[1..], id);
    }
  }

  lemma {:induction false} FramesOpenNothing(c: Config, s: State, now: int, frames: seq<Frame>)
    ensures NoOpening(HandleFrames(c, s, now, frames).events)
    decreases |frames|
  {
    if frames != [] {
      FrameOpensNothing(c, s, now, frames[0]);
      var o := HandleFrame(c, s, now, frames[0]);
      FramesOpenNothing(c, o.s, now, frames[1..]);
    }
  }

  lemma FrameOpensNothing(c: Config, s: State, now: int, f: Frame)
    ensures NoOpening(HandleFrame(c, s, now, f).events)
  {
  }

  lemma {:induction false} TimeoutsOpenNothing(ids: seq<Word32>, now: int)
    ensures NoOpening(TimedOutEvents(ids, now))
    decreases |ids|
  {
    if ids != [] {
      TimeoutsOpenNothing(ids[1..], now);
    }
  }

  /** Everything but a request only closes transactions, and tells the caller which. */
  ghost predicate OnlyEnds(s: State, o: Outcome) {
    forall id :: id in o.s.ids.open ==>
      id in s.ids.open && id !in AnswersIn(o.out.deliveries) && id !in o.out.timedOut
  }

  lemma StepOnlyEnds(c: Config, s: State, o: Outcome)
    requires Keeps(c, s, o) && Shown(o) && NoOpening(o.events)
    ensures OnlyEnds(s, o)
  {
    forall id | id in o.s.ids.open
      ensures id in s.ids.open && id !in AnswersIn(o.out.deliveries) && id !in o.out.timedOut
    {
      EndedAreGone(c.t3, s.ids.open, o.events, id);
    }
  }

  lemma BytesOnlyEnd(c: Config, s: State, now: int, bytes: seq<Byte>)
    requires Inv(c, s)
    ensures OnlyEnds(s, OnBytes(c, s, now, bytes))
  {
    InvCanAllocate(c, s.ids);
    BytesKeep(c, s, now, bytes);
    StepShown(c, s, CallBytes(now, bytes));
    BytesOpenNothing(c, s, now, bytes);
    StepOnlyEnds(c, s, OnBytes(c, s, now, bytes));
  }

  lemma BytesOpenNothing(c: Config, s: State, now: int, bytes: seq<Byte>)
    ensures NoOpening(OnBytes(c, s, now, bytes).events)
  {
    var (d, r) := Feed(c.maxFrame, s.decoder, bytes);
    if r.Ok? {
      FramesOpenNothing(c, s.(lastActivity := now, decoder := d), now, r.value);
    }
  }

  lemma TickOnlyEnds(c: Config, s: State, now: int)
    requires Inv(c, s) && CanAllocate(s.ids)
    ensures OnlyEnds(s, OnTick(c, s, now))
  {
    TickKeeps(c, s, now);
    TickShown(c, s, now);
    TickOpensNothing(c, s, now);
    StepOnlyEnds(c, s, OnTick(c, s, now));
  }

  lemma TickOpensNothing(c: Config, s: State, now: int)
    requires CanAllocate(s.ids)
    ensures NoOpening(OnTick(c, s, now).events)
  {
    TimeoutsOpenNothing(Ascending(Overdue(s.ids.open, now)), now);
  }

  // ---- the service -----------------------------------------------------------------------------------

  lemma {:induction false} DeliveriesKeep(g: Gem, ds: seq<Delivery>, id: Word32)
    ensures Deliveries(g, ds).posted == g.posted
    ensures id in g.requests && id !in AnswersIn(ds) ==>
              id in Deliveries(g, ds).requests && Deliveries(g, ds).requests[id] == g.requests[id]
    decreases |ds|
  {
    if ds != [] {
      DeliveriesKeep(OnDelivery(g, ds[0]), ds[1..], id);
    }
  }

  lemma {:induction false} TimeoutsKeep(g: Gem, ids: seq<Word32>, id: Word32)
    ensures id in g.requests && id !in ids ==>
              id in Timeouts(g, ids).requests && Timeouts(g, ids).requests[id] == g.requests[id]
    decreases |ids|
  {
    if ids != [] {
      TimeoutsKeep(OnTimeout(g, ids[0]), ids[1..], id);
    }
  }

  /** One S9F9 per header. */
  function S9F9s(headers: seq<seq<Byte>>): seq<Message> {
    if headers == [] then [] else [S9(9, headers[0])] + S9F9s(headers[1..])
  }

  lemma {:induction false} S9F9sJoin(a: seq<seq<Byte>>, b: seq<seq<Byte>>)
    ensures S9F9s(a + b) == S9F9s(a) + S9F9s(b)
    decreases |a|
  {
    if a == [] {
      assert a + b == b;
    } else {
      assert (a + b)[0] == a[0] && (a + b)[1..] == a[1..] + b;
      S9F9sJoin(a[1..], b);
    }
  }

  /** The service remembers for each of these ids the header that is on the wire. */
  ghost predicate Remembers(g: Gem, wire: map<Word32, seq<Byte>>, id: Word32) {
    id in g.requests && id in wire && HeaderBytes(g.requests[id]) == wire[id]
  }

  ghost predicate Increasing(ids: seq<Word32>) {
    forall i, j :: 0 <= i < j < |ids| ==> ids[i] < ids[j]
  }

  lemma {:induction false} TimeoutsPost(g: Gem, wire: map<Word32, seq<Byte>>, ids: seq<Word32>)
    requires Increasing(ids) && forall i :: 0 <= i < |ids| ==> Remembers(g, wire, ids[i])
    ensures Timeouts(g, ids).posted == g.posted + S9F9s(OnWire(wire, ids))
    decreases |ids|
  {
    if ids != [] {
      var g1 := OnTimeout(g, ids[0]);
      assert Remembers(g, wire, ids[0]);
      forall i | 0 <= i < |ids[1..]|
        ensures Remembers(g1, wire, ids[1..][i])
      {
        assert ids[1..][i] == ids[i + 1] && Remembers(g, wire, ids[i + 1]);
      }
      TimeoutsPost(g1, wire, ids[1..]);
      assert g1.posted == g.posted + [S9(9, wire[ids[0]])];
      assert OnWire(wire, ids) == [wire[ids[0]]] + OnWire(wire, ids[1..]);
    }
  }

  // ---- the invariant ------------------------------------------------------------------------------------

  ghost predicate Tracked(v: Server) {
    forall id :: id in v.session.ids.open ==> Remembers(v.gem, v.wire, id)
  }

  /** Between tasks: the service has heard the state, knows every open transaction by the header
      that was sent, and has posted one S9F9 for each that expired. */
  ghost predicate ServerInv(c: Config, v: Server) {
    && Inv(c, v.session) && v.notified == v.session.link
    && (v.connected <==> v.session.link != NotConnected)
    && Tracked(v) && v.gem.posted == S9F9s(v.expired)
  }

  /** What a call gives that is not a request. */
  ghost predicate Ordinary(c: Config, s: State, o: Outcome) {
    && Inv(c, o.s) && OnlyEnds(s, o) && (o.out.close <==> o.s.link == NotConnected)
    && InOrder(s.ids.open, o.out.timedOut)
    && (o.out.timedOut == [] || o.out.deliveries == [])
  }

  lemma BytesOrdinary(c: Config, s: State, now: int, bytes: seq<Byte>)
    requires Inv(c, s) && s.link != NotConnected
    ensures Ordinary(c, s, OnBytes(c, s, now, bytes))
  {
    BytesKeep(c, s, now, bytes);
    BytesOnlyEnd(c, s, now, bytes);
    BytesCloseIff(c, s, now, bytes);
  }

  lemma BytesCloseIff(c: Config, s: State, now: int, bytes: seq<Byte>)
    requires Inv(c, s) && s.link != NotConnected
    ensures var o := OnBytes(c, s, now, bytes);
            (o.out.close <==> o.s.link == NotConnected) && o.out.timedOut == []
  {
    var (d, r) := Feed(c.maxFrame, s.decoder, bytes);
    if r.Ok? {
      FramesKeep(c, s.(lastActivity := now, decoder := d), now, r.value);
      FramesTimeNothingOut(c, s.(lastActivity := now, decoder := d), now, r.value);
    }
  }

  lemma {:induction false} FramesTimeNothingOut(c: Config, s: State, now: int, frames: seq<Frame>)
    ensures HandleFrames(c, s, now, frames).out.timedOut == []
    decreases |frames|
  {
    if frames != [] {
      FrameTimesNothingOut(c, s, now, frames[0]);
      FramesTimeNothingOut(c, HandleFrame(c, s, now, frames[0]).s, now, frames[1..]);
    }
  }

  lemma FrameTimesNothingOut(c: Config, s: State, now: int, f: Frame)
    ensures HandleFrame(c, s, now, f).out.timedOut == []
  {
  }

  lemma TickExpired(c: Config, s: State, now: int)
    requires CanAllocate(s.ids) && s.link != NotConnected
    ensures OnTick(c, s, now).out.timedOut
            == if MustClose(s, now) then [] else Ascending(Overdue(s.ids.open, now))
  {
    if !MustClose(s, now) {
      ReportsOnly(c, s, now);
    }
  }

  lemma TickShape(c: Config, s: State, now: int)
    requires CanAllocate(s.ids) && s.link != NotConnected
    ensures var o := OnTick(c, s, now);
            o.out.deliveries == [] && (o.out.close <==> o.s.link == NotConnected)
  {
  }

  ghost predicate InOrder(open: map<Word32, int>, ids: seq<Word32>) {
    Increasing(ids) && forall i :: 0 <= i < |ids| ==> ids[i] in open
  }

  lemma OverdueInOrder(open: map<Word32, int>, now: int)
    ensures InOrder(open, Ascending(Overdue(open, now)))
  {
    OverdueIsOverdue(open, now);
  }

  lemma TickOrdinary(c: Config, s: State, now: int)
    requires Inv(c, s) && CanAllocate(s.ids) && s.link != NotConnected
    ensures Ordinary(c, s, OnTick(c, s, now))
  {
    TickKeeps(c, s, now);
    TickOnlyEnds(c, s, now);
    TickShape(c, s, now);
    OverdueInOrder(s.ids.open, now);
    TickExpired(c, s, now);
  }

  lemma ConnectOrdinary(c: Config, s: State, now: int)
    requires Inv(c, s) && s.link == NotConnected
    ensures Ordinary(c, s, OnConnect(c, s, now))
  {
    ConnectKeeps(c, s, now);
  }

  // ---- every task keeps it -------------------------------------------------------------------------------

  lemma ToldKeeps(v: Server, o: Outcome, id: Word32)
    requires Remembers(v.gem, v.wire, id)
    requires id !in AnswersIn(o.out.deliveries) && id !in o.out.timedOut
    ensures Remembers(Timeouts(Deliveries(v.gem, o.out.deliveries), o.out.timedOut), v.wire, id)
  {
    DeliveriesKeep(v.gem, o.out.deliveries, id);
    TimeoutsKeep(Deliveries(v.gem, o.out.deliveries), o.out.timedOut, id);
  }

  lemma ToldPosts(c: Config, v: Server, o: Outcome)
    requires Tracked(v) && Ordinary(c, v.session, o) && v.gem.posted == S9F9s(v.expired)
    ensures Timeouts(Deliveries(v.gem, o.out.deliveries), o.out.timedOut).posted
            == S9F9s(v.expired + OnWire(v.wire, o.out.timedOut))
  {
    S9F9sJoin(v.expired, OnWire(v.wire, o.out.timedOut));
    if o.out.timedOut == [] {
      DeliveriesKeep(v.gem, o.out.deliveries, 0);
    } else {
      TimeoutsPost(v.gem, v.wire, o.out.timedOut);
    }
  }

  lemma NotifyKeeps(c: Config, v: Server)
    requires Inv(c, v.session) && Tracked(v)
    ensures Notify(v).session == v.session && Notify(v).gem.posted == v.gem.posted
    ensures Notify(v).notified == v.session.link && Tracked(Notify(v))
  {
  }

  lemma TellKeeps(c: Config, v: Server, o: Outcome)
    requires Tracked(v) && v.gem.posted == S9F9s(v.expired) && Ordinary(c, v.session, o)
    ensures Tracked(Tell(v, o)) && Tell(v, o).gem.posted == S9F9s(Tell(v, o).expired)
  {
    ToldPosts(c, v, o);
    forall id | id in o.s.ids.open
      ensures Remembers(Tell(v, o).gem, v.wire, id)
    {
      ToldKeeps(v, o, id);
    }
  }

  lemma ApplyKeeps(c: Config, v: Server, o: Outcome)
    requires v.connected && Tracked(v) && v.gem.posted == S9F9s(v.expired)
    requires Ordinary(c, v.session, o)
    ensures ServerInv(c, Apply(v, o))
  {
    TellKeeps(c, v, o);
    NotifyKeeps(c, Tell(v, o));
  }

  lemma CloseSocketKeeps(c: Config, v: Server)
    requires ServerInv(c, v)
    ensures ServerInv(c, CloseSocket(v))
  {
    if v.connected {
      DisconnectKeeps(c, v.session);
    }
    NotifyKeeps(c, v.(connected := false, session := OnDisconnect(v.session).s));
  }

  lemma WireHeader(f: Frame)
    requires Fits(f)
    ensures HeaderOnWire(Wire(f)) == HeaderBytes(f.header)
  {
  }

  lemma QuietApply(v: Server, o: Outcome)
    requires o.out == NOTHING.(toSend := o.out.toSend) && o.s.link == v.notified
    ensures Apply(v, o) == v.(session := o.s)
  {
    assert v.expired + [] == v.expired;
  }

  lemma RequestLink(c: Config, s: State, now: int, m: Message)
    requires CanAllocate(s.ids)
    ensures var o := SendRequest(c, s, now, m).o;
            o.out == NOTHING.(toSend := o.out.toSend) && o.s.link == s.link
  {
  }

  lemma RequestServed(c: Config, v: Server, now: int, m: Message)
    requires ServerInv(c, v) && v.connected && CanAllocate(v.session.ids)
    ensures ServerInv(c, Requested(c, v, m, SendRequest(c, v.session, now, m)))
  {
    var r := SendRequest(c, v.session, now, m);
    RequestKeeps(c, v.session, now, m);
    RequestLink(c, v.session, now, m);
    QuietApply(v, r.o);
    RequestAcceptedIff(c, v.session, now, m);
    if r.result.Ok? {
      var id, body := r.result.value, EncodedBody(m).value;
      RequestIsTracked(c, v.session, now, m, id, body);
      WireHeader(Outgoing(c, m, id, body));
    }
  }

  lemma ReplyServed(c: Config, v: Server, id: Word32, m: Message)
    requires ServerInv(c, v)
    ensures ServerInv(c, Apply(v, SendReply(c, v.session, id, m).o))
  {
    QuietApply(v, SendReply(c, v.session, id, m).o);
  }

  lemma TaskKeeps(c: Config, v: Server, t: Task)
    requires ServerInv(c, v)
    ensures CanAllocate(v.session.ids) && ServerInv(c, Perform(c, v, t))
  {
    InvCanAllocate(c, v.session.ids);
    match t
    case Accept(now) =>
      if !v.connected {
        ConnectOrdinary(c, v.session, now);
        ApplyKeeps(c, v.(connected := true), OnConnect(c, v.session, now));
      }
    case Read(now, bytes) =>
      if v.connected {
        BytesOrdinary(c, v.session, now, bytes);
        ApplyKeeps(c, v, OnBytes(c, v.session, now, bytes));
      }
    case Tick(now) =>
      if v.connected {
        TickOrdinary(c, v.session, now);
        ApplyKeeps(c, v, OnTick(c, v.session, now));
      }
    case SocketFails => CloseSocketKeeps(c, v);
    case PostRequest(now, m) =>
      if v.connected {
        RequestServed(c, v, now, m);
      }
    case PostReply(id, m) =>
      if v.connected {
        ReplyServed(c, v, id, m);
      }
  }

  ghost function RunTasks(c: Config, v: Server, tasks: seq<Task>): Server
    requires ServerInv(c, v)
    decreases |tasks|
  {
    if tasks == [] then v
    else
      TaskKeeps(c, v, tasks[0]);
      RunTasks(c, Perform(c, v, tasks[0]), tasks[1..])
  }

  lemma {:induction false} RunTasksKeeps(c: Config, v: Server, tasks: seq<Task>)
    requires ServerInv(c, v)
    ensures ServerInv(c, RunTasks(c, v, tasks))
    decreases |tasks|
  {
    if tasks != [] {
      TaskKeeps(c, v, tasks[0]);
      RunTasksKeeps(c, Perform(c, v, tasks[0]), tasks[1..]);
    }
  }

  lemma StartInv(c: Config)
    ensures ServerInv(c, Start(c))
  {
  }

  /** After any tasks the service knows every open transaction by the ten header bytes that were
      sent, and has posted, in order, exactly one S9F9 with those bytes for each T3 expiry. */
  lemma EveryExpiryPostsItsHeader(c: Config, tasks: seq<Task>)
    ensures ServerInv(c, Start(c))
    ensures var v := RunTasks(c, Start(c), tasks);
            && v.gem.posted == S9F9s(v.expired)
            && v.session.ids.open.Keys <= v.gem.requests.Keys
            && forall id :: id in v.session.ids.open ==>
                 id in v.wire && HeaderBytes(v.gem.requests[id]) == v.wire[id]
  {
    StartInv(c);
    RunTasksKeeps(c, Start(c), tasks);
    var v := RunTasks(c, Start(c), tasks);
    assert forall id :: id in v.session.ids.open ==> Remembers(v.gem, v.wire, id);
  }

  lemma ApplyExpired(v: Server, o: Outcome)
    ensures Apply(v, o).expired == v.expired + OnWire(v.wire, o.out.timedOut)
  {
  }

  /** The transactions a task finds to have expired. */
  ghost function ExpiredBy(v: Server, t: Task): seq<Word32> {
    if t.Tick? && v.connected && !MustClose(v.session, t.now)
    then Ascending(Overdue(v.session.ids.open, t.now)) else []
  }

  /** A tick adds the headers of the transactions that were due, one each, and nothing else does. */
  lemma ExpiriesAreTicks(c: Config, v: Server, t: Task)
    requires ServerInv(c, v) && CanAllocate(v.session.ids)
    ensures Perform(c, v, t).expired == v.expired + OnWire(v.wire, ExpiredBy(v, t))
  {
    match t
    case Accept(now) => ApplyExpired(v.(connected := true), OnConnect(c, v.session, now));
    case Read(now, bytes) =>
      if v.connected {
        BytesCloseIff(c, v.session, now, bytes);
        ApplyExpired(v, OnBytes(c, v.session, now, bytes));
      }
    case Tick(now) =>
      if v.connected {
        TickExpired(c, v.session, now);
        ApplyExpired(v, OnTick(c, v.session, now));
      }
    case SocketFails =>
    case PostRequest(now, m) =>
      RequestLink(c, v.session, now, m);
      ApplyExpired(v, SendRequest(c, v.session, now, m).o);
    case PostReply(id, m) => ApplyExpired(v, SendReply(c, v.session, id, m).o);
  }
}
