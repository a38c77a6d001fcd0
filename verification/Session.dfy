/** src/secsgem/hsms/session.cpp: the sans-I/O protocol machine, one value per state. */
module SessionModel {
  import opened Common
  import opened Bytes
  import opened Frames
  import opened FrameDecoding
  import opened Secs2Items
  import opened Secs2Codec

  const ID_COUNT := 0x1_0000_0000

  const ERR_NOT_SELECTED := 410
  const ERR_TOO_MANY_TRANSACTIONS := 411
  const ERR_MESSAGE_TOO_LARGE := 412

  const REJECT_STYPE_NOT_SUPPORTED: Byte := 1
  const REJECT_PTYPE_NOT_SUPPORTED: Byte := 2
  const REJECT_TRANSACTION_NOT_OPEN: Byte := 3
  const REJECT_ENTITY_NOT_SELECTED: Byte := 4

  const SELECT_OK: Byte := 0
  const SELECT_ALREADY_ACTIVE: Byte := 1
  const DESELECT_OK: Byte := 0
  const DESELECT_NOT_SELECTED: Byte := 1

  // ---- connection state and timers ------------------------------------------------------------

  datatype Link = NotConnected | NotSelected | Selected

  datatype Trigger = Connect | Select | Deselect | Disconnect | T7Timeout

  /** src/secsgem/hsms/connection_state.cpp: the next state, or nothing if the trigger is illegal. */
  function Fire(l: Link, t: Trigger): Option<Link> {
    match t
    case Connect => if l == NotConnected then Some(NotSelected) else None
    case Select => if l == NotSelected then Some(Selected) else None
    case Deselect => if l == Selected then Some(NotSelected) else None
    case Disconnect => if l != NotConnected then Some(NotConnected) else None
    case T7Timeout => if l == NotSelected then Some(NotConnected) else None
  }

  /** A timer is a deadline, or nothing while it is stopped. */
  type Timer = Option<int>

  predicate Expired(t: Timer, now: int) {
    t.Some? && now >= t.value
  }

  // ---- state ----------------------------------------------------------------------------------

  /** The bound on open transactions leaves system bytes for one more message and a linktest. */
  datatype Config_ = Config_(t3: int, t6: int, t7: int, t8: int, linktestInterval: int,
                             maxFrame: nat, maxOpen: nat, deviceId: Word16, first: Word32)
  type Config = c: Config_ | c.maxOpen + 3 <= ID_COUNT
    witness Config_(0, 0, 0, 0, 0, 0, 0, 0, 0)

  datatype Timers = Timers(t6: Timer, t7: Timer, t8: Timer)

  /** Open transactions with their T3 deadline, the pending linktest and the id generator. */
  datatype Ids = Ids(linktest: Option<Word32>, open: map<Word32, int>, next: Word32)

  datatype State = State(link: Link, decoder: Decoder, timers: Timers, lastActivity: int, ids: Ids)

  const STOPPED := Timers(None, None, None)

  function Init(c: Config): State {
    State(NotConnected, NEW, STOPPED, 0, Ids(None, map[], c.first))
  }

  /** An item whose elements fit their format. */
  type WireItem = x: Item | ValidItem(x) witness Array(Binary, [])

  datatype Message = Message(stream: Byte, fun: Byte, wBit: bool, body: Option<WireItem>)

  datatype Delivery = Delivery(frame: Frame, replyTo: Option<Word32>)

  datatype Output = Output(toSend: seq<seq<Byte>>, deliveries: seq<Delivery>, timedOut: seq<Word32>,
                           close: bool)

  const NOTHING := Output([], [], [], false)

  /** What happens to transactions; it is recorded for the proofs and kept by no field. */
  datatype Event =
    | Opened(id: Word32, sent: int)
    | Answered(id: Word32)
    | TimedOut(id: Word32, at: int)
    | Refused(id: Word32)
    | Dropped(ids: set<Word32>)

  datatype Outcome = Outcome(s: State, out: Output, events: seq<Event>)

  function Stay(s: State): Outcome {
    Outcome(s, NOTHING, [])
  }

  /** One outcome after another. */
  function Join(a: Outcome, b: Outcome): Outcome {
    Outcome(b.s,
            Output(a.out.toSend + b.out.toSend, a.out.deliveries + b.out.deliveries,
                   a.out.timedOut + b.out.timedOut, b.out.close),
            a.events + b.events)
  }

  function Control(t: SType, systemBytes: Word32, byte2: Byte, byte3: Byte): seq<Byte> {
    Wire(ControlFrame(t, systemBytes, byte2, byte3))
  }

  function Sends(s: State, bytes: seq<Byte>): Outcome {
    Outcome(s, NOTHING.(toSend := [bytes]), [])
  }

  /** Reject.req names the SType that was rejected, or the PType if that was the problem. */
  function Rejection(f: Frame, reason: Byte): seq<Byte> {
    var what := if reason == REJECT_PTYPE_NOT_SUPPORTED then f.header.ptype else f.header.stype;
    Control(RejectReq, f.header.systemBytes, what, reason)
  }

  function Reject(s: State, f: Frame, reason: Byte): Outcome {
    Sends(s, Rejection(f, reason))
  }

  // ---- connection -----------------------------------------------------------------------------

  function ResetLink(s: State, l: Link): State {
    s.(link := l, decoder := NEW, timers := STOPPED, ids := s.ids.(linktest := None, open := map[]))
  }

  function OnConnect(c: Config, s: State, now: int): Outcome {
    match Fire(s.link, Connect)
    case None => Stay(s)
    case Some(l) =>
      var r := ResetLink(s, l);
      Outcome(r.(lastActivity := now, timers := r.timers.(t7 := Some(now + c.t7))), NOTHING,
              [Dropped(s.ids.open.Keys)])
  }

  function OnDisconnect(s: State): Outcome {
    match Fire(s.link, Disconnect)
    case None => Stay(s)
    case Some(l) => Outcome(ResetLink(s, l), NOTHING, [Dropped(s.ids.open.Keys)])
  }

  function CloseConnection(s: State): Outcome {
    var o := OnDisconnect(s);
    o.(out := NOTHING.(close := true))
  }

  // ---- frames ---------------------------------------------------------------------------------

  /** A data message: an even function with an open id answers that request. */
  function OnData(s: State, f: Frame): Outcome {
    var id := f.header.systemBytes;
    if s.link != Selected then Reject(s, f, REJECT_ENTITY_NOT_SELECTED)
    else if f.header.byte3 % 2 == 0 && id in s.ids.open then
      Outcome(s.(ids := s.ids.(open := s.ids.open - {id})),
              NOTHING.(deliveries := [Delivery(f, Some(id))]), [Answered(id)])
    else Outcome(s, NOTHING.(deliveries := [Delivery(f, None)]), [])
  }

  function OnSelectReq(s: State, id: Word32): Outcome {
    match Fire(s.link, Select)
    case None => Sends(s, Control(SelectRsp, id, 0, SELECT_ALREADY_ACTIVE))
    case Some(l) =>
      Sends(s.(link := l, timers := s.timers.(t7 := None)), Control(SelectRsp, id, 0, SELECT_OK))
  }

  function OnDeselectReq(c: Config, s: State, now: int, id: Word32): Outcome {
    match Fire(s.link, Deselect)
    case None => Sends(s, Control(DeselectRsp, id, 0, DESELECT_NOT_SELECTED))
    case Some(l) =>
      Outcome(s.(link := l, timers := s.timers.(t7 := Some(now + c.t7)),
                 ids := s.ids.(open := map[])),
              NOTHING.(toSend := [Control(DeselectRsp, id, 0, DESELECT_OK)]),
              [Dropped(s.ids.open.Keys)])
  }

  function EndLinktest(s: State): State {
    s.(timers := s.timers.(t6 := None), ids := s.ids.(linktest := None))
  }

  function OnLinktestRsp(s: State, f: Frame): Outcome {
    if s.ids.linktest == Some(f.header.systemBytes) then Stay(EndLinktest(s))
    else Reject(s, f, REJECT_TRANSACTION_NOT_OPEN)
  }

  function OnRejectReq(s: State, id: Word32): Outcome {
    var s1 := if s.ids.linktest == Some(id) then EndLinktest(s) else s;
    if id in s.ids.open then
      Outcome(s1.(ids := s1.ids.(open := s1.ids.open - {id})), NOTHING, [Refused(id)])
    else Stay(s1)
  }

  function HandleFrame(c: Config, s: State, now: int, f: Frame): Outcome {
    if f.header.ptype != 0 then Reject(s, f, REJECT_PTYPE_NOT_SUPPORTED)
    else match STypeFromByte(f.header.stype)
      case None => Reject(s, f, REJECT_STYPE_NOT_SUPPORTED)
      case Some(t) => HandleTyped(c, s, now, f, t)
  }

  function HandleTyped(c: Config, s: State, now: int, f: Frame, t: SType): Outcome {
    var id := f.header.systemBytes;
    match t
    case Data => OnData(s, f)
    case SelectReq => OnSelectReq(s, id)
    case DeselectReq => OnDeselectReq(c, s, now, id)
    case LinktestReq => Sends(s, Control(LinktestRsp, id, 0, 0))
    case LinktestRsp => OnLinktestRsp(s, f)
    case SelectRsp => Reject(s, f, REJECT_TRANSACTION_NOT_OPEN)
    case DeselectRsp => Reject(s, f, REJECT_TRANSACTION_NOT_OPEN)
    case RejectReq => OnRejectReq(s, id)
    case SeparateReq => CloseConnection(s)
  }

  function HandleFrames(c: Config, s: State, now: int, frames: seq<Frame>): Outcome
    decreases |frames|
  {
    if frames == [] then Stay(s)
    else
      var o := HandleFrame(c, s, now, frames[0]);
      if o.out.close then o else Join(o, HandleFrames(c, o.s, now, frames[1..]))
  }

  /** T8 runs while a frame is unfinished. */
  function RestartT8(c: Config, s: State, now: int): State {
    s.(timers := s.timers.(t8 := if s.decoder.buffer != [] then Some(now + c.t8) else None))
  }

  function OnBytes(c: Config, s: State, now: int, bytes: seq<Byte>): Outcome {
    if s.link == NotConnected then Stay(s)
    else
      var (d, r) := Feed(c.maxFrame, s.decoder, bytes);
      AfterFeed(c, s.(lastActivity := now, decoder := d), now, r)
  }

  function AfterFeed(c: Config, s: State, now: int, r: Result<seq<Frame>>): Outcome {
    match r
    case Err(_) => CloseConnection(s)
    case Ok(frames) =>
      var o := HandleFrames(c, s, now, frames);
      if o.out.close then o else o.(s := RestartT8(c, o.s, now))
  }

  // ---- system bytes ---------------------------------------------------------------------------

  predicate Free(ids: Ids, id: Word32) {
    id != 0 && id !in ids.open && ids.linktest != Some(id)
  }

  /** The id k steps after next, around the 32-bit wrap. */
  function At(next: Word32, k: nat): Word32
    requires k <= ID_COUNT
  {
    if next + k < ID_COUNT then next + k else next + k - ID_COUNT
  }

  function Blocked(ids: Ids): set<Word32> {
    ids.open.Keys + {0} + if ids.linktest.Some? then {ids.linktest.value} else {}
  }

  function Walked(next: Word32, k: nat): set<Word32>
    requires k <= ID_COUNT
  {
    if k == 0 then {} else Walked(next, k - 1) + {At(next, k - 1)}
  }

  lemma {:induction false} WalkedSize(next: Word32, k: nat)
    requires k <= ID_COUNT
    ensures |Walked(next, k)| == k
    ensures forall id :: id in Walked(next, k) ==> exists j :: 0 <= j < k && id == At(next, j)
    decreases k
  {
    if k > 0 {
      WalkedSize(next, k - 1);
    }
  }

  lemma SubsetSize<T>(a: set<T>, b: set<T>)
    requires a <= b
    ensures |a| <= |b|
  {
    assert b == a + (b - a);
  }

  lemma BlockedSize(ids: Ids)
    ensures |Blocked(ids)| <= |ids.open| + 2
    ensures forall id: Word32 :: id in Blocked(ids) <==> !Free(ids, id)
  {
    assert |ids.open.Keys| == |ids.open|;
    SubsetSize(ids.open.Keys + {0}, Blocked(ids));
  }

  lemma FreeIsNotBlocked(ids: Ids, id: Word32)
    ensures Free(ids, id) <==> id !in Blocked(ids)
  {
  }

  /** The first k ids from next on are all blocked. */
  ghost predicate NoneBefore(next: Word32, blocked: set<Word32>, k: nat) {
    k <= ID_COUNT && forall j {:trigger At(next, j)} :: 0 <= j < k ==> At(next, j) in blocked
  }

  lemma {:induction false} WalkedInside(next: Word32, blocked: set<Word32>, k: nat)
    requires NoneBefore(next, blocked, k)
    ensures Walked(next, k) <= blocked
    decreases k
  {
    if k > 0 {
      WalkedInside(next, blocked, k - 1);
      assert At(next, k - 1) in blocked;
    }
  }

  lemma NoneBeforeSize(next: Word32, blocked: set<Word32>, k: nat)
    requires NoneBefore(next, blocked, k)
    ensures k <= |blocked|
  {
    WalkedInside(next, blocked, k);
    WalkedSize(next, k);
    SubsetSize(Walked(next, k), blocked);
  }

  /** How many ids the search passes over, given that the first k are blocked. */
  ghost function Search(next: Word32, blocked: set<Word32>, k: nat): (n: nat)
    requires |blocked| < ID_COUNT && k <= |blocked| && NoneBefore(next, blocked, k)
    ensures k <= n <= |blocked| && At(next, n) !in blocked && NoneBefore(next, blocked, n)
    decreases |blocked| - k
  {
    if At(next, k) !in blocked then k
    else
      NoneBeforeSize(next, blocked, k + 1);
      Search(next, blocked, k + 1)
  }

  ghost predicate CanAllocate(ids: Ids) {
    |Blocked(ids)| < ID_COUNT
  }

  /** How many ids are passed over before a free one. */
  ghost function Passed(ids: Ids): nat
    requires CanAllocate(ids)
  {
    Search(ids.next, Blocked(ids), 0)
  }

  ghost function Allocated(ids: Ids): (id: Word32)
    requires CanAllocate(ids)
    ensures Free(ids, id)
  {
    FreeIsNotBlocked(ids, At(ids.next, Passed(ids)));
    At(ids.next, Passed(ids))
  }

  ghost function AfterAllocation(ids: Ids): Ids
    requires CanAllocate(ids)
  {
    ids.(next := At(ids.next, Passed(ids) + 1))
  }

  // ---- time -----------------------------------------------------------------------------------

  /** The ids of a set in ascending order, as std::map visits them. */
  ghost function Ascending(ids: set<Word32>): (r: seq<Word32>)
    decreases |ids|
  {
    if ids == {} then []
    else
      SmallestExists(ids);
      var m: Word32 :| m in ids && forall k :: k in ids ==> m <= k;
      [m] + Ascending(ids - {m})
  }

  lemma {:induction false} AscendingMembers(ids: set<Word32>, id: Word32)
    ensures id in Ascending(ids) <==> id in ids
    decreases |ids|
  {
    if ids != {} {
      AscendingMembers(ids - {Ascending(ids)[0]}, id);
    }
  }

  /** Every id of the set occurs once, in increasing order. */
  lemma {:induction false} AscendingIsSorted(ids: set<Word32>, i: nat, j: nat)
    requires i < j < |Ascending(ids)|
    ensures Ascending(ids)[i] < Ascending(ids)[j]
    decreases |ids|
  {
    var r := Ascending(ids);
    var rest := ids - {r[0]};
    if i > 0 {
      AscendingIsSorted(rest, i - 1, j - 1);
    } else {
      assert r[j] in Ascending(rest);
      AscendingMembers(rest, r[j]);
    }
  }

  lemma {:induction false} SmallestExists(ids: set<Word32>)
    requires ids != {}
    ensures exists m: Word32 :: m in ids && forall k :: k in ids ==> m <= k
    decreases |ids|
  {
    var x :| x in ids;
    if ids != {x} {
      SmallestExists(ids - {x});
      var m: Word32 :| m in ids - {x} && forall k :: k in ids - {x} ==> m <= k;
      var least := if x < m then x else m;
      assert forall k :: k in ids ==> k == x || k in ids - {x};
      assert least in ids && forall k :: k in ids ==> least <= k;
    }
  }

  function Overdue(open: map<Word32, int>, now: int): set<Word32> {
    set id | id in open && now >= open[id]
  }

  ghost function TimedOutEvents(ids: seq<Word32>, now: int): (r: seq<Event>)
    ensures |r| == |ids|
  {
    if ids == [] then [] else [TimedOut(ids[0], now)] + TimedOutEvents(ids[1..], now)
  }

  /** T3: every overdue request is reported and forgotten. */
  ghost function ReportOverdue(s: State, now: int): Outcome {
    var late := Ascending(Overdue(s.ids.open, now));
    Outcome(s.(ids := s.ids.(open := s.ids.open - Overdue(s.ids.open, now))),
            NOTHING.(timedOut := late), TimedOutEvents(late, now))
  }

  predicate LinktestDue(c: Config, s: State, now: int) {
    s.link == Selected && s.ids.linktest.None? && now - s.lastActivity >= c.linktestInterval
  }

  ghost function StartLinktest(c: Config, s: State, now: int): Outcome
    requires CanAllocate(s.ids)
  {
    var id := Allocated(s.ids);
    Sends(s.(ids := AfterAllocation(s.ids).(linktest := Some(id)),
             timers := s.timers.(t6 := Some(now + c.t6)), lastActivity := now),
          Control(LinktestReq, id, 0, 0))
  }

  predicate MustClose(s: State, now: int) {
    || (s.link == NotSelected && Expired(s.timers.t7, now))
    || Expired(s.timers.t8, now)
    || (s.ids.linktest.Some? && Expired(s.timers.t6, now))
  }

  ghost function OnTick(c: Config, s: State, now: int): Outcome
    requires CanAllocate(s.ids)
  {
    if s.link == NotConnected then Stay(s)
    else if MustClose(s, now) then CloseConnection(s)
    else SurvivedTick(c, s, now)
  }

  ghost function SurvivedTick(c: Config, s: State, now: int): Outcome
    requires CanAllocate(s.ids)
  {
    var o := ReportOverdue(s, now);
    FewerBlocked(s.ids, o.s.ids);
    if LinktestDue(c, o.s, now) then Join(o, StartLinktest(c, o.s, now)) else o
  }

  lemma FewerBlocked(a: Ids, b: Ids)
    requires CanAllocate(a) && b.open.Keys <= a.open.Keys && b.linktest == a.linktest
    ensures CanAllocate(b)
  {
    SubsetSize(Blocked(b), Blocked(a));
  }

  // ---- sending --------------------------------------------------------------------------------

  /** The data frame of a message and an encoded body. */
  function Outgoing(c: Config, m: Message, id: Word32, body: seq<Byte>): Frame {
    DataFrame(c.deviceId, m.stream, m.fun, m.wBit, id, body)
  }

  function EncodedBody(m: Message): Result<seq<Byte>> {
    if m.body.None? then Ok([]) else Encode(m.body.value, 0)
  }

  function QueueData(c: Config, m: Message, id: Word32): Result<seq<Byte>> {
    match EncodedBody(m)
    case Err(code) => Err(code)
    case Ok(body) =>
      if HEADER_SIZE + |body| > c.maxFrame then Err(ERR_MESSAGE_TOO_LARGE)
      else EncodeFrame(Outgoing(c, m, id, body))
  }

  datatype Sent<T> = Sent(o: Outcome, result: Result<T>)

  ghost function SendRequest(c: Config, s: State, now: int, m: Message): Sent<Word32>
    requires CanAllocate(s.ids)
  {
    if s.link != Selected then Sent(Stay(s), Err(ERR_NOT_SELECTED))
    else if m.wBit && |s.ids.open| >= c.maxOpen then Sent(Stay(s), Err(ERR_TOO_MANY_TRANSACTIONS))
    else
      SendAs(c, s.(ids := AfterAllocation(s.ids)), now, m, Allocated(s.ids))
  }

  /** The part of send_request after the allocation of the id. */
  function SendAs(c: Config, s: State, now: int, m: Message, id: Word32): Sent<Word32> {
    match QueueData(c, m, id)
    case Err(code) => Sent(Stay(s), Err(code))
    case Ok(bytes) => Sent(Queued(c, s, now, m, id, bytes), Ok(id))
  }

  function Queued(c: Config, s: State, now: int, m: Message, id: Word32, bytes: seq<Byte>): Outcome {
    if m.wBit then
      Outcome(s.(lastActivity := now, ids := s.ids.(open := s.ids.open[id := now + c.t3])),
              NOTHING.(toSend := [bytes]), [Opened(id, now)])
    else Sends(s.(lastActivity := now), bytes)
  }

  function SendReply(c: Config, s: State, id: Word32, m: Message): Sent<bool> {
    if s.link != Selected then Sent(Stay(s), Err(ERR_NOT_SELECTED))
    else match QueueData(c, m.(wBit := false), id)
      case Err(code) => Sent(Stay(s), Err(code))
      case Ok(bytes) => Sent(Sends(s, bytes), Ok(true))
  }

  // ---- runs -----------------------------------------------------------------------------------

  datatype Call =
    | CallConnect(now: int)
    | CallBytes(now: int, bytes: seq<Byte>)
    | CallTick(now: int)
    | CallDisconnect
    | CallRequest(now: int, message: Message)
    | CallReply(id: Word32, message: Message)

  ghost function Step(c: Config, s: State, call: Call): Outcome
    requires CanAllocate(s.ids)
  {
    match call
    case CallConnect(now) => OnConnect(c, s, now)
    case CallBytes(now, bytes) => OnBytes(c, s, now, bytes)
    case CallTick(now) => OnTick(c, s, now)
    case CallDisconnect => OnDisconnect(s)
    case CallRequest(now, m) => SendRequest(c, s, now, m).o
    case CallReply(id, m) => SendReply(c, s, id, m).o
  }
}
