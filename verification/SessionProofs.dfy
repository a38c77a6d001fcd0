/** A ledger of transactions that knows nothing of the protocol: what may happen to a request. */
module SessionLedger {
  import opened Common
  import opened Frames
  import opened SessionModel

  /** The open requests, with their deadline, after one event; nothing if the event cannot be. */
  function Entry(t3: int, open: map<Word32, int>, e: Event): Option<map<Word32, int>> {
    match e
    case Opened(id, sent) => if id in open then None else Some(open[id := sent + t3])
    case Answered(id) => if id in open then Some(open - {id}) else None
    case TimedOut(id, at) => if id in open && at >= open[id] then Some(open - {id}) else None
    case Refused(id) => if id in open then Some(open - {id}) else None
    case Dropped(ids) => if ids == open.Keys then Some(map[]) else None
  }

  function Ledger(t3: int, open: map<Word32, int>, events: seq<Event>): Option<map<Word32, int>>
    decreases |events|
  {
    if events == [] then Some(open)
    else match Entry(t3, open, events[0])
      case None => None
      case Some(next) => Ledger(t3, next, events[1..])
  }

  lemma {:induction false} LedgerJoin(t3: int, open: map<Word32, int>, a: seq<Event>, b: seq<Event>)
    requires Ledger(t3, open, a).Some?
    ensures Ledger(t3, open, a + b) == Ledger(t3, Ledger(t3, open, a).value, b)
    decreases |a|
  {
    if a == [] {
      assert a + b == b;
    } else {
      assert (a + b)[0] == a[0] && (a + b)[1..] == a[1..] + b;
      LedgerJoin(t3, Entry(t3, open, a[0]).value, a[1..], b);
    }
  }

  function One(b: bool): nat {
    if b then 1 else 0
  }

  function Opens(events: seq<Event>, id: Word32): nat {
    if events == [] then 0
    else One(events[0].Opened? && events[0].id == id) + Opens(events[1..], id)
  }

  predicate Ends(e: Event, id: Word32) {
    match e
    case Opened(_, _) => false
    case Dropped(ids) => id in ids
    case Answered(x) => x == id
    case TimedOut(x, _) => x == id
    case Refused(x) => x == id
  }

  function EndsOf(events: seq<Event>, id: Word32): nat {
    if events == [] then 0 else One(Ends(events[0], id)) + EndsOf(events[1..], id)
  }

  /** Each opening of an id is ended at most once, and it is open exactly while it was not. */
  lemma {:induction false} OpenedIsEndedOrOpen(t3: int, open: map<Word32, int>, events: seq<Event>, id: Word32)
    requires Ledger(t3, open, events).Some?
    ensures One(id in open) + Opens(events, id)
            == EndsOf(events, id) + One(id in Ledger(t3, open, events).value)
    decreases |events|
  {
    if events != [] {
      OpenedIsEndedOrOpen(t3, Entry(t3, open, events[0]).value, events[1..], id);
    }
  }

  function Openings(events: seq<Event>): nat {
    if events == [] then 0 else One(events[0].Opened?) + Openings(events[1..])
  }

  function Endings(events: seq<Event>): nat {
    if events == [] then 0
    else
      (if events[0].Dropped? then |events[0].ids| else One(!events[0].Opened?)) + Endings(events[1..])
  }

  lemma EntryCount(t3: int, open: map<Word32, int>, e: Event)
    requires Entry(t3, open, e).Some?
    ensures |open| + One(e.Opened?)
            == |Entry(t3, open, e).value| + if e.Dropped? then |e.ids| else One(!e.Opened?)
  {
    if e.Dropped? {
      assert |open.Keys| == |open|;
    } else if !e.Opened? {
      assert open == (open - {e.id})[e.id := open[e.id]];
    }
  }

  /** Requests opened = requests ended + requests still open. */
  lemma {:induction false} RequestsAreConserved(t3: int, open: map<Word32, int>, events: seq<Event>)
    requires Ledger(t3, open, events).Some?
    ensures |open| + Openings(events) == Endings(events) + |Ledger(t3, open, events).value|
    decreases |events|
  {
    if events != [] {
      EntryCount(t3, open, events[0]);
      RequestsAreConserved(t3, Entry(t3, open, events[0]).value, events[1..]);
    }
  }
}

/** What every call keeps. */
module SessionProofs {
  import opened Common
  import opened Bytes
  import opened Frames
  import opened FrameDecoding
  import opened SessionModel
  import opened SessionLedger

  ghost predicate IdsInv(c: Config, ids: Ids) {
    && |ids.open| <= c.maxOpen && 0 !in ids.open
    && (ids.linktest.Some? ==> ids.linktest.value != 0 && ids.linktest.value !in ids.open)
  }

  /** T7 runs while not selected, T6 while a linktest is pending, and requests are open only while
      selected; nothing is left over without a connection. */
  ghost predicate LinkInv(s: State) {
    && (s.timers.t7.Some? <==> s.link == NotSelected)
    && (s.timers.t6.Some? <==> s.ids.linktest.Some?)
    && (s.ids.open != map[] ==> s.link == Selected)
    && s.decoder.error.None?
    && (s.link == NotConnected ==>
          s.decoder == NEW && s.timers == STOPPED && s.ids.linktest.None?)
  }

  /** Between two frames of one read T8 does not follow the buffer yet. */
  ghost predicate MidInv(c: Config, s: State) {
    IdsInv(c, s.ids) && LinkInv(s)
  }

  ghost predicate Inv(c: Config, s: State) {
    MidInv(c, s) && (s.timers.t8.Some? <==> s.decoder.buffer != [])
  }

  /** The outcome keeps the invariant and its events explain the change of open requests. */
  ghost predicate Keeps(c: Config, s: State, o: Outcome) {
    MidInv(c, o.s) && Ledger(c.t3, s.ids.open, o.events) == Some(o.s.ids.open)
  }

  lemma LedgerOne(t3: int, open: map<Word32, int>, e: Event)
    ensures Ledger(t3, open, [e]) == Entry(t3, open, e)
  {
    assert [e][1..] == [];
  }

  lemma JoinKeeps(c: Config, s: State, a: Outcome, b: Outcome)
    requires Keeps(c, s, a) && Keeps(c, a.s, b)
    ensures Keeps(c, s, Join(a, b))
  {
    LedgerJoin(c.t3, s.ids.open, a.events, b.events);
  }

  lemma RemoveOne(open: map<Word32, int>, id: Word32)
    requires id in open
    ensures |open - {id}| == |open| - 1
  {
    assert open == (open - {id})[id := open[id]];
  }

  // ---- connection and frames --------------------------------------------------------------------

  lemma ConnectKeeps(c: Config, s: State, now: int)
    requires Inv(c, s)
    ensures Keeps(c, s, OnConnect(c, s, now)) && Inv(c, OnConnect(c, s, now).s)
  {
    LedgerOne(c.t3, s.ids.open, Dropped(s.ids.open.Keys));
  }

  lemma DisconnectKeeps(c: Config, s: State)
    requires MidInv(c, s.(decoder := NEW)) && s.link != NotConnected
    ensures Keeps(c, s, OnDisconnect(s)) && OnDisconnect(s).s.link == NotConnected
  {
    LedgerOne(c.t3, s.ids.open, Dropped(s.ids.open.Keys));
  }

  lemma DataKeeps(c: Config, s: State, f: Frame)
    requires MidInv(c, s)
    ensures Keeps(c, s, OnData(s, f))
  {
    var id := f.header.systemBytes;
    LedgerOne(c.t3, s.ids.open, Answered(id));
    if id in s.ids.open {
      RemoveOne(s.ids.open, id);
    }
  }

  lemma DeselectKeeps(c: Config, s: State, now: int, id: Word32)
    requires MidInv(c, s)
    ensures Keeps(c, s, OnDeselectReq(c, s, now, id))
  {
    LedgerOne(c.t3, s.ids.open, Dropped(s.ids.open.Keys));
  }

  lemma RejectReqKeeps(c: Config, s: State, id: Word32)
    requires MidInv(c, s)
    ensures Keeps(c, s, OnRejectReq(s, id))
  {
    LedgerOne(c.t3, s.ids.open, Refused(id));
    if id in s.ids.open {
      RemoveOne(s.ids.open, id);
    }
  }

  lemma SelectKeeps(c: Config, s: State, id: Word32)
    requires MidInv(c, s)
    ensures Keeps(c, s, OnSelectReq(s, id))
  {
  }

  lemma LinktestRspKeeps(c: Config, s: State, f: Frame)
    requires MidInv(c, s)
    ensures Keeps(c, s, OnLinktestRsp(s, f))
  {
  }

  /** A frame ends the connection exactly when it closes it. */
  lemma TypedKeeps(c: Config, s: State, now: int, f: Frame, t: SType)
    requires MidInv(c, s) && s.link != NotConnected
    ensures var o := HandleTyped(c, s, now, f, t);
            Keeps(c, s, o) && (o.out.close <==> o.s.link == NotConnected)
  {
    match t
    case Data => DataKeeps(c, s, f);
    case SelectReq => SelectKeeps(c, s, f.header.systemBytes);
    case DeselectReq => DeselectKeeps(c, s, now, f.header.systemBytes);
    case LinktestReq =>
    case LinktestRsp => LinktestRspKeeps(c, s, f);
    case SelectRsp =>
    case DeselectRsp =>
    case RejectReq => RejectReqKeeps(c, s, f.header.systemBytes);
    case SeparateReq => DisconnectKeeps(c, s);
  }

  lemma FrameKeeps(c: Config, s: State, now: int, f: Frame)
    requires MidInv(c, s) && s.link != NotConnected
    ensures var o := HandleFrame(c, s, now, f);
            Keeps(c, s, o) && (o.out.close <==> o.s.link == NotConnected)
  {
    if f.header.ptype == 0 && STypeFromByte(f.header.stype).Some? {
      TypedKeeps(c, s, now, f, STypeFromByte(f.header.stype).value);
    }
  }

  lemma {:induction false} FramesKeep(c: Config, s: State, now: int, frames: seq<Frame>)
    requires MidInv(c, s) && s.link != NotConnected
    ensures var o := HandleFrames(c, s, now, frames);
            Keeps(c, s, o) && (o.out.close <==> o.s.link == NotConnected)
    decreases |frames|
  {
    if frames != [] {
      FrameKeeps(c, s, now, frames[0]);
      var o := HandleFrame(c, s, now, frames[0]);
      if !o.out.close {
        FramesKeep(c, o.s, now, frames[1..]);
        JoinKeeps(c, s, o, HandleFrames(c, o.s, now, frames[1..]));
      }
    }
  }

  lemma BytesKeep(c: Config, s: State, now: int, bytes: seq<Byte>)
    requires Inv(c, s)
    ensures Keeps(c, s, OnBytes(c, s, now, bytes)) && Inv(c, OnBytes(c, s, now, bytes).s)
  {
    if s.link != NotConnected {
      var (d, r) := Feed(c.maxFrame, s.decoder, bytes);
      var s1 := s.(lastActivity := now, decoder := d);
      if r.Err? {
        DisconnectKeeps(c, s1);
      } else {
        FramesKeep(c, s1, now, r.value);
      }
    }
  }

  // ---- allocation -------------------------------------------------------------------------------

  lemma InvCanAllocate(c: Config, ids: Ids)
    requires |ids.open| <= c.maxOpen
    ensures CanAllocate(ids)
  {
    BlockedSize(ids);
  }

  /** With fewer than 2^32 - 2 requests open the search ends within |open| + 3 tries. */
  lemma AllocationEnds(ids: Ids)
    requires |ids.open| < ID_COUNT - 2
    ensures CanAllocate(ids) && Passed(ids) + 1 <= |ids.open| + 3
    ensures Free(ids, Allocated(ids))
  {
    BlockedSize(ids);
  }

  // ---- ticks --------------------------------------------------------------------------------------

  function Members(ids: seq<Word32>): set<Word32> {
    set id | id in ids
  }

  ghost predicate AllOverdue(open: map<Word32, int>, ids: seq<Word32>, now: int) {
    && (forall i :: 0 <= i < |ids| ==> ids[i] in open && now >= open[ids[i]])
    && (forall i, j :: 0 <= i < j < |ids| ==> ids[i] < ids[j])
  }

  lemma {:induction false} LedgerOfTimeouts(t3: int, open: map<Word32, int>, ids: seq<Word32>, now: int)
    requires AllOverdue(open, ids, now)
    ensures Ledger(t3, open, TimedOutEvents(ids, now)) == Some(open - Members(ids))
    decreases |ids|
  {
    if ids == [] {
      assert open - Members(ids) == open;
    } else {
      var rest := open - {ids[0]};
      assert AllOverdue(rest, ids[1..], now);
      LedgerOfTimeouts(t3, rest, ids[1..], now);
      assert rest - Members(ids[1..]) == open - Members(ids);
    }
  }

  lemma OverdueIsOverdue(open: map<Word32, int>, now: int)
    ensures var late := Ascending(Overdue(open, now));
            AllOverdue(open, late, now) && Members(late) == Overdue(open, now)
  {
    var ids := Overdue(open, now);
    var late := Ascending(ids);
    forall id: Word32
      ensures id in late <==> id in ids
    {
      AscendingMembers(ids, id);
    }
    forall i, j | 0 <= i < j < |late|
      ensures late[i] < late[j]
    {
      AscendingIsSorted(ids, i, j);
    }
    assert forall i :: 0 <= i < |late| ==> late[i] in ids;
  }

  lemma SubmapSize(a: map<Word32, int>, b: map<Word32, int>)
    requires a.Keys <= b.Keys
    ensures |a| <= |b|
  {
    SubsetSize(a.Keys, b.Keys);
    assert |a.Keys| == |a| && |b.Keys| == |b|;
  }

  lemma ReportKeeps(c: Config, s: State, now: int)
    requires Inv(c, s)
    ensures Keeps(c, s, ReportOverdue(s, now)) && Inv(c, ReportOverdue(s, now).s)
  {
    LedgerOfOverdue(c.t3, s.ids.open, now);
    RemovedKeeps(c, s, Overdue(s.ids.open, now));
  }

  lemma LedgerOfOverdue(t3: int, open: map<Word32, int>, now: int)
    ensures Ledger(t3, open, TimedOutEvents(Ascending(Overdue(open, now)), now))
            == Some(open - Overdue(open, now))
  {
    OverdueIsOverdue(open, now);
    LedgerOfTimeouts(t3, open, Ascending(Overdue(open, now)), now);
  }

  lemma RemovedKeeps(c: Config, s: State, gone: set<Word32>)
    requires Inv(c, s)
    ensures Inv(c, s.(ids := s.ids.(open := s.ids.open - gone)))
  {
    SubmapSize(s.ids.open - gone, s.ids.open);
  }

  lemma LinktestKeeps(c: Config, s: State, now: int)
    requires Inv(c, s) && CanAllocate(s.ids) && LinktestDue(c, s, now)
    ensures Keeps(c, s, StartLinktest(c, s, now)) && Inv(c, StartLinktest(c, s, now).s)
  {
    assert Free(s.ids, Allocated(s.ids));
  }

  lemma TickKeeps(c: Config, s: State, now: int)
    requires Inv(c, s) && CanAllocate(s.ids)
    ensures Keeps(c, s, OnTick(c, s, now)) && Inv(c, OnTick(c, s, now).s)
  {
    if s.link != NotConnected {
      if MustClose(s, now) {
        DisconnectKeeps(c, s);
      } else {
        ReportKeeps(c, s, now);
        var o := ReportOverdue(s, now);
        if LinktestDue(c, o.s, now) {
          FewerBlocked(s.ids, o.s.ids);
          LinktestKeeps(c, o.s, now);
          JoinKeeps(c, s, o, StartLinktest(c, o.s, now));
        }
      }
    }
  }

  // ---- requests -----------------------------------------------------------------------------------

  lemma RequestKeeps(c: Config, s: State, now: int, m: Message)
    requires Inv(c, s) && CanAllocate(s.ids)
    ensures var o := SendRequest(c, s, now, m).o;
            Keeps(c, s, o) && Inv(c, o.s)
  {
    if s.link == Selected && (m.wBit ==> |s.ids.open| < c.maxOpen) {
      var id, s1 := Allocated(s.ids), s.(ids := AfterAllocation(s.ids));
      if QueueData(c, m, id).Ok? {
        QueuedKeeps(c, s1, now, m, id, QueueData(c, m, id).value);
      }
    }
  }

  lemma QueuedKeeps(c: Config, s: State, now: int, m: Message, id: Word32, bytes: seq<Byte>)
    requires Inv(c, s) && Free(s.ids, id) && s.link == Selected
    requires m.wBit ==> |s.ids.open| < c.maxOpen
    ensures Keeps(c, s, Queued(c, s, now, m, id, bytes)) && Inv(c, Queued(c, s, now, m, id, bytes).s)
  {
    LedgerOne(c.t3, s.ids.open, Opened(id, now));
  }

  lemma ReplyKeeps(c: Config, s: State, id: Word32, m: Message)
    requires Inv(c, s)
    ensures Keeps(c, s, SendReply(c, s, id, m).o) && Inv(c, SendReply(c, s, id, m).o.s)
  {
  }

  lemma StepKeeps(c: Config, s: State, call: Call)
    requires Inv(c, s)
    ensures CanAllocate(s.ids)
    ensures Keeps(c, s, Step(c, s, call)) && Inv(c, Step(c, s, call).s)
  {
    InvCanAllocate(c, s.ids);
    match call
    case CallConnect(now) => ConnectKeeps(c, s, now);
    case CallBytes(now, bytes) => BytesKeep(c, s, now, bytes);
    case CallTick(now) => TickKeeps(c, s, now);
    case CallDisconnect => if s.link != NotConnected { DisconnectKeeps(c, s); }
    case CallRequest(now, m) => RequestKeeps(c, s, now, m);
    case CallReply(id, m) => ReplyKeeps(c, s, id, m);
  }
}
