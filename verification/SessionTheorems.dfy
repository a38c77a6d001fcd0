/** What holds over every run of a session. */
module SessionTheorems {
  import opened Common
  import opened Bytes
  import opened Frames
  import opened FrameDecoding
  import opened SessionModel
  import opened SessionLedger
  import opened SessionProofs

  /** A run: the last state, the output of each call and all events in order. */
  datatype Trace = Trace(s: State, outs: seq<Output>, events: seq<Event>)

  ghost function RunFrom(c: Config, s: State, calls: seq<Call>): Trace
    requires Inv(c, s)
    decreases |calls|
  {
    if calls == [] then Trace(s, [], [])
    else
      StepKeeps(c, s, calls[0]);
      var o := Step(c, s, calls[0]);
      var t := RunFrom(c, o.s, calls[1..]);
      Trace(t.s, [o.out] + t.outs, o.events + t.events)
  }

  ghost function Run(c: Config, calls: seq<Call>): Trace {
    InitInv(c);
    RunFrom(c, Init(c), calls)
  }

  lemma InitInv(c: Config)
    ensures Inv(c, Init(c))
  {
  }

  lemma {:induction false} RunKeeps(c: Config, s: State, calls: seq<Call>)
    requires Inv(c, s)
    ensures var t := RunFrom(c, s, calls);
            Inv(c, t.s) && Ledger(c.t3, s.ids.open, t.events) == Some(t.s.ids.open)
    decreases |calls|
  {
    if calls != [] {
      StepKeeps(c, s, calls[0]);
      var o := Step(c, s, calls[0]);
      RunKeeps(c, o.s, calls[1..]);
      LedgerJoin(c.t3, s.ids.open, o.events, RunFrom(c, o.s, calls[1..]).events);
    }
  }

  /** The session invariant, spelled out, after any sequence of calls. */
  lemma SessionInvariant(c: Config, calls: seq<Call>)
    ensures var s := Run(c, calls).s;
            && (s.timers.t7.Some? <==> s.link == NotSelected)
            && (s.timers.t8.Some? <==> s.decoder.buffer != [])
            && (s.timers.t6.Some? <==> s.ids.linktest.Some?)
    ensures var s := Run(c, calls).s;
            && (s.ids.open != map[] ==> s.link == Selected)
            && |s.ids.open| <= c.maxOpen && 0 !in s.ids.open
            && (s.ids.linktest.Some? ==> s.ids.linktest.value !in s.ids.open)
    ensures var s := Run(c, calls).s;
            s.link == NotConnected ==>
              && s.decoder == NEW && s.timers == STOPPED
              && s.ids.linktest.None? && s.ids.open == map[]
  {
    InitInv(c);
    RunKeeps(c, Init(c), calls);
  }

  /** Every request that was opened has ended once or is still open, and nothing else ends. */
  lemma TransactionsAreConserved(c: Config, calls: seq<Call>, id: Word32)
    ensures var t := Run(c, calls);
            && Opens(t.events, id) == EndsOf(t.events, id) + One(id in t.s.ids.open)
            && Openings(t.events) == Endings(t.events) + |t.s.ids.open|
  {
    InitInv(c);
    RunKeeps(c, Init(c), calls);
    OpenedIsEndedOrOpen(c.t3, map[], Run(c, calls).events, id);
    RequestsAreConserved(c.t3, map[], Run(c, calls).events);
  }

  // ---- T3 ---------------------------------------------------------------------------------------

  /** events[j] opened id at time sent and nothing since has ended it. */
  ghost predicate OpenSince(events: seq<Event>, j: nat, id: Word32, sent: int) {
    && j < |events| && events[j] == Opened(id, sent)
    && forall i :: j < i < |events| ==> !Ends(events[i], id)
  }

  lemma LedgerLast(t3: int, events: seq<Event>)
    requires events != [] && Ledger(t3, map[], events).Some?
    ensures Ledger(t3, map[], events[..|events| - 1]).Some?
    ensures Entry(t3, Ledger(t3, map[], events[..|events| - 1]).value, events[|events| - 1])
            == Ledger(t3, map[], events)
  {
    LedgerPrefix(t3, map[], events, |events| - 1);
    var last := events[|events| - 1];
    assert events == events[..|events| - 1] + [last];
    LedgerJoin(t3, map[], events[..|events| - 1], [last]);
    LedgerOne(t3, Ledger(t3, map[], events[..|events| - 1]).value, last);
  }

  lemma {:induction false} LedgerPrefix(t3: int, open: map<Word32, int>, events: seq<Event>, k: nat)
    requires k <= |events| && Ledger(t3, open, events).Some?
    ensures Ledger(t3, open, events[..k]).Some?
    decreases k
  {
    if k > 0 {
      LedgerPrefix(t3, Entry(t3, open, events[0]).value, events[1..], k - 1);
      assert events[..k][1..] == events[1..][..k - 1];
    }
  }

  lemma {:induction false} OpenHasOpening(t3: int, events: seq<Event>, id: Word32) returns (j: nat)
    requires Ledger(t3, map[], events).Some? && id in Ledger(t3, map[], events).value
    ensures OpenSince(events, j, id, Ledger(t3, map[], events).value[id] - t3)
    decreases |events|
  {
    var n := |events| - 1;
    LedgerLast(t3, events);
    if events[n].Opened? && events[n].id == id {
      j := n;
    } else {
      j := OpenHasOpening(t3, events[..n], id);
    }
  }

  lemma ReportHasOpening(t3: int, events: seq<Event>, k: nat, id: Word32, at: int)
    returns (j: nat, sent: int)
    requires Ledger(t3, map[], events).Some? && k < |events| && events[k] == TimedOut(id, at)
    ensures OpenSince(events[..k], j, id, sent) && at >= sent + t3
  {
    LedgerPrefix(t3, map[], events, k + 1);
    assert events[..k + 1][..k] == events[..k];
    LedgerLast(t3, events[..k + 1]);
    j := OpenHasOpening(t3, events[..k], id);
    sent := events[..k][j].sent;
  }

  /** Each T3 report is of a request sent at least t3 before, not ended since. */
  lemma NoEarlyReport(c: Config, calls: seq<Call>, k: nat, id: Word32, at: int)
    returns (j: nat, sent: int)
    requires k < |Run(c, calls).events| && Run(c, calls).events[k] == TimedOut(id, at)
    ensures OpenSince(Run(c, calls).events[..k], j, id, sent) && at >= sent + c.t3
  {
    InitInv(c);
    RunKeeps(c, Init(c), calls);
    j, sent := ReportHasOpening(c.t3, Run(c, calls).events, k, id, at);
  }

  /** A tick that does not close reports, once each and in order, exactly the overdue requests. */
  lemma TickReportsOverdue(c: Config, s: State, now: int, id: Word32)
    requires Inv(c, s) && CanAllocate(s.ids) && s.link != NotConnected && !OnTick(c, s, now).out.close
    ensures var o := OnTick(c, s, now);
            && (id in o.out.timedOut <==> id in s.ids.open && now >= s.ids.open[id])
            && (id in o.s.ids.open <==> id in s.ids.open && now < s.ids.open[id])
    ensures var late := OnTick(c, s, now).out.timedOut;
            forall i, j :: 0 <= i < j < |late| ==> late[i] < late[j]
  {
    OverdueIsOverdue(s.ids.open, now);
    AscendingMembers(Overdue(s.ids.open, now), id);
    ReportsOnly(c, s, now);
  }

  lemma {:induction false} StaysOpen(t3: int, open: map<Word32, int>, events: seq<Event>, id: Word32)
    requires Ledger(t3, open, events).Some? && id in open
    requires forall i :: 0 <= i < |events| ==> !Ends(events[i], id)
    ensures id in Ledger(t3, open, events).value && Ledger(t3, open, events).value[id] == open[id]
    decreases |events|
  {
    if events != [] {
      assert !Ends(events[0], id);
      StaysOpen(t3, Entry(t3, open, events[0]).value, events[1..], id);
    }
  }

  /** A request that was sent and has not ended is open with the deadline sent + t3. */
  lemma OpenSinceIsOpen(t3: int, events: seq<Event>, j: nat, id: Word32, sent: int)
    requires Ledger(t3, map[], events).Some? && OpenSince(events, j, id, sent)
    ensures id in Ledger(t3, map[], events).value && Ledger(t3, map[], events).value[id] == sent + t3
  {
    var before, after := events[..j + 1], events[j + 1..];
    assert events == before + after;
    LedgerPrefix(t3, map[], events, j + 1);
    LedgerJoin(t3, map[], before, after);
    LedgerLast(t3, before);
    assert forall i :: 0 <= i < |after| ==> after[i] == events[j + 1 + i];
    StaysOpen(t3, Ledger(t3, map[], before).value, after, id);
  }

  /** After any run: a tick that does not close reports a request that was sent and has not ended since
      exactly if its time, sent + t3, has come. */
  lemma ReportedByTheNextTick(c: Config, calls: seq<Call>, now: int, j: nat, id: Word32, sent: int)
    requires OpenSince(Run(c, calls).events, j, id, sent)
    ensures var s := Run(c, calls).s;
            && CanAllocate(s.ids)
            && (!OnTick(c, s, now).out.close ==>
                  (id in OnTick(c, s, now).out.timedOut <==> now >= sent + c.t3))
  {
    InitInv(c);
    RunKeeps(c, Init(c), calls);
    var t := Run(c, calls);
    InvCanAllocate(c, t.s.ids);
    OpenSinceIsOpen(c.t3, t.events, j, id, sent);
    if !OnTick(c, t.s, now).out.close {
      TickReportsOverdue(c, t.s, now, id);
    }
  }

  lemma ReportsOnly(c: Config, s: State, now: int)
    requires CanAllocate(s.ids) && s.link != NotConnected && !OnTick(c, s, now).out.close
    ensures OnTick(c, s, now).out.timedOut == Ascending(Overdue(s.ids.open, now))
    ensures OnTick(c, s, now).s.ids.open == s.ids.open - Overdue(s.ids.open, now)
  {
  }

  // ---- what the caller sees of the events ---------------------------------------------------------

  function AnswerIn(d: Delivery): seq<Word32> {
    if d.replyTo.Some? then [d.replyTo.value] else []
  }

  function AnswersIn(deliveries: seq<Delivery>): seq<Word32> {
    if deliveries == [] then [] else AnswerIn(deliveries[0]) + AnswersIn(deliveries[1..])
  }

  function AnswerOf(e: Event): seq<Word32> {
    if e.Answered? then [e.id] else []
  }

  function ReportOf(e: Event): seq<Word32> {
    if e.TimedOut? then [e.id] else []
  }

  function Answers(events: seq<Event>): seq<Word32> {
    if events == [] then [] else AnswerOf(events[0]) + Answers(events[1..])
  }

  function Reports(events: seq<Event>): seq<Word32> {
    if events == [] then [] else ReportOf(events[0]) + Reports(events[1..])
  }

  lemma {:induction false} AnswersInJoin(a: seq<Delivery>, b: seq<Delivery>)
    ensures AnswersIn(a + b) == AnswersIn(a) + AnswersIn(b)
    decreases |a|
  {
    if a == [] {
      assert a + b == b;
    } else {
      assert (a + b)[1..] == a[1..] + b && (a + b)[0] == a[0];
      AnswersInJoin(a[1..], b);
      assert AnswerIn(a[0]) + (AnswersIn(a[1..]) + AnswersIn(b)) == AnswerIn(a[0]) + AnswersIn(a[1..]) + AnswersIn(b);
    }
  }

  lemma {:induction false} AnswersJoin(a: seq<Event>, b: seq<Event>)
    ensures Answers(a + b) == Answers(a) + Answers(b)
    decreases |a|
  {
    if a == [] {
      assert a + b == b;
    } else {
      assert (a + b)[1..] == a[1..] + b && (a + b)[0] == a[0];
      AnswersJoin(a[1..], b);
      assert AnswerOf(a[0]) + (Answers(a[1..]) + Answers(b)) == AnswerOf(a[0]) + Answers(a[1..]) + Answers(b);
    }
  }

  lemma {:induction false} ReportsJoin(a: seq<Event>, b: seq<Event>)
    ensures Reports(a + b) == Reports(a) + Reports(b)
    decreases |a|
  {
    if a == [] {
      assert a + b == b;
    } else {
      assert (a + b)[1..] == a[1..] + b && (a + b)[0] == a[0];
      ReportsJoin(a[1..], b);
      assert ReportOf(a[0]) + (Reports(a[1..]) + Reports(b)) == ReportOf(a[0]) + Reports(a[1..]) + Reports(b);
    }
  }

  lemma EventsJoin(a: seq<Event>, b: seq<Event>)
    ensures Answers(a + b) == Answers(a) + Answers(b) && Reports(a + b) == Reports(a) + Reports(b)
  {
    AnswersJoin(a, b);
    ReportsJoin(a, b);
  }

  /** The replies delivered and the timeouts reported are those of the events, in order. */
  ghost predicate Shown(o: Outcome) {
    && AnswersIn(o.out.deliveries) == Answers(o.events)
    && o.out.timedOut == Reports(o.events)
  }

  lemma JoinShown(a: Outcome, b: Outcome)
    requires Shown(a) && Shown(b)
    ensures Shown(Join(a, b))
  {
    AnswersInJoin(a.out.deliveries, b.out.deliveries);
    EventsJoin(a.events, b.events);
  }

  lemma FrameShown(c: Config, s: State, now: int, f: Frame)
    ensures Shown(HandleFrame(c, s, now, f))
  {
    if f.header.ptype == 0 && STypeFromByte(f.header.stype).Some? {
      TypedShown(c, s, now, f, STypeFromByte(f.header.stype).value);
    }
  }

  lemma TypedShown(c: Config, s: State, now: int, f: Frame, t: SType)
    ensures Shown(HandleTyped(c, s, now, f, t))
  {
    match t
    case Data => DataShown(s, f);
    case RejectReq => OneShown(Refused(f.header.systemBytes));
    case DeselectReq => OneShown(Dropped(s.ids.open.Keys));
    case SeparateReq => OneShown(Dropped(s.ids.open.Keys));
    case SelectReq =>
    case SelectRsp =>
    case DeselectRsp =>
    case LinktestReq =>
    case LinktestRsp =>
  }

  lemma OneShown(e: Event)
    ensures Answers([e]) == AnswerOf(e) && Reports([e]) == ReportOf(e)
  {
    assert [e][1..] == [];
  }

  lemma DataShown(s: State, f: Frame)
    ensures Shown(OnData(s, f))
  {
    var id := f.header.systemBytes;
    OneShown(Answered(id));
    assert [Delivery(f, Some(id))][1..] == [] && [Delivery(f, None)][1..] == [];
  }

  lemma {:induction false} FramesShown(c: Config, s: State, now: int, frames: seq<Frame>)
    ensures Shown(HandleFrames(c, s, now, frames))
    decreases |frames|
  {
    if frames != [] {
      FrameShown(c, s, now, frames[0]);
      var o := HandleFrame(c, s, now, frames[0]);
      FramesShown(c, o.s, now, frames[1..]);
      JoinShown(o, HandleFrames(c, o.s, now, frames[1..]));
    }
  }

  lemma {:induction false} TimeoutsShown(ids: seq<Word32>, now: int)
    ensures Answers(TimedOutEvents(ids, now)) == [] && Reports(TimedOutEvents(ids, now)) == ids
    decreases |ids|
  {
    if ids != [] {
      TimeoutsShown(ids[1..], now);
    }
  }

  lemma TickShown(c: Config, s: State, now: int)
    requires CanAllocate(s.ids)
    ensures Shown(OnTick(c, s, now))
  {
    OneShown(Dropped(s.ids.open.Keys));
    SurvivedTickShown(c, s, now);
  }

  lemma SurvivedTickShown(c: Config, s: State, now: int)
    requires CanAllocate(s.ids)
    ensures Shown(SurvivedTick(c, s, now))
  {
    var o := ReportOverdue(s, now);
    assert Shown(o) by {
      TimeoutsShown(Ascending(Overdue(s.ids.open, now)), now);
    }
    FewerBlocked(s.ids, o.s.ids);
    JoinShown(o, StartLinktest(c, o.s, now));
  }

  lemma StepShown(c: Config, s: State, call: Call)
    requires CanAllocate(s.ids)
    ensures Shown(Step(c, s, call))
  {
    match call
    case CallConnect(now) => OneShown(Dropped(s.ids.open.Keys));
    case CallBytes(now, bytes) => BytesShown(c, s, now, bytes);
    case CallTick(now) => TickShown(c, s, now);
    case CallDisconnect => OneShown(Dropped(s.ids.open.Keys));
    case CallRequest(now, m) => RequestShown(c, s, now, m);
    case CallReply(id, m) =>
  }

  lemma BytesShown(c: Config, s: State, now: int, bytes: seq<Byte>)
    ensures Shown(OnBytes(c, s, now, bytes))
  {
    OneShown(Dropped(s.ids.open.Keys));
    var (d, r) := Feed(c.maxFrame, s.decoder, bytes);
    if r.Ok? {
      FramesShown(c, s.(lastActivity := now, decoder := d), now, r.value);
    }
  }

  lemma RequestShown(c: Config, s: State, now: int, m: Message)
    requires CanAllocate(s.ids)
    ensures Shown(SendRequest(c, s, now, m).o)
  {
    OneShown(Opened(Allocated(s.ids), now));
  }

  function AllAnswers(outs: seq<Output>): seq<Word32> {
    if outs == [] then [] else AnswersIn(outs[0].deliveries) + AllAnswers(outs[1..])
  }

  function AllReports(outs: seq<Output>): seq<Word32> {
    if outs == [] then [] else outs[0].timedOut + AllReports(outs[1..])
  }

  /** Over a run the caller sees every reply match and every timeout, and no other. */
  lemma {:induction false} RunShown(c: Config, s: State, calls: seq<Call>)
    requires Inv(c, s)
    ensures var t := RunFrom(c, s, calls);
            AllAnswers(t.outs) == Answers(t.events) && AllReports(t.outs) == Reports(t.events)
    decreases |calls|
  {
    if calls != [] {
      StepKeeps(c, s, calls[0]);
      StepShown(c, s, calls[0]);
      var o := Step(c, s, calls[0]);
      RunShown(c, o.s, calls[1..]);
      var t := RunFrom(c, o.s, calls[1..]);
      EventsJoin(o.events, t.events);
      assert ([o.out] + t.outs)[1..] == t.outs;
    }
  }

  // ---- requests and ids -----------------------------------------------------------------------------

  /** A request is accepted exactly while selected, below the bound if it wants a reply, and if
      its body encodes within the frame limit; a refused one opens and sends nothing. */
  lemma RequestAcceptedIff(c: Config, s: State, now: int, m: Message)
    requires CanAllocate(s.ids)
    ensures SendRequest(c, s, now, m).result.Ok? <==>
              && s.link == Selected && (m.wBit ==> |s.ids.open| < c.maxOpen)
              && EncodedBody(m).Ok?
              && HEADER_SIZE + |EncodedBody(m).value| <= c.maxFrame
              && HEADER_SIZE + |EncodedBody(m).value| < ID_COUNT
    ensures var r := SendRequest(c, s, now, m);
            r.result.Err? ==> r.o.out == NOTHING && r.o.s.ids.open == s.ids.open
  {
  }

  /** An accepted request gets an unused id, leaves one frame that carries it, and opens a
      transaction exactly if it asked for a reply. */
  lemma RequestIsTracked(c: Config, s: State, now: int, m: Message, id: Word32, body: seq<Byte>)
    requires CanAllocate(s.ids) && SendRequest(c, s, now, m).result == Ok(id)
    requires EncodedBody(m) == Ok(body)
    ensures Free(s.ids, id) && Fits(Outgoing(c, m, id, body))
    ensures var o := SendRequest(c, s, now, m).o;
            && o.out == NOTHING.(toSend := [Wire(Outgoing(c, m, id, body))])
            && o.s.ids.open == (if m.wBit then s.ids.open[id := now + c.t3] else s.ids.open)
  {
  }

  /** The search for an id can end exactly when some id is free. */
  lemma FreeIdIff(ids: Ids)
    ensures CanAllocate(ids) <==> exists id: Word32 :: Free(ids, id)
  {
    BlockedSize(ids);
    if CanAllocate(ids) {
      assert Free(ids, Allocated(ids));
    } else {
      forall id: Word32
        ensures !Free(ids, id)
      {
        AllIdsBlocked(ids, id);
      }
    }
  }

  lemma AllIdsBlocked(ids: Ids, id: Word32)
    requires |Blocked(ids)| >= ID_COUNT
    ensures !Free(ids, id)
  {
    BlockedSize(ids);
    var all := Walked(0, ID_COUNT);
    WalkedSize(0, ID_COUNT);
    forall b: Word32
      ensures b in all
    {
      WalkedHas(ID_COUNT, b);
    }
    if id !in Blocked(ids) {
      SubsetSize(Blocked(ids) + {id}, all);
    }
  }

  lemma {:induction false} WalkedHas(k: nat, id: Word32)
    requires id < k <= ID_COUNT
    ensures id in Walked(0, k)
    decreases k
  {
    if id < k - 1 {
      WalkedHas(k - 1, id);
    }
  }

  /** The id is the first free one at or after the generator, counting around the wrap, and the
      generator moves just past it. */
  lemma AllocatesFirstFree(ids: Ids, j: nat)
    requires CanAllocate(ids)
    ensures j < Passed(ids) ==> j < ID_COUNT && !Free(ids, At(ids.next, j))
    ensures Free(ids, Allocated(ids)) && AfterAllocation(ids).next == At(Allocated(ids), 1)
  {
    assert NoneBefore(ids.next, Blocked(ids), Passed(ids));
    if j < Passed(ids) {
      FreeIsNotBlocked(ids, At(ids.next, j));
    }
  }
}
