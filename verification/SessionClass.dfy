/** src/secsgem/hsms/session.cpp: the class whose methods update the fields in place, proved
    against SessionModel. */
module SessionClass {
  import opened Common
  import opened Bytes
  import opened Frames
  import opened FrameDecoding
  import opened Secs2Codec
  import opened Secs2Methods
  import opened SessionModel

  // ---- joining the outcomes of several frames -----------------------------------------------------

  lemma JoinAssociates(a: Outcome, b: Outcome, d: Outcome)
    ensures Join(Join(a, b), d) == Join(a, Join(b, d))
  {
    assert a.out.toSend + b.out.toSend + d.out.toSend == a.out.toSend + (b.out.toSend + d.out.toSend);
    assert a.out.deliveries + b.out.deliveries + d.out.deliveries
        == a.out.deliveries + (b.out.deliveries + d.out.deliveries);
    assert a.out.timedOut + b.out.timedOut + d.out.timedOut
        == a.out.timedOut + (b.out.timedOut + d.out.timedOut);
    assert a.events + b.events + d.events == a.events + (b.events + d.events);
  }

  lemma JoinStay(s: State, o: Outcome)
    ensures Join(Stay(s), o) == o
    ensures !o.out.close ==> Join(o, Stay(o.s)) == o
  {
    assert [] + o.out.toSend == o.out.toSend && [] + o.out.deliveries == o.out.deliveries;
    assert [] + o.out.timedOut == o.out.timedOut && [] + o.events == o.events;
  }

  /** One turn of the loop over the frames of a read. */
  lemma FramesTurn(c: Config, acc: Outcome, now: int, frames: seq<Frame>, i: nat)
    requires i < |frames|
    ensures var o := HandleFrame(c, acc.s, now, frames[i]);
            Join(acc, HandleFrames(c, acc.s, now, frames[i..]))
            == if o.out.close then Join(acc, o)
               else Join(Join(acc, o), HandleFrames(c, o.s, now, frames[i + 1..]))
  {
    var o := HandleFrame(c, acc.s, now, frames[i]);
    assert frames[i..][0] == frames[i] && frames[i..][1..] == frames[i + 1..];
    JoinAssociates(acc, o, HandleFrames(c, o.s, now, frames[i + 1..]));
  }

  // ---- ascending order ------------------------------------------------------------------------------

  lemma AscendingStep(ids: set<Word32>, m: Word32)
    requires m in ids && forall k :: k in ids ==> m <= k
    ensures Ascending(ids) == [m] + Ascending(ids - {m})
  {
  }

  /** The keys in the order in which std::map visits them. */
  method SortedKeys(open: map<Word32, int>) returns (keys: seq<Word32>)
    ensures keys == Ascending(open.Keys)
  {
    keys := [];
    var rest := open.Keys;
    while rest != {}
      invariant keys + Ascending(rest) == Ascending(open.Keys)
      decreases |rest|
    {
      SmallestExists(rest);
      var m: Word32 :| m in rest && forall k :: k in rest ==> m <= k;
      AscendingStep(rest, m);
      AppendIsAssociative(keys, m, Ascending(rest - {m}));
      keys, rest := keys + [m], rest - {m};
    }
  }

  function Late(keys: seq<Word32>, open: map<Word32, int>, now: int): seq<Word32>
    requires forall i :: 0 <= i < |keys| ==> keys[i] in open
  {
    if keys == [] then []
    else (if now >= open[keys[0]] then [keys[0]] else []) + Late(keys[1..], open, now)
  }

  ghost function LateIn(ids: set<Word32>, open: map<Word32, int>, now: int): set<Word32>
    requires ids <= open.Keys
  {
    set id | id in ids && now >= open[id]
  }

  lemma {:induction false} LateIsAscending(ids: set<Word32>, open: map<Word32, int>, now: int)
    requires ids <= open.Keys
    ensures forall i :: 0 <= i < |Ascending(ids)| ==> Ascending(ids)[i] in open
    ensures Late(Ascending(ids), open, now) == Ascending(LateIn(ids, open, now))
    decreases |ids|
  {
    if ids == {} {
      assert LateIn(ids, open, now) == {};
    } else {
      SmallestExists(ids);
      var m: Word32 :| m in ids && forall k :: k in ids ==> m <= k;
      var rest := ids - {m};
      AscendingStep(ids, m);
      LateIsAscending(rest, open, now);
      assert Ascending(ids)[1..] == Ascending(rest);
      if now >= open[m] {
        assert LateIn(ids, open, now) - {m} == LateIn(rest, open, now);
        AscendingStep(LateIn(ids, open, now), m);
      } else {
        assert LateIn(ids, open, now) == LateIn(rest, open, now);
      }
    }
  }

  /** left is open without the overdue ids among the keys before i. */
  ghost predicate Left(open: map<Word32, int>, keys: seq<Word32>, i: nat, now: int, left: map<Word32, int>)
    requires i <= |keys|
  {
    && (forall id :: id in left <==> id in open && (id in keys[i..] || now < open[id]))
    && (forall id :: id in left ==> left[id] == open[id])
  }

  lemma LeftStep(open: map<Word32, int>, keys: seq<Word32>, i: nat, now: int, left: map<Word32, int>)
    requires keys == Ascending(open.Keys) && i < |keys| && Left(open, keys, i, now, left)
    ensures keys[i] in left && left[keys[i]] == open[keys[i]]
    ensures Left(open, keys, i + 1, now, if now >= open[keys[i]] then left - {keys[i]} else left)
  {
    KeysAreMembers(open);
    assert keys[i] in open.Keys && keys[i] in keys[i..];
    KeysStep(open.Keys, keys, i);
  }

  lemma LeftAtEnd(open: map<Word32, int>, keys: seq<Word32>, now: int, left: map<Word32, int>)
    requires Left(open, keys, |keys|, now, left)
    ensures left == open - Overdue(open, now)
  {
  }

  lemma LeftAtStart(open: map<Word32, int>, now: int)
    ensures Left(open, Ascending(open.Keys), 0, now, open)
  {
    KeysAreMembers(open);
    assert Ascending(open.Keys)[0..] == Ascending(open.Keys);
  }

  lemma KeysLate(open: map<Word32, int>, now: int)
    ensures forall i :: 0 <= i < |Ascending(open.Keys)| ==> Ascending(open.Keys)[i] in open
    ensures Late(Ascending(open.Keys), open, now) == Ascending(Overdue(open, now))
  {
    LateIsAscending(open.Keys, open, now);
    assert LateIn(open.Keys, open, now) == Overdue(open, now);
  }

  /** The T3 loop: every overdue entry is reported and erased. */
  method EraseOverdue(open: map<Word32, int>, now: int) returns (left: map<Word32, int>, timedOut: seq<Word32>)
    ensures left == open - Overdue(open, now)
    ensures timedOut == Ascending(Overdue(open, now))
  {
    var keys := SortedKeys(open);
    KeysLate(open, now);
    LeftAtStart(open, now);
    left, timedOut := open, [];
    for i := 0 to |keys|
      invariant timedOut + Late(keys[i..], open, now) == Ascending(Overdue(open, now))
      invariant Left(open, keys, i, now, left)
    {
      LateStep(keys, open, now, i, timedOut);
      LeftStep(open, keys, i, now, left);
      if now >= left[keys[i]] {
        timedOut := timedOut + [keys[i]];
        left := left - {keys[i]};
      }
    }
    LeftAtEnd(open, keys, now, left);
  }

  lemma KeysAreMembers(open: map<Word32, int>)
    ensures forall id: Word32 :: id in Ascending(open.Keys) <==> id in open
  {
    forall id: Word32
      ensures id in Ascending(open.Keys) <==> id in open
    {
      AscendingMembers(open.Keys, id);
    }
  }

  lemma LateStep(keys: seq<Word32>, open: map<Word32, int>, now: int, i: nat, done: seq<Word32>)
    requires i < |keys| && forall i :: 0 <= i < |keys| ==> keys[i] in open
    ensures done + Late(keys[i..], open, now)
            == (if now >= open[keys[i]] then done + [keys[i]] else done) + Late(keys[i + 1..], open, now)
  {
    assert keys[i..][1..] == keys[i + 1..];
  }

  lemma KeysStep(ids: set<Word32>, keys: seq<Word32>, i: nat)
    requires keys == Ascending(ids) && i < |keys|
    ensures forall id :: id in keys[i..] <==> id == keys[i] || id in keys[i + 1..]
    ensures keys[i] !in keys[i + 1..]
  {
    assert keys[i..] == [keys[i]] + keys[i + 1..];
    forall j | i < j < |keys|
      ensures keys[i] < keys[j]
    {
      AscendingIsSorted(ids, i, j);
    }
  }

  // ---- encoding a message ---------------------------------------------------------------------------

  method QueueDataBytes(c: Config, m: Message, id: Word32) returns (r: Result<seq<Byte>>)
    ensures r == QueueData(c, m, id)
  {
    var body: seq<Byte> := [];
    if m.body.Some? {
      var encoded := EncodeItem(m.body.value);
      if encoded.Err? {
        return encoded;
      }
      body := encoded.value;
    }
    if HEADER_SIZE + |body| > c.maxFrame {
      return Err(ERR_MESSAGE_TOO_LARGE);
    }
    r := EncodeFrameTo(Outgoing(c, m, id, body));
  }

  // ---- system bytes -----------------------------------------------------------------------------------

  /** The search from first on stands at next, with at most left blocked ids still to pass over. */
  ghost predicate Searching(first: Word32, blocked: set<Word32>, left: nat, next: Word32)
  {
    && left <= |blocked| < ID_COUNT && NoneBefore(first, blocked, |blocked| - left)
    && next == At(first, |blocked| - left)
    && Search(first, blocked, 0) == Search(first, blocked, |blocked| - left)
  }

  function Wrapped(id: Word32): Word32 {
    if id == 0xFFFF_FFFF then 0 else id + 1
  }

  lemma WrapsAround(next: Word32, k: nat)
    requires k < ID_COUNT
    ensures Wrapped(At(next, k)) == At(next, k + 1)
  {
  }

  lemma SearchTurn(first: Word32, blocked: set<Word32>, left: nat, next: Word32)
    requires Searching(first, blocked, left, next)
    ensures next !in blocked ==>
              next == At(first, Search(first, blocked, 0)) && Wrapped(next) == At(first, Search(first, blocked, 0) + 1)
    ensures next in blocked ==> left > 0 && Searching(first, blocked, left - 1, Wrapped(next))
  {
    var k := |blocked| - left;
    WrapsAround(first, k);
    if next in blocked {
      NoneBeforeSize(first, blocked, k + 1);
    }
  }

  /** allocate_system_bytes: the loop over candidates, with the 32-bit wrap. */
  method FindFree(ids: Ids) returns (id: Word32, next: Word32)
    requires CanAllocate(ids)
    ensures id == Allocated(ids) && next == AfterAllocation(ids).next
  {
    next := ids.next;
    ghost var blocked := Blocked(ids);
    ghost var left: nat := |blocked|;
    while true
      invariant Searching(ids.next, blocked, left, next)
      decreases left
    {
      SearchTurn(ids.next, blocked, left, next);
      FreeIsNotBlocked(ids, next);
      id, next := next, Wrapped(next);
      if id != 0 && id !in ids.open && ids.linktest != Some(id) {
        return;
      }
      left := left - 1;
    }
  }

  // ---- the session ----------------------------------------------------------------------------------

  lemma SurvivedParts(c: Config, s: State, now: int)
    requires CanAllocate(s.ids)
    ensures var o := ReportOverdue(s, now);
            && CanAllocate(o.s.ids)
            && (!LinktestDue(c, o.s, now) ==> SurvivedTick(c, s, now) == o)
            && (LinktestDue(c, o.s, now) ==>
                  var l := StartLinktest(c, o.s, now);
                  && SurvivedTick(c, s, now).s == l.s
                  && SurvivedTick(c, s, now).out == o.out.(toSend := l.out.toSend))
  {
    var o := ReportOverdue(s, now);
    FewerBlocked(s.ids, o.s.ids);
    if LinktestDue(c, o.s, now) {
      JoinReportAndControl(o, StartLinktest(c, o.s, now));
    }
  }

  lemma JoinReportAndControl(o: Outcome, l: Outcome)
    requires o.out == NOTHING.(timedOut := o.out.timedOut) && l.out == NOTHING.(toSend := l.out.toSend)
    ensures Join(o, l).s == l.s && Join(o, l).out == o.out.(toSend := l.out.toSend)
  {
    assert [] + l.out.toSend == l.out.toSend && o.out.timedOut + [] == o.out.timedOut;
  }

  class Session {
    const config: Config
    var link: Link
    var decoder: FrameDecoder
    var t6: Timer
    var t7: Timer
    var t8: Timer
    var lastActivity: int
    var linktest: Option<Word32>
    var open: map<Word32, int>
    var next: Word32

    ghost predicate Valid()
      reads this
    {
      decoder.max == config.maxFrame
    }

    ghost function IdsValue(): Ids
      reads this
    {
      Ids(linktest, open, next)
    }

    ghost function Value(): State
      reads this, decoder
    {
      State(link, decoder.Value(), Timers(t6, t7, t8), lastActivity, IdsValue())
    }

    constructor (config: Config)
      ensures this.config == config && Valid() && fresh(decoder) && Value() == Init(config)
    {
      this.config := config;
      link, t6, t7, t8, lastActivity := NotConnected, None, None, None, 0;
      linktest, open, next := None, map[], config.first;
      decoder := new FrameDecoder(config.maxFrame);
    }

    /** ConnectionStateMachine::apply: an illegal trigger changes nothing. */
    method Apply(t: Trigger) returns (legal: bool)
      modifies this`link
      ensures legal == Fire(old(link), t).Some?
      ensures link == if legal then Fire(old(link), t).value else old(link)
    {
      var target := link;
      legal := false;
      match t {
        case Connect => legal, target := link == NotConnected, NotSelected;
        case Select => legal, target := link == NotSelected, Selected;
        case Deselect => legal, target := link == Selected, NotSelected;
        case Disconnect => legal, target := link != NotConnected, NotConnected;
        case T7Timeout => legal, target := link == NotSelected, NotConnected;
      }
      if legal {
        link := target;
      }
    }

    method Reset()
      requires Valid()
      modifies this
      ensures Valid() && fresh(decoder)
      ensures Value() == ResetLink(old(Value()), old(link))
    {
      t7, t8, t6 := None, None, None;
      linktest, open := None, map[];
      decoder := new FrameDecoder(config.maxFrame);
    }

    method HandleConnect(now: int) returns (out: Output)
      requires Valid()
      modifies this
      ensures Valid() && (decoder == old(decoder) || fresh(decoder))
      ensures Value() == OnConnect(config, old(Value()), now).s
      ensures out == OnConnect(config, old(Value()), now).out
    {
      out := NOTHING;
      var legal := Apply(Connect);
      if !legal {
        return;
      }
      Reset();
      lastActivity := now;
      t7 := Some(now + config.t7);
    }

    method HandleDisconnect()
      requires Valid()
      modifies this
      ensures Valid() && (decoder == old(decoder) || fresh(decoder))
      ensures Value() == OnDisconnect(old(Value())).s
    {
      var legal := Apply(Disconnect);
      if legal {
        Reset();
      }
    }

    method Close() returns (out: Output)
      requires Valid()
      modifies this
      ensures Valid() && (decoder == old(decoder) || fresh(decoder))
      ensures Value() == CloseConnection(old(Value())).s && out == CloseConnection(old(Value())).out
    {
      out := NOTHING.(close := true);
      HandleDisconnect();
    }

    method HandleData(f: Frame) returns (out: Output)
      requires Valid()
      modifies this`open
      ensures Valid()
      ensures Value() == OnData(old(Value()), f).s && out == OnData(old(Value()), f).out
    {
      if link != Selected {
        return NOTHING.(toSend := [Rejection(f, REJECT_ENTITY_NOT_SELECTED)]);
      }
      var delivery := Delivery(f, None);
      if f.header.byte3 % 2 == 0 && f.header.systemBytes in open {
        open := open - {f.header.systemBytes};
        delivery := delivery.(replyTo := Some(f.header.systemBytes));
      }
      out := NOTHING.(deliveries := [delivery]);
    }

    method HandleSelectReq(id: Word32) returns (out: Output)
      requires Valid()
      modifies this`link, this`t7
      ensures Value() == OnSelectReq(old(Value()), id).s && out == OnSelectReq(old(Value()), id).out
    {
      var status := SELECT_ALREADY_ACTIVE;
      if link == NotSelected {
        var legal := Apply(Select);
        t7 := None;
        status := SELECT_OK;
      }
      out := NOTHING.(toSend := [Control(SelectRsp, id, 0, status)]);
    }

    method HandleDeselectReq(now: int, id: Word32) returns (out: Output)
      requires Valid()
      modifies this`link, this`t7, this`open
      ensures Value() == OnDeselectReq(config, old(Value()), now, id).s
      ensures out == OnDeselectReq(config, old(Value()), now, id).out
    {
      var status := DESELECT_NOT_SELECTED;
      if link == Selected {
        var legal := Apply(Deselect);
        open := map[];
        t7 := Some(now + config.t7);
        status := DESELECT_OK;
      }
      out := NOTHING.(toSend := [Control(DeselectRsp, id, 0, status)]);
    }

    method HandleLinktestRsp(f: Frame) returns (out: Output)
      requires Valid()
      modifies this`linktest, this`t6
      ensures Value() == OnLinktestRsp(old(Value()), f).s && out == OnLinktestRsp(old(Value()), f).out
    {
      out := NOTHING;
      if linktest == Some(f.header.systemBytes) {
        linktest, t6 := None, None;
      } else {
        out := out.(toSend := [Rejection(f, REJECT_TRANSACTION_NOT_OPEN)]);
      }
    }

    method HandleRejectReq(id: Word32)
      requires Valid()
      modifies this`linktest, this`t6, this`open
      ensures Value() == OnRejectReq(old(Value()), id).s
    {
      if linktest == Some(id) {
        linktest, t6 := None, None;
      }
      ghost var before := open;
      open := open - {id};
      assert id !in before ==> open == before;
    }

    method HandleOne(now: int, f: Frame) returns (out: Output)
      requires Valid()
      modifies this
      ensures Valid() && (decoder == old(decoder) || fresh(decoder))
      ensures Value() == HandleFrame(config, old(Value()), now, f).s
      ensures out == HandleFrame(config, old(Value()), now, f).out
    {
      out := NOTHING;
      if f.header.ptype != 0 {
        return out.(toSend := [Rejection(f, REJECT_PTYPE_NOT_SUPPORTED)]);
      }
      var stype := STypeFromByte(f.header.stype);
      if stype.None? {
        return out.(toSend := [Rejection(f, REJECT_STYPE_NOT_SUPPORTED)]);
      }
      out := HandleOneTyped(now, f, stype.value);
    }

    method HandleOneTyped(now: int, f: Frame, t: SType) returns (out: Output)
      requires Valid()
      modifies this
      ensures Valid() && (decoder == old(decoder) || fresh(decoder))
      ensures Value() == HandleTyped(config, old(Value()), now, f, t).s
      ensures out == HandleTyped(config, old(Value()), now, f, t).out
    {
      out := NOTHING;
      var system := f.header.systemBytes;
      match t {
        case Data => out := HandleData(f);
        case SelectReq => out := HandleSelectReq(system);
        case DeselectReq => out := HandleDeselectReq(now, system);
        case LinktestReq => out := out.(toSend := [Control(LinktestRsp, system, 0, 0)]);
        case LinktestRsp => out := HandleLinktestRsp(f);
        case SelectRsp => out := out.(toSend := [Rejection(f, REJECT_TRANSACTION_NOT_OPEN)]);
        case DeselectRsp => out := out.(toSend := [Rejection(f, REJECT_TRANSACTION_NOT_OPEN)]);
        case RejectReq => HandleRejectReq(system);
        case SeparateReq => out := Close();
      }
    }

    method HandleAll(now: int, frames: seq<Frame>) returns (out: Output)
      requires Valid()
      modifies this
      ensures Valid() && (decoder == old(decoder) || fresh(decoder))
      ensures Value() == HandleFrames(config, old(Value()), now, frames).s
      ensures out == HandleFrames(config, old(Value()), now, frames).out
    {
      out := NOTHING;
      ghost var spec := HandleFrames(config, Value(), now, frames);
      ghost var acc := Stay(Value());
      JoinStay(Value(), spec);
      for i := 0 to |frames|
        invariant Valid() && (decoder == old(decoder) || fresh(decoder))
        invariant acc.s == Value() && acc.out == out && !out.close
        invariant Join(acc, HandleFrames(config, acc.s, now, frames[i..])) == spec
      {
        FramesTurn(config, acc, now, frames, i);
        ghost var o := HandleFrame(config, acc.s, now, frames[i]);
        var more := HandleOne(now, frames[i]);
        acc := Join(acc, o);
        out := Output(out.toSend + more.toSend, out.deliveries + more.deliveries,
                      out.timedOut + more.timedOut, more.close);
        if out.close {
          return;
        }
      }
      JoinStay(acc.s, acc);
    }

    method HandleBytes(now: int, bytes: seq<Byte>) returns (out: Output)
      requires Valid()
      modifies this, decoder
      ensures Valid() && (decoder == old(decoder) || fresh(decoder))
      ensures Value() == OnBytes(config, old(Value()), now, bytes).s
      ensures out == OnBytes(config, old(Value()), now, bytes).out
    {
      if link == NotConnected {
        return NOTHING;
      }
      lastActivity := now;
      var frames := decoder.FeedBytes(bytes);
      out := HandleFed(now, frames);
    }

    method HandleFed(now: int, frames: Result<seq<Frame>>) returns (out: Output)
      requires Valid()
      modifies this
      ensures Valid() && (decoder == old(decoder) || fresh(decoder))
      ensures Value() == AfterFeed(config, old(Value()), now, frames).s
      ensures out == AfterFeed(config, old(Value()), now, frames).out
    {
      if frames.Err? {
        out := Close();
        return;
      }
      out := HandleAll(now, frames.value);
      if out.close {
        return;
      }
      if decoder.buffer != [] {
        t8 := Some(now + config.t8);
      } else {
        t8 := None;
      }
    }

    method AllocateSystemBytes() returns (id: Word32)
      requires CanAllocate(IdsValue())
      modifies this`next
      ensures id == Allocated(old(IdsValue())) && IdsValue() == AfterAllocation(old(IdsValue()))
    {
      id, next := FindFree(Ids(linktest, open, next));
    }

    method HandleTick(now: int) returns (out: Output)
      requires Valid() && CanAllocate(IdsValue())
      modifies this
      ensures Valid() && (decoder == old(decoder) || fresh(decoder))
      ensures Value() == OnTick(config, old(Value()), now).s
      ensures out == OnTick(config, old(Value()), now).out
    {
      out := NOTHING;
      if link == NotConnected {
        return;
      }
      if link == NotSelected && Expired(t7, now) {
        var legal := Apply(T7Timeout);
        Reset();
        return out.(close := true);
      }
      if Expired(t8, now) {
        out := Close();
        return;
      }
      if linktest.Some? && Expired(t6, now) {
        out := Close();
        return;
      }
      out := HandleSurvivedTick(now);
    }

    method HandleSurvivedTick(now: int) returns (out: Output)
      requires CanAllocate(IdsValue())
      modifies this`open, this`next, this`linktest, this`t6, this`lastActivity
      ensures Value() == SurvivedTick(config, old(Value()), now).s
      ensures out == SurvivedTick(config, old(Value()), now).out
    {
      SurvivedParts(config, Value(), now);
      out := ReportTimeouts(now);
      if link == Selected && linktest.None? && now - lastActivity >= config.linktestInterval {
        var bytes := SendLinktest(now);
        out := out.(toSend := [bytes]);
      }
    }

    method ReportTimeouts(now: int) returns (out: Output)
      modifies this`open
      ensures Value() == ReportOverdue(old(Value()), now).s && out == ReportOverdue(old(Value()), now).out
    {
      var timedOut: seq<Word32>;
      open, timedOut := EraseOverdue(open, now);
      out := NOTHING.(timedOut := timedOut);
    }

    method SendLinktest(now: int) returns (bytes: seq<Byte>)
      requires CanAllocate(IdsValue())
      modifies this`next, this`linktest, this`t6, this`lastActivity
      ensures Value() == StartLinktest(config, old(Value()), now).s
      ensures StartLinktest(config, old(Value()), now).out == NOTHING.(toSend := [bytes])
    {
      var system := AllocateSystemBytes();
      linktest := Some(system);
      bytes := Control(LinktestReq, system, 0, 0);
      t6 := Some(now + config.t6);
      lastActivity := now;
    }

    method Request(now: int, m: Message) returns (out: Output, r: Result<Word32>)
      requires Valid() && CanAllocate(IdsValue())
      modifies this`open, this`next, this`lastActivity
      ensures Valid()
      ensures Value() == SendRequest(config, old(Value()), now, m).o.s
      ensures out == SendRequest(config, old(Value()), now, m).o.out
      ensures r == SendRequest(config, old(Value()), now, m).result
    {
      out := NOTHING;
      if link != Selected {
        return out, Err(ERR_NOT_SELECTED);
      }
      if m.wBit && |open| >= config.maxOpen {
        return out, Err(ERR_TOO_MANY_TRANSACTIONS);
      }
      var system := AllocateSystemBytes();
      out, r := RequestAs(now, m, system);
    }

    method RequestAs(now: int, m: Message, system: Word32) returns (out: Output, r: Result<Word32>)
      modifies this`open, this`lastActivity
      ensures Value() == SendAs(config, old(Value()), now, m, system).o.s
      ensures out == SendAs(config, old(Value()), now, m, system).o.out
      ensures r == SendAs(config, old(Value()), now, m, system).result
    {
      out := NOTHING;
      var queued := QueueDataBytes(config, m, system);
      if queued.Err? {
        return out, Err(queued.code);
      }
      out := out.(toSend := [queued.value]);
      if m.wBit {
        open := open[system := now + config.t3];
      }
      lastActivity := now;
      r := Ok(system);
    }

    method Reply(id: Word32, m: Message) returns (out: Output, r: Result<bool>)
      requires Valid()
      ensures out == SendReply(config, Value(), id, m).o.out
      ensures r == SendReply(config, Value(), id, m).result
      ensures SendReply(config, Value(), id, m).o.s == Value()
    {
      out := NOTHING;
      if link != Selected {
        return out, Err(ERR_NOT_SELECTED);
      }
      var queued := QueueDataBytes(config, m.(wBit := false), id);
      if queued.Err? {
        return out, Err(queued.code);
      }
      out := out.(toSend := [queued.value]);
      r := Ok(true);
    }
  }
}
