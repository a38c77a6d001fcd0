/** The frames a session delivers do not depend on how their bytes are split into reads, up to a framing
    error; and its open requests are those of the ledger. */
module SessionReads {
  import opened Common
  import opened Bytes
  import opened Frames
  import opened FrameDecoding
  import opened SessionModel
  import opened SessionLedger
  import opened SessionProofs
  import opened SessionTheorems
  import opened SessionSeen

  // ---- the ledger ---------------------------------------------------------------------------------------

  function AfterCalls(c: Config, w: Watch, calls: seq<Call>, outs: seq<Output>): Watch
    requires |calls| == |outs|
    decreases |calls|
  {
    if calls == [] then w else AfterCalls(c, AfterCall(c, w, calls[0], outs[0]), calls[1..], outs[1..])
  }

  lemma {:induction false} RunIsTied(c: Config, w: Watch, s: State, calls: seq<Call>)
    requires Inv(c, s) && Tied(c, w, s)
    ensures var t := RunFrom(c, s, calls);
            |t.outs| == |calls| && Tied(c, AfterCalls(c, w, calls, t.outs), t.s)
    decreases |calls|
  {
    if calls != [] {
      InvCanAllocate(c, s.ids);
      StepKeeps(c, s, calls[0]);
      CallIsSeen(c, w, s, calls[0]);
      var o := Step(c, s, calls[0]);
      var rest := RunFrom(c, o.s, calls[1..]).outs;
      RunIsTied(c, AfterCall(c, w, calls[0], o.out), o.s, calls[1..]);
      assert ([o.out] + rest)[1..] == rest;
    }
  }

  /** The requests that are open for the observer after any calls are those of the ledger. */
  lemma OpenIsInTheLedger(c: Config, calls: seq<Call>)
    ensures var t := Run(c, calls);
            && |t.outs| == |calls| && Ledger(c.t3, map[], t.events).Some?
            && AfterCalls(c, START, calls, t.outs).open == Ledger(c.t3, map[], t.events).value.Keys
  {
    InitInv(c);
    RunIsTied(c, START, Init(c), calls);
    RunKeeps(c, Init(c), calls);
  }

  // ---- one read in two ----------------------------------------------------------------------------------

  /** Without the times and the buffer. */
  function Bare(w: Watch): Watch {
    w.(since := 0, read := 0, activity := 0, buffer := [])
  }

  /** The same but for the times. */
  predicate Alike(w: Watch, w': Watch) {
    Bare(w) == Bare(w') && w.buffer == w'.buffer
  }

  lemma {:induction false} FramesAlike(w: Watch, w': Watch, now: int, now': int, frames: seq<Frame>)
    requires Bare(w) == Bare(w')
    ensures Bare(AfterFrames(w, now, frames)) == Bare(AfterFrames(w', now', frames))
    ensures DeliveredByAll(w, now, frames) == DeliveredByAll(w', now', frames)
    decreases |frames|
  {
    if frames != [] && w.link != NotConnected {
      var f := frames[0];
      assert Bare(AfterFrame(w, now, f)) == Bare(AfterFrame(w', now', f));
      assert DeliveredBy(w, f) == DeliveredBy(w', f);
      FramesAlike(AfterFrame(w, now, f), AfterFrame(w', now', f), now, now', frames[1..]);
    }
  }

  lemma {:induction false} FramesJoin(w: Watch, now: int, a: seq<Frame>, b: seq<Frame>)
    ensures AfterFrames(w, now, a + b) == AfterFrames(AfterFrames(w, now, a), now, b)
    ensures DeliveredByAll(w, now, a + b)
            == DeliveredByAll(w, now, a) + DeliveredByAll(AfterFrames(w, now, a), now, b)
    decreases |a|
  {
    if a == [] {
      assert a + b == b;
    } else if w.link != NotConnected {
      assert (a + b)[0] == a[0] && (a + b)[1..] == a[1..] + b;
      var w' := AfterFrame(w, now, a[0]);
      FramesJoin(w', now, a[1..], b);
      var x, y, z := DeliveredBy(w, a[0]), DeliveredByAll(w', now, a[1..]),
        DeliveredByAll(AfterFrames(w', now, a[1..]), now, b);
      assert x + (y + z) == x + y + z;
    }
  }

  lemma {:induction false} FramesLeaveBuffer(w: Watch, now: int, frames: seq<Frame>)
    requires w.link != NotConnected
    ensures var w' := AfterFrames(w, now, frames);
            && w'.buffer == (if w'.link == NotConnected then [] else w.buffer)
            && (w'.link == NotConnected ==> Alike(w', Lost(w')))
    decreases |frames|
  {
    if frames != [] {
      var w' := AfterFrame(w, now, frames[0]);
      if w'.link != NotConnected {
        FramesLeaveBuffer(w', now, frames[1..]);
      }
    }
  }

  /** Frames in one read and the same frames in two. */
  lemma FramesInTwo(
    w: Watch, now: int, a: seq<Frame>, restA: seq<Byte>, t: int, b: seq<Frame>, rest: seq<Byte>, t': int
  )
    requires w.link != NotConnected
    ensures var first := AfterFrames(BeforeFrames(w, t, restA), t, a);
            var whole := AfterFrames(BeforeFrames(w, now, rest), now, a + b);
            var deliveries := DeliveredByAll(BeforeFrames(w, now, rest), now, a + b);
            if first.link == NotConnected then
              Alike(first, whole) && deliveries == DeliveredByAll(BeforeFrames(w, t, restA), t, a)
            else
              && Alike(AfterFrames(BeforeFrames(first, t', rest), t', b), whole)
              && deliveries == DeliveredByAll(BeforeFrames(w, t, restA), t, a)
                               + DeliveredByAll(BeforeFrames(first, t', rest), t', b)
  {
    var one, two := BeforeFrames(w, now, rest), BeforeFrames(w, t, restA);
    var mid, first := AfterFrames(one, now, a), AfterFrames(two, t, a);
    FramesJoin(one, now, a, b);
    FramesAlike(one, two, now, t, a);
    FramesLeaveBuffer(one, now, a + b);
    FramesLeaveBuffer(two, t, a);
    if first.link == NotConnected {
      assert DeliveredByAll(mid, now, b) == [];
      assert DeliveredByAll(two, t, a) + [] == DeliveredByAll(two, t, a);
    } else {
      var next := BeforeFrames(first, t', rest);
      FramesAlike(mid, next, now, t', b);
      FramesLeaveBuffer(next, t', b);
    }
  }

  lemma NoLinkNoRead(c: Config, w: Watch, now: int, bytes: seq<Byte>)
    requires w.link == NotConnected
    ensures AfterRead(c, w, now, bytes) == w && DeliveredByRead(c, w, now, bytes) == []
  {
  }

  lemma ErrorRead(c: Config, w: Watch, now: int, bytes: seq<Byte>)
    requires w.link != NotConnected && Parse(c.maxFrame, w.buffer + bytes).error.Some?
    ensures AfterRead(c, w, now, bytes) == Lost(w) && DeliveredByRead(c, w, now, bytes) == []
  {
  }

  lemma GoodRead(c: Config, w: Watch, now: int, bytes: seq<Byte>, p: Parsed)
    requires w.link != NotConnected && p == Parse(c.maxFrame, w.buffer + bytes) && p.error.None?
    ensures AfterRead(c, w, now, bytes) == AfterFrames(BeforeFrames(w, now, p.rest), now, p.frames)
    ensures DeliveredByRead(c, w, now, bytes) == DeliveredByAll(BeforeFrames(w, now, p.rest), now, p.frames)
  {
  }

  lemma LostAlike(w: Watch, w': Watch)
    ensures Alike(Lost(w), Lost(w'))
  {
  }

  /** A framing error in the second of two reads. */
  lemma ErrorInSecond(c: Config, w: Watch, now: int, a: seq<Byte>, t: int, b: seq<Byte>, t': int, p: Parsed)
    requires w.link != NotConnected && p == Parse(c.maxFrame, w.buffer + a) && p.error.None?
    requires Parse(c.maxFrame, p.rest + b).error.Some? && Parse(c.maxFrame, w.buffer + (a + b)).error.Some?
    ensures var mid := AfterRead(c, w, t, a);
            Alike(AfterRead(c, mid, t', b), AfterRead(c, w, now, a + b)) && DeliveredByRead(c, mid, t', b) == []
  {
    var mid := AfterRead(c, w, t, a);
    GoodRead(c, w, t, a, p);
    ErrorRead(c, w, now, a + b);
    FramesLeaveBuffer(BeforeFrames(w, t, p.rest), t, p.frames);
    LostAlike(mid, w);
    if mid.link == NotConnected {
      NoLinkNoRead(c, mid, t', b);
    } else {
      ErrorRead(c, mid, t', b);
    }
  }

  lemma NoError(
    c: Config, w: Watch, now: int, a: seq<Byte>, t: int, b: seq<Byte>, t': int, p: Parsed, q: Parsed
  )
    requires w.link != NotConnected && p == Parse(c.maxFrame, w.buffer + a) && p.error.None?
    requires q == Parse(c.maxFrame, p.rest + b) && q.error.None?
    requires Parse(c.maxFrame, w.buffer + (a + b)) == Prepend(p.frames, q)
    ensures var mid := AfterRead(c, w, t, a);
            && Alike(AfterRead(c, mid, t', b), AfterRead(c, w, now, a + b))
            && DeliveredByRead(c, w, now, a + b) == DeliveredByRead(c, w, t, a) + DeliveredByRead(c, mid, t', b)
  {
    var mid := AfterRead(c, w, t, a);
    GoodRead(c, w, t, a, p);
    GoodRead(c, w, now, a + b, Prepend(p.frames, q));
    FramesInTwo(w, now, p.frames, p.rest, t, q.frames, q.rest, t');
    FramesLeaveBuffer(BeforeFrames(w, t, p.rest), t, p.frames);
    if mid.link == NotConnected {
      NoLinkNoRead(c, mid, t', b);
      assert DeliveredByRead(c, w, t, a) + [] == DeliveredByRead(c, w, t, a);
    } else {
      GoodRead(c, mid, t', b, q);
    }
  }

  /** Bytes that come in two reads instead of one are delivered alike, at whatever times, and leave the same
      state behind; but if the second half has a framing error, only the first half is delivered, where one
      read would have delivered nothing. */
  lemma ReadInTwo(c: Config, w: Watch, now: int, a: seq<Byte>, t: int, b: seq<Byte>, t': int)
    ensures var mid := AfterRead(c, w, t, a);
            && Alike(AfterRead(c, mid, t', b), AfterRead(c, w, now, a + b))
            && (if w.link != NotConnected && Parse(c.maxFrame, w.buffer + (a + b)).error.Some? then
                  DeliveredByRead(c, w, now, a + b) == [] && DeliveredByRead(c, mid, t', b) == []
                else
                  DeliveredByRead(c, w, now, a + b)
                  == DeliveredByRead(c, w, t, a) + DeliveredByRead(c, mid, t', b))
  {
    var p := Parse(c.maxFrame, w.buffer + a);
    ParseSplit(c.maxFrame, w.buffer + a, b);
    assert w.buffer + a + b == w.buffer + (a + b);
    if w.link == NotConnected {
      NoLinkNoRead(c, w, t, a);
      NoLinkNoRead(c, w, t', b);
      NoLinkNoRead(c, w, now, a + b);
    } else if p.error.Some? {
      ErrorRead(c, w, t, a);
      ErrorRead(c, w, now, a + b);
      NoLinkNoRead(c, Lost(w), t', b);
    } else if Parse(c.maxFrame, p.rest + b).error.Some? {
      ErrorInSecond(c, w, now, a, t, b, t', p);
      ErrorRead(c, w, now, a + b);
    } else {
      NoError(c, w, now, a, t, b, t', p, Parse(c.maxFrame, p.rest + b));
    }
  }

  // ---- any number of reads ------------------------------------------------------------------------------

  datatype Read = Read(now: int, bytes: seq<Byte>)

  function AllBytes(chunks: seq<Read>): seq<Byte> {
    if chunks == [] then [] else chunks[0].bytes + AllBytes(chunks[1..])
  }

  function DeliveredByReads(c: Config, w: Watch, chunks: seq<Read>): seq<Delivery>
    decreases |chunks|
  {
    if chunks == [] then []
    else
      var r := chunks[0];
      DeliveredByRead(c, w, r.now, r.bytes) + DeliveredByReads(c, AfterRead(c, w, r.now, r.bytes), chunks[1..])
  }

  /** However the bytes are split into reads, without a framing error they deliver the same. */
  lemma {:induction false} SplitsDeliverAlike(c: Config, w: Watch, chunks: seq<Read>, now: int)
    requires chunks != []
    requires w.link == NotConnected || Parse(c.maxFrame, w.buffer + AllBytes(chunks)).error.None?
    ensures DeliveredByReads(c, w, chunks) == DeliveredByRead(c, w, now, AllBytes(chunks))
    decreases |chunks|
  {
    var r, rest := chunks[0], chunks[1..];
    var mid := AfterRead(c, w, r.now, r.bytes);
    if rest == [] {
      assert r.bytes + [] == r.bytes;
      OneRead(c, w, r.now, r.bytes, now);
    } else {
      ReadInTwo(c, w, now, r.bytes, r.now, AllBytes(rest), now);
      MidHasNoError(c, w, r.now, r.bytes, AllBytes(rest));
      SplitsDeliverAlike(c, mid, rest, now);
    }
  }

  lemma OneRead(c: Config, w: Watch, t: int, bytes: seq<Byte>, now: int)
    ensures DeliveredByReads(c, w, [Read(t, bytes)]) == DeliveredByRead(c, w, now, bytes)
  {
    var p := Parse(c.maxFrame, w.buffer + bytes);
    var chunks := [Read(t, bytes)];
    assert chunks[1..] == [];
    assert DeliveredByReads(c, w, chunks) == DeliveredByRead(c, w, t, bytes);
    FramesAlike(BeforeFrames(w, t, p.rest), BeforeFrames(w, now, p.rest), t, now, p.frames);
  }

  lemma MidHasNoError(c: Config, w: Watch, t: int, a: seq<Byte>, b: seq<Byte>)
    requires w.link == NotConnected || Parse(c.maxFrame, w.buffer + (a + b)).error.None?
    ensures var mid := AfterRead(c, w, t, a);
            mid.link == NotConnected || Parse(c.maxFrame, mid.buffer + b).error.None?
  {
    var p := Parse(c.maxFrame, w.buffer + a);
    ParseSplit(c.maxFrame, w.buffer + a, b);
    assert w.buffer + a + b == w.buffer + (a + b);
    if w.link != NotConnected && p.error.None? {
      FramesLeaveBuffer(BeforeFrames(w, t, p.rest), t, p.frames);
    }
  }
}
