/** The plain bounded FIFO of include/ssim/core/queue.hpp, as one atomic operation per call. */
module BoundedFifo {
  import opened SpscRing

  datatype Queue<T> = Queue(items: seq<T>, closed: bool, dropped: nat)

  datatype Operation<T> = Nothing | Push(item: T) | Pop(item: T) | End | Drop | Close

  /** op is what one call of push, pop or close may do to the queue. */
  predicate Performs<T(==)>(cfg: Config, q: Queue<T>, op: Operation<T>, q': Queue<T>) {
    match op
    case Nothing => q' == q
    case Push(item) =>
      !q.closed && |q.items| < cfg.capacity && q' == q.(items := q.items + [item])
    case Pop(item) => q.items != [] && q.items[0] == item && q' == q.(items := q.items[1..])
    case End => q.closed && q.items == [] && q' == q
    case Drop =>
      && !q.closed && cfg.policy == DropNewest && |q.items| >= cfg.capacity
      && q' == q.(dropped := q.dropped + 1)
    case Close => q' == q.(closed := true)
  }
}

/** What every run of the ring queue guarantees. */
module SpscRingTheorems {
  import opened Common
  import opened SpscRing
  import opened SpscRingProofs
  import opened BoundedFifo

  // ---- wake-ups -----------------------------------------------------------------------------

  /** A parked side whose condition holds always has a wake-up on the way. */
  lemma NoLostWakeup<T>(cfg: Config, steps: seq<Step<T>>)
    requires ValidConfig(cfg)
    ensures var s := Run(cfg, steps);
            s.c.CAsleep? && s.ring.head != s.ring.tail ==> ProducerWillNotify(s.p)
    ensures var s := Run(cfg, steps);
            s.c.CAsleep? && s.sync.closed ==>
              SomeCloser(s.closers, {KStored, KLocked, KUnlocked})
    ensures var s := Run(cfg, steps);
            s.p.PAsleep? && s.ring.head - s.ring.tail < cfg.capacity ==> ConsumerWillNotify(s.c)
    ensures var s := Run(cfg, steps);
            s.p.PAsleep? && s.sync.closed ==>
              SomeCloser(s.closers, {KStored, KLocked, KUnlocked, KNotifiedEmpty})
    ensures var s := Run(cfg, steps); !(s.p.PAsleep? && s.c.CAsleep?)
  {
    RunInvariant(cfg, steps);
  }

  lemma ProducerStuck<T>(cfg: Config, s: State<T>)
    requires Inv(cfg, s) && ProducerStep(cfg, s) == s
    ensures s.p.PIdle? || s.p.PAsleep? || (s.sync.mutex.Some? && !ProducerHolds(s.p))
  {
  }

  lemma ConsumerStuck<T>(cfg: Config, s: State<T>)
    requires Inv(cfg, s) && ConsumerStep(cfg, s) == s
    ensures s.c.CIdle? || s.c.CAsleep? || (s.sync.mutex.Some? && !ConsumerHolds(s.c))
  {
    if s.c.CTake? {
      assert ReadSlot(s.ring.slots, SlotOf(s.ring.tail, cfg.size)) == Expected(s, s.ring.tail);
    }
  }

  lemma ClosersStuck<T>(s: State<T>)
    requires Locks(s) && forall k: nat :: CloserStep(s, k) == s
    ensures s.sync.mutex.Some? ==> !s.sync.mutex.value.Closer?
    ensures s.sync.mutex == None ==> s.closers == map[]
  {
    forall k: nat
      ensures k in s.closers ==> s.closers[k] == KStored && s.sync.mutex.Some?
    {
      assert CloserStep(s, k) == s;
    }
    assert forall k: nat :: !CloserHolds(s.closers, k);
  }

  /**
   * Deadlock freedom: when no thread can move, no close is unfinished and a thread that is not
   * idle waits for something that is really absent; the two sides never both wait.
   */
  lemma StuckOnlyWhenWaiting<T>(cfg: Config, steps: seq<Step<T>>)
    requires ValidConfig(cfg)
    requires var s := Run(cfg, steps);
             && ProducerStep(cfg, s) == s && ConsumerStep(cfg, s) == s
             && forall k: nat :: CloserStep(s, k) == s
    ensures var s := Run(cfg, steps);
            && s.closers == map[] && s.sync.mutex == None
            && (s.p.PIdle? || (s.p.PAsleep? && !s.sync.closed
                               && s.ring.head - s.ring.tail == cfg.capacity))
            && (s.c.CIdle? || (s.c.CAsleep? && !s.sync.closed && s.ring.head == s.ring.tail))
            && (s.p.PIdle? || s.c.CIdle?)
  {
    RunInvariant(cfg, steps);
    var s := Run(cfg, steps);
    ProducerStuck(cfg, s);
    ConsumerStuck(cfg, s);
    ClosersStuck(s);
  }

  // ---- first in, first out --------------------------------------------------------------------

  /** The items between tail_ and head_, oldest first, as pop would find them in the slots. */
  function RingItems<T>(cfg: Config, s: State<T>): seq<Option<T>>
    requires s.ring.tail <= s.ring.head
  {
    seq(s.ring.head - s.ring.tail,
        i requires 0 <= i => ReadSlot(s.ring.slots, SlotOf(s.ring.tail + i, cfg.size)))
  }

  /** Popped items followed by the ring are the accepted items, in every reachable state. */
  lemma FirstInFirstOut<T>(cfg: Config, steps: seq<Step<T>>)
    requires ValidConfig(cfg)
    ensures var s := Run(cfg, steps);
            && s.ring.cachedTail <= s.ring.tail <= s.ring.cachedHead <= s.ring.head
            && s.ring.head <= s.ring.tail + cfg.capacity
            && |s.ring.popped| == s.ring.tail && |s.ring.accepted| == s.ring.head
            && s.ring.popped <= s.ring.accepted
    ensures var s := Run(cfg, steps);
            !s.c.CPublish? ==>
              forall i :: 0 <= i < s.ring.head - s.ring.tail ==>
                RingItems(cfg, s)[i] == Some(s.ring.accepted[s.ring.tail + i])
    ensures var s := Run(cfg, steps);
            s.p.PWrite? ==> ReadSlot(s.ring.slots, SlotOf(s.ring.head, cfg.size)) == None
    ensures var s := Run(cfg, steps);
            s.c.CTake? ==> ReadSlot(s.ring.slots, SlotOf(s.ring.tail, cfg.size)).Some?
  {
    RunInvariant(cfg, steps);
    var s := Run(cfg, steps);
    forall i: nat | i < s.ring.head - s.ring.tail && !s.c.CPublish?
      ensures RingItems(cfg, s)[i] == Some(s.ring.accepted[s.ring.tail + i])
    {
      var j := s.ring.tail + i;
      assert ReadSlot(s.ring.slots, SlotOf(j, cfg.size)) == Expected(s, j);
    }
    assert ReadSlot(s.ring.slots, SlotOf(s.ring.tail, cfg.size)) == Expected(s, s.ring.tail);
    if s.p.PWrite? {
      assert ReadSlot(s.ring.slots, SlotOf(s.ring.head, cfg.size)) == Expected(s, s.ring.head);
    }
  }

  /** Two live indices never share a slot. */
  lemma LiveIndicesHaveOwnSlots<T>(cfg: Config, steps: seq<Step<T>>, i: nat, j: nat)
    requires ValidConfig(cfg)
    requires var s := Run(cfg, steps); s.ring.tail <= i < j < s.ring.head
    ensures SlotOf(i, cfg.size) != SlotOf(j, cfg.size)
  {
    RunInvariant(cfg, steps);
    DistinctSlots(i, j, cfg.size);
  }

  /** The FIFO a ring state stands for; a drop counts from the moment it is decided. */
  function Abstract<T>(s: State<T>): Queue<T>
    requires s.ring.tail <= |s.ring.accepted|
  {
    Queue(s.ring.accepted[s.ring.tail..], s.sync.closed,
          s.log.dropped + if s.p.PDrop? then 1 else 0)
  }

  /** The consumer is about to return nothing: it had read closed_ as true and finds the ring empty. */
  predicate ReturnsNothing<T>(s: State<T>) {
    s.c == CTry(Holding(true)) && s.ring.tail == s.ring.cachedHead && s.ring.tail == s.ring.head
  }

  /** The FIFO operation that a step of the ring performs. */
  function OperationOf<T>(cfg: Config, s: State<T>, step: Step<T>): Operation<T> {
    match step
    case ProducerMoves =>
      if s.p.PPublish? then Push(s.p.item)
      else if s.p.PTry? && ProducerStep(cfg, s).p.PDrop? then Drop
      else Nothing
    case ConsumerMoves =>
      if s.c.CPublish? then Pop(s.c.item) else if ReturnsNothing(s) then End else Nothing
    case StartClose(k) => if k in s.closers then Nothing else Close
    case _ => Nothing
  }

  /** op is what a call may do to the queue if the closed flag does not stop a push. */
  predicate PerformsOpen<T(==)>(cfg: Config, q: Queue<T>, op: Operation<T>, q': Queue<T>) {
    && Performs(cfg, q.(closed := op.End?), op, q'.(closed := op.Close? || op.End?))
    && q'.closed == (q.closed || op.Close?) && (op.End? ==> q.closed)
  }

  /** The closed flag only forbids pushes and drops. */
  lemma OpenUnlessRefused<T>(cfg: Config, q: Queue<T>, op: Operation<T>, q': Queue<T>)
    requires PerformsOpen(cfg, q, op, q')
    ensures Performs(cfg, q, op, q') <==> !(q.closed && (op.Push? || op.Drop?))
  {
  }

  lemma PublishRefines<T>(cfg: Config, s: State<T>)
    requires Inv(cfg, s) && s.p.PPublish?
    ensures var s' := ProducerStep(cfg, s);
            && s'.ring.tail <= |s'.ring.accepted|
            && PerformsOpen(cfg, Abstract(s), OperationOf(cfg, s, ProducerMoves), Abstract(s'))
  {
    var s' := ProducerStep(cfg, s);
    assert s'.ring.accepted[s.ring.tail..] == s.ring.accepted[s.ring.tail..] + [s.p.item];
  }

  lemma ProducerLeavesItems<T>(cfg: Config, s: State<T>)
    requires !s.p.PPublish?
    ensures var s' := ProducerStep(cfg, s);
            && s'.ring.accepted == s.ring.accepted && s'.ring.tail == s.ring.tail
            && s'.ring.head == s.ring.head && s'.sync.closed == s.sync.closed
            && (s'.p.PDrop? ==> s.p.PTry? && cfg.policy == DropNewest
                                && s.ring.head - s.ring.tail >= cfg.capacity)
            && s'.log.dropped == s.log.dropped + if s.p.PDrop? then 1 else 0
  {
  }

  lemma ProducerStepRefines<T>(cfg: Config, s: State<T>)
    requires Inv(cfg, s)
    ensures var s' := ProducerStep(cfg, s);
            && s'.ring.tail <= |s'.ring.accepted|
            && PerformsOpen(cfg, Abstract(s), OperationOf(cfg, s, ProducerMoves), Abstract(s'))
  {
    if s.p.PPublish? {
      PublishRefines(cfg, s);
    } else {
      ProducerLeavesItems(cfg, s);
    }
  }

  lemma ConsumerLeavesItems<T>(cfg: Config, s: State<T>)
    requires !s.c.CPublish?
    ensures var s' := ConsumerStep(cfg, s);
            && s'.ring.accepted == s.ring.accepted && s'.ring.tail == s.ring.tail
            && s'.sync.closed == s.sync.closed && s'.log.dropped == s.log.dropped
            && (s'.p.PDrop? <==> s.p.PDrop?)
  {
  }

  lemma ConsumerStepRefines<T>(cfg: Config, s: State<T>)
    requires Inv(cfg, s)
    ensures var s' := ConsumerStep(cfg, s);
            && s'.ring.tail <= |s'.ring.accepted|
            && PerformsOpen(cfg, Abstract(s), OperationOf(cfg, s, ConsumerMoves), Abstract(s'))
  {
    var s' := ConsumerStep(cfg, s);
    if s.c.CPublish? {
      assert s'.ring.accepted[s'.ring.tail..] == s.ring.accepted[s.ring.tail..][1..];
    } else {
      ConsumerLeavesItems(cfg, s);
      EndSeesTheEnd(cfg, s);
    }
  }

  /** A pop returns nothing exactly at such a step, and finds the queue closed and empty. */
  lemma EndSeesTheEnd<T>(cfg: Config, s: State<T>)
    requires Inv(cfg, s)
    ensures ReturnsNothing(s) ==> s.sync.closed && s.ring.accepted[s.ring.tail..] == []
    ensures !s.log.ended ==> (ConsumerStep(cfg, s).log.ended <==> ReturnsNothing(s))
  {
  }

  /** The other steps only start a call, wake a side or close. */
  lemma OtherStepRefines<T>(cfg: Config, s: State<T>, step: Step<T>)
    requires Inv(cfg, s) && !step.ProducerMoves? && !step.ConsumerMoves?
    ensures var s' := Next(cfg, s, step);
            && s'.ring == s.ring && s'.log.dropped == s.log.dropped && (s'.p.PDrop? <==> s.p.PDrop?)
            && s'.sync.closed == (s.sync.closed || OperationOf(cfg, s, step).Close?)
            && (OperationOf(cfg, s, step).Nothing? || OperationOf(cfg, s, step).Close?)
  {
  }

  lemma StepRefines<T>(cfg: Config, s: State<T>, step: Step<T>)
    requires Inv(cfg, s)
    ensures var s' := Next(cfg, s, step);
            && s'.ring.tail <= |s'.ring.accepted|
            && PerformsOpen(cfg, Abstract(s), OperationOf(cfg, s, step), Abstract(s'))
  {
    if step.ProducerMoves? {
      ProducerStepRefines(cfg, s);
    } else if step.ConsumerMoves? {
      ConsumerStepRefines(cfg, s);
    } else {
      OtherStepRefines(cfg, s, step);
    }
  }

  /**
   * Refinement: each step of a run is one operation of the plain FIFO or does nothing to it, exactly
   * unless it accepts or drops an item after the close; and such a step does to the items and the
   * drop count what it would do before the close.
   */
  lemma RefinesBoundedFifo<T>(cfg: Config, steps: seq<Step<T>>, step: Step<T>)
    requires ValidConfig(cfg)
    ensures var s := Run(cfg, steps);
            var s' := Next(cfg, s, step);
            var op := OperationOf(cfg, s, step);
            && s.ring.tail <= |s.ring.accepted| && s'.ring.tail <= |s'.ring.accepted|
            && PerformsOpen(cfg, Abstract(s), op, Abstract(s'))
            && (Performs(cfg, Abstract(s), op, Abstract(s'))
                <==> !(s.sync.closed && (op.Push? || op.Drop?)))
  {
    RunInvariant(cfg, steps);
    var s := Run(cfg, steps);
    StepRefines(cfg, s, step);
    OpenUnlessRefused(cfg, Abstract(s), OperationOf(cfg, s, step), Abstract(Next(cfg, s, step)));
  }

  // ---- counting -------------------------------------------------------------------

  /** Every offered push is accepted, dropped, refused by a close, or still being decided. */
  lemma OffersAreConserved<T>(cfg: Config, steps: seq<Step<T>>)
    requires ValidConfig(cfg)
    ensures var s := Run(cfg, steps);
            s.log.offered == |s.ring.accepted| + s.log.dropped + s.log.refused
                             + if Undecided(s.p) then 1 else 0
    ensures var s := Run(cfg, steps);
            if cfg.policy == DropNewest then s.log.refused == 0 && !s.p.PAsleep?
            else s.log.dropped == 0
  {
    RunInvariant(cfg, steps);
  }

  // ---- the slot count -------------------------------------------------------------------------

  function Pow2(k: nat): nat {
    if k == 0 then 1 else 2 * Pow2(k - 1)
  }

  /** round_up_to_power_of_two: the least power of two that is not below n. */
  method RoundUpToPowerOfTwo(n: nat) returns (p: nat, ghost k: nat)
    ensures p == Pow2(k) && n <= p
    ensures k > 0 ==> Pow2(k - 1) < n
  {
    p, k := 1, 0;
    while p < n
      invariant p == Pow2(k)
      invariant k > 0 ==> Pow2(k - 1) < n
      decreases n - p
    {
      p, k := 2 * p, k + 1;
    }
  }

  /** Bitwise and of two unsigned words. */
  function BitAnd(x: nat, y: nat): nat
    decreases x
  {
    if x == 0 then 0
    else (if x % 2 == 1 && y % 2 == 1 then 1 else 0) + 2 * BitAnd(x / 2, y / 2)
  }

  /** With a power-of-two size, `index & (size - 1)` is the remainder that SlotOf computes. */
  lemma {:induction false} MaskIsRemainder(index: nat, k: nat)
    ensures Pow2(k) > 0 && BitAnd(index, Pow2(k) - 1) == SlotOf(index, Pow2(k))
    decreases k
  {
    if k == 0 {
      AndZero(index);
    } else {
      var m := Pow2(k - 1);
      MaskIsRemainder(index / 2, k - 1);
      assert (2 * m - 1) / 2 == m - 1;
      HalveRemainder(index, m);
    }
  }

  lemma {:induction false} AndZero(x: nat)
    ensures BitAnd(x, 0) == 0
    decreases x
  {
    if x > 0 { AndZero(x / 2); }
  }

  lemma HalveRemainder(x: nat, m: nat)
    requires m > 0
    ensures x % (2 * m) == x % 2 + 2 * (x / 2 % m)
  {
    var q, r := x / 2 / m, x / 2 % m;
    assert x / 2 == m * q + r;
    var c := x % 2 + 2 * r;
    assert x == (2 * m) * q + c;
    var d := x / (2 * m) - q;
    assert (2 * m) * d == c - x % (2 * m);
    MultipleBounds(2 * m, d);
  }
}
