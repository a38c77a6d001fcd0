/** Closing the ring queue: when pop may return nothing, and exactly when a close can lose an item. */
module SpscRingClose {
  import opened Common
  import opened SpscRing
  import opened SpscRingProofs
  import opened BoundedFifo
  import opened SpscRingTheorems

  /** pop returns nothing only once everything accepted has been popped, now and for ever after, unless
      the close met a push past its last look at closed_ outside the mutex. */
  lemma CloseDrains<T>(cfg: Config, steps: seq<Step<T>>)
    requires ValidConfig(cfg)
    ensures var s := Run(cfg, steps);
            s.log.ended ==> s.sync.closed && (!s.log.lateClose ==> s.ring.popped == s.ring.accepted)
  {
    RunInvariant(cfg, steps);
  }

  // ---- closes between pushes ----------------------------------------------------------------------

  /** Every close in the run comes while the producer is in no push. */
  predicate ClosesBetweenPushes<T>(cfg: Config, s: State<T>, steps: seq<Step<T>>)
    decreases |steps|
  {
    steps == []
    || ((steps[0].StartClose? ==> s.p.PIdle?) && ClosesBetweenPushes(cfg, Next(cfg, s, steps[0]), steps[1..]))
  }

  /** No push is past its last look at closed_ once the queue is closed. */
  predicate Orderly<T>(s: State<T>) {
    !s.log.lateClose && (s.sync.closed ==> !PastLastCheck(s.p) && !s.p.PDrop?)
  }

  lemma StepIsOrderly<T>(cfg: Config, s: State<T>, step: Step<T>)
    requires Orderly(s) && (step.StartClose? ==> s.p.PIdle?)
    ensures Orderly(Next(cfg, s, step))
  {
  }

  lemma {:induction false} RunIsOrderly<T>(cfg: Config, s: State<T>, steps: seq<Step<T>>)
    requires Orderly(s) && ClosesBetweenPushes(cfg, s, steps)
    ensures Orderly(RunFrom(cfg, s, steps))
    decreases |steps|
  {
    if steps != [] {
      StepIsOrderly(cfg, s, steps[0]);
      RunIsOrderly(cfg, Next(cfg, s, steps[0]), steps[1..]);
    }
  }

  /** When the producer closes, or another thread after it has stopped, nothing accepted is lost and
      every step is one of the plain FIFO. */
  lemma ProducerCloseDrains<T>(cfg: Config, steps: seq<Step<T>>, step: Step<T>)
    requires ValidConfig(cfg) && ClosesBetweenPushes(cfg, Init(cfg), steps)
    ensures var s := Run(cfg, steps);
            s.log.ended ==> s.sync.closed && s.ring.popped == s.ring.accepted
    ensures var s := Run(cfg, steps);
            var s' := Next(cfg, s, step);
            && s.ring.tail <= |s.ring.accepted| && s'.ring.tail <= |s'.ring.accepted|
            && Performs(cfg, Abstract(s), OperationOf(cfg, s, step), Abstract(s'))
  {
    RunIsOrderly(cfg, Init(cfg), steps);
    CloseDrains(cfg, steps);
    RefinesBoundedFifo(cfg, steps, step);
  }

  // ---- draining while the producer stands still -----------------------------------------------------

  /** The next step on the way to a pop that returns nothing. */
  function Drive<T>(s: State<T>): Step<T> {
    if s.sync.mutex.Some? && s.sync.mutex.value.Closer? then CloserMoves(s.sync.mutex.value.id)
    else if s.c.CIdle? then StartPop
    else if s.c.CAsleep? then ConsumerSpuriousWake
    else ConsumerMoves
  }

  /** How far the consumer is from taking the next item or giving up. */
  function Distance<T>(c: ConsumerPc<T>): nat {
    match c
    case CUnlock => 100
    case CWake => 99
    case CWakeLock => 98
    case CWakeUnlock => 97
    case CNotify => 96
    case CIdle => 95
    case CTry(site) =>
      (match site
       case Spinning(n) => if n < SPIN_TRIES then 94 - n else 30
       case Holding(wasClosed) => if wasClosed then 3 else 20)
    case CLock => 29
    case CSetFlag => 19
    case CSeeItem => 18
    case CPark => 17
    case CAsleep => 16
    case CWoken => 15
    case CSeeClosed => 14
    case CClearFlag => 13
    case CReadClosed => 4
    case CTake(_) => 2
    case CPublish(_, _) => 1
  }

  function Left<T>(s: State<T>): int {
    300 * (s.ring.head - s.ring.tail) + 2 * Distance(s.c)
    + if s.sync.mutex.Some? && s.sync.mutex.value.Closer? then 1 else 0
  }

  /** The queue is closed, the push past its check stands still and pop has not returned nothing. */
  ghost predicate Draining<T>(cfg: Config, s: State<T>) {
    Inv(cfg, s) && s.sync.closed && PastFreeCheck(s.p) && !s.log.ended
  }

  ghost predicate SamePush<T>(s: State<T>, s': State<T>) {
    s'.p == s.p && s'.ring.head == s.ring.head && s'.sync.closed == s.sync.closed
  }

  /** The step keeps the push where it is and ends with nothing, or comes closer to that. */
  ghost predicate ComesCloser<T>(s: State<T>, s': State<T>) {
    && SamePush(s, s')
    && (if s'.log.ended then s'.ring.head == s'.ring.tail else Left(s') < Left(s))
  }

  lemma CloserLetsGo<T>(cfg: Config, s: State<T>)
    requires Draining(cfg, s) && s.sync.mutex.Some? && s.sync.mutex.value.Closer?
    ensures ComesCloser(s, CloserStep(s, s.sync.mutex.value.id))
  {
    assert CloserHolds(s.closers, s.sync.mutex.value.id);
  }

  /** The consumer may take the mutex when it wants it. */
  predicate ConsumersTurn<T>(s: State<T>) {
    s.sync.mutex == None || s.sync.mutex == Some(Consumer)
  }

  lemma PopComesCloser<T>(cfg: Config, s: State<T>)
    requires Draining(cfg, s) && ConsumersTurn(s) && (s.c.CTry? || s.c.CTake? || s.c.CPublish?)
    ensures ComesCloser(s, ConsumerStep(cfg, s))
  {
    if s.c.CTake? {
      assert ReadSlot(s.ring.slots, SlotOf(s.ring.tail, cfg.size)) == Expected(s, s.ring.tail);
    }
  }

  lemma WaitComesCloser<T>(cfg: Config, s: State<T>)
    requires Draining(cfg, s) && ConsumersTurn(s) && ConsumerInWait(s.c) && !s.c.CAsleep?
    ensures ComesCloser(s, ConsumerStep(cfg, s))
  {
  }

  lemma NotifyComesCloser<T>(cfg: Config, s: State<T>)
    requires Draining(cfg, s) && ConsumersTurn(s) && ConsumerWillNotify(s.c)
    ensures ComesCloser(s, ConsumerStep(cfg, s))
  {
  }

  lemma DriveStep<T>(cfg: Config, s: State<T>)
    requires Draining(cfg, s)
    ensures ComesCloser(s, Next(cfg, s, Drive(s)))
  {
    if s.sync.mutex.Some? && s.sync.mutex.value.Closer? {
      CloserLetsGo(cfg, s);
    } else if s.c.CTry? || s.c.CTake? || s.c.CPublish? {
      PopComesCloser(cfg, s);
    } else if ConsumerWillNotify(s.c) {
      NotifyComesCloser(cfg, s);
    } else if !s.c.CIdle? && !s.c.CAsleep? {
      WaitComesCloser(cfg, s);
    }
  }

  // ---- exactly when a close can lose an item --------------------------------------------------------

  lemma {:induction false} RunFromJoins<T>(cfg: Config, s: State<T>, a: seq<Step<T>>, b: seq<Step<T>>)
    ensures RunFrom(cfg, s, a + b) == RunFrom(cfg, RunFrom(cfg, s, a), b)
    decreases |a|
  {
    if a == [] {
      assert a + b == b;
    } else {
      assert (a + b)[0] == a[0] && (a + b)[1..] == a[1..] + b;
      RunFromJoins(cfg, Next(cfg, s, a[0]), a[1..], b);
    }
  }

  /** While the push stands still the consumer can take all there is and return nothing. */
  lemma {:induction false} DrainsMeanwhile<T>(cfg: Config, s: State<T>) returns (steps: seq<Step<T>>)
    requires Draining(cfg, s)
    ensures var s' := RunFrom(cfg, s, steps);
            Inv(cfg, s') && SamePush(s, s') && s'.log.ended && s'.ring.head == s'.ring.tail
    decreases Left(s)
  {
    DriveStep(cfg, s);
    StepKeepsInv(cfg, s, Drive(s));
    var s' := Next(cfg, s, Drive(s));
    LeftIsNat(cfg, s');
    var rest := [];
    if !s'.log.ended {
      rest := DrainsMeanwhile(cfg, s');
    }
    steps := [Drive(s)] + rest;
    assert steps[1..] == rest;
  }

  lemma LeftIsNat<T>(cfg: Config, s: State<T>)
    requires Inv(cfg, s)
    ensures Left(s) >= 0
  {
  }

  /** How many steps a push past its check is from publishing, once there is space. */
  function ToPublish<T>(p: ProducerPc<T>): nat {
    if p.PTry? then 2 else if p.PWrite? then 1 else 0
  }

  lemma TowardsPublish<T>(cfg: Config, s: State<T>)
    requires Inv(cfg, s) && PastFreeCheck(s.p) && !s.p.PPublish? && s.ring.head == s.ring.tail
    ensures var s' := ProducerStep(cfg, s);
            && PastFreeCheck(s'.p) && ToPublish(s'.p) < ToPublish(s.p)
            && s'.log == s.log && s'.ring.head == s'.ring.tail
  {
  }

  /** Then the push goes on, finds space and is accepted although nobody pops any more. */
  lemma {:induction false} PushGoesOn<T>(cfg: Config, s: State<T>) returns (steps: seq<Step<T>>)
    requires Inv(cfg, s) && PastFreeCheck(s.p) && s.log.ended && s.ring.head == s.ring.tail
    ensures var s' := RunFrom(cfg, s, steps);
            s'.log.ended && |s'.ring.accepted| == |s'.ring.popped| + 1
    decreases ToPublish(s.p)
  {
    var s' := Next(cfg, s, ProducerMoves);
    var rest := [];
    if !s.p.PPublish? {
      TowardsPublish(cfg, s);
      StepKeepsInv(cfg, s, ProducerMoves);
      rest := PushGoesOn(cfg, s');
    }
    steps := [ProducerMoves] + rest;
    assert steps[1..] == rest;
  }

  /** In some continuation pop returns nothing while an accepted item was never popped. */
  ghost predicate CanLose<T(!new)>(cfg: Config, s: State<T>) {
    exists more :: var t := RunFrom(cfg, s, more); t.log.ended && t.ring.popped != t.ring.accepted
  }

  lemma LateCloseLoses<T(!new)>(cfg: Config, s: State<T>)
    requires Draining(cfg, s)
    ensures CanLose(cfg, s)
  {
    var drain := DrainsMeanwhile(cfg, s);
    var push := PushGoesOn(cfg, RunFrom(cfg, s, drain));
    RunFromJoins(cfg, s, drain, push);
    var t := RunFrom(cfg, s, drain + push);
    assert t.log.ended && t.ring.popped != t.ring.accepted;
  }

  lemma {:induction false} LateOnlyAtClose<T>(cfg: Config, s: State<T>, more: seq<Step<T>>)
    requires s.sync.closed && !s.log.lateClose
    ensures !RunFrom(cfg, s, more).log.lateClose
    decreases |more|
  {
    if more != [] {
      LateStep(cfg, s, more[0]);
      LateOnlyAtClose(cfg, Next(cfg, s, more[0]), more[1..]);
    }
  }

  lemma LateStep<T>(cfg: Config, s: State<T>, step: Step<T>)
    requires s.sync.closed && !s.log.lateClose
    ensures Next(cfg, s, step).sync.closed && !Next(cfg, s, step).log.lateClose
  {
  }

  /**
   * The close of an open queue can lose an item, that is, leave one that push accepted unpopped after
   * pop has returned nothing, exactly if it comes while a push is past its last look at closed_ in
   * push itself or in the spin loop. Under the mutex it never does.
   */
  lemma CloseLosesIff<T(!new)>(cfg: Config, steps: seq<Step<T>>, k: nat)
    requires ValidConfig(cfg) && !Run(cfg, steps).sync.closed
    ensures CanLose(cfg, Next(cfg, Run(cfg, steps), StartClose(k))) <==> PastFreeCheck(Run(cfg, steps).p)
  {
    RunInvariant(cfg, steps);
    var s := Run(cfg, steps);
    var c := Next(cfg, s, StartClose(k));
    StepKeepsInv(cfg, s, StartClose(k));
    if PastFreeCheck(s.p) {
      LateCloseLoses(cfg, c);
    } else {
      forall more
        ensures RunFrom(cfg, c, more).log.ended ==>
                  RunFrom(cfg, c, more).ring.popped == RunFrom(cfg, c, more).ring.accepted
      {
        LateOnlyAtClose(cfg, c, more);
        RunFromJoins(cfg, Init(cfg), steps, [StartClose(k)] + more);
        assert ([StartClose(k)] + more)[1..] == more;
        CloseDrains(cfg, steps + ([StartClose(k)] + more));
      }
    }
  }

  /** Such a moment comes in every configuration, with any item. */
  lemma LateCloseIsReachable<T(!new)>(cfg: Config, item: T)
    requires ValidConfig(cfg)
    ensures var s := Run(cfg, [StartPush(item), ProducerMoves]);
            !s.sync.closed && PastFreeCheck(s.p) && CanLose(cfg, Next(cfg, s, StartClose(0)))
  {
    var steps: seq<Step<T>> := [StartPush(item), ProducerMoves];
    var s1 := Next(cfg, Init(cfg), StartPush(item));
    var s2 := Next(cfg, s1, ProducerMoves);
    assert Run(cfg, steps) == RunFrom(cfg, s1, steps[1..]);
    assert steps[1..] == [ProducerMoves] && steps[1..][1..] == [];
    assert RunFrom(cfg, s1, steps[1..]) == RunFrom(cfg, s2, []);
    CloseLosesIff(cfg, steps, 0);
  }
}
