/** What each call of push and pop returns, and why, over whole runs of the ring queue. */
module SpscRingCalls {
  import opened Common
  import opened SpscRing
  import opened SpscRingProofs
  import opened SpscRingClose

  /** The state before step k. */
  function StateAt<T>(cfg: Config, steps: seq<Step<T>>, k: nat): State<T>
    requires k <= |steps|
  {
    Run(cfg, steps[..k])
  }

  lemma StateAfter<T>(cfg: Config, steps: seq<Step<T>>, k: nat)
    requires k < |steps|
    ensures StateAt(cfg, steps, k + 1) == Next(cfg, StateAt(cfg, steps, k), steps[k])
  {
    assert steps[..k + 1] == steps[..k] + [steps[k]];
    RunFromJoins(cfg, Init(cfg), steps[..k], [steps[k]]);
    var s := StateAt(cfg, steps, k);
    assert [steps[k]][1..] == [];
    assert RunFrom(cfg, s, [steps[k]]) == RunFrom(cfg, Next(cfg, s, steps[k]), []);
  }

  /** close() has stored closed_ before some step of a call that takes the steps i to j. */
  ghost predicate ClosedDuring<T>(cfg: Config, steps: seq<Step<T>>, i: nat, j: nat)
    requires j <= |steps|
  {
    exists k: nat :: i <= k < j && StateAt(cfg, steps, k).sync.closed
  }

  predicate IsFull<T>(cfg: Config, s: State<T>) {
    |s.ring.accepted| - |s.ring.popped| >= cfg.capacity
  }

  ghost predicate FullDuring<T>(cfg: Config, steps: seq<Step<T>>, i: nat, j: nat)
    requires j <= |steps|
  {
    exists k: nat :: i <= k < j && IsFull(cfg, StateAt(cfg, steps, k))
  }

  predicate IsDrained<T(==)>(s: State<T>) {
    s.sync.closed && s.ring.popped == s.ring.accepted
  }

  ghost predicate DrainedDuring<T>(cfg: Config, steps: seq<Step<T>>, i: nat, j: nat)
    requires j <= |steps|
  {
    exists k: nat :: i <= k < j && IsDrained(StateAt(cfg, steps, k))
  }

  // ---- push -----------------------------------------------------------------------------------------

  /** A call push(item) that begins with step i and has returned after step j - 1. */
  ghost predicate IsPush<T>(cfg: Config, steps: seq<Step<T>>, i: nat, j: nat, item: T) {
    && i < j <= |steps| && StateAt(cfg, steps, i).p.PIdle? && steps[i] == StartPush(item)
    && StateAt(cfg, steps, j).p.PIdle?
    && forall k: nat :: i < k < j ==> !StateAt(cfg, steps, k).p.PIdle?
  }

  /** Inside push(item), which began with these items accepted and this drop count. */
  predicate Pushing<T(==)>(cfg: Config, item: T, before: seq<T>, dropped: nat, full: bool, s: State<T>) {
    && s.log.dropped == dropped
    && if ProducerWillNotify(s.p) then s.ring.accepted == before + [item]
       else
         && s.ring.accepted == before
         && if s.p.PDrop? then cfg.policy == DropNewest && full
            else !s.p.PIdle? && s.p.item == item
  }

  /** What has changed when push(item) returns. */
  predicate Pushed<T(==)>(
    cfg: Config, item: T, before: seq<T>, dropped: nat, closed: bool, full: bool, s: State<T>
  ) {
    if s.results.push then s.ring.accepted == before + [item] && s.log.dropped == dropped
    else
      && s.ring.accepted == before
      && (|| (closed && s.log.dropped == dropped)
          || (cfg.policy == DropNewest && full && s.log.dropped == dropped + 1))
  }

  lemma PushTries<T>(cfg: Config, s: State<T>, item: T, before: seq<T>, dropped: nat, full: bool)
    requires ProducerInPush(s.p)
    requires Indices(cfg, s) && Pushing(cfg, item, before, dropped, full, s)
    ensures var s' := ProducerStep(cfg, s);
            if s'.p.PIdle? then Pushed(cfg, item, before, dropped, s.sync.closed, full, s')
            else Pushing(cfg, item, before, dropped, full || IsFull(cfg, s), s')
  {
  }

  lemma PushWaits<T>(cfg: Config, s: State<T>, item: T, before: seq<T>, dropped: nat, full: bool)
    requires ProducerInWait(s.p)
    requires Indices(cfg, s) && Pushing(cfg, item, before, dropped, full, s)
    ensures var s' := ProducerStep(cfg, s);
            if s'.p.PIdle? then Pushed(cfg, item, before, dropped, s.sync.closed, full, s')
            else Pushing(cfg, item, before, dropped, full || IsFull(cfg, s), s')
  {
  }

  lemma PushNotifies<T>(cfg: Config, s: State<T>, item: T, before: seq<T>, dropped: nat, full: bool)
    requires ProducerWillNotify(s.p)
    requires Indices(cfg, s) && Pushing(cfg, item, before, dropped, full, s)
    ensures var s' := ProducerStep(cfg, s);
            if s'.p.PIdle? then Pushed(cfg, item, before, dropped, s.sync.closed, full, s')
            else Pushing(cfg, item, before, dropped, full || IsFull(cfg, s), s')
  {
  }

  lemma PushMoves<T>(cfg: Config, s: State<T>, item: T, before: seq<T>, dropped: nat, full: bool)
    requires Indices(cfg, s) && Pushing(cfg, item, before, dropped, full, s)
    ensures var s' := ProducerStep(cfg, s);
            if s'.p.PIdle? then Pushed(cfg, item, before, dropped, s.sync.closed, full, s')
            else Pushing(cfg, item, before, dropped, full || IsFull(cfg, s), s')
  {
    if ProducerInWait(s.p) {
      PushWaits(cfg, s, item, before, dropped, full);
    } else if ProducerWillNotify(s.p) {
      PushNotifies(cfg, s, item, before, dropped, full);
    } else {
      PushTries(cfg, s, item, before, dropped, full);
    }
  }

  lemma ConsumerWakesPush<T>(cfg: Config, s: State<T>)
    ensures var p := ConsumerStep(cfg, s).p;
            p == s.p || (s.p.PAsleep? && p == PWoken(s.p.item))
  {
  }

  lemma ConsumerLeavesPush<T>(cfg: Config, s: State<T>)
    ensures var s' := ConsumerStep(cfg, s);
            && s'.log.(ended := s.log.ended) == s.log && s'.sync.closed == s.sync.closed
            && s'.ring.accepted == s.ring.accepted
  {
  }

  lemma OthersLeavePush<T>(cfg: Config, s: State<T>, step: Step<T>)
    requires !s.p.PIdle? && !step.ProducerMoves?
    ensures var s' := Next(cfg, s, step);
            && s'.ring.accepted == s.ring.accepted && s'.log.dropped == s.log.dropped
            && (s'.p == s.p || (s.p.PAsleep? && s'.p == PWoken(s.p.item)))
  {
    if step.ConsumerMoves? {
      ConsumerLeavesPush(cfg, s);
      ConsumerWakesPush(cfg, s);
    }
  }

  lemma PushGoesOn<T>(
    cfg: Config, s: State<T>, step: Step<T>, item: T, before: seq<T>, dropped: nat, full: bool
  )
    requires Inv(cfg, s) && Pushing(cfg, item, before, dropped, full, s)
    ensures var s' := Next(cfg, s, step);
            if s'.p.PIdle? then Pushed(cfg, item, before, dropped, s.sync.closed, full, s')
            else Pushing(cfg, item, before, dropped, full || IsFull(cfg, s), s')
  {
    if step.ProducerMoves? {
      PushMoves(cfg, s, item, before, dropped, full);
    } else {
      OthersLeavePush(cfg, s, step);
    }
  }

  lemma {:induction false} PushingAt<T>(cfg: Config, steps: seq<Step<T>>, i: nat, k: nat, item: T)
    requires ValidConfig(cfg) && i < k <= |steps|
    requires StateAt(cfg, steps, i).p.PIdle? && steps[i] == StartPush(item)
    requires forall n: nat :: i < n <= k ==> !StateAt(cfg, steps, n).p.PIdle?
    ensures var a := StateAt(cfg, steps, i);
            Pushing(cfg, item, a.ring.accepted, a.log.dropped, FullDuring(cfg, steps, i, k), StateAt(cfg, steps, k))
    decreases k
  {
    StateAfter(cfg, steps, k - 1);
    if k > i + 1 {
      var a, s := StateAt(cfg, steps, i), StateAt(cfg, steps, k - 1);
      PushingAt(cfg, steps, i, k - 1, item);
      RunInvariant(cfg, steps[..k - 1]);
      PushGoesOn(cfg, s, steps[k - 1], item, a.ring.accepted, a.log.dropped, FullDuring(cfg, steps, i, k - 1));
      assert FullDuring(cfg, steps, i, k) <==> FullDuring(cfg, steps, i, k - 1) || IsFull(cfg, s);
    }
  }

  /**
   * push returns true exactly if it has appended its item to the accepted ones. It returns false, and
   * has changed none of them, only if the queue was closed at some step of the call, or under kDropNewest
   * and full at some step of it, which is counted as a drop.
   */
  lemma PushReturns<T>(cfg: Config, steps: seq<Step<T>>, i: nat, j: nat, item: T)
    requires ValidConfig(cfg) && IsPush(cfg, steps, i, j, item)
    ensures var a, b := StateAt(cfg, steps, i), StateAt(cfg, steps, j);
            if b.results.push then
              b.ring.accepted == a.ring.accepted + [item] && b.log.dropped == a.log.dropped
            else
              && b.ring.accepted == a.ring.accepted
              && (|| (ClosedDuring(cfg, steps, i, j) && b.log.dropped == a.log.dropped)
                  || (cfg.policy == DropNewest && FullDuring(cfg, steps, i, j) && b.log.dropped == a.log.dropped + 1))
  {
    var k := j - 1;
    StateAfter(cfg, steps, k);
    if k > i {
      var a, s := StateAt(cfg, steps, i), StateAt(cfg, steps, k);
      PushingAt(cfg, steps, i, k, item);
      RunInvariant(cfg, steps[..k]);
      PushGoesOn(cfg, s, steps[k], item, a.ring.accepted, a.log.dropped, FullDuring(cfg, steps, i, k));
      assert s.sync.closed ==> ClosedDuring(cfg, steps, i, j);
      assert FullDuring(cfg, steps, i, k) ==> FullDuring(cfg, steps, i, j);
    }
  }

  // ---- pop ------------------------------------------------------------------------------------------

  /** A call of pop that begins with step i and has returned after step j - 1. */
  ghost predicate IsPop<T>(cfg: Config, steps: seq<Step<T>>, i: nat, j: nat) {
    && i < j <= |steps| && StateAt(cfg, steps, i).c.CIdle? && steps[i] == StartPop
    && StateAt(cfg, steps, j).c.CIdle?
    && forall k: nat :: i < k < j ==> !StateAt(cfg, steps, k).c.CIdle?
  }

  /** Inside pop, which began with these items popped. */
  predicate Popping<T(==)>(before: seq<T>, s: State<T>) {
    if ConsumerWillNotify(s.c) then s.results.pop.Some? && s.ring.popped == before + [s.results.pop.value]
    else !s.c.CIdle? && s.ring.popped == before
  }

  /** What has changed when pop returns. */
  predicate Popped<T(==)>(before: seq<T>, drained: bool, s: State<T>) {
    match s.results.pop
    case Some(item) => s.ring.popped == before + [item]
    case None => drained && s.ring.popped == before
  }

  lemma PopMoves<T>(cfg: Config, s: State<T>, before: seq<T>)
    requires Indices(cfg, s) && Closing(s) && Popping(before, s)
    ensures var s' := ConsumerStep(cfg, s);
            if s'.c.CIdle? then Popped(before, IsDrained(s), s') else Popping(before, s')
  {
  }

  lemma ProducerLeavesPop<T>(cfg: Config, s: State<T>)
    requires !s.c.CIdle?
    ensures var s' := ProducerStep(cfg, s);
            && s'.ring.popped == s.ring.popped && s'.results.pop == s.results.pop
            && (s'.c == s.c || (s.c.CAsleep? && s'.c == CWoken))
  {
  }

  lemma OthersLeavePop<T>(cfg: Config, s: State<T>, step: Step<T>)
    requires !s.c.CIdle? && !step.ConsumerMoves?
    ensures var s' := Next(cfg, s, step);
            && s'.ring.popped == s.ring.popped && s'.results.pop == s.results.pop
            && (s'.c == s.c || (s.c.CAsleep? && s'.c == CWoken))
  {
    if step.ProducerMoves? {
      ProducerLeavesPop(cfg, s);
    }
  }

  lemma PopGoesOn<T>(cfg: Config, s: State<T>, step: Step<T>, before: seq<T>)
    requires Inv(cfg, s) && Popping(before, s)
    ensures var s' := Next(cfg, s, step);
            if s'.c.CIdle? then Popped(before, IsDrained(s), s') else Popping(before, s')
  {
    if step.ConsumerMoves? {
      PopMoves(cfg, s, before);
    } else {
      OthersLeavePop(cfg, s, step);
    }
  }

  lemma PopGoesOnAt<T>(cfg: Config, steps: seq<Step<T>>, k: nat, before: seq<T>)
    requires ValidConfig(cfg) && k < |steps| && Popping(before, StateAt(cfg, steps, k))
    ensures var s, s' := StateAt(cfg, steps, k), StateAt(cfg, steps, k + 1);
            if s'.c.CIdle? then Popped(before, IsDrained(s), s') else Popping(before, s')
  {
    RunInvariant(cfg, steps[..k]);
    StateAfter(cfg, steps, k);
    PopGoesOn(cfg, StateAt(cfg, steps, k), steps[k], before);
  }

  lemma PopBegins<T>(cfg: Config, steps: seq<Step<T>>, i: nat)
    requires i < |steps| && StateAt(cfg, steps, i).c.CIdle? && steps[i] == StartPop
    ensures Popping(StateAt(cfg, steps, i).ring.popped, StateAt(cfg, steps, i + 1))
  {
    StateAfter(cfg, steps, i);
  }

  lemma {:induction false} PoppingAt<T>(cfg: Config, steps: seq<Step<T>>, i: nat, k: nat)
    requires ValidConfig(cfg) && i < k <= |steps|
    requires StateAt(cfg, steps, i).c.CIdle? && steps[i] == StartPop
    requires forall n: nat :: i < n <= k ==> !StateAt(cfg, steps, n).c.CIdle?
    ensures Popping(StateAt(cfg, steps, i).ring.popped, StateAt(cfg, steps, k))
    decreases k
  {
    if k == i + 1 {
      PopBegins(cfg, steps, i);
    } else {
      PoppingAt(cfg, steps, i, k - 1);
      PopGoesOnAt(cfg, steps, k - 1, StateAt(cfg, steps, i).ring.popped);
    }
  }

  /**
   * pop returns an item exactly if it has appended that item to the popped ones. It returns nothing, and
   * has popped nothing, only if the queue was closed and everything accepted popped at a step of the call.
   */
  lemma PopReturns<T>(cfg: Config, steps: seq<Step<T>>, i: nat, j: nat)
    requires ValidConfig(cfg) && IsPop(cfg, steps, i, j)
    ensures var a, b := StateAt(cfg, steps, i), StateAt(cfg, steps, j);
            match b.results.pop
            case Some(item) => b.ring.popped == a.ring.popped + [item]
            case None => b.ring.popped == a.ring.popped && DrainedDuring(cfg, steps, i, j)
  {
    var k := j - 1;
    if k == i {
      PopBegins(cfg, steps, i);
    } else {
      PoppingAt(cfg, steps, i, k);
      PopGoesOnAt(cfg, steps, k, StateAt(cfg, steps, i).ring.popped);
      assert IsDrained(StateAt(cfg, steps, k)) ==> DrainedDuring(cfg, steps, i, j);
    }
  }

  // ---- every push on an open queue is accounted for ---------------------------------------------------

  predicate BeginsOpenPush<T>(s: State<T>, step: Step<T>) {
    step.StartPush? && s.p.PIdle? && !s.sync.closed
  }

  /** The calls of push that were made while the queue was open. */
  function OpenPushes<T>(cfg: Config, steps: seq<Step<T>>): nat {
    if steps == [] then 0
    else
      var n := |steps| - 1;
      OpenPushes(cfg, steps[..n]) + if BeginsOpenPush(StateAt(cfg, steps, n), steps[n]) then 1 else 0
  }

  predicate Tallied<T>(made: nat, s: State<T>) {
    && (s.log.refused > 0 ==> s.sync.closed)
    && (!s.sync.closed || Undecided(s.p) ==> made == s.log.offered + if s.p.PCheckClosed? then 1 else 0)
    && s.log.offered <= made <= s.log.offered + 1
  }

  lemma ProducerIsTallied<T>(cfg: Config, s: State<T>, made: nat)
    requires Tallied(made, s)
    ensures Tallied(made, ProducerStep(cfg, s))
  {
  }

  lemma ConsumerIsTallied<T>(cfg: Config, s: State<T>, made: nat)
    requires Tallied(made, s)
    ensures Tallied(made, ConsumerStep(cfg, s))
  {
    ConsumerLeavesPush(cfg, s);
      ConsumerWakesPush(cfg, s);
  }

  lemma StepIsTallied<T>(cfg: Config, s: State<T>, step: Step<T>, made: nat)
    requires Tallied(made, s)
    ensures Tallied(made + if BeginsOpenPush(s, step) then 1 else 0, Next(cfg, s, step))
  {
    if step.ProducerMoves? {
      ProducerIsTallied(cfg, s, made);
    } else if step.ConsumerMoves? {
      ConsumerIsTallied(cfg, s, made);
    }
  }

  lemma {:induction false} RunIsTallied<T>(cfg: Config, steps: seq<Step<T>>)
    ensures Tallied(OpenPushes(cfg, steps), Run(cfg, steps))
    decreases |steps|
  {
    if steps != [] {
      var n := |steps| - 1;
      RunIsTallied(cfg, steps[..n]);
      StateAfter(cfg, steps, n);
      assert steps[..n + 1] == steps;
      StepIsTallied(cfg, StateAt(cfg, steps, n), steps[n], OpenPushes(cfg, steps[..n]));
    }
  }

  /** Each push made on an open queue is accepted, dropped, refused by a close, or is the one in progress;
      while the queue is open none is refused. */
  lemma OpenPushesAreConserved<T>(cfg: Config, steps: seq<Step<T>>)
    requires ValidConfig(cfg)
    ensures var s := Run(cfg, steps);
            var open := OpenPushes(cfg, steps) - (|s.ring.accepted| + s.log.dropped + s.log.refused);
            && 0 <= open <= 1 && (open == 1 ==> !s.p.PIdle? || s.sync.closed)
            && (s.log.refused > 0 ==> s.sync.closed)
  {
    RunIsTallied(cfg, steps);
    RunInvariant(cfg, steps);
  }
}
