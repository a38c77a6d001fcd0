/** What every interleaving of SpscRing keeps, and what follows for whole runs. */
module SpscRingProofs {
  import opened Common
  import opened SpscRing

  // ---- the invariant ------------------------------------------------------------------------

  predicate ProducerHolds<T>(p: ProducerPc<T>) {
    || p.PSetFlag? || p.PSeeClosed? || p.PSeeSpace? || p.PPark? || p.PClearFlag?
    || p.PRecheckClosed? || p.PUnlock? || p.PWakeUnlock?
    || ((p.PTry? || p.PWrite? || p.PPublish?) && p.site == Locked)
  }

  predicate ConsumerHolds<T>(c: ConsumerPc<T>) {
    || c.CReadClosed? || c.CSetFlag? || c.CSeeClosed? || c.CSeeItem? || c.CPark?
    || c.CClearFlag? || c.CUnlock? || c.CWakeUnlock?
    || ((c.CTry? || c.CTake? || c.CPublish?) && c.site.Holding?)
  }

  predicate ProducerFlagged<T>(p: ProducerPc<T>) {
    p.PSeeClosed? || p.PSeeSpace? || p.PPark? || p.PAsleep? || p.PWoken? || p.PClearFlag?
  }

  predicate ConsumerFlagged<T>(c: ConsumerPc<T>) {
    c.CSeeClosed? || c.CSeeItem? || c.CPark? || c.CAsleep? || c.CWoken? || c.CClearFlag?
  }

  predicate CloserHolds(closers: map<nat, CloserPc>, k: nat) {
    k in closers && closers[k] == KLocked
  }

  /** The mutex has one owner, and the waiting flags are up exactly around the waits. */
  ghost predicate Locks<T>(s: State<T>) {
    && (s.sync.mutex == Some(Producer) <==> ProducerHolds(s.p))
    && (s.sync.mutex == Some(Consumer) <==> ConsumerHolds(s.c))
    && (forall k: nat :: CloserHolds(s.closers, k) <==> s.sync.mutex == Some(Closer(k)))
    && s.sync.producerWaiting == ProducerFlagged(s.p)
    && s.sync.consumerWaiting == ConsumerFlagged(s.c)
  }

  /** The content of the slot that index j of the current window maps to. */
  function Expected<T>(s: State<T>, j: nat): Option<T>
    requires |s.ring.accepted| == s.ring.head
  {
    if j < s.ring.head then (if j == s.ring.tail && s.c.CPublish? then None else Some(s.ring.accepted[j]))
    else if j == s.ring.head && s.p.PPublish? then Some(s.p.item)
    else None
  }

  ghost predicate Indices<T>(cfg: Config, s: State<T>) {
    && s.ring.cachedTail <= s.ring.tail <= s.ring.cachedHead <= s.ring.head <= s.ring.tail + cfg.capacity
    && (s.p.PWrite? || s.p.PPublish? ==> s.ring.head - s.ring.cachedTail < cfg.capacity)
    && (s.c.CTake? || s.c.CPublish? ==> s.ring.tail < s.ring.cachedHead)
    && |s.ring.accepted| == s.ring.head
    && s.ring.popped == s.ring.accepted[..s.ring.tail]
    && (s.c.CPublish? ==> s.c.item == s.ring.accepted[s.ring.tail])
  }

  ghost predicate Slots<T>(cfg: Config, s: State<T>)
    requires |s.ring.accepted| == s.ring.head
  {
    && |s.ring.slots| == cfg.size
    && forall j: nat {:trigger SlotOf(j, cfg.size)} :: s.ring.tail <= j < s.ring.tail + cfg.size ==>
         ReadSlot(s.ring.slots, SlotOf(j, cfg.size)) == Expected(s, j)
  }

  ghost predicate SomeCloser(closers: map<nat, CloserPc>, stages: set<CloserPc>) {
    exists k: nat :: k in closers && closers[k] in stages
  }

  /** A producer between its head_ store and its notify. */
  predicate ProducerWillNotify<T>(p: ProducerPc<T>) {
    p.PUnlock? || p.PWake? || p.PWakeLock? || p.PWakeUnlock? || p.PNotify?
  }

  /** A consumer between its tail_ store and its notify. */
  predicate ConsumerWillNotify<T>(c: ConsumerPc<T>) {
    c.CUnlock? || c.CWake? || c.CWakeLock? || c.CWakeUnlock? || c.CNotify?
  }

  /** A side that parks, or is about to, while its condition holds has a wake-up on the way. */
  ghost predicate Wakes<T>(cfg: Config, s: State<T>) {
    && (s.c.CPark? && s.ring.head != s.ring.tail ==> s.p.PWake? || s.p.PWakeLock?)
    && (s.c.CAsleep? && s.ring.head != s.ring.tail ==> ProducerWillNotify(s.p))
    && (s.p.PPark? && s.ring.head - s.ring.tail < cfg.capacity ==> s.c.CWake? || s.c.CWakeLock?)
    && (s.p.PAsleep? && s.ring.head - s.ring.tail < cfg.capacity ==> ConsumerWillNotify(s.c))
  }

  ghost predicate CloseWakes<T>(s: State<T>) {
    && ((s.c.CSeeItem? || s.c.CPark?) && s.sync.closed ==> SomeCloser(s.closers, {KStored}))
    && (s.c.CAsleep? && s.sync.closed ==> SomeCloser(s.closers, {KStored, KLocked, KUnlocked}))
    && ((s.p.PSeeSpace? || s.p.PPark?) && s.sync.closed ==> SomeCloser(s.closers, {KStored}))
    && (s.p.PAsleep? && s.sync.closed ==>
          SomeCloser(s.closers, {KStored, KLocked, KUnlocked, KNotifiedEmpty}))
  }

  /** The producer is inside a push that was offered and is not yet decided. */
  predicate Undecided<T>(p: ProducerPc<T>) {
    !(p.PIdle? || p.PCheckClosed? || ProducerWillNotify(p))
  }

  /** The part of the producer's code that kDropNewest can reach. */
  predicate NeverBlocks<T>(p: ProducerPc<T>) {
    || p.PIdle? || p.PCheckClosed? || p.PDrop?
    || p.PWake? || p.PWakeLock? || p.PWakeUnlock? || p.PNotify?
    || ((p.PTry? || p.PWrite? || p.PPublish?) && p.site == First)
  }

  ghost predicate Counts<T>(cfg: Config, s: State<T>) {
    && s.log.offered == |s.ring.accepted| + s.log.dropped + s.log.refused + (if Undecided(s.p) then 1 else 0)
    && (cfg.policy == Block ==> s.log.dropped == 0 && !s.p.PDrop?)
    && (cfg.policy == DropNewest ==> s.log.refused == 0 && NeverBlocks(s.p))
  }

  ghost predicate Closing<T>(s: State<T>) {
    && (s.closers != map[] ==> s.sync.closed)
    && (s.sync.closed && !s.log.lateClose ==> !PastFreeCheck(s.p))
    && (s.log.ended && PastLastCheck(s.p) ==> PastFreeCheck(s.p))
    && (s.log.lateClose ==> s.sync.closed)
    && (s.c.CTry? && s.c.site == Holding(true) ==> s.sync.closed)
    && (s.c.CTake? && s.c.site == Holding(true) ==> s.sync.closed)
    && (s.c.CPublish? && s.c.site == Holding(true) ==> s.sync.closed)
    && (s.log.ended ==> s.sync.closed)
    && (s.log.ended && !s.log.lateClose ==> s.ring.head == s.ring.tail)
  }

  ghost predicate Inv<T>(cfg: Config, s: State<T>) {
    && ValidConfig(cfg)
    && Locks(s)
    && Indices(cfg, s)
    && Slots(cfg, s)
    && Wakes(cfg, s)
    && CloseWakes(s)
    && Counts(cfg, s)
    && Closing(s)
  }

  // ---- every step keeps it ------------------------------------------------------------------

  /** The invariant without the slot contents. */
  ghost predicate Core<T>(cfg: Config, s: State<T>) {
    && ValidConfig(cfg) && Locks(s) && Indices(cfg, s) && Wakes(cfg, s) && CloseWakes(s)
    && Counts(cfg, s) && Closing(s)
  }

  predicate ProducerInPush<T>(p: ProducerPc<T>) {
    p.PIdle? || p.PCheckClosed? || p.PTry? || p.PWrite? || p.PPublish? || p.PDrop? || p.PSpinClosed?
  }

  predicate ProducerInWait<T>(p: ProducerPc<T>) {
    !ProducerInPush(p) && !ProducerWillNotify(p)
  }

  predicate ConsumerInPop<T>(c: ConsumerPc<T>) {
    c.CIdle? || c.CTry? || c.CTake? || c.CPublish?
  }

  predicate ConsumerInWait<T>(c: ConsumerPc<T>) {
    !ConsumerInPop(c) && !ConsumerWillNotify(c)
  }

  lemma ProducerPushLocks<T>(cfg: Config, s: State<T>, s': State<T>)
    requires Core(cfg, s) && ProducerInPush(s.p) && s' == ProducerStep(cfg, s)
    ensures Locks(s')
  {
  }

  lemma ProducerPushIndices<T>(cfg: Config, s: State<T>, s': State<T>)
    requires Core(cfg, s) && ProducerInPush(s.p) && s' == ProducerStep(cfg, s)
    ensures Indices(cfg, s')
  {
  }

  lemma ProducerPushCounts<T>(cfg: Config, s: State<T>, s': State<T>)
    requires Core(cfg, s) && ProducerInPush(s.p) && s' == ProducerStep(cfg, s)
    ensures Counts(cfg, s')
  {
  }

  lemma ProducerPushClosing<T>(cfg: Config, s: State<T>, s': State<T>)
    requires Core(cfg, s) && ProducerInPush(s.p) && s' == ProducerStep(cfg, s)
    ensures Closing(s')
  {
  }

  lemma ProducerPushWakes<T>(cfg: Config, s: State<T>, s': State<T>)
    requires Core(cfg, s) && ProducerInPush(s.p) && s' == ProducerStep(cfg, s)
    ensures Wakes(cfg, s') && CloseWakes(s')
  {
  }

  lemma ProducerWaitLocks<T>(cfg: Config, s: State<T>, s': State<T>)
    requires Core(cfg, s) && ProducerInWait(s.p) && s' == ProducerStep(cfg, s)
    ensures Locks(s')
  {
  }

  lemma ProducerWaitIndices<T>(cfg: Config, s: State<T>, s': State<T>)
    requires Core(cfg, s) && ProducerInWait(s.p) && s' == ProducerStep(cfg, s)
    ensures Indices(cfg, s')
  {
  }

  lemma ProducerWaitCounts<T>(cfg: Config, s: State<T>, s': State<T>)
    requires Core(cfg, s) && ProducerInWait(s.p) && s' == ProducerStep(cfg, s)
    ensures Counts(cfg, s')
  {
  }

  lemma ProducerWaitClosing<T>(cfg: Config, s: State<T>, s': State<T>)
    requires Core(cfg, s) && ProducerInWait(s.p) && s' == ProducerStep(cfg, s)
    ensures Closing(s')
  {
  }

  lemma ProducerWaitWakes<T>(cfg: Config, s: State<T>, s': State<T>)
    requires Core(cfg, s) && ProducerInWait(s.p) && s' == ProducerStep(cfg, s)
    ensures Wakes(cfg, s') && CloseWakes(s')
  {
  }

  lemma ProducerNotifyLocks<T>(cfg: Config, s: State<T>, s': State<T>)
    requires Core(cfg, s) && ProducerWillNotify(s.p) && s' == ProducerStep(cfg, s)
    ensures Locks(s')
  {
  }

  lemma ProducerNotifyIndices<T>(cfg: Config, s: State<T>, s': State<T>)
    requires Core(cfg, s) && ProducerWillNotify(s.p) && s' == ProducerStep(cfg, s)
    ensures Indices(cfg, s')
  {
  }

  lemma ProducerNotifyCounts<T>(cfg: Config, s: State<T>, s': State<T>)
    requires Core(cfg, s) && ProducerWillNotify(s.p) && s' == ProducerStep(cfg, s)
    ensures Counts(cfg, s')
  {
  }

  lemma ProducerNotifyClosing<T>(cfg: Config, s: State<T>, s': State<T>)
    requires Core(cfg, s) && ProducerWillNotify(s.p) && s' == ProducerStep(cfg, s)
    ensures Closing(s')
  {
  }

  lemma ProducerNotifyWakes<T>(cfg: Config, s: State<T>, s': State<T>)
    requires Core(cfg, s) && ProducerWillNotify(s.p) && s' == ProducerStep(cfg, s)
    ensures Wakes(cfg, s') && CloseWakes(s')
  {
  }

  lemma ConsumerPopLocks<T>(cfg: Config, s: State<T>, s': State<T>)
    requires Core(cfg, s) && ConsumerInPop(s.c) && s' == ConsumerStep(cfg, s)
    ensures Locks(s')
  {
  }

  lemma ConsumerPopIndices<T>(cfg: Config, s: State<T>, s': State<T>)
    requires Core(cfg, s) && ConsumerInPop(s.c) && s' == ConsumerStep(cfg, s)
    requires Slots(cfg, s)
    ensures Indices(cfg, s')
  {
    assert ReadSlot(s.ring.slots, SlotOf(s.ring.tail, cfg.size)) == Expected(s, s.ring.tail);
  }

  lemma ConsumerPopCounts<T>(cfg: Config, s: State<T>, s': State<T>)
    requires Core(cfg, s) && ConsumerInPop(s.c) && s' == ConsumerStep(cfg, s)
    ensures Counts(cfg, s')
  {
  }

  lemma ConsumerPopClosing<T>(cfg: Config, s: State<T>, s': State<T>)
    requires Core(cfg, s) && ConsumerInPop(s.c) && s' == ConsumerStep(cfg, s)
    ensures Closing(s')
  {
  }

  lemma ConsumerPopWakes<T>(cfg: Config, s: State<T>, s': State<T>)
    requires Core(cfg, s) && ConsumerInPop(s.c) && s' == ConsumerStep(cfg, s)
    ensures Wakes(cfg, s') && CloseWakes(s')
  {
  }

  lemma ConsumerWaitLocks<T>(cfg: Config, s: State<T>, s': State<T>)
    requires Core(cfg, s) && ConsumerInWait(s.c) && s' == ConsumerStep(cfg, s)
    ensures Locks(s')
  {
  }

  lemma ConsumerWaitIndices<T>(cfg: Config, s: State<T>, s': State<T>)
    requires Core(cfg, s) && ConsumerInWait(s.c) && s' == ConsumerStep(cfg, s)
    ensures Indices(cfg, s')
  {
  }

  lemma ConsumerWaitCounts<T>(cfg: Config, s: State<T>, s': State<T>)
    requires Core(cfg, s) && ConsumerInWait(s.c) && s' == ConsumerStep(cfg, s)
    ensures Counts(cfg, s')
  {
  }

  lemma ConsumerWaitClosing<T>(cfg: Config, s: State<T>, s': State<T>)
    requires Core(cfg, s) && ConsumerInWait(s.c) && s' == ConsumerStep(cfg, s)
    ensures Closing(s')
  {
  }

  lemma ConsumerWaitWakes<T>(cfg: Config, s: State<T>, s': State<T>)
    requires Core(cfg, s) && ConsumerInWait(s.c) && s' == ConsumerStep(cfg, s)
    ensures Wakes(cfg, s') && CloseWakes(s')
  {
  }

  lemma ConsumerNotifyLocks<T>(cfg: Config, s: State<T>, s': State<T>)
    requires Core(cfg, s) && ConsumerWillNotify(s.c) && s' == ConsumerStep(cfg, s)
    ensures Locks(s')
  {
  }

  lemma ConsumerNotifyIndices<T>(cfg: Config, s: State<T>, s': State<T>)
    requires Core(cfg, s) && ConsumerWillNotify(s.c) && s' == ConsumerStep(cfg, s)
    ensures Indices(cfg, s')
  {
  }

  lemma ConsumerNotifyCounts<T>(cfg: Config, s: State<T>, s': State<T>)
    requires Core(cfg, s) && ConsumerWillNotify(s.c) && s' == ConsumerStep(cfg, s)
    ensures Counts(cfg, s')
  {
  }

  lemma ConsumerNotifyClosing<T>(cfg: Config, s: State<T>, s': State<T>)
    requires Core(cfg, s) && ConsumerWillNotify(s.c) && s' == ConsumerStep(cfg, s)
    ensures Closing(s')
  {
  }

  lemma ConsumerNotifyWakes<T>(cfg: Config, s: State<T>, s': State<T>)
    requires Core(cfg, s) && ConsumerWillNotify(s.c) && s' == ConsumerStep(cfg, s)
    ensures Wakes(cfg, s') && CloseWakes(s')
  {
  }

  lemma CloserLocks<T>(cfg: Config, s: State<T>, k: nat, s': State<T>)
    requires Core(cfg, s) && (s' == CloserStep(s, k) || s' == BeginClose(s, k))
    ensures Locks(s')
  {
    assert forall j: nat :: j != k ==>
        (CloserHolds(s'.closers, j) <==> CloserHolds(s.closers, j));
    assert CloserHolds(s.closers, k) <==> s.sync.mutex == Some(Closer(k));
  }

  lemma CloserIndices<T>(cfg: Config, s: State<T>, k: nat, s': State<T>)
    requires Core(cfg, s) && (s' == CloserStep(s, k) || s' == BeginClose(s, k))
    ensures Indices(cfg, s')
  {
  }

  lemma CloserCounts<T>(cfg: Config, s: State<T>, k: nat, s': State<T>)
    requires Core(cfg, s) && (s' == CloserStep(s, k) || s' == BeginClose(s, k))
    ensures Counts(cfg, s')
  {
  }

  lemma CloserClosing<T>(cfg: Config, s: State<T>, k: nat, s': State<T>)
    requires Core(cfg, s) && (s' == CloserStep(s, k) || s' == BeginClose(s, k))
    ensures Closing(s')
  {
  }

  lemma CloserWakes<T>(cfg: Config, s: State<T>, k: nat, s': State<T>)
    requires Core(cfg, s) && (s' == CloserStep(s, k) || s' == BeginClose(s, k))
    ensures Wakes(cfg, s')
  {
  }

  lemma CloserCloseWakes<T>(cfg: Config, s: State<T>, k: nat, s': State<T>)
    requires Core(cfg, s) && (s' == CloserStep(s, k) || s' == BeginClose(s, k))
    ensures CloseWakes(s')
  {
    forall stages | SomeCloser(s.closers, stages)
      ensures SomeCloser(s'.closers, stages) || (k in s.closers && s.closers[k] in stages)
    {
      OtherClosersStay(s.closers, s'.closers, k, stages);
    }
    if k in s'.closers {
      assert forall stages :: s'.closers[k] in stages ==> SomeCloser(s'.closers, stages);
    }
  }

  lemma OtherClosersStay(a: map<nat, CloserPc>, b: map<nat, CloserPc>, k: nat, stages: set<CloserPc>)
    requires SomeCloser(a, stages) && forall j: nat :: j != k && j in a ==> j in b && b[j] == a[j]
    ensures SomeCloser(b, stages) || (k in a && a[k] in stages)
  {
    var j: nat :| j in a && a[j] in stages;
    assert j != k ==> j in b && b[j] in stages;
  }

  lemma DistinctSlots(i: nat, j: nat, size: nat)
    requires i < j < i + size
    ensures SlotOf(i, size) != SlotOf(j, size)
  {
    var q := j / size - i / size;
    assert j - i == size * q + (j % size - i % size);
    MultipleBounds(size, q);
  }

  lemma WindowWraps(j: nat, size: nat)
    requires size > 0
    ensures SlotOf(j + size, size) == SlotOf(j, size) < size
  {
    var q := (j + size) / size - j / size - 1;
    assert (j + size) % size - j % size == -(size * q);
    MultipleBounds(size, q);
  }

  /** A step that leaves the ring's contents alone. */
  lemma SlotsUntouched<T>(cfg: Config, s: State<T>, s': State<T>)
    requires Indices(cfg, s) && Slots(cfg, s) && |s'.ring.accepted| == s'.ring.head
    requires s'.ring == s.ring.(cachedTail := s'.ring.cachedTail, cachedHead := s'.ring.cachedHead)
    requires (!s.p.PPublish? && !s'.p.PPublish?) || s.p == s'.p
    requires (!s.c.CPublish? && !s'.c.CPublish?) || s.c == s'.c
    ensures Slots(cfg, s')
  {
    forall j: nat | s.ring.tail <= j < s.ring.tail + cfg.size
      ensures ReadSlot(s'.ring.slots, SlotOf(j, cfg.size)) == Expected(s', j)
    {
      assert Expected(s', j) == Expected(s, j);
    }
  }

  /** Writing slots_[head & mask_] hits a free slot and no live one. */
  lemma SlotsAfterWrite<T>(cfg: Config, s: State<T>, s': State<T>)
    requires ValidConfig(cfg) && Indices(cfg, s) && Slots(cfg, s)
    requires s.p.PWrite? && s' == ProducerStep(cfg, s)
    ensures ReadSlot(s.ring.slots, SlotOf(s.ring.head, cfg.size)) == None
    ensures Slots(cfg, s')
  {
    var h := s.ring.head;
    WindowWraps(h, cfg.size);
    assert Expected(s, h) == None;
    forall j: nat | s.ring.tail <= j < s.ring.tail + cfg.size
      ensures ReadSlot(s'.ring.slots, SlotOf(j, cfg.size)) == Expected(s', j)
    {
      if j < h { DistinctSlots(j, h, cfg.size); } else if j > h { DistinctSlots(h, j, cfg.size); }
      assert ReadSlot(s.ring.slots, SlotOf(j, cfg.size)) == Expected(s, j);
    }
  }

  lemma SlotsAfterTake<T>(cfg: Config, s: State<T>, s': State<T>)
    requires ValidConfig(cfg) && Indices(cfg, s) && Slots(cfg, s)
    requires s.c.CTake? && s' == ConsumerStep(cfg, s)
    ensures s'.c == CPublish(s.ring.accepted[s.ring.tail], s.c.site)
    ensures Slots(cfg, s')
  {
    var t := s.ring.tail;
    WindowWraps(t, cfg.size);
    assert ReadSlot(s.ring.slots, SlotOf(t, cfg.size)) == Expected(s, t);
    forall j: nat | t <= j < t + cfg.size
      ensures ReadSlot(s'.ring.slots, SlotOf(j, cfg.size)) == Expected(s', j)
    {
      if j > t { DistinctSlots(t, j, cfg.size); }
      assert ReadSlot(s.ring.slots, SlotOf(j, cfg.size)) == Expected(s, j);
    }
  }

  lemma SlotsAfterPublish<T>(cfg: Config, s: State<T>, s': State<T>)
    requires ValidConfig(cfg) && Indices(cfg, s) && Slots(cfg, s) && Indices(cfg, s')
    requires (s.p.PPublish? && s' == ProducerStep(cfg, s)) || (s.c.CPublish? && s' == ConsumerStep(cfg, s))
    ensures Slots(cfg, s')
  {
    var t := s.ring.tail;
    forall j: nat | s'.ring.tail <= j < s'.ring.tail + cfg.size
      ensures ReadSlot(s'.ring.slots, SlotOf(j, cfg.size)) == Expected(s', j)
    {
      var i := if j < t + cfg.size then j else t;
      WindowWraps(t, cfg.size);
      assert SlotOf(i, cfg.size) == SlotOf(j, cfg.size);
      assert ReadSlot(s.ring.slots, SlotOf(i, cfg.size)) == Expected(s, i);
    }
  }

  lemma ProducerKeepsCore<T>(cfg: Config, s: State<T>, s': State<T>)
    requires Core(cfg, s) && Slots(cfg, s) && s' == ProducerStep(cfg, s)
    ensures Core(cfg, s')
  {
    if ProducerInPush(s.p) {
      ProducerPushLocks(cfg, s, s'); ProducerPushIndices(cfg, s, s');
      ProducerPushCounts(cfg, s, s');
      ProducerPushClosing(cfg, s, s'); ProducerPushWakes(cfg, s, s');
    } else if ProducerInWait(s.p) {
      ProducerWaitLocks(cfg, s, s'); ProducerWaitIndices(cfg, s, s');
      ProducerWaitCounts(cfg, s, s');
      ProducerWaitClosing(cfg, s, s'); ProducerWaitWakes(cfg, s, s');
    } else {
      ProducerNotifyLocks(cfg, s, s'); ProducerNotifyIndices(cfg, s, s');
      ProducerNotifyCounts(cfg, s, s');
      ProducerNotifyClosing(cfg, s, s'); ProducerNotifyWakes(cfg, s, s');
    }
  }

  lemma ProducerKeepsSlots<T>(cfg: Config, s: State<T>, s': State<T>)
    requires ValidConfig(cfg) && Indices(cfg, s) && Slots(cfg, s)
    requires s' == ProducerStep(cfg, s) && Indices(cfg, s')
    ensures Slots(cfg, s')
  {
    if s.p.PWrite? {
      SlotsAfterWrite(cfg, s, s');
    } else if s.p.PPublish? {
      SlotsAfterPublish(cfg, s, s');
    } else {
      SlotsUntouched(cfg, s, s');
    }
  }

  lemma ConsumerKeepsCore<T>(cfg: Config, s: State<T>, s': State<T>)
    requires Core(cfg, s) && Slots(cfg, s) && s' == ConsumerStep(cfg, s)
    ensures Core(cfg, s')
  {
    if ConsumerInPop(s.c) {
      ConsumerPopLocks(cfg, s, s'); ConsumerPopIndices(cfg, s, s');
      ConsumerPopCounts(cfg, s, s');
      ConsumerPopClosing(cfg, s, s'); ConsumerPopWakes(cfg, s, s');
    } else if ConsumerInWait(s.c) {
      ConsumerWaitLocks(cfg, s, s'); ConsumerWaitIndices(cfg, s, s');
      ConsumerWaitCounts(cfg, s, s');
      ConsumerWaitClosing(cfg, s, s'); ConsumerWaitWakes(cfg, s, s');
    } else {
      ConsumerNotifyLocks(cfg, s, s'); ConsumerNotifyIndices(cfg, s, s');
      ConsumerNotifyCounts(cfg, s, s');
      ConsumerNotifyClosing(cfg, s, s'); ConsumerNotifyWakes(cfg, s, s');
    }
  }

  lemma ConsumerKeepsSlots<T>(cfg: Config, s: State<T>, s': State<T>)
    requires ValidConfig(cfg) && Indices(cfg, s) && Slots(cfg, s)
    requires s' == ConsumerStep(cfg, s) && Indices(cfg, s')
    ensures Slots(cfg, s')
  {
    if s.c.CTake? {
      SlotsAfterTake(cfg, s, s');
    } else if s.c.CPublish? {
      SlotsAfterPublish(cfg, s, s');
    } else {
      SlotsUntouched(cfg, s, s');
    }
  }

  lemma CloserKeepsInv<T>(cfg: Config, s: State<T>, k: nat, s': State<T>)
    requires Inv(cfg, s) && (s' == CloserStep(s, k) || s' == BeginClose(s, k))
    ensures Inv(cfg, s')
  {
    CloserLocks(cfg, s, k, s');
    CloserIndices(cfg, s, k, s');
    CloserCounts(cfg, s, k, s');
    CloserClosing(cfg, s, k, s');
    CloserWakes(cfg, s, k, s');
    CloserCloseWakes(cfg, s, k, s');
    SlotsUntouched(cfg, s, s');
  }

  /** A call begins, or a parked thread wakes for no reason. */
  lemma StartKeepsInv<T>(cfg: Config, s: State<T>, step: Step<T>)
    requires Inv(cfg, s)
    requires step.StartPush? || step.StartPop? || step.ProducerSpuriousWake? || step.ConsumerSpuriousWake?
    ensures Inv(cfg, Next(cfg, s, step))
  {
    SlotsUntouched(cfg, s, Next(cfg, s, step));
  }

  lemma StepKeepsInv<T>(cfg: Config, s: State<T>, step: Step<T>)
    requires Inv(cfg, s)
    ensures Inv(cfg, Next(cfg, s, step))
  {
    var s' := Next(cfg, s, step);
    match step
    case ProducerMoves => ProducerKeepsCore(cfg, s, s'); ProducerKeepsSlots(cfg, s, s');
    case ConsumerMoves => ConsumerKeepsCore(cfg, s, s'); ConsumerKeepsSlots(cfg, s, s');
    case StartClose(k) => CloserKeepsInv(cfg, s, k, s');
    case CloserMoves(k) => CloserKeepsInv(cfg, s, k, s');
    case _ => StartKeepsInv(cfg, s, step);
  }

  lemma {:induction false} RunFromKeepsInv<T>(cfg: Config, s: State<T>, steps: seq<Step<T>>)
    requires Inv(cfg, s)
    ensures Inv(cfg, RunFrom(cfg, s, steps))
    decreases |steps|
  {
    if steps != [] {
      StepKeepsInv(cfg, s, steps[0]);
      RunFromKeepsInv(cfg, Next(cfg, s, steps[0]), steps[1..]);
    }
  }

  /** The invariant holds in the final state of every run, so in every reachable state. */
  lemma RunInvariant<T>(cfg: Config, steps: seq<Step<T>>)
    requires ValidConfig(cfg)
    ensures Inv(cfg, Run(cfg, steps))
  {
    var s: State<T> := Init(cfg);
    forall j: nat | j < cfg.size
      ensures ReadSlot(s.ring.slots, SlotOf(j, cfg.size)) == None
    {
      WindowWraps(j, cfg.size);
    }
    RunFromKeepsInv(cfg, s, steps);
  }
}
