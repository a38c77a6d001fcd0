/**
 * include/ssim/core/spsc_ring_queue.hpp as a step system.
 *
 * One producer, one consumer and any number of closers interleave; every step performs at most
 * one access to shared memory, under sequential consistency, except that a call which returns while
 * it holds the mutex releases it in the step of its last read.  A thread that must wait (for the
 * mutex, or parked on a condition variable) stays where it is.
 */
module SpscRing {
  import opened Common

  datatype Policy = Block | DropNewest

  datatype Config = Config(capacity: nat, size: nat, policy: Policy)

  predicate ValidConfig(cfg: Config) {
    1 <= cfg.capacity <= cfg.size
  }

  const SPIN_TRIES := 64

  datatype Owner = Producer | Consumer | Closer(id: nat)

  /** The call site of try_push: push, the spin loop, or the loop under the mutex. */
  datatype PushSite = First | Spin(n: nat) | Locked

  datatype ProducerPc<T> =
    | PIdle
    | PCheckClosed(item: T)
    | PTry(item: T, site: PushSite)
    | PWrite(item: T, site: PushSite)
    | PPublish(item: T, site: PushSite)
    | PDrop
    | PSpinClosed(item: T, n: nat)
    | PLock(item: T)
    | PSetFlag(item: T)
    | PSeeClosed(item: T)
    | PSeeSpace(item: T)
    | PPark(item: T)
    | PAsleep(item: T)
    | PWoken(item: T)
    | PClearFlag(item: T)
    | PRecheckClosed(item: T)
    | PUnlock
    | PWake
    | PWakeLock
    | PWakeUnlock
    | PNotify

  /** The call site of try_pop: the spin loop, or the loop under the mutex with was_closed. */
  datatype PopSite = Spinning(n: nat) | Holding(wasClosed: bool)

  datatype ConsumerPc<T> =
    | CIdle
    | CTry(site: PopSite)
    | CTake(site: PopSite)
    | CPublish(item: T, site: PopSite)
    | CLock
    | CReadClosed
    | CSetFlag
    | CSeeClosed
    | CSeeItem
    | CPark
    | CAsleep
    | CWoken
    | CClearFlag
    | CUnlock
    | CWake
    | CWakeLock
    | CWakeUnlock
    | CNotify

  datatype CloserPc = KStored | KLocked | KUnlocked | KNotifiedEmpty

  /** The ring proper: indices, cached indices, slots, and the items whose store has happened. */
  datatype Ring<T> = Ring(head: nat, tail: nat, cachedTail: nat, cachedHead: nat,
                          slots: seq<Option<T>>, accepted: seq<T>, popped: seq<T>)

  /** What the park/wake handshake shares. */
  datatype Sync = Sync(producerWaiting: bool, consumerWaiting: bool, closed: bool,
                       mutex: Option<Owner>)

  /**
   * Counters.  Besides dropped_: `offered` counts pushes that passed the first closed_ check,
   * `refused` those of them that found the queue closed later; `lateClose` says the closing store
   * met a producer past its last closed_ check outside the mutex, and `ended` that pop has returned
   * nullopt.
   */
  datatype Log = Log(dropped: nat, offered: nat, refused: nat, lateClose: bool, ended: bool)

  /** What the last push returned, and the item that pop has taken and returns, if any. */
  datatype Results<T> = Results(push: bool, pop: Option<T>)

  datatype State<T> = State(ring: Ring<T>, sync: Sync, log: Log, results: Results<T>,
                            p: ProducerPc<T>, c: ConsumerPc<T>, closers: map<nat, CloserPc>)

  function Init<T>(cfg: Config): State<T> {
    State(Ring(0, 0, 0, 0, seq(cfg.size, _ => None), [], []), Sync(false, false, false, None),
          Log(0, 0, 0, false, false), Results(false, None), PIdle, CIdle, map[])
  }

  /** `index & mask_`: size is a power of two, see MaskIsRemainder. */
  function SlotOf(index: nat, size: nat): nat {
    if size == 0 then 0 else index % size
  }

  function ReadSlot<T>(slots: seq<Option<T>>, slot: nat): Option<T> {
    if slot < |slots| then slots[slot] else None
  }

  function WriteSlot<T>(slots: seq<Option<T>>, slot: nat, value: Option<T>): seq<Option<T>> {
    if slot < |slots| then slots[slot := value] else slots
  }

  function Acquire<T>(s: State<T>, owner: Owner): State<T> {
    s.(sync := s.sync.(mutex := Some(owner)))
  }

  function Release<T>(s: State<T>): State<T> {
    s.(sync := s.sync.(mutex := None))
  }

  /** notify on not_empty_: the consumer is its only waiter. */
  function NotifyConsumer<T>(s: State<T>): State<T> {
    if s.c.CAsleep? then s.(c := CWoken) else s
  }

  /** notify on not_full_: the producer is its only waiter. */
  function NotifyProducer<T>(s: State<T>): State<T> {
    if s.p.PAsleep? then s.(p := PWoken(s.p.item)) else s
  }

  // ---- the producer -------------------------------------------------------------------------

  /** Where push continues when try_push finds the ring full. */
  function AfterFull<T>(cfg: Config, item: T, site: PushSite): ProducerPc<T> {
    match site
    case First => if cfg.policy == DropNewest then PDrop else PSpinClosed(item, 0)
    case Spin(n) => if n + 1 < SPIN_TRIES then PSpinClosed(item, n + 1) else PLock(item)
    case Locked => PSetFlag(item)
  }

  /** push returns. */
  function Return<T>(s: State<T>, result: bool): State<T> {
    s.(p := PIdle, results := s.results.(push := result))
  }

  /** One step of the producer; it stays where it is while it has to wait or is idle. */
  function ProducerStep<T>(cfg: Config, s: State<T>): State<T> {
    match s.p
    case PIdle => s
    case PCheckClosed(item) =>
      if s.sync.closed then Return(s, false)
      else s.(p := PTry(item, First), log := s.log.(offered := s.log.offered + 1))
    case PTry(item, site) =>
      if s.ring.head - s.ring.cachedTail < cfg.capacity then s.(p := PWrite(item, site))
      else
        s.(ring := s.ring.(cachedTail := s.ring.tail),
           p := if s.ring.head - s.ring.tail < cfg.capacity then PWrite(item, site)
                else AfterFull(cfg, item, site))
    case PWrite(item, site) =>
      var slots := WriteSlot(s.ring.slots, SlotOf(s.ring.head, cfg.size), Some(item));
      s.(ring := s.ring.(slots := slots), p := PPublish(item, site))
    case PPublish(item, site) =>
      s.(ring := s.ring.(head := s.ring.head + 1, accepted := s.ring.accepted + [item]),
         p := if site == Locked then PUnlock else PWake)
    case PDrop => Return(s.(log := s.log.(dropped := s.log.dropped + 1)), false)
    case PSpinClosed(item, n) =>
      if s.sync.closed then Return(s.(log := s.log.(refused := s.log.refused + 1)), false)
      else s.(p := PTry(item, Spin(n)))
    case PLock(item) => if s.sync.mutex == None then Acquire(s, Producer).(p := PSetFlag(item)) else s
    case PSetFlag(item) => s.(sync := s.sync.(producerWaiting := true), p := PSeeClosed(item))
    case PSeeClosed(item) => s.(p := if s.sync.closed then PClearFlag(item) else PSeeSpace(item))
    case PSeeSpace(item) =>
      s.(p := if s.ring.head - s.ring.tail < cfg.capacity then PClearFlag(item) else PPark(item))
    case PPark(item) => Release(s).(p := PAsleep(item))
    case PAsleep(_) => s
    case PWoken(item) =>
      if s.sync.mutex == None then Acquire(s, Producer).(p := PSeeClosed(item)) else s
    case PClearFlag(item) => s.(sync := s.sync.(producerWaiting := false), p := PRecheckClosed(item))
    case PRecheckClosed(item) =>
      if s.sync.closed then
        Return(Release(s).(log := s.log.(refused := s.log.refused + 1)), false)
      else s.(p := PTry(item, Locked))
    case PUnlock => Release(s).(p := PWake)
    case PWake => if s.sync.consumerWaiting then s.(p := PWakeLock) else Return(s, true)
    case PWakeLock => if s.sync.mutex == None then Acquire(s, Producer).(p := PWakeUnlock) else s
    case PWakeUnlock => Release(s).(p := PNotify)
    case PNotify => Return(NotifyConsumer(s), true)
  }

  // ---- the consumer -------------------------------------------------------------------------

  /** One step of the consumer; it stays where it is while it has to wait or is idle. */
  function ConsumerStep<T>(cfg: Config, s: State<T>): State<T> {
    match s.c
    case CIdle => s
    case CTry(site) =>
      if s.ring.tail != s.ring.cachedHead then s.(c := CTake(site))
      else
        var s1 := s.(ring := s.ring.(cachedHead := s.ring.head));
        if s.ring.tail != s.ring.head then s1.(c := CTake(site))
        else AfterEmpty(s1, site)
    case CTake(site) =>
      var slot := SlotOf(s.ring.tail, cfg.size);
      (match ReadSlot(s.ring.slots, slot)
       case None => s
       case Some(item) =>
         s.(ring := s.ring.(slots := WriteSlot(s.ring.slots, slot, None)),
            c := CPublish(item, site)))
    case CPublish(item, site) =>
      s.(ring := s.ring.(tail := s.ring.tail + 1, popped := s.ring.popped + [item]),
           results := s.results.(pop := Some(item)),
         c := if site.Holding? then CUnlock else CWake)
    case CLock => if s.sync.mutex == None then Acquire(s, Consumer).(c := CReadClosed) else s
    case CReadClosed => s.(c := CTry(Holding(s.sync.closed)))
    case CSetFlag => s.(sync := s.sync.(consumerWaiting := true), c := CSeeClosed)
    case CSeeClosed => s.(c := if s.sync.closed then CClearFlag else CSeeItem)
    case CSeeItem => s.(c := if s.ring.head != s.ring.tail then CClearFlag else CPark)
    case CPark => Release(s).(c := CAsleep)
    case CAsleep => s
    case CWoken => if s.sync.mutex == None then Acquire(s, Consumer).(c := CSeeClosed) else s
    case CClearFlag => s.(sync := s.sync.(consumerWaiting := false), c := CReadClosed)
    case CUnlock => Release(s).(c := CWake)
    case CWake => s.(c := if s.sync.producerWaiting then CWakeLock else CIdle)
    case CWakeLock => if s.sync.mutex == None then Acquire(s, Consumer).(c := CWakeUnlock) else s
    case CWakeUnlock => Release(s).(c := CNotify)
    case CNotify => NotifyProducer(s).(c := CIdle)
  }

  /** Where pop continues when try_pop finds the ring empty. */
  function AfterEmpty<T>(s: State<T>, site: PopSite): State<T> {
    match site
    case Spinning(n) => s.(c := if n + 1 < SPIN_TRIES then CTry(Spinning(n + 1)) else CLock)
    case Holding(wasClosed) =>
      if wasClosed then
        Release(s).(c := CIdle, log := s.log.(ended := true), results := s.results.(pop := None))
      else s.(c := CSetFlag)
  }

  // ---- the closers --------------------------------------------------------------------------

  /** The producer has read closed_ for the last time before publishing. */
  predicate PastLastCheck<T>(p: ProducerPc<T>) {
    p.PTry? || p.PWrite? || p.PPublish?
  }

  /** It did so outside the mutex, in push itself or in the spin loop. */
  predicate PastFreeCheck<T>(p: ProducerPc<T>) {
    PastLastCheck(p) && p.site != Locked
  }

  function BeginClose<T>(s: State<T>, k: nat): State<T> {
    if k in s.closers then s
    else
      var late := s.log.lateClose || (!s.sync.closed && PastFreeCheck(s.p));
      s.(sync := s.sync.(closed := true), closers := s.closers[k := KStored],
         log := s.log.(lateClose := late))
  }

  function CloserStep<T>(s: State<T>, k: nat): State<T> {
    if k !in s.closers then s
    else match s.closers[k]
      case KStored =>
        if s.sync.mutex == None then Acquire(s, Closer(k)).(closers := s.closers[k := KLocked])
        else s
      case KLocked => Release(s).(closers := s.closers[k := KUnlocked])
      case KUnlocked => NotifyConsumer(s).(closers := s.closers[k := KNotifiedEmpty])
      case KNotifiedEmpty => NotifyProducer(s).(closers := s.closers - {k})
  }

  // ---- runs ---------------------------------------------------------------------------------

  datatype Step<T> =
    | StartPush(item: T)
    | ProducerMoves
    | ProducerSpuriousWake
    | StartPop
    | ConsumerMoves
    | ConsumerSpuriousWake
    | StartClose(k: nat)
    | CloserMoves(k: nat)

  /** The state after one step; a step that cannot be taken leaves the state as it is. */
  function Next<T>(cfg: Config, s: State<T>, step: Step<T>): State<T> {
    match step
    case StartPush(item) => if s.p.PIdle? then s.(p := PCheckClosed(item)) else s
    case ProducerMoves => ProducerStep(cfg, s)
    case ProducerSpuriousWake => if s.p.PAsleep? then s.(p := PWoken(s.p.item)) else s
    case StartPop => if s.c.CIdle? then s.(c := CTry(Spinning(0))) else s
    case ConsumerMoves => ConsumerStep(cfg, s)
    case ConsumerSpuriousWake => if s.c.CAsleep? then s.(c := CWoken) else s
    case StartClose(k) => BeginClose(s, k)
    case CloserMoves(k) => CloserStep(s, k)
  }

  /** The state a run from s ends in. */
  function RunFrom<T>(cfg: Config, s: State<T>, steps: seq<Step<T>>): State<T>
    decreases |steps|
  {
    if steps == [] then s else RunFrom(cfg, Next(cfg, s, steps[0]), steps[1..])
  }

  function Run<T>(cfg: Config, steps: seq<Step<T>>): State<T> {
    RunFrom(cfg, Init(cfg), steps)
  }
}
