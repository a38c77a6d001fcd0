/** src/core/event_bus.cpp as steps of any number of threads. A step is one critical section or
    one change of a thread's own execution stack; handlers may publish, subscribe and unsubscribe. */
module EventBusModel {
  type Id = nat

  datatype Subscriber = Subscriber(running: int, removed: bool)

  /** A call in progress: publish at its loop, before the push on t_executing, in the handler, after
      the pop; unsubscribe after the erase, then waiting for calls in flight. */
  datatype Frame =
    | Looping(todo: seq<Id>)
    | Entered(id: Id, todo: seq<Id>)
    | Running(id: Id, todo: seq<Id>)
    | Leaving(id: Id, todo: seq<Id>)
    | Removing(id: Id)
    | Waiting(id: Id)

  /** The calls a thread is in, innermost first, and its t_executing, last entry first. */
  datatype Thread = Thread(stack: seq<Frame>, executing: seq<Id>)

  /** What the bus mutex guards. */
  datatype Registry = Registry(lists: map<nat, seq<Id>>, types: map<Id, nat>, next: Id)

  /** gone is recorded for the proofs: the subscriptions whose removal has returned to a caller
      outside their own handler. */
  datatype Bus = Bus(registry: Registry, subs: map<Id, Subscriber>, threads: seq<Thread>, gone: set<Id>)

  function Init(threads: nat): Bus {
    Bus(Registry(map[], map[], 1), map[], seq(threads, _ => Thread([], [])), {})
  }

  /** Calls are made by a thread that is in no call or by a handler. */
  predicate CanCall(t: Thread) {
    t.stack == [] || t.stack[0].Running?
  }

  function Listed(r: Registry, ty: nat): seq<Id> {
    if ty in r.lists then r.lists[ty] else []
  }

  function Without(ids: seq<Id>, id: Id): seq<Id> {
    if ids == [] then [] else if ids[0] == id then ids[1..] else [ids[0]] + Without(ids[1..], id)
  }

  function Subscribed(b: Bus, ty: nat): Bus {
    var id := b.registry.next;
    b.(registry := Registry(b.registry.lists[ty := Listed(b.registry, ty) + [id]],
                            b.registry.types[id := ty], id + 1),
       subs := b.subs[id := Subscriber(0, false)])
  }

  function Push(t: Thread, f: Frame): Thread {
    t.(stack := [f] + t.stack)
  }

  function Pop(t: Thread): Thread
    requires t.stack != []
  {
    t.(stack := t.stack[1..])
  }

  function Top(t: Thread, f: Frame): Thread
    requires t.stack != []
  {
    t.(stack := [f] + t.stack[1..])
  }

  function SetThread(b: Bus, i: nat, t: Thread): Bus
    requires i < |b.threads|
  {
    b.(threads := b.threads[i := t])
  }

  /** The first critical section of unsubscribe; a second call for the same id returns at once. */
  function Erased(b: Bus, i: nat, id: Id): Bus
    requires i < |b.threads|
  {
    if id !in b.registry.types then b
    else
      var ty := b.registry.types[id];
      var ids := Listed(b.registry, ty);
      var r := b.registry.(lists := b.registry.lists[ty := Without(ids, id)],
                           types := b.registry.types - {id});
      var c := b.(registry := r);
      if id in ids then SetThread(c, i, Push(c.threads[i], Removing(id))) else c
  }

  function SetSub(b: Bus, id: Id, s: Subscriber): Bus {
    b.(subs := b.subs[id := s])
  }

  /** publish, one step further; todo is what is left of the copied list. */
  function Loop(b: Bus, i: nat, todo: seq<Id>): Bus
    requires i < |b.threads| && b.threads[i].stack != []
  {
    var t := b.threads[i];
    if todo == [] then SetThread(b, i, Pop(t))
    else if todo[0] !in b.subs || b.subs[todo[0]].removed then SetThread(b, i, Top(t, Looping(todo[1..])))
    else
      var s := b.subs[todo[0]];
      SetThread(SetSub(b, todo[0], s.(running := s.running + 1)), i, Top(t, Entered(todo[0], todo[1..])))
  }

  function Leave(b: Bus, i: nat, id: Id, todo: seq<Id>): Bus
    requires i < |b.threads| && b.threads[i].stack != []
  {
    if id !in b.subs then b
    else
      var s := b.subs[id];
      SetThread(SetSub(b, id, s.(running := s.running - 1)), i, Top(b.threads[i], Looping(todo)))
  }

  /** The second part of unsubscribe: stop new calls, and wait unless inside the own handler. */
  function Remove(b: Bus, i: nat, id: Id): Bus
    requires i < |b.threads| && b.threads[i].stack != []
  {
    if id !in b.subs then b
    else
      var t := b.threads[i];
      var c := SetSub(b, id, b.subs[id].(removed := true));
      if id in t.executing then SetThread(c, i, Pop(t)) else SetThread(c, i, Top(t, Waiting(id)))
  }

  function Await(b: Bus, i: nat, id: Id): Bus
    requires i < |b.threads| && b.threads[i].stack != []
  {
    if id in b.subs && b.subs[id].running == 0
    then SetThread(b, i, Pop(b.threads[i])).(gone := b.gone + {id})
    else b
  }

  /** A handler that returns goes on with the list; one that throws abandons it. */
  function Return(t: Thread, id: Id, todo: seq<Id>): Thread
    requires t.stack != []
  {
    Top(t, Leaving(id, todo)).(executing := if t.executing == [] then [] else t.executing[1..])
  }

  function Enter(t: Thread, id: Id, todo: seq<Id>): Thread
    requires t.stack != []
  {
    Top(t, Running(id, todo)).(executing := [id] + t.executing)
  }

  datatype Action =
    | Subscribe(i: nat, ty: nat)
    | Publish(i: nat, ty: nat)
    | Unsubscribe(i: nat, id: Id)
    | Throw(i: nat)
    | Advance(i: nat)

  function Proceed(b: Bus, i: nat): Bus
    requires i < |b.threads| && b.threads[i].stack != []
  {
    var t := b.threads[i];
    match t.stack[0]
    case Looping(todo) => Loop(b, i, todo)
    case Entered(id, todo) => SetThread(b, i, Enter(t, id, todo))
    case Running(id, todo) => SetThread(b, i, Return(t, id, todo))
    case Leaving(id, todo) => Leave(b, i, id, todo)
    case Removing(id) => Remove(b, i, id)
    case Waiting(id) => Await(b, i, id)
  }

  /** An action that a thread cannot take changes nothing. */
  function Next(b: Bus, a: Action): Bus {
    if a.i >= |b.threads| then b
    else
      var t := b.threads[a.i];
      match a
      case Subscribe(i, ty) => if CanCall(t) then Subscribed(b, ty) else b
      case Publish(i, ty) =>
        if CanCall(t) && ty in b.registry.lists
        then SetThread(b, i, Push(t, Looping(b.registry.lists[ty]))) else b
      case Unsubscribe(i, id) => if CanCall(t) then Erased(b, i, id) else b
      case Throw(i) =>
        if t.stack != [] && t.stack[0].Running?
        then SetThread(b, i, Return(t, t.stack[0].id, [])) else b
      case Advance(i) => if t.stack != [] then Proceed(b, i) else b
  }

  function Run(b: Bus, actions: seq<Action>): Bus
    decreases |actions|
  {
    if actions == [] then b else Run(Next(b, actions[0]), actions[1..])
  }
}

module EventBusProofs {
  import opened EventBusModel

  // ---- calls in flight --------------------------------------------------------------------------

  /** f is a call of id's handler that has been counted and not yet discounted. */
  predicate InFlight(f: Frame, id: Id) {
    (f.Entered? || f.Running? || f.Leaving?) && f.id == id
  }

  function InStack(stack: seq<Frame>, id: Id): nat {
    if stack == [] then 0
    else (if InFlight(stack[0], id) then 1 else 0) + InStack(stack[1..], id)
  }

  function Total(threads: seq<Thread>, id: Id): nat {
    if threads == [] then 0 else InStack(threads[0].stack, id) + Total(threads[1..], id)
  }

  lemma {:induction false} TotalUpdate(threads: seq<Thread>, i: nat, t: Thread, id: Id)
    requires i < |threads|
    ensures Total(threads[i := t], id) + InStack(threads[i].stack, id)
            == Total(threads, id) + InStack(t.stack, id)
    decreases |threads|
  {
    if i == 0 {
      assert threads[0 := t][1..] == threads[1..];
    } else {
      assert threads[i := t][1..] == threads[1..][i - 1 := t];
      TotalUpdate(threads[1..], i - 1, t, id);
    }
  }

  lemma {:induction false} TotalCovers(threads: seq<Thread>, i: nat, id: Id)
    requires i < |threads|
    ensures InStack(threads[i].stack, id) <= Total(threads, id)
    decreases |threads|
  {
    if i > 0 {
      TotalCovers(threads[1..], i - 1, id);
    }
  }

  lemma {:induction false} StackCovers(stack: seq<Frame>, k: nat, id: Id)
    requires k < |stack| && InFlight(stack[k], id)
    ensures InStack(stack, id) >= 1
    decreases k
  {
    if k > 0 {
      StackCovers(stack[1..], k - 1, id);
    }
  }

  // ---- the invariant ------------------------------------------------------------------------------

  predicate AllIn(ids: seq<Id>, b: Bus) {
    forall k :: 0 <= k < |ids| ==> ids[k] in b.subs
  }

  /** The subscribers a call refers to exist, and one that is waited for takes no new calls. */
  predicate FrameInv(f: Frame, b: Bus) {
    match f
    case Looping(todo) => AllIn(todo, b)
    case Entered(id, todo) => id in b.subs && AllIn(todo, b)
    case Running(id, todo) => id in b.subs && AllIn(todo, b)
    case Leaving(id, todo) => id in b.subs && AllIn(todo, b)
    case Removing(id) => id in b.subs
    case Waiting(id) => id in b.subs && b.subs[id].removed
  }

  predicate StackInv(stack: seq<Frame>, b: Bus) {
    forall k :: 0 <= k < |stack| ==> FrameInv(stack[k], b)
  }

  function Handlers(stack: seq<Frame>): seq<Id> {
    if stack == [] then []
    else (if stack[0].Running? then [stack[0].id] else []) + Handlers(stack[1..])
  }

  /** Only the innermost call is outside a handler, t_executing names the handlers, and no thread
      waits for a handler it is in. */
  predicate NestInv(t: Thread) {
    && (forall k :: 1 <= k < |t.stack| ==> t.stack[k].Running?)
    && t.executing == Handlers(t.stack)
    && (t.stack != [] && t.stack[0].Waiting? ==> t.stack[0].id !in t.executing)
  }

  predicate RegistryInv(b: Bus) {
    && (forall ty :: ty in b.registry.lists ==> AllIn(b.registry.lists[ty], b))
    && (forall id :: id in b.subs ==> id < b.registry.next)
  }

  predicate ThreadsInv(b: Bus) {
    forall i :: 0 <= i < |b.threads| ==> StackInv(b.threads[i].stack, b) && NestInv(b.threads[i])
  }

  ghost predicate Counted(b: Bus) {
    forall id :: id in b.subs ==> b.subs[id].running == Total(b.threads, id)
  }

  ghost predicate GoneInv(b: Bus) {
    forall id :: id in b.gone ==> id in b.subs && b.subs[id].removed && Total(b.threads, id) == 0
  }

  ghost predicate Inv(b: Bus) {
    RegistryInv(b) && ThreadsInv(b) && Counted(b) && GoneInv(b)
  }

  // ---- one thread changes ---------------------------------------------------------------------------

  lemma ConsStack(f: Frame, rest: seq<Frame>, id: Id)
    ensures InStack([f] + rest, id) == (if InFlight(f, id) then 1 else 0) + InStack(rest, id)
    ensures Handlers([f] + rest) == (if f.Running? then [f.id] else []) + Handlers(rest)
  {
    assert ([f] + rest)[1..] == rest;
  }

  /** Subscribers stay, and removed ones stay removed. */
  predicate Grows(b: Bus, c: Bus) {
    forall id :: id in b.subs ==> id in c.subs && (b.subs[id].removed ==> c.subs[id].removed)
  }

  lemma FrameStays(f: Frame, b: Bus, c: Bus)
    requires FrameInv(f, b) && Grows(b, c)
    ensures FrameInv(f, c)
  {
  }

  lemma StacksStay(b: Bus, c: Bus, i: nat, t: Thread)
    requires ThreadsInv(b) && Grows(b, c) && i < |b.threads| && c.threads == b.threads[i := t]
    requires StackInv(t.stack, c) && NestInv(t)
    ensures ThreadsInv(c)
  {
    forall j | 0 <= j < |c.threads|
      ensures StackInv(c.threads[j].stack, c) && NestInv(c.threads[j])
    {
      if j != i {
        assert StackInv(b.threads[j].stack, b);
        StackStays(b.threads[j].stack, b, c);
      }
    }
  }

  lemma StackStays(stack: seq<Frame>, b: Bus, c: Bus)
    requires StackInv(stack, b) && Grows(b, c)
    ensures StackInv(stack, c)
  {
    forall k | 0 <= k < |stack|
      ensures FrameInv(stack[k], c)
    {
      FrameStays(stack[k], b, c);
    }
  }

  /** The change of id's count is the change of the calls in flight on the thread that moved. */
  ghost predicate Balanced(b: Bus, c: Bus, i: nat, t: Thread, id: Id)
    requires i < |b.threads|
  {
    && id in b.subs && id in c.subs
    && c.subs[id].running + InStack(b.threads[i].stack, id) == b.subs[id].running + InStack(t.stack, id)
    && (id in c.gone ==> c.subs[id].removed && c.subs[id].running == 0)
  }

  lemma CountsStay(b: Bus, c: Bus, i: nat, t: Thread)
    requires Counted(b) && i < |b.threads| && c.threads == b.threads[i := t]
    requires c.gone <= c.subs.Keys && forall id :: id in c.subs ==> Balanced(b, c, i, t, id)
    ensures Counted(c) && GoneInv(c)
  {
    forall id | id in c.subs
      ensures c.subs[id].running == Total(c.threads, id)
    {
      assert Balanced(b, c, i, t, id);
      TotalUpdate(b.threads, i, t, id);
    }
    assert forall id :: id in c.gone ==> Balanced(b, c, i, t, id);
  }

  /** A step of one thread that leaves the registry alone. */
  lemma ThreadStep(b: Bus, c: Bus, i: nat, t: Thread)
    requires Inv(b) && i < |b.threads| && c.threads == b.threads[i := t]
    requires c.registry == b.registry && c.subs.Keys == b.subs.Keys && Grows(b, c)
    requires StackInv(t.stack, c) && NestInv(t) && c.gone <= c.subs.Keys
    requires forall id :: id in c.subs ==> Balanced(b, c, i, t, id)
    ensures Inv(c)
  {
    StacksStay(b, c, i, t);
    CountsStay(b, c, i, t);
  }

  /** Where the old and the new frame on top count the same. */
  lemma QuietStep(b: Bus, i: nat, t: Thread)
    requires Inv(b) && i < |b.threads| && StackInv(t.stack, b) && NestInv(t)
    requires forall id :: id in b.subs ==> InStack(t.stack, id) == InStack(b.threads[i].stack, id)
    ensures Inv(SetThread(b, i, t))
  {
    forall id | id in b.subs
      ensures Balanced(b, SetThread(b, i, t), i, t, id)
    {
      assert Counted(b) && GoneInv(b);
    }
    ThreadStep(b, SetThread(b, i, t), i, t);
  }

  // ---- each step --------------------------------------------------------------------------------------

  lemma TopParts(t: Thread, b: Bus, id: Id)
    requires t.stack != [] && StackInv(t.stack, b) && NestInv(t)
    ensures FrameInv(t.stack[0], b) && StackInv(t.stack[1..], b)
    ensures forall k :: 0 <= k < |t.stack[1..]| ==> t.stack[1..][k].Running?
    ensures InStack(t.stack, id) == (if InFlight(t.stack[0], id) then 1 else 0) + InStack(t.stack[1..], id)
    ensures t.executing == (if t.stack[0].Running? then [t.stack[0].id] else []) + Handlers(t.stack[1..])
  {
  }

  lemma NewTop(f: Frame, rest: seq<Frame>, b: Bus, executing: seq<Id>)
    requires FrameInv(f, b) && StackInv(rest, b)
    requires forall k :: 0 <= k < |rest| ==> rest[k].Running?
    requires executing == (if f.Running? then [f.id] else []) + Handlers(rest)
    requires f.Waiting? ==> f.id !in executing
    ensures StackInv([f] + rest, b) && NestInv(Thread([f] + rest, executing))
  {
    ConsStack(f, rest, 0);
    assert forall k :: 1 <= k < |[f] + rest| ==> ([f] + rest)[k] == rest[k - 1];
  }

  lemma PopInv(t: Thread, b: Bus)
    requires t.stack != [] && !t.stack[0].Running? && StackInv(t.stack, b) && NestInv(t)
    ensures StackInv(Pop(t).stack, b) && NestInv(Pop(t))
  {
    TopParts(t, b, 0);
  }

  lemma PushInv(t: Thread, f: Frame, b: Bus)
    requires CanCall(t) && (f.Looping? || f.Removing?) && FrameInv(f, b) && StackInv(t.stack, b) && NestInv(t)
    ensures StackInv(Push(t, f).stack, b) && NestInv(Push(t, f))
  {
    NewTop(f, t.stack, b, t.executing);
  }

  /** Every subscriber's calls in flight are balanced if only id's count moved, by delta. */
  lemma OneMoves(b: Bus, c: Bus, i: nat, t: Thread, id: Id, delta: int)
    requires Inv(b) && i < |b.threads| && id in b.subs && c.gone == b.gone
    requires exists s :: c.subs == b.subs[id := s] && s.running == b.subs[id].running + delta
                         && s.removed == b.subs[id].removed
    requires id in b.gone ==> delta == 0
    requires forall x :: InStack(t.stack, x) == InStack(b.threads[i].stack, x) + if x == id then delta else 0
    ensures forall x :: x in c.subs ==> Balanced(b, c, i, t, x)
  {
    forall x | x in c.subs
      ensures Balanced(b, c, i, t, x)
    {
      assert Counted(b) && GoneInv(b);
    }
  }

  lemma EnterKeeps(b: Bus, i: nat)
    requires Inv(b) && i < |b.threads| && b.threads[i].stack != [] && b.threads[i].stack[0].Entered?
    ensures Inv(Proceed(b, i))
  {
    var t := b.threads[i];
    var f, rest := Running(t.stack[0].id, t.stack[0].todo), t.stack[1..];
    TopParts(t, b, 0);
    NewTop(f, rest, b, [f.id] + t.executing);
    forall id
      ensures InStack([f] + rest, id) == InStack(t.stack, id)
    {
      ConsStack(f, rest, id);
    }
    QuietStep(b, i, Enter(t, f.id, f.todo));
  }

  lemma ReturnKeeps(b: Bus, i: nat, todo: seq<Id>)
    requires Inv(b) && i < |b.threads| && b.threads[i].stack != [] && b.threads[i].stack[0].Running?
    requires AllIn(todo, b)
    ensures Inv(SetThread(b, i, Return(b.threads[i], b.threads[i].stack[0].id, todo)))
  {
    var t := b.threads[i];
    var f, rest := Leaving(t.stack[0].id, todo), t.stack[1..];
    TopParts(t, b, 0);
    NewTop(f, rest, b, t.executing[1..]);
    forall id
      ensures InStack([f] + rest, id) == InStack(t.stack, id)
    {
      ConsStack(f, rest, id);
    }
    QuietStep(b, i, Return(t, f.id, todo));
  }

  lemma LeaveKeeps(b: Bus, i: nat)
    requires Inv(b) && i < |b.threads| && b.threads[i].stack != [] && b.threads[i].stack[0].Leaving?
    ensures Inv(Proceed(b, i))
  {
    var t, c := b.threads[i], Proceed(b, i);
    var f, rest, id := Looping(t.stack[0].todo), t.stack[1..], t.stack[0].id;
    TopParts(t, b, id);
    NewTop(f, rest, b, t.executing);
    StackStays([f] + rest, b, c);
    forall x
      ensures InStack([f] + rest, x) == InStack(t.stack, x) + if x == id then -1 else 0
    {
      ConsStack(f, rest, x);
    }
    TotalCovers(b.threads, i, id);
    assert id !in b.gone;
    OneMoves(b, c, i, Top(t, f), id, -1);
    ThreadStep(b, c, i, Top(t, f));
  }

  lemma LoopKeeps(b: Bus, i: nat)
    requires Inv(b) && i < |b.threads| && b.threads[i].stack != [] && b.threads[i].stack[0].Looping?
    ensures Inv(Proceed(b, i))
  {
    var t := b.threads[i];
    var todo := t.stack[0].todo;
    TopParts(t, b, 0);
    if todo == [] {
      PopInv(t, b);
      QuietStep(b, i, Pop(t));
    } else if b.subs[todo[0]].removed {
      SkipKeeps(b, i);
    } else {
      CallKeeps(b, i);
    }
  }

  lemma SkipKeeps(b: Bus, i: nat)
    requires Inv(b) && i < |b.threads| && b.threads[i].stack != [] && b.threads[i].stack[0].Looping?
    requires b.threads[i].stack[0].todo != []
    ensures Inv(SetThread(b, i, Top(b.threads[i], Looping(b.threads[i].stack[0].todo[1..]))))
  {
    var t := b.threads[i];
    var f, rest := Looping(t.stack[0].todo[1..]), t.stack[1..];
    TopParts(t, b, 0);
    NewTop(f, rest, b, t.executing);
    forall id
      ensures InStack([f] + rest, id) == InStack(t.stack, id)
    {
      ConsStack(f, rest, id);
    }
    QuietStep(b, i, Top(t, f));
  }

  lemma CallKeeps(b: Bus, i: nat)
    requires Inv(b) && i < |b.threads| && b.threads[i].stack != [] && b.threads[i].stack[0].Looping?
    requires var todo := b.threads[i].stack[0].todo;
             todo != [] && todo[0] in b.subs && !b.subs[todo[0]].removed
    ensures Inv(Proceed(b, i))
  {
    var t, c := b.threads[i], Proceed(b, i);
    var todo, rest := t.stack[0].todo, t.stack[1..];
    var f, id := Entered(todo[0], todo[1..]), todo[0];
    TopParts(t, b, id);
    NewTop(f, rest, b, t.executing);
    StackStays([f] + rest, b, c);
    forall x
      ensures InStack([f] + rest, x) == InStack(t.stack, x) + if x == id then 1 else 0
    {
      ConsStack(f, rest, x);
    }
    OneMoves(b, c, i, Top(t, f), id, 1);
    ThreadStep(b, c, i, Top(t, f));
  }

  lemma RemoveKeeps(b: Bus, i: nat)
    requires Inv(b) && i < |b.threads| && b.threads[i].stack != [] && b.threads[i].stack[0].Removing?
    ensures Inv(Proceed(b, i))
  {
    var t, c := b.threads[i], Proceed(b, i);
    var id, rest := t.stack[0].id, t.stack[1..];
    var t' := c.threads[i];
    TopParts(t, b, id);
    StackStays(rest, b, c);
    if id in t.executing {
      PopInv(t, b);
    } else {
      NewTop(Waiting(id), rest, c, t.executing);
    }
    forall x
      ensures InStack(t'.stack, x) == InStack(t.stack, x)
    {
      ConsStack(Waiting(id), rest, x);
    }
    forall x | x in c.subs
      ensures Balanced(b, c, i, t', x)
    {
      assert Counted(b) && GoneInv(b);
    }
    ThreadStep(b, c, i, t');
  }

  lemma AwaitKeeps(b: Bus, i: nat)
    requires Inv(b) && i < |b.threads| && b.threads[i].stack != [] && b.threads[i].stack[0].Waiting?
    ensures Inv(Proceed(b, i))
  {
    var t, c := b.threads[i], Proceed(b, i);
    var id := t.stack[0].id;
    TopParts(t, b, id);
    if b.subs[id].running == 0 {
      PopInv(t, b);
      forall x | x in c.subs
        ensures Balanced(b, c, i, Pop(t), x)
      {
        assert Counted(b) && GoneInv(b);
      }
      ThreadStep(b, c, i, Pop(t));
    }
  }

  lemma PublishKeeps(b: Bus, i: nat, f: Frame)
    requires Inv(b) && i < |b.threads| && CanCall(b.threads[i]) && FrameInv(f, b)
    requires f.Looping? || f.Removing?
    ensures Inv(SetThread(b, i, Push(b.threads[i], f)))
  {
    var t := b.threads[i];
    PushInv(t, f, b);
    forall id
      ensures InStack([f] + t.stack, id) == InStack(t.stack, id)
    {
      ConsStack(f, t.stack, id);
    }
    QuietStep(b, i, Push(t, f));
  }

  /** Only the registry changes, and no known subscriber. */
  lemma RegistryStep(b: Bus, r: Registry)
    requires Inv(b) && RegistryInv(b.(registry := r))
    ensures Inv(b.(registry := r))
  {
    var c := b.(registry := r);
    forall i | 0 <= i < |c.threads|
      ensures StackInv(c.threads[i].stack, c) && NestInv(c.threads[i])
    {
      assert StackInv(b.threads[i].stack, b);
      StackStays(b.threads[i].stack, b, c);
    }
  }

  lemma {:induction false} WithoutIsPart(ids: seq<Id>, id: Id, b: Bus)
    requires AllIn(ids, b)
    ensures AllIn(Without(ids, id), b)
    decreases |ids|
  {
    if ids != [] && ids[0] != id {
      WithoutIsPart(ids[1..], id, b);
    }
  }

  lemma EraseKeeps(b: Bus, i: nat, id: Id)
    requires Inv(b) && i < |b.threads| && CanCall(b.threads[i])
    ensures Inv(Erased(b, i, id))
  {
    if id in b.registry.types {
      var ty := b.registry.types[id];
      var ids := Listed(b.registry, ty);
      var r := b.registry.(lists := b.registry.lists[ty := Without(ids, id)],
                           types := b.registry.types - {id});
      assert AllIn(ids, b);
      WithoutIsPart(ids, id, b);
      RegistryStep(b, r);
      if id in ids {
        PublishKeeps(b.(registry := r), i, Removing(id));
      }
    }
  }

  lemma {:induction false} UnknownInStack(stack: seq<Frame>, b: Bus, id: Id)
    requires StackInv(stack, b) && id !in b.subs
    ensures InStack(stack, id) == 0
    decreases |stack|
  {
    if stack != [] {
      assert FrameInv(stack[0], b);
      UnknownInStack(stack[1..], b, id);
    }
  }

  lemma {:induction false} UnknownTotal(threads: seq<Thread>, b: Bus, id: Id)
    requires id !in b.subs && forall i :: 0 <= i < |threads| ==> StackInv(threads[i].stack, b)
    ensures Total(threads, id) == 0
    decreases |threads|
  {
    if threads != [] {
      UnknownInStack(threads[0].stack, b, id);
      UnknownTotal(threads[1..], b, id);
    }
  }

  lemma SubscribeKeeps(b: Bus, ty: nat)
    requires Inv(b)
    ensures Inv(Subscribed(b, ty))
  {
    var c := Subscribed(b, ty);
    UnknownTotal(b.threads, b, b.registry.next);
    forall i | 0 <= i < |c.threads|
      ensures StackInv(c.threads[i].stack, c) && NestInv(c.threads[i])
    {
      assert StackInv(b.threads[i].stack, b);
      StackStays(b.threads[i].stack, b, c);
    }
    assert AllIn(Listed(b.registry, ty), b);
    assert Counted(b) && GoneInv(b);
  }

  lemma ProceedKeeps(b: Bus, i: nat)
    requires Inv(b) && i < |b.threads| && b.threads[i].stack != []
    ensures Inv(Proceed(b, i))
  {
    var t := b.threads[i];
    match t.stack[0]
    case Looping(todo) => LoopKeeps(b, i);
    case Entered(id, todo) => EnterKeeps(b, i);
    case Running(id, todo) =>
      TopParts(t, b, id);
      ReturnKeeps(b, i, todo);
    case Leaving(id, todo) => LeaveKeeps(b, i);
    case Removing(id) => RemoveKeeps(b, i);
    case Waiting(id) => AwaitKeeps(b, i);
  }

  lemma NextKeeps(b: Bus, a: Action)
    requires Inv(b)
    ensures Inv(Next(b, a)) && b.gone <= Next(b, a).gone
  {
    if a.i < |b.threads| {
      var t := b.threads[a.i];
      match a
      case Subscribe(i, ty) => SubscribeKeeps(b, ty);
      case Publish(i, ty) =>
        if CanCall(t) && ty in b.registry.lists {
          PublishKeeps(b, i, Looping(b.registry.lists[ty]));
        }
      case Unsubscribe(i, id) =>
        if CanCall(t) {
          EraseKeeps(b, i, id);
        }
      case Throw(i) =>
        if t.stack != [] && t.stack[0].Running? {
          ReturnKeeps(b, i, []);
        }
      case Advance(i) =>
        if t.stack != [] {
          ProceedKeeps(b, i);
        }
    }
  }

  lemma {:induction false} RunKeeps(b: Bus, actions: seq<Action>)
    requires Inv(b)
    ensures Inv(Run(b, actions)) && b.gone <= Run(b, actions).gone
    decreases |actions|
  {
    if actions != [] {
      NextKeeps(b, actions[0]);
      RunKeeps(Next(b, actions[0]), actions[1..]);
    }
  }

  lemma InitInv(n: nat)
    ensures Inv(Init(n))
  {
    forall id: Id
      ensures Total(Init(n).threads, id) == 0
    {
      UnknownTotal(Init(n).threads, Init(n), id);
    }
  }
}

/** What the bus promises its callers. */
module EventBusTheorems {
  import opened EventBusModel
  import opened EventBusProofs

  /** Thread i is inside id's handler. */
  ghost predicate Inside(b: Bus, i: nat, id: Id) {
    i < |b.threads| && exists k :: 0 <= k < |b.threads[i].stack| && b.threads[i].stack[k].Running?
                                   && b.threads[i].stack[k].id == id
  }

  /** A call of id's handler is counted on thread i: about to start, running or just over. */
  ghost predicate Calling(b: Bus, i: nat, id: Id) {
    i < |b.threads| && exists k :: 0 <= k < |b.threads[i].stack| && InFlight(b.threads[i].stack[k], id)
  }

  /** Nobody calls id's handler, now or at any later time. */
  ghost predicate Promise(b: Bus, id: Id) {
    forall later: seq<Action>, i: nat :: !Calling(Run(b, later), i, id)
  }

  lemma GoneIsQuiet(b: Bus, i: nat, id: Id)
    requires Inv(b) && id in b.gone
    ensures !Calling(b, i, id)
  {
    assert Total(b.threads, id) == 0;
    if Calling(b, i, id) {
      var k :| 0 <= k < |b.threads[i].stack| && InFlight(b.threads[i].stack[k], id);
      TotalCovers(b.threads, i, id);
      StackCovers(b.threads[i].stack, k, id);
    }
  }

  /** Once the unsubscribe that removes a subscription has returned to a caller outside its handler,
      no thread calls that handler, then or at any later time. */
  lemma UnsubscribeIsSafe(n: nat, before: seq<Action>, later: seq<Action>, i: nat, id: Id)
    requires id in Run(Init(n), before).gone
    ensures !Calling(Run(Run(Init(n), before), later), i, id)
  {
    InitInv(n);
    RunKeeps(Init(n), before);
    RunKeeps(Run(Init(n), before), later);
    GoneIsQuiet(Run(Run(Init(n), before), later), i, id);
  }

  lemma GonePromises(b: Bus, id: Id)
    requires Inv(b) && id in b.gone
    ensures Promise(b, id)
  {
    forall later: seq<Action>, i: nat
      ensures !Calling(Run(b, later), i, id)
    {
      RunKeeps(b, later);
      GoneIsQuiet(Run(b, later), i, id);
    }
  }

  lemma CallingBreaksPromise(b: Bus, i: nat, id: Id)
    requires Calling(b, i, id)
    ensures !Promise(b, id)
  {
    assert Run(b, []) == b && Calling(Run(b, []), i, id);
  }

  /** The removing call returns with the promise kept exactly if it was made outside the handler, and
      from inside it returns at once. */
  lemma RemovalReturns(b: Bus, i: nat)
    requires Inv(b) && i < |b.threads| && b.threads[i].stack != []
    requires b.threads[i].stack[0].Removing? || b.threads[i].stack[0].Waiting?
    ensures var id, c := b.threads[i].stack[0].id, Next(b, Advance(i));
            |c.threads[i].stack| < |b.threads[i].stack| ==> (Promise(c, id) <==> !Inside(b, i, id))
    ensures var id, c := b.threads[i].stack[0].id, Next(b, Advance(i));
            Inside(b, i, id) ==> |c.threads[i].stack| < |b.threads[i].stack|
  {
    var t, c := b.threads[i], Next(b, Advance(i));
    var id := t.stack[0].id;
    assert StackInv(t.stack, b) && NestInv(t);
    assert FrameInv(t.stack[0], b);
    HandlersInside(t.stack, id);
    NextKeeps(b, Advance(i));
    if |c.threads[i].stack| < |t.stack| {
      if Inside(b, i, id) {
        ReturnsIntoHandler(b, i, id);
        CallingBreaksPromise(c, i, id);
      } else {
        GonePromises(c, id);
      }
    }
  }

  /** The caller's own frame of the handler is still there after the return. */
  lemma ReturnsIntoHandler(b: Bus, i: nat, id: Id)
    requires Inside(b, i, id) && !b.threads[i].stack[0].Running?
    requires |Next(b, Advance(i)).threads[i].stack| < |b.threads[i].stack|
    requires b.threads[i].stack[0].Removing? || b.threads[i].stack[0].Waiting?
    ensures Calling(Next(b, Advance(i)), i, id)
  {
    var t, c := b.threads[i], Next(b, Advance(i));
    var k :| 0 <= k < |t.stack| && t.stack[k].Running? && t.stack[k].id == id;
    assert c.threads[i].stack == t.stack[1..];
    assert InFlight(c.threads[i].stack[k - 1], id);
  }

  lemma {:induction false} SomeStackCalls(threads: seq<Thread>, id: Id) returns (j: nat)
    requires Total(threads, id) > 0
    ensures j < |threads| && InStack(threads[j].stack, id) > 0
    decreases |threads|
  {
    if InStack(threads[0].stack, id) > 0 {
      j := 0;
    } else {
      var k := SomeStackCalls(threads[1..], id);
      j := k + 1;
    }
  }

  lemma {:induction false} SomeFrameCalls(stack: seq<Frame>, id: Id) returns (k: nat)
    requires InStack(stack, id) > 0
    ensures k < |stack| && InFlight(stack[k], id)
    decreases |stack|
  {
    if InFlight(stack[0], id) {
      k := 0;
    } else {
      var m := SomeFrameCalls(stack[1..], id);
      k := m + 1;
    }
  }

  /** A thread that waits in unsubscribe makes none of the calls it waits for: as long as it has to
      wait, another thread is in one of them. */
  lemma WaitsOnlyForOthers(n: nat, actions: seq<Action>, i: nat)
    requires var b := Run(Init(n), actions);
             i < |b.threads| && b.threads[i].stack != [] && b.threads[i].stack[0].Waiting?
    ensures var b := Run(Init(n), actions);
            !Calling(b, i, b.threads[i].stack[0].id)
    ensures var b := Run(Init(n), actions);
            Next(b, Advance(i)) == b ==> exists j :: j != i && Calling(b, j, b.threads[i].stack[0].id)
  {
    InitInv(n);
    RunKeeps(Init(n), actions);
    var b := Run(Init(n), actions);
    var t := b.threads[i];
    var id := t.stack[0].id;
    assert StackInv(t.stack, b) && NestInv(t) && FrameInv(t.stack[0], b);
    HandlersInside(t.stack, id);
    if b.subs[id].running != 0 {
      var j := SomeStackCalls(b.threads, id);
      var k := SomeFrameCalls(b.threads[j].stack, id);
      assert Calling(b, j, id);
    } else {
      AwaitReturns(b, i, id);
    }
  }

  lemma AwaitReturns(b: Bus, i: nat, id: Id)
    requires i < |b.threads| && b.threads[i].stack != [] && b.threads[i].stack[0] == Waiting(id)
    requires id in b.subs && b.subs[id].running == 0
    ensures Next(b, Advance(i)) != b
  {
    assert |Next(b, Advance(i)).threads[i].stack| < |b.threads[i].stack|;
  }

  /** Whenever a call is in flight somewhere, its subscriber counts it, and never fewer than none. */
  lemma RunningCountsCalls(n: nat, actions: seq<Action>, id: Id)
    requires id in Run(Init(n), actions).subs
    ensures var b := Run(Init(n), actions);
            b.subs[id].running == Total(b.threads, id)
  {
    InitInv(n);
    RunKeeps(Init(n), actions);
  }

  /** Thread 0 has subscribed and published, and is in the handler. */
  lemma HandlerRuns() returns (b: Bus)
    ensures b == Next(Next(Next(Next(Init(3), Subscribe(0, 7)), Publish(0, 7)), Advance(0)), Advance(0))
    ensures |b.threads| == 3 && b.threads[1] == b.threads[2] == Thread([], [])
    ensures b.threads[0].stack == [Running(1, [])]
    ensures b.registry.types == map[1 := 7] && Listed(b.registry, 7) == [1]
  {
    var t0 := Thread([], []);
    var b0 := Init(3);
    var b1 := Next(b0, Subscribe(0, 7));
    assert b0.threads == [t0, t0, t0] && [] + [1] == [1];
    assert b1.threads == [t0, t0, t0] && b1.registry.lists[7] == [1] && b1.registry.types == map[1 := 7];
    var b2 := Next(b1, Publish(0, 7));
    assert b2.threads[0] == Push(t0, Looping([1])) && b2.threads[0].stack == [Looping([1])];
    var b3 := Next(b2, Advance(0));
    assert b3 == Loop(b2, 0, [1]) && b3.threads[0] == Top(b2.threads[0], Entered(1, [1][1..]));
    assert [1][1..] == [] && b3.threads[0].stack == [Entered(1, [])] + [];
    b := Next(b3, Advance(0));
    assert b.threads[0].stack == [Running(1, [])] + b3.threads[0].stack[1..];
  }

  /** So a second unsubscribe can return while the handler runs: thread 0 is in the handler, thread 1
      has begun to remove it, and the call of thread 2 is over at once. */
  lemma SecondUnsubscribeReturnsEarly()
    ensures exists actions ::
              var b := Run(Init(3), actions);
              |b.threads| == 3 && Next(b, Unsubscribe(2, 1)) == b && CanCall(b.threads[2]) && Inside(b, 0, 1)
  {
    var b := HandlerRuns();
    var c := Next(b, Unsubscribe(1, 1));
    assert c == Erased(b, 1, 1) && 1 !in c.registry.types;
    assert c.threads[0].stack[0] == Running(1, []) && c.threads[2] == b.threads[2];
    RunFive(Init(3), Subscribe(0, 7), Publish(0, 7), Advance(0), Advance(0), Unsubscribe(1, 1));
    assert Run(Init(3), [Subscribe(0, 7), Publish(0, 7), Advance(0), Advance(0), Unsubscribe(1, 1)]) == c;
  }

  lemma RunHead(b: Bus, a: Action, rest: seq<Action>)
    ensures Run(b, [a] + rest) == Run(Next(b, a), rest)
  {
    assert ([a] + rest)[1..] == rest;
  }

  lemma RunFive(b: Bus, a: Action, a': Action, c: Action, c': Action, d: Action)
    ensures Run(b, [a, a', c, c', d]) == Next(Next(Next(Next(Next(b, a), a'), c), c'), d)
  {
    var b4 := Next(Next(Next(Next(b, a), a'), c), c');
    assert [a, a', c, c', d] == [a] + [a', c, c', d];
    RunHead(b, a, [a', c, c', d]);
    assert [a', c, c', d] == [a'] + [c, c', d];
    RunHead(Next(b, a), a', [c, c', d]);
    assert [c, c', d] == [c] + [c', d];
    RunHead(Next(Next(b, a), a'), c, [c', d]);
    assert [c', d] == [c'] + [d];
    RunHead(Next(Next(Next(b, a), a'), c), c', [d]);
    assert [d] == [d] + [];
    RunHead(b4, d, []);
  }

  lemma {:induction false} HandlersInside(stack: seq<Frame>, id: Id)
    ensures id in Handlers(stack) <==>
              exists k :: 0 <= k < |stack| && stack[k].Running? && stack[k].id == id
    decreases |stack|
  {
    if stack != [] {
      HandlersInside(stack[1..], id);
      assert forall k :: 1 <= k < |stack| ==> stack[k] == stack[1..][k - 1];
      assert forall k :: 0 <= k < |stack[1..]| ==> stack[1..][k] == stack[k + 1];
    }
  }
}
