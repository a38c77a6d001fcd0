/** An unsubscribe of an id that is no longer registered returns without waiting. What it can promise
    depends on the calls in flight and on the copies of the subscriber list that publishers hold. */
module EventBusStale {
  import opened EventBusModel
  import opened EventBusProofs
  import opened EventBusTheorems

  // ---- what is listed is registered ---------------------------------------------------------------

  predicate Distinct(ids: seq<Id>) {
    ids == [] || (ids[0] !in ids[1..] && Distinct(ids[1..]))
  }

  lemma {:induction false} DistinctAppend(ids: seq<Id>, id: Id)
    requires Distinct(ids) && id !in ids
    ensures Distinct(ids + [id])
    decreases |ids|
  {
    if ids != [] {
      DistinctAppend(ids[1..], id);
      assert (ids + [id])[1..] == ids[1..] + [id];
    }
  }

  predicate ListOk(ids: seq<Id>, r: Registry, ty: nat) {
    Distinct(ids) && forall k :: 0 <= k < |ids| ==> ids[k] in r.types && r.types[ids[k]] == ty
  }

  predicate ListsInv(r: Registry) {
    && (forall ty :: ty in r.lists ==> ListOk(r.lists[ty], r, ty))
    && (forall id :: id in r.types ==> id < r.next)
  }

  lemma {:induction false} WithoutMembers(ids: seq<Id>, id: Id, x: Id)
    ensures x in Without(ids, id) ==> x in ids
    decreases |ids|
  {
    if ids != [] && ids[0] != id {
      WithoutMembers(ids[1..], id, x);
    }
  }

  lemma {:induction false} WithoutRemoves(ids: seq<Id>, id: Id)
    requires Distinct(ids)
    ensures Distinct(Without(ids, id)) && id !in Without(ids, id)
    decreases |ids|
  {
    if ids != [] && ids[0] != id {
      WithoutRemoves(ids[1..], id);
      WithoutMembers(ids[1..], id, ids[0]);
      assert Without(ids, id)[1..] == Without(ids[1..], id);
    }
  }

  lemma EraseKeepsLists(r: Registry, id: Id)
    requires ListsInv(r) && id in r.types
    ensures var ty := r.types[id];
            ListsInv(r.(lists := r.lists[ty := Without(Listed(r, ty), id)], types := r.types - {id}))
  {
    var ty := r.types[id];
    var ids := Listed(r, ty);
    assert ListOk(ids, r, ty);
    WithoutRemoves(ids, id);
    var r' := r.(lists := r.lists[ty := Without(ids, id)], types := r.types - {id});
    forall t | t in r'.lists
      ensures ListOk(r'.lists[t], r', t)
    {
      if t != ty {
        assert ListOk(r.lists[t], r, t);
      } else {
        forall k | 0 <= k < |r'.lists[ty]|
          ensures r'.lists[ty][k] in ids
        {
          WithoutMembers(ids, id, r'.lists[ty][k]);
        }
      }
    }
  }

  lemma SubscribeKeepsLists(b: Bus, ty: nat)
    requires ListsInv(b.registry)
    ensures ListsInv(Subscribed(b, ty).registry)
  {
    var r, r' := b.registry, Subscribed(b, ty).registry;
    assert ListOk(Listed(r, ty), r, ty);
    DistinctAppend(Listed(r, ty), r.next);
    forall t | t in r'.lists
      ensures ListOk(r'.lists[t], r', t)
    {
      if t != ty {
        assert ListOk(r.lists[t], r, t);
      }
    }
  }

  lemma ProceedLeavesRegistry(b: Bus, i: nat)
    requires i < |b.threads| && b.threads[i].stack != []
    ensures Proceed(b, i).registry == b.registry
  {
  }

  lemma NextKeepsLists(b: Bus, a: Action)
    requires ListsInv(b.registry)
    ensures ListsInv(Next(b, a).registry)
  {
    if a.i < |b.threads| {
      match a
      case Subscribe(i, ty) => SubscribeKeepsLists(b, ty);
      case Publish(i, ty) =>
      case Unsubscribe(i, id) =>
        if id in b.registry.types {
          EraseKeepsLists(b.registry, id);
        }
      case Throw(i) =>
      case Advance(i) =>
        if b.threads[i].stack != [] {
          ProceedLeavesRegistry(b, i);
        }
    }
  }

  ghost predicate Sound(b: Bus) {
    Inv(b) && ListsInv(b.registry)
  }

  lemma {:induction false} RunIsSound(b: Bus, actions: seq<Action>)
    requires Sound(b)
    ensures Sound(Run(b, actions))
    decreases |actions|
  {
    if actions != [] {
      NextKeeps(b, actions[0]);
      NextKeepsLists(b, actions[0]);
      RunIsSound(Next(b, actions[0]), actions[1..]);
    }
  }

  // ---- stale lists ----------------------------------------------------------------------------------

  /** The subscribers a publish call has still to visit. */
  function Todo(f: Frame): seq<Id> {
    match f
    case Looping(todo) => todo
    case Entered(_, todo) => todo
    case Running(_, todo) => todo
    case Leaving(_, todo) => todo
    case Removing(_) => []
    case Waiting(_) => []
  }

  /** No publish call of the stack has id still to visit. */
  predicate Clear(stack: seq<Frame>, id: Id) {
    forall k :: 0 <= k < |stack| ==> id !in Todo(stack[k])
  }

  lemma ClearStack(t: Thread, t': Thread, f: Frame, id: Id)
    requires Clear(t.stack, id) && id !in Todo(f)
    requires || t'.stack == [f] + t.stack
             || (t.stack != [] && (t'.stack == [f] + t.stack[1..] || t'.stack == t.stack[1..]))
    ensures Clear(t'.stack, id)
  {
  }

  lemma ProceedStaysClear(b: Bus, i: nat, id: Id)
    requires i < |b.threads| && b.threads[i].stack != [] && Clear(b.threads[i].stack, id)
    ensures |Proceed(b, i).threads| == |b.threads| && Clear(Proceed(b, i).threads[i].stack, id)
  {
    var t := b.threads[i];
    assert id !in Todo(t.stack[0]);
    match t.stack[0]
    case Looping(todo) =>
      if todo != [] {
        ClearStack(t, Top(t, Looping(todo[1..])), Looping(todo[1..]), id);
        ClearStack(t, Top(t, Entered(todo[0], todo[1..])), Entered(todo[0], todo[1..]), id);
      }
    case Entered(x, todo) =>
    case Running(x, todo) =>
    case Leaving(x, todo) =>
    case Removing(x) =>
    case Waiting(x) =>
  }

  /** A thread without id in its lists gets none, because id is in no list any more. */
  lemma ThreadStaysClear(b: Bus, a: Action, id: Id)
    requires ListsInv(b.registry) && id !in b.registry.types
    requires a.i < |b.threads| && Clear(b.threads[a.i].stack, id)
    ensures |Next(b, a).threads| == |b.threads| && Clear(Next(b, a).threads[a.i].stack, id)
  {
    var t := b.threads[a.i];
    match a
    case Subscribe(i, ty) =>
    case Publish(i, ty) =>
      if ty in b.registry.lists {
        assert ListOk(b.registry.lists[ty], b.registry, ty);
        ClearStack(t, Push(t, Looping(b.registry.lists[ty])), Looping(b.registry.lists[ty]), id);
      }
    case Unsubscribe(i, x) => ClearStack(t, Push(t, Removing(x)), Removing(x), id);
    case Throw(i) =>
      if t.stack != [] && t.stack[0].Running? {
        ClearStack(t, Return(t, t.stack[0].id, []), Leaving(t.stack[0].id, []), id);
      }
    case Advance(i) =>
      if t.stack != [] {
        ProceedStaysClear(b, i, id);
      }
  }

  lemma OthersStay(b: Bus, a: Action)
    ensures |Next(b, a).threads| == |b.threads|
    ensures forall j: nat :: j < |b.threads| && j != a.i ==> Next(b, a).threads[j] == b.threads[j]
  {
  }

  // ---- threads that cannot go on ----------------------------------------------------------------------

  predicate InUnsubscribe(f: Frame) {
    f.Removing? || f.Waiting?
  }

  ghost predicate SomeCalls(b: Bus, who: set<nat>, x: Id) {
    exists m :: m in who && m < |b.threads| && InStack(b.threads[m].stack, x) > 0
  }

  /** Thread i must mark id as removed before it goes on, or has to wait for a call on one of who. */
  ghost predicate Held(b: Bus, id: Id, who: set<nat>, i: nat)
    requires i < |b.threads|
  {
    var t := b.threads[i];
    t.stack != []
    && (|| t.stack[0] == Removing(id)
        || (InUnsubscribe(t.stack[0]) && t.stack[0].id !in t.executing && SomeCalls(b, who, t.stack[0].id)))
  }

  /** None of these threads can go on before id is marked as removed. */
  ghost predicate HeldUp(b: Bus, id: Id, who: set<nat>) {
    forall i :: i in who ==> i < |b.threads| && Held(b, id, who, i)
  }

  /** Only these threads have id in a list. */
  ghost predicate Covers(b: Bus, id: Id, who: set<nat>) {
    forall i: nat :: i < |b.threads| && i !in who ==> Clear(b.threads[i].stack, id)
  }

  lemma HeldWithMore(b: Bus, id: Id, who: set<nat>, more: set<nat>, i: nat)
    requires i < |b.threads| && who <= more && Held(b, id, who, i)
    ensures Held(b, id, more, i)
  {
  }

  // ---- when the promise holds -----------------------------------------------------------------------

  /** No call of id's handler is in flight, and none can start: id is marked as removed, or only threads
      that cannot go on before that have it in a list. */
  ghost predicate Silent(b: Bus, id: Id, who: set<nat>) {
    && id in b.subs && id !in b.registry.types && Total(b.threads, id) == 0
    && (b.subs[id].removed || (HeldUp(b, id, who) && Covers(b, id, who)))
  }

  lemma ProceedDoesNotRise(b: Bus, i: nat, id: Id)
    requires i < |b.threads| && b.threads[i].stack != [] && id in b.subs
    requires b.subs[id].removed || id !in Todo(b.threads[i].stack[0])
    ensures var c := Proceed(b, i);
            && id in c.subs && c.subs[id].running <= b.subs[id].running
            && (b.subs[id].removed ==> c.subs[id].removed)
  {
  }

  lemma NextDoesNotRise(b: Bus, a: Action, id: Id, who: set<nat>)
    requires Sound(b) && Silent(b, id, who)
    ensures var c := Next(b, a);
            && id in c.subs && id !in c.registry.types && c.subs[id].running <= b.subs[id].running
            && (b.subs[id].removed ==> c.subs[id].removed)
  {
    if a.i < |b.threads| && a.Advance? && b.threads[a.i].stack != [] {
      if !b.subs[id].removed && a.i in who {
        assert Held(b, id, who, a.i);
      }
      ProceedDoesNotRise(b, a.i, id);
      ProceedLeavesRegistry(b, a.i);
    }
  }

  lemma OutsiderLeavesHeld(b: Bus, a: Action, id: Id, who: set<nat>)
    requires HeldUp(b, id, who) && a.i !in who
    ensures HeldUp(Next(b, a), id, who)
  {
    var c := Next(b, a);
    OthersStay(b, a);
    forall i | i in who
      ensures i < |c.threads| && Held(c, id, who, i)
    {
      assert Held(b, id, who, i);
      if b.threads[i].stack[0] != Removing(id) {
        var x := b.threads[i].stack[0].id;
        var m :| m in who && m < |b.threads| && InStack(b.threads[m].stack, x) > 0;
        assert InStack(c.threads[m].stack, x) > 0;
      }
    }
  }

  lemma WaiterHasToWait(b: Bus, who: set<nat>, x: Id)
    requires Counted(b) && x in b.subs && SomeCalls(b, who, x)
    ensures b.subs[x].running != 0
  {
    var m :| m in who && m < |b.threads| && InStack(b.threads[m].stack, x) > 0;
    TotalCovers(b.threads, m, x);
  }

  /** Removing(x) on top becomes Waiting(x), and nothing else changes for the threads. */
  lemma RemoverGoesToWait(b: Bus, c: Bus, id: Id, who: set<nat>, i: nat, x: Id)
    requires HeldUp(b, id, who) && i in who && i < |b.threads| && x != id
    requires b.threads[i].stack != [] && b.threads[i].stack[0] == Removing(x)
    requires c.threads == b.threads[i := Top(b.threads[i], Waiting(x))]
    ensures HeldUp(c, id, who)
  {
    forall m: nat, y | m < |b.threads|
      ensures InStack(c.threads[m].stack, y) == InStack(b.threads[m].stack, y)
    {
      if m == i {
        ConsStack(Waiting(x), b.threads[i].stack[1..], y);
      }
    }
    forall j | j in who
      ensures j < |c.threads| && Held(c, id, who, j)
    {
      assert Held(b, id, who, j);
      if b.threads[j].stack[0] != Removing(id) {
        var y := b.threads[j].stack[0].id;
        var m :| m in who && m < |b.threads| && InStack(b.threads[m].stack, y) > 0;
        assert InStack(c.threads[m].stack, y) > 0;
      }
    }
  }

  lemma InsiderStaysHeld(b: Bus, a: Action, id: Id, who: set<nat>)
    requires Inv(b) && id in b.subs && HeldUp(b, id, who) && a.i in who
    ensures var c := Next(b, a);
            (id in c.subs && c.subs[id].removed) || HeldUp(c, id, who)
  {
    assert Held(b, id, who, a.i);
    var t := b.threads[a.i];
    assert StackInv(t.stack, b) && FrameInv(t.stack[0], b);
    if a.Advance? && t.stack[0] != Removing(id) {
      var x := t.stack[0].id;
      if t.stack[0].Removing? {
        RemoverGoesToWait(b, Next(b, a), id, who, a.i, x);
      } else {
        WaiterHasToWait(b, who, x);
      }
    }
  }

  lemma CoverStays(b: Bus, a: Action, id: Id, who: set<nat>)
    requires ListsInv(b.registry) && id !in b.registry.types && Covers(b, id, who)
    ensures Covers(Next(b, a), id, who)
  {
    OthersStay(b, a);
    if a.i < |b.threads| && a.i !in who {
      ThreadStaysClear(b, a, id);
    }
  }

  lemma SilentStays(b: Bus, a: Action, id: Id, who: set<nat>)
    requires Sound(b) && Silent(b, id, who)
    ensures Silent(Next(b, a), id, who)
  {
    NextDoesNotRise(b, a, id, who);
    NextKeeps(b, a);
    assert Counted(b) && Counted(Next(b, a));
    if !b.subs[id].removed {
      CoverStays(b, a, id, who);
      if a.i in who {
        InsiderStaysHeld(b, a, id, who);
      } else {
        OutsiderLeavesHeld(b, a, id, who);
      }
    }
  }

  lemma {:induction false} SilentForEver(b: Bus, later: seq<Action>, id: Id, who: set<nat>)
    requires Sound(b) && Silent(b, id, who)
    ensures Silent(Run(b, later), id, who)
    decreases |later|
  {
    if later != [] {
      SilentStays(b, later[0], id, who);
      NextKeeps(b, later[0]);
      NextKeepsLists(b, later[0]);
      SilentForEver(Next(b, later[0]), later[1..], id, who);
    }
  }

  lemma NoneInFlight(b: Bus, i: nat, id: Id)
    requires Total(b.threads, id) == 0
    ensures !Calling(b, i, id)
  {
    if Calling(b, i, id) {
      var k :| 0 <= k < |b.threads[i].stack| && InFlight(b.threads[i].stack[k], id);
      TotalCovers(b.threads, i, id);
      StackCovers(b.threads[i].stack, k, id);
    }
  }

  lemma SilentPromises(b: Bus, id: Id, who: set<nat>)
    requires Sound(b) && Silent(b, id, who)
    ensures Promise(b, id)
  {
    forall later: seq<Action>, i: nat
      ensures !Calling(Run(b, later), i, id)
    {
      SilentForEver(b, later, id, who);
      NoneInFlight(Run(b, later), i, id);
    }
  }

  // ---- when it does not -------------------------------------------------------------------------------

  /** Thread j has id in a list and belongs to no set of threads that cannot go on. */
  ghost predicate Loose(b: Bus, id: Id, j: nat) {
    && j < |b.threads| && !Clear(b.threads[j].stack, id)
    && forall who: set<nat> :: HeldUp(b, id, who) ==> j !in who
  }

  ghost predicate IsStuck(b: Bus, id: Id, i: nat) {
    exists who: set<nat> :: HeldUp(b, id, who) && i in who
  }

  /** All threads that cannot go on. */
  ghost function Stuck(b: Bus, id: Id): set<nat> {
    set i: nat | i < |b.threads| && IsStuck(b, id, i)
  }

  lemma HeldUpIsStuck(b: Bus, id: Id, who: set<nat>)
    requires HeldUp(b, id, who)
    ensures who <= Stuck(b, id)
  {
    forall i | i in who
      ensures i in Stuck(b, id)
    {
      assert IsStuck(b, id, i);
    }
  }

  lemma StuckIsHeldUp(b: Bus, id: Id)
    ensures HeldUp(b, id, Stuck(b, id))
  {
    forall i | i in Stuck(b, id)
      ensures i < |b.threads| && Held(b, id, Stuck(b, id), i)
    {
      assert IsStuck(b, id, i);
      var who: set<nat> :| HeldUp(b, id, who) && i in who;
      HeldUpIsStuck(b, id, who);
      HeldWithMore(b, id, who, Stuck(b, id), i);
    }
  }

  lemma UncoveredIsLoose(b: Bus, id: Id) returns (j: nat)
    requires !Covers(b, id, Stuck(b, id))
    ensures Loose(b, id, j)
  {
    j :| j < |b.threads| && j !in Stuck(b, id) && !Clear(b.threads[j].stack, id);
    assert !IsStuck(b, id, j);
  }

  /** Thread k is in a call and does not have to wait. */
  ghost predicate CanMove(b: Bus, k: nat) {
    && k < |b.threads| && b.threads[k].stack != []
    && var f := b.threads[k].stack[0];
       f.Waiting? ==> f.id in b.subs && b.subs[f.id].running == 0
  }

  lemma WaiterIsHeld(b: Bus, id: Id, who: set<nat>, k: nat)
    requires Inv(b) && k < |b.threads| && b.threads[k].stack != [] && !CanMove(b, k)
    requires forall m: nat :: m < |b.threads| && b.threads[m].stack != [] ==> m in who
    ensures Held(b, id, who, k)
  {
    var t := b.threads[k];
    assert StackInv(t.stack, b) && NestInv(t) && FrameInv(t.stack[0], b);
    var x := t.stack[0].id;
    assert b.subs[x].running == Total(b.threads, x);
    var m := SomeStackCalls(b.threads, x);
    assert m in who;
  }

  /** If every thread outside Stuck had to wait, all threads in a call would be held up. */
  lemma SomeoneMoves(b: Bus, id: Id, j: nat)
    requires Inv(b) && Loose(b, id, j)
    ensures exists k: nat :: CanMove(b, k) && k !in Stuck(b, id)
  {
    StuckIsHeldUp(b, id);
    var all := set i: nat | i < |b.threads| && b.threads[i].stack != [];
    assert j in all;
    assert Stuck(b, id) <= all by {
      forall i | i in Stuck(b, id)
        ensures i in all
      {
        assert Held(b, id, Stuck(b, id), i);
      }
    }
    if !exists k: nat :: CanMove(b, k) && k !in Stuck(b, id) {
      forall i | i in all
        ensures i < |b.threads| && Held(b, id, all, i)
      {
        if i in Stuck(b, id) {
          HeldWithMore(b, id, Stuck(b, id), all, i);
        } else {
          WaiterIsHeld(b, id, all, i);
        }
      }
    }
  }

  function FrameWork(f: Frame): nat {
    4 * |Todo(f)|
    + if f.Entered? then 4 else if f.Running? then 3 else if f.Leaving? || f.Removing? then 2 else 1
  }

  function Work(stack: seq<Frame>): nat {
    if stack == [] then 0 else FrameWork(stack[0]) + Work(stack[1..])
  }

  function WorkOf(threads: seq<Thread>): nat {
    if threads == [] then 0 else Work(threads[0].stack) + WorkOf(threads[1..])
  }

  lemma ConsWork(f: Frame, rest: seq<Frame>)
    ensures Work([f] + rest) == FrameWork(f) + Work(rest)
  {
    assert ([f] + rest)[1..] == rest;
  }

  lemma {:induction false} WorkUpdate(threads: seq<Thread>, i: nat, t: Thread)
    requires i < |threads|
    ensures WorkOf(threads[i := t]) + Work(threads[i].stack) == WorkOf(threads) + Work(t.stack)
    decreases |threads|
  {
    if i == 0 {
      assert threads[0 := t][1..] == threads[1..];
    } else {
      assert threads[i := t][1..] == threads[1..][i - 1 := t];
      WorkUpdate(threads[1..], i - 1, t);
    }
  }

  /** The stack after a step of its thread: its top is gone, or replaced by less work. */
  ghost predicate Shrunk(stack: seq<Frame>, next: seq<Frame>)
    requires stack != []
  {
    || next == stack[1..]
    || (next != [] && next == [next[0]] + stack[1..] && FrameWork(next[0]) < FrameWork(stack[0])
        && !next[0].Removing? && (next[0].Waiting? ==> stack[0] == Removing(next[0].id)))
  }

  lemma ShrunkWorks(stack: seq<Frame>, next: seq<Frame>)
    requires stack != [] && Shrunk(stack, next)
    ensures Work(next) < Work(stack)
  {
    if next != stack[1..] {
      ConsWork(next[0], stack[1..]);
    }
  }

  lemma MoveShrinks(b: Bus, k: nat)
    requires Inv(b) && CanMove(b, k)
    ensures |Next(b, Advance(k)).threads| == |b.threads|
    ensures Shrunk(b.threads[k].stack, Next(b, Advance(k)).threads[k].stack)
  {
    var t := b.threads[k];
    assert StackInv(t.stack, b) && FrameInv(t.stack[0], b);
  }

  lemma MoveKeepsMark(b: Bus, id: Id, k: nat)
    requires CanMove(b, k) && id in b.subs && !b.subs[id].removed && b.threads[k].stack[0] != Removing(id)
    ensures var c := Next(b, Advance(k));
            id in c.subs && !c.subs[id].removed
  {
  }

  /** A thread with id in a list keeps it, or starts the handler. */
  lemma MoveStaysStale(b: Bus, id: Id, k: nat)
    requires Inv(b) && CanMove(b, k) && id in b.subs && !b.subs[id].removed
    requires !Clear(b.threads[k].stack, id)
    ensures var c := Next(b, Advance(k));
            Calling(c, k, id) || (k < |c.threads| && !Clear(c.threads[k].stack, id))
  {
    var t, c := b.threads[k], Next(b, Advance(k));
    assert StackInv(t.stack, b) && FrameInv(t.stack[0], b);
    var n :| 0 <= n < |t.stack| && id in Todo(t.stack[n]);
    MoveShrinks(b, k);
    var stack := c.threads[k].stack;
    if n > 0 {
      LowerFrameStays(t.stack, stack, n, id);
    } else if !(t.stack[0].Looping? && t.stack[0].todo[0] == id) {
      assert stack != [] && id in Todo(stack[0]);
    } else {
      assert InFlight(stack[0], id);
    }
  }

  lemma LowerFrameStays(stack: seq<Frame>, next: seq<Frame>, n: nat, id: Id)
    requires stack != [] && Shrunk(stack, next) && 0 < n < |stack| && id in Todo(stack[n])
    ensures !Clear(next, id)
  {
    if next == stack[1..] {
      assert id in Todo(next[n - 1]);
    } else {
      assert id in Todo(next[n]);
    }
  }

  /** The only step into an unsubscribe that waits is that of its own remover. */
  lemma OnlyRemoversWait(b: Bus, k: nat)
    requires Inv(b) && CanMove(b, k)
    ensures var t, t' := b.threads[k], Next(b, Advance(k)).threads[k];
            t'.stack != [] && InUnsubscribe(t'.stack[0]) ==>
              && t.stack[0].Removing? && t' == Top(t, Waiting(t.stack[0].id))
              && t.stack[0].id !in t.executing
  {
    var t := b.threads[k];
    assert StackInv(t.stack, b) && NestInv(t) && FrameInv(t.stack[0], b);
    MoveShrinks(b, k);
  }

  lemma CallsBefore(b: Bus, k: nat, who: set<nat>, x: Id)
    requires Inv(b) && CanMove(b, k) && SomeCalls(Next(b, Advance(k)), who, x)
    requires k in who ==>
               var stack := Next(b, Advance(k)).threads[k].stack; stack != [] && InUnsubscribe(stack[0])
    ensures SomeCalls(b, who, x)
  {
    var c := Next(b, Advance(k));
    OthersStay(b, Advance(k));
    OnlyRemoversWait(b, k);
    var m :| m in who && m < |c.threads| && InStack(c.threads[m].stack, x) > 0;
    if m == k {
      ConsStack(Waiting(b.threads[k].stack[0].id), b.threads[k].stack[1..], x);
    }
    assert InStack(b.threads[m].stack, x) > 0;
  }

  /** A step of a thread that can move adds to no set of threads that cannot. */
  lemma MoveHoldsNobodyUp(b: Bus, id: Id, k: nat, who: set<nat>)
    requires Inv(b) && CanMove(b, k) && b.threads[k].stack[0] != Removing(id)
    requires HeldUp(Next(b, Advance(k)), id, who)
    ensures HeldUp(b, id, who)
  {
    var c := Next(b, Advance(k));
    OthersStay(b, Advance(k));
    OnlyRemoversWait(b, k);
    if k in who {
      assert Held(c, id, who, k);
    }
    forall i | i in who
      ensures i < |b.threads| && Held(b, id, who, i)
    {
      assert Held(c, id, who, i);
      if c.threads[i].stack[0] != Removing(id) {
        CallsBefore(b, k, who, c.threads[i].stack[0].id);
      }
    }
  }

  lemma RemoverIsStuck(b: Bus, id: Id, k: nat)
    requires k < |b.threads| && b.threads[k].stack != [] && b.threads[k].stack[0] == Removing(id)
    ensures k in Stuck(b, id)
  {
    assert HeldUp(b, id, {k});
    assert IsStuck(b, id, k);
  }

  lemma LooseStays(b: Bus, id: Id, j: nat, k: nat)
    requires Inv(b) && id in b.subs && !b.subs[id].removed
    requires Loose(b, id, j) && CanMove(b, k) && b.threads[k].stack[0] != Removing(id)
    ensures var c := Next(b, Advance(k));
            Calling(c, k, id) || Loose(c, id, j)
  {
    var c := Next(b, Advance(k));
    OthersStay(b, Advance(k));
    if j == k {
      MoveStaysStale(b, id, k);
    }
    forall who: set<nat> | HeldUp(c, id, who)
      ensures j !in who
    {
      MoveHoldsNobodyUp(b, id, k, who);
    }
  }

  lemma MoveWorks(b: Bus, k: nat)
    requires Inv(b) && CanMove(b, k)
    ensures WorkOf(Next(b, Advance(k)).threads) < WorkOf(b.threads)
  {
    var c := Next(b, Advance(k));
    MoveShrinks(b, k);
    OthersStay(b, Advance(k));
    ShrunkWorks(b.threads[k].stack, c.threads[k].stack);
    assert c.threads == b.threads[k := c.threads[k]];
    WorkUpdate(b.threads, k, c.threads[k]);
  }

  /** While a thread with id in a list is loose, some thread can move, and all such steps lead to a call. */
  lemma {:induction false} LooseListStartsCall(b: Bus, id: Id, j: nat) returns (later: seq<Action>, i: nat)
    requires Inv(b) && id in b.subs && !b.subs[id].removed && Loose(b, id, j)
    ensures Calling(Run(b, later), i, id)
    decreases WorkOf(b.threads)
  {
    SomeoneMoves(b, id, j);
    var k: nat :| CanMove(b, k) && k !in Stuck(b, id);
    if b.threads[k].stack[0] == Removing(id) {
      RemoverIsStuck(b, id, k);
    }
    var c := Next(b, Advance(k));
    NextKeeps(b, Advance(k));
    MoveKeepsMark(b, id, k);
    LooseStays(b, id, j, k);
    MoveWorks(b, k);
    var rest := [];
    i := k;
    if !Calling(c, k, id) {
      rest, i := LooseListStartsCall(c, id, j);
    }
    later := [Advance(k)] + rest;
    RunHead(b, Advance(k), rest);
  }

  lemma InFlightBreaksPromise(b: Bus, id: Id)
    requires Total(b.threads, id) > 0
    ensures !Promise(b, id)
  {
    var i := SomeStackCalls(b.threads, id);
    var k := SomeFrameCalls(b.threads[i].stack, id);
    CallingBreaksPromise(b, i, id);
  }

  lemma LooseListBreaksPromise(b: Bus, id: Id, j: nat)
    requires Inv(b) && id in b.subs && !b.subs[id].removed && Loose(b, id, j)
    ensures !Promise(b, id)
  {
    var later, i := LooseListStartsCall(b, id, j);
    assert Calling(Run(b, later), i, id);
  }

  // ---- exactly ----------------------------------------------------------------------------------------

  /** Only threads that cannot go on before id is marked as removed have it in a list. */
  ghost predicate OnlyHeldUp(b: Bus, id: Id) {
    exists who: set<nat> :: HeldUp(b, id, who) && Covers(b, id, who)
  }

  /**
   * For every reachable state and every id that is not registered any more: an unsubscribe returns at
   * once, and nobody calls the handler then or later exactly if no call is in flight and either the
   * subscriber is marked as removed or only threads that cannot go on before that have it in a list.
   */
  lemma UnregisteredPromiseIff(n: nat, actions: seq<Action>, i: nat, id: Id)
    requires var b := Run(Init(n), actions);
             id in b.subs && id !in b.registry.types
    ensures var b := Run(Init(n), actions);
            && Next(b, Unsubscribe(i, id)) == b
            && (Promise(b, id) <==>
                  Total(b.threads, id) == 0 && (b.subs[id].removed || OnlyHeldUp(b, id)))
  {
    var b := Run(Init(n), actions);
    InitInv(n);
    RunIsSound(Init(n), actions);
    if Total(b.threads, id) > 0 {
      InFlightBreaksPromise(b, id);
    } else if b.subs[id].removed {
      SilentPromises(b, id, {});
    } else if OnlyHeldUp(b, id) {
      var who: set<nat> :| HeldUp(b, id, who) && Covers(b, id, who);
      SilentPromises(b, id, who);
    } else {
      StuckIsHeldUp(b, id);
      var j := UncoveredIsLoose(b, id);
      LooseListBreaksPromise(b, id, j);
    }
  }
}
