/** Whom a publish calls, said from the subscribe and unsubscribe calls of a run. */
module EventBusCalls {
  import opened EventBusModel
  import opened EventBusProofs
  import opened EventBusStale

  // ---- the states of a run ------------------------------------------------------------------------------

  datatype Record = Record(buses: seq<Bus>, actions: seq<Action>)

  /** The actions of a run, with the bus before each of them and after the last. */
  type Trace = t: Record | |t.buses| == |t.actions| + 1 witness Record([Init(0)], [])

  /** The bus before action k. */
  function BusAt(t: Trace, k: nat): Bus
    requires k <= |t.actions|
  {
    t.buses[k]
  }

  predicate Steps(t: Trace, k: nat)
    requires k < |t.actions|
  {
    BusAt(t, k + 1) == Next(BusAt(t, k), t.actions[k])
  }

  /** The trace of a run with n threads. */
  predicate IsTrace(n: nat, t: Trace) {
    BusAt(t, 0) == Init(n) && forall k: nat {:trigger Steps(t, k)} :: k < |t.actions| ==> Steps(t, k)
  }

  lemma {:induction false} RunOneMore(b: Bus, actions: seq<Action>, a: Action)
    ensures Run(b, actions + [a]) == Next(Run(b, actions), a)
    decreases |actions|
  {
    if actions == [] {
      assert [a][1..] == [] && Run(Next(b, a), []) == Next(b, a);
    } else {
      RunOneMore(Next(b, actions[0]), actions[1..], a);
      assert (actions + [a])[1..] == actions[1..] + [a];
    }
  }

  /** Every run has its trace. */
  lemma {:induction false} TraceOf(n: nat, actions: seq<Action>) returns (t: Trace)
    ensures IsTrace(n, t) && t.actions == actions && BusAt(t, |actions|) == Run(Init(n), actions)
    decreases |actions|
  {
    if actions == [] {
      t := Record([Init(n)], []);
    } else {
      var k := |actions| - 1;
      var s := TraceOf(n, actions[..k]);
      RunOneMore(Init(n), actions[..k], actions[k]);
      assert actions == actions[..k] + [actions[k]];
      t := Record(s.buses + [Run(Init(n), actions)], actions);
      forall j: nat | j < |actions|
        ensures Steps(t, j)
      {
        if j < k {
          assert Steps(s, j);
        }
      }
    }
  }

  lemma {:induction false} BusIsSound(n: nat, t: Trace, k: nat)
    requires IsTrace(n, t) && k <= |t.actions|
    ensures Sound(BusAt(t, k))
    decreases k
  {
    if k == 0 {
      InitInv(n);
    } else {
      BusIsSound(n, t, k - 1);
      assert Steps(t, k - 1);
      NextKeeps(BusAt(t, k - 1), t.actions[k - 1]);
      NextKeepsLists(BusAt(t, k - 1), t.actions[k - 1]);
    }
  }

  /** The calls that thread i is in, innermost first. */
  function StackAt(t: Trace, i: nat, k: nat): seq<Frame>
    requires k <= |t.actions|
  {
    var b := BusAt(t, k);
    if i < |b.threads| then b.threads[i].stack else []
  }

  /** Action k is a call, and its thread is in no call or in a handler. */
  predicate IsCall(t: Trace, k: nat)
    requires k < |t.actions|
  {
    var b := BusAt(t, k);
    t.actions[k].i < |b.threads| && CanCall(b.threads[t.actions[k].i])
  }

  // ---- who is registered --------------------------------------------------------------------------------

  datatype Entry = Entry(id: Id, ty: nat)

  /** The registered subscriptions, oldest first, and how many were ever made. */
  datatype Book = Book(entries: seq<Entry>, made: nat)

  function Others(entries: seq<Entry>, id: Id): seq<Entry> {
    if entries == [] then []
    else (if entries[0].id == id then [] else [entries[0]]) + Others(entries[1..], id)
  }

  /** The ids registered for an event type, in the order of their subscriptions. */
  function OfType(entries: seq<Entry>, ty: nat): seq<Id> {
    if entries == [] then []
    else (if entries[0].ty == ty then [entries[0].id] else []) + OfType(entries[1..], ty)
  }

  /** Each subscribe enters the next id, each unsubscribe strikes its id out. */
  function After(book: Book, call: Action): Book {
    match call
    case Subscribe(_, ty) => Book(book.entries + [Entry(book.made + 1, ty)], book.made + 1)
    case Unsubscribe(_, id) => book.(entries := Others(book.entries, id))
    case _ => book
  }

  /** The book before action k. */
  function BookAt(t: Trace, k: nat): Book
    requires k <= |t.actions|
  {
    if k == 0 then Book([], 0)
    else
      var book := BookAt(t, k - 1);
      if IsCall(t, k - 1) then After(book, t.actions[k - 1]) else book
  }

  predicate Ordered(entries: seq<Entry>) {
    forall p, q :: 0 <= p < q < |entries| ==> entries[p].id < entries[q].id
  }

  predicate HasId(entries: seq<Entry>, id: Id) {
    exists k :: 0 <= k < |entries| && entries[k].id == id
  }

  /** The registry says what the book says. */
  ghost predicate Matches(r: Registry, book: Book) {
    && r.next == book.made + 1
    && Ordered(book.entries)
    && (forall ty: nat :: Listed(r, ty) == OfType(book.entries, ty))
    && (forall k :: 0 <= k < |book.entries| ==>
          var e := book.entries[k];
          e.id <= book.made && e.id in r.types && r.types[e.id] == e.ty)
  }

  lemma {:induction false} OfTypeJoins(a: seq<Entry>, b: seq<Entry>, ty: nat)
    ensures OfType(a + b, ty) == OfType(a, ty) + OfType(b, ty)
    decreases |a|
  {
    if a == [] {
      assert a + b == b;
    } else {
      var first := if a[0].ty == ty then [a[0].id] else [];
      assert (a + b)[0] == a[0] && (a + b)[1..] == a[1..] + b;
      OfTypeJoins(a[1..], b, ty);
      assert OfType(a + b, ty) == first + (OfType(a[1..], ty) + OfType(b, ty));
    }
  }

  lemma OfTypeAppend(entries: seq<Entry>, e: Entry, ty: nat)
    ensures OfType(entries + [e], ty) == OfType(entries, ty) + if e.ty == ty then [e.id] else []
  {
    OfTypeJoins(entries, [e], ty);
    assert [e][1..] == [];
  }

  lemma {:induction false} OfTypeMembers(entries: seq<Entry>, ty: nat, id: Id)
    requires id in OfType(entries, ty)
    ensures exists k :: 0 <= k < |entries| && entries[k] == Entry(id, ty)
    decreases |entries|
  {
    if entries[0] != Entry(id, ty) {
      OfTypeMembers(entries[1..], ty, id);
      var k :| 0 <= k < |entries[1..]| && entries[1..][k] == Entry(id, ty);
      assert entries[k + 1] == Entry(id, ty);
    }
  }

  lemma {:induction false} WithoutAbsent(ids: seq<Id>, id: Id)
    requires id !in ids
    ensures Without(ids, id) == ids
    decreases |ids|
  {
    if ids != [] {
      WithoutAbsent(ids[1..], id);
    }
  }

  lemma {:induction false} OthersAbsent(entries: seq<Entry>, id: Id)
    requires !HasId(entries, id)
    ensures Others(entries, id) == entries
    decreases |entries|
  {
    if entries != [] {
      assert forall k :: 0 <= k < |entries[1..]| ==> entries[1..][k] == entries[k + 1];
      OthersAbsent(entries[1..], id);
    }
  }

  lemma {:induction false} OthersMembers(entries: seq<Entry>, id: Id, e: Entry)
    ensures e in Others(entries, id) ==> e in entries && e.id != id
    decreases |entries|
  {
    if entries != [] {
      OthersMembers(entries[1..], id, e);
    }
  }

  lemma {:induction false} OthersAreOrdered(entries: seq<Entry>, id: Id)
    requires Ordered(entries)
    ensures Ordered(Others(entries, id))
    decreases |entries|
  {
    if entries != [] {
      var rest := Others(entries[1..], id);
      OthersAreOrdered(entries[1..], id);
      forall k | 0 <= k < |rest|
        ensures entries[0].id < rest[k].id
      {
        OthersMembers(entries[1..], id, rest[k]);
      }
    }
  }

  lemma {:induction false} OthersOfType(entries: seq<Entry>, id: Id, ty: nat)
    requires Ordered(entries)
    ensures OfType(Others(entries, id), ty) == Without(OfType(entries, ty), id)
    decreases |entries|
  {
    if entries != [] {
      var e, rest := entries[0], entries[1..];
      OthersOfType(rest, id, ty);
      if e.id == id {
        assert !HasId(rest, id);
        OthersAbsent(rest, id);
        if id in OfType(rest, ty) {
          OfTypeMembers(rest, ty, id);
        }
        WithoutAbsent(OfType(rest, ty), id);
        assert [] + Others(rest, id) == Others(rest, id);
        assert ([id] + OfType(rest, ty))[1..] == OfType(rest, ty);
        assert [] + OfType(rest, ty) == OfType(rest, ty);
      } else {
        assert ([e] + Others(rest, id))[1..] == Others(rest, id);
        if e.ty == ty {
          assert ([e.id] + OfType(rest, ty))[1..] == OfType(rest, ty);
        } else {
          assert [] + OfType(rest, ty) == OfType(rest, ty);
        }
      }
    }
  }

  lemma SubscribeMatches(b: Bus, ty: nat, book: Book)
    requires Matches(b.registry, book)
    ensures Matches(Subscribed(b, ty).registry, Book(book.entries + [Entry(book.made + 1, ty)], book.made + 1))
  {
    var e := Entry(book.made + 1, ty);
    var r := Subscribed(b, ty).registry;
    forall t: nat
      ensures Listed(r, t) == OfType(book.entries + [e], t)
    {
      OfTypeAppend(book.entries, e, t);
      assert Listed(b.registry, t) == OfType(book.entries, t);
    }
  }

  lemma EraseMatches(b: Bus, i: nat, id: Id, book: Book)
    requires Matches(b.registry, book) && i < |b.threads|
    ensures Matches(Erased(b, i, id).registry, book.(entries := Others(book.entries, id)))
  {
    var r := Erased(b, i, id).registry;
    OthersAreOrdered(book.entries, id);
    forall e | e in Others(book.entries, id)
      ensures e in book.entries && e.id != id
    {
      OthersMembers(book.entries, id, e);
    }
    if id in b.registry.types {
      forall t: nat
        ensures Listed(r, t) == OfType(Others(book.entries, id), t)
      {
        OthersOfType(book.entries, id, t);
        assert Listed(b.registry, t) == OfType(book.entries, t);
        if t != b.registry.types[id] {
          if id in OfType(book.entries, t) {
            OfTypeMembers(book.entries, t, id);
          }
          WithoutAbsent(OfType(book.entries, t), id);
        }
      }
    } else {
      OthersAbsent(book.entries, id);
    }
  }

  lemma CallMatches(b: Bus, a: Action, book: Book)
    requires Matches(b.registry, book)
    ensures Matches(Next(b, a).registry,
                    if a.i < |b.threads| && CanCall(b.threads[a.i]) then After(book, a) else book)
  {
    if a.i < |b.threads| {
      match a
      case Subscribe(i, ty) => SubscribeMatches(b, ty, book);
      case Unsubscribe(i, id) => EraseMatches(b, i, id, book);
      case Advance(i) =>
        if b.threads[i].stack != [] {
          ProceedLeavesRegistry(b, i);
        }
      case _ =>
    }
  }

  /** In every run the lists of the bus are what the calls of subscribe and unsubscribe have left. */
  lemma {:induction false} ListsAreTheBook(n: nat, t: Trace, k: nat)
    requires IsTrace(n, t) && k <= |t.actions|
    ensures Matches(BusAt(t, k).registry, BookAt(t, k))
    decreases k
  {
    if k > 0 {
      ListsAreTheBook(n, t, k - 1);
      assert Steps(t, k - 1);
      CallMatches(BusAt(t, k - 1), t.actions[k - 1], BookAt(t, k - 1));
    }
  }

  // ---- one publish ----------------------------------------------------------------------------------------

  /** Thread i publishes an event of type ty in action m, with d calls around it, and is back after action
      e - 1. */
  predicate IsPublish(t: Trace, i: nat, ty: nat, m: nat, d: nat, e: nat) {
    && m < e <= |t.actions| && t.actions[m] == Publish(i, ty) && IsCall(t, m)
    && d == |StackAt(t, i, m)| && |StackAt(t, i, e)| <= d
    && InPublish(t, i, m, d, e - 1)
  }

  /** The call has not returned before action k. */
  predicate InPublish(t: Trace, i: nat, m: nat, d: nat, k: nat)
    requires k <= |t.actions|
  {
    forall j: nat {:trigger IsDeeper(t, i, d, j)} :: m < j <= k ==> IsDeeper(t, i, d, j)
  }

  /** Thread i is in more than d calls. */
  predicate IsDeeper(t: Trace, i: nat, d: nat, j: nat)
    requires j <= |t.actions|
  {
    |StackAt(t, i, j)| > d
  }

  /** A thread with d calls around a publish goes from that publish into a handler. */
  predicate Begins(before: seq<Frame>, after: seq<Frame>, d: nat) {
    |before| == |after| == d + 1 && !before[0].Running? && after[0].Running?
  }

  /** The handlers that the publish with d calls around it has called from action m to k. */
  function CallsMade(t: Trace, i: nat, d: nat, m: nat, k: nat): seq<Id>
    requires m <= k <= |t.actions|
    decreases k
  {
    if k == m then []
    else
      var after := StackAt(t, i, k);
      var made := CallsMade(t, i, d, m, k - 1);
      if Begins(StackAt(t, i, k - 1), after, d) then made + [after[0].id] else made
  }

  /** One of the handlers it has called has thrown. */
  predicate Thrown(t: Trace, i: nat, d: nat, m: nat, k: nat)
    requires k <= |t.actions|
  {
    exists j: nat :: m < j < k && ThrowsAt(t, i, d, j)
  }

  predicate ThrowsAt(t: Trace, i: nat, d: nat, j: nat)
    requires j < |t.actions|
  {
    var stack := StackAt(t, i, j);
    t.actions[j] == Throw(i) && |stack| == d + 1 && stack[0].Running?
  }

  predicate RemovedAt(t: Trace, id: Id, k: nat) {
    k <= |t.actions| && id in BusAt(t, k).subs && BusAt(t, k).subs[id].removed
  }

  /** Of the first targets, each visited at its time, those that were not marked removed then. */
  function Kept(t: Trace, targets: seq<Id>, times: seq<nat>): seq<Id>
    requires |times| <= |targets|
    decreases |times|
  {
    if times == [] then []
    else
      var q := |times| - 1;
      var kept := Kept(t, targets, times[..q]);
      if RemovedAt(t, targets[q], times[q]) then kept else kept + [targets[q]]
  }

  /** The publish reaches a target in action k: it moves on and is in no handler. */
  predicate Reaches(t: Trace, i: nat, d: nat, k: nat)
    requires k < |t.actions|
  {
    var stack := StackAt(t, i, k);
    t.actions[k] == Advance(i) && |stack| == d + 1 && !stack[0].Running?
  }

  /** Visit q comes after the ones before and after the calls they led to. */
  predicate IsVisit(
    t: Trace, i: nat, d: nat, m: nat, targets: seq<Id>, times: seq<nat>, q: nat
  ) {
    && q < |times| <= |targets| && m < times[q] < |t.actions| && (q > 0 ==> times[q - 1] < times[q])
    && Reaches(t, i, d, times[q])
    && CallsMade(t, i, d, m, times[q]) == Kept(t, targets, times[..q])
  }

  /** The first targets are reached one after the other at these times, before action k. */
  predicate Visits(
    t: Trace, i: nat, d: nat, m: nat, k: nat, targets: seq<Id>, times: seq<nat>
  ) {
    && |times| <= |targets|
    && forall q: nat {:trigger IsVisit(t, i, d, m, targets, times, q)} :: q < |times| ==>
         times[q] < k && IsVisit(t, i, d, m, targets, times, q)
  }

  // ---- its frame ------------------------------------------------------------------------------------------

  /** The innermost of the calls but those d around it. */
  function FrameOf(s: seq<Frame>, d: nat): Frame
    requires |s| > d
  {
    s[|s| - 1 - d]
  }

  /** How far a publish has come: whether a handler has thrown, the number of visits, the calls made and
      those that had to be made. */
  datatype Progress = Progress(thrown: bool, v: nat, called: seq<Id>, kept: seq<Id>)

  /** What the frame of a publish knows about its progress. */
  predicate OnTheWay(f: Frame, targets: seq<Id>, p: Progress) {
    && !f.Removing? && !f.Waiting? && p.v <= |targets|
    && (if p.thrown then Todo(f) == [] && (f.Looping? || f.Leaving?) else Todo(f) == targets[p.v..])
    && (if f.Entered? then p.kept == p.called + [f.id] else p.kept == p.called)
  }

  /** A call is pushed or popped, or only the innermost one changes. */
  predicate Near(s: seq<Frame>, s': seq<Frame>) {
    || s' == s
    || (|s'| == |s| + 1 && s'[1..] == s)
    || (s != [] && (s' == s[1..] || (|s'| == |s| && s'[1..] == s[1..])))
  }

  lemma ProceedIsNear(b: Bus, i: nat)
    requires i < |b.threads| && b.threads[i].stack != []
    ensures |Proceed(b, i).threads| == |b.threads|
    ensures Near(b.threads[i].stack, Proceed(b, i).threads[i].stack)
  {
  }

  lemma NextIsNear(b: Bus, a: Action, i: nat)
    requires i < |b.threads|
    ensures |Next(b, a).threads| == |b.threads|
    ensures Near(b.threads[i].stack, Next(b, a).threads[i].stack)
  {
    OthersStay(b, a);
    if a == Advance(i) && b.threads[i].stack != [] {
      ProceedIsNear(b, i);
    }
  }

  /** Calls around the innermost one do not change. */
  lemma OuterFrameStays(s: seq<Frame>, s': seq<Frame>, d: nat)
    requires Near(s, s') && |s| > d + 1
    ensures |s'| > d && FrameOf(s', d) == FrameOf(s, d)
  {
  }

  lemma PublishEnters(b: Bus, i: nat, ty: nat)
    requires i < |b.threads| && CanCall(b.threads[i])
    ensures var s, c := b.threads[i].stack, Next(b, Publish(i, ty));
            && i < |c.threads|
            && (c.threads[i].stack == [Looping(Listed(b.registry, ty))] + s
                || (c.threads[i].stack == s && Listed(b.registry, ty) == []))
  {
  }

  /** The frame of a publish, innermost on its thread, after an action. */
  lemma LoopMoves(b: Bus, a: Action, i: nat)
    requires Inv(b) && i < |b.threads| && b.threads[i].stack != [] && b.threads[i].stack[0].Looping?
    ensures var s, s' := b.threads[i].stack, Next(b, a).threads[i].stack;
            var todo := s[0].todo;
            if a != Advance(i) then s' == s
            else if todo == [] then s' == s[1..]
            else |s'| == |s| && todo[0] in b.subs
                 && s'[0] == if b.subs[todo[0]].removed then Looping(todo[1..]) else Entered(todo[0], todo[1..])
  {
    OthersStay(b, a);
    assert StackInv(b.threads[i].stack, b);
    assert FrameInv(b.threads[i].stack[0], b);
  }

  lemma CallMoves(b: Bus, a: Action, i: nat)
    requires Inv(b) && i < |b.threads| && b.threads[i].stack != []
    requires b.threads[i].stack[0].Entered? || b.threads[i].stack[0].Leaving?
    ensures var s, s' := b.threads[i].stack, Next(b, a).threads[i].stack;
            var f := s[0];
            if a != Advance(i) then s' == s
            else |s'| == |s| && s'[0] == if f.Entered? then Running(f.id, f.todo) else Looping(f.todo)
  {
    OthersStay(b, a);
    assert StackInv(b.threads[i].stack, b);
    assert FrameInv(b.threads[i].stack[0], b);
  }

  lemma HandlerMoves(b: Bus, a: Action, i: nat)
    requires i < |b.threads| && b.threads[i].stack != [] && b.threads[i].stack[0].Running?
    ensures var s, s' := b.threads[i].stack, Next(b, a).threads[i].stack;
            var f := s[0];
            if a == Advance(i) then |s'| == |s| && s'[0] == Leaving(f.id, f.todo)
            else if a == Throw(i) then |s'| == |s| && s'[0] == Leaving(f.id, [])
            else s' == s || (|s'| == |s| + 1 && s'[1..] == s)
  {
    OthersStay(b, a);
  }

  // ---- the whole publish --------------------------------------------------------------------------------

  function ProgressAt(
    t: Trace, i: nat, d: nat, m: nat, k: nat, targets: seq<Id>, times: seq<nat>
  ): Progress
    requires m <= k <= |t.actions| && |times| <= |targets|
  {
    Progress(Thrown(t, i, d, m, k), |times|, CallsMade(t, i, d, m, k),
             Kept(t, targets, times))
  }

  /** The progress after an action that is no visit. */
  function Moved(p: Progress, throws: bool, s: seq<Frame>, s': seq<Frame>, d: nat): Progress {
    p.(thrown := p.thrown || throws, called := if Begins(s, s', d) then p.called + [s'[0].id] else p.called)
  }

  function Visited(p: Progress, id: Id, removed: bool): Progress {
    p.(v := p.v + 1, kept := if removed then p.kept else p.kept + [id])
  }

  /** Before action k the publish is under way, and these are its visits so far. */
  predicate Underway(
    t: Trace, i: nat, d: nat, m: nat, k: nat, targets: seq<Id>, times: seq<nat>
  )
    requires m <= k <= |t.actions|
  {
    var s := StackAt(t, i, k);
    && |s| > d && Visits(t, i, d, m, k, targets, times)
    && OnTheWay(FrameOf(s, d), targets, ProgressAt(t, i, d, m, k, targets, times))
  }

  ghost predicate IsUnderway(t: Trace, i: nat, d: nat, m: nat, k: nat, targets: seq<Id>)
    requires m <= k <= |t.actions|
  {
    exists times :: Underway(t, i, d, m, k, targets, times)
  }

  lemma ProgressMoves(
    t: Trace, i: nat, d: nat, m: nat, k: nat, targets: seq<Id>, times: seq<nat>
  )
    requires m < k < |t.actions| && |times| <= |targets|
    ensures ProgressAt(t, i, d, m, k + 1, targets, times)
            == Moved(ProgressAt(t, i, d, m, k, targets, times), ThrowsAt(t, i, d, k),
                     StackAt(t, i, k), StackAt(t, i, k + 1), d)
  {
  }

  lemma ProgressVisits(
    t: Trace, i: nat, d: nat, m: nat, k: nat, targets: seq<Id>, times: seq<nat>
  )
    requires m <= k < |t.actions| && |times| < |targets|
    ensures var id := targets[|times|];
            ProgressAt(t, i, d, m, k + 1, targets, times + [k])
            == Visited(ProgressAt(t, i, d, m, k + 1, targets, times), id, RemovedAt(t, id, k))
  {
    var more := times + [k];
    assert more[..|times|] == times;
  }

  lemma EarlierVisit(
    t: Trace, i: nat, d: nat, m: nat, targets: seq<Id>, times: seq<nat>, k: nat, q: nat
  )
    requires |times| < |targets| && IsVisit(t, i, d, m, targets, times, q)
    ensures IsVisit(t, i, d, m, targets, times + [k], q)
  {
    var more := times + [k];
    assert more[..q] == times[..q] && more[q] == times[q] && (q > 0 ==> more[q - 1] == times[q - 1]);
  }

  lemma NextVisit(
    t: Trace, i: nat, d: nat, m: nat, k: nat, targets: seq<Id>, times: seq<nat>
  )
    requires m < k < |t.actions| && |times| < |targets| && Visits(t, i, d, m, k, targets, times)
    requires Reaches(t, i, d, k)
    requires CallsMade(t, i, d, m, k) == Kept(t, targets, times)
    ensures Visits(t, i, d, m, k + 1, targets, times + [k])
  {
    var more, last := times + [k], |times|;
    assert more[..last] == times && more[last] == k;
    if last > 0 {
      assert IsVisit(t, i, d, m, targets, times, last - 1);
      assert more[last - 1] == times[last - 1];
    }
    assert IsVisit(t, i, d, m, targets, more, last);
    forall q: nat | q < |more|
      ensures more[q] < k + 1 && IsVisit(t, i, d, m, targets, more, q)
    {
      if q < last {
        EarlierVisit(t, i, d, m, targets, times, k, q);
      }
    }
  }

  /** The stacks before and after action k of a thread. */
  lemma StackAfter(n: nat, t: Trace, i: nat, k: nat) returns (b: Bus)
    requires IsTrace(n, t)
    requires k < |t.actions| && StackAt(t, i, k) != []
    ensures b == BusAt(t, k) && Inv(b) && i < |b.threads| && b.threads[i].stack == StackAt(t, i, k)
    ensures |Next(b, t.actions[k]).threads| == |b.threads|
    ensures Next(b, t.actions[k]).threads[i].stack == StackAt(t, i, k + 1)
  {
    b := BusAt(t, k);
    BusIsSound(n, t, k);
    assert Steps(t, k);
    OthersStay(b, t.actions[k]);
  }

  // ---- each action, on its own -------------------------------------------------------------------------

  lemma WayAround(s: seq<Frame>, s': seq<Frame>, d: nat, targets: seq<Id>, p: Progress)
    requires |s| > d + 1 && Near(s, s') && OnTheWay(FrameOf(s, d), targets, p)
    ensures |s'| > d && OnTheWay(FrameOf(s', d), targets, Moved(p, false, s, s', d))
  {
    OuterFrameStays(s, s', d);
  }

  lemma WayInLoop(s: seq<Frame>, s': seq<Frame>, targets: seq<Id>, p: Progress, removed: bool)
    requires s != [] && s[0].Looping? && s[0].todo != [] && |s'| == |s| && OnTheWay(s[0], targets, p)
    requires s'[0] == if removed then Looping(s[0].todo[1..]) else Entered(s[0].todo[0], s[0].todo[1..])
    ensures p.v < |targets| && s[0].todo[0] == targets[p.v]
    ensures OnTheWay(s'[0], targets, Visited(Moved(p, false, s, s', |s| - 1), targets[p.v], removed))
  {
    assert targets[p.v..][1..] == targets[p.v + 1..];
  }

  lemma WayInCall(s: seq<Frame>, s': seq<Frame>, targets: seq<Id>, p: Progress)
    requires s != [] && |s'| == |s| && OnTheWay(s[0], targets, p) && (s[0].Entered? || s[0].Leaving?)
    requires s' == s || s'[0] == if s[0].Entered? then Running(s[0].id, s[0].todo) else Looping(s[0].todo)
    ensures OnTheWay(s'[0], targets, Moved(p, false, s, s', |s| - 1))
  {
  }

  lemma WayInHandler(s: seq<Frame>, s': seq<Frame>, targets: seq<Id>, p: Progress, throws: bool)
    requires s != [] && s[0].Running? && OnTheWay(s[0], targets, p)
    requires || (!throws && (s' == s || (|s'| == |s| + 1 && s'[1..] == s)))
             || (|s'| == |s| && s'[0] == Leaving(s[0].id, if throws then [] else s[0].todo))
    ensures |s'| >= |s| && OnTheWay(s'[|s'| - |s|], targets, Moved(p, throws, s, s', |s| - 1))
  {
  }

  // ---- the whole publish --------------------------------------------------------------------------------

  /** After an action that is no visit the publish is still under way if its frame fits. */
  lemma StaysUnderway(
    t: Trace, i: nat, d: nat, m: nat, k: nat, targets: seq<Id>, times: seq<nat>
  )
    requires m < k < |t.actions| && Underway(t, i, d, m, k, targets, times)
    requires var s, s' := StackAt(t, i, k), StackAt(t, i, k + 1);
             && |s'| > d
             && OnTheWay(FrameOf(s', d), targets, Moved(ProgressAt(t, i, d, m, k, targets, times),
                                                          ThrowsAt(t, i, d, k), s, s', d))
    ensures Underway(t, i, d, m, k + 1, targets, times)
  {
    ProgressMoves(t, i, d, m, k, targets, times);
  }

  lemma StackIsNear(n: nat, t: Trace, i: nat, k: nat)
    requires IsTrace(n, t) && k < |t.actions| && StackAt(t, i, k) != []
    ensures Near(StackAt(t, i, k), StackAt(t, i, k + 1))
  {
    var b := StackAfter(n, t, i, k);
    NextIsNear(b, t.actions[k], i);
  }

  lemma AroundFits(
    n: nat, t: Trace, i: nat, d: nat, m: nat, k: nat, targets: seq<Id>, times: seq<nat>
  )
    requires IsTrace(n, t)
    requires m < k < |t.actions| && Underway(t, i, d, m, k, targets, times)
    requires |StackAt(t, i, k)| > d + 1
    ensures var s, s' := StackAt(t, i, k), StackAt(t, i, k + 1);
            && |s'| > d
            && OnTheWay(FrameOf(s', d), targets,
                        Moved(ProgressAt(t, i, d, m, k, targets, times), false, s, s', d))
  {
    var s, s' := StackAt(t, i, k), StackAt(t, i, k + 1);
    StackIsNear(n, t, i, k);
    WayAround(s, s', d, targets, ProgressAt(t, i, d, m, k, targets, times));
  }

  lemma StepAround(
    n: nat, t: Trace, i: nat, d: nat, m: nat, k: nat, targets: seq<Id>, times: seq<nat>
  )
    requires IsTrace(n, t)
    requires m < k < |t.actions| && Underway(t, i, d, m, k, targets, times)
    requires |StackAt(t, i, k)| > d + 1
    ensures Underway(t, i, d, m, k + 1, targets, times)
  {
    AroundFits(n, t, i, d, m, k, targets, times);
    StaysUnderway(t, i, d, m, k, targets, times);
  }

  lemma StepInCall(
    n: nat, t: Trace, i: nat, d: nat, m: nat, k: nat, targets: seq<Id>, times: seq<nat>
  )
    requires IsTrace(n, t)
    requires m < k < |t.actions| && Underway(t, i, d, m, k, targets, times)
    requires |StackAt(t, i, k)| == d + 1
    requires StackAt(t, i, k)[0].Entered? || StackAt(t, i, k)[0].Leaving?
    ensures Underway(t, i, d, m, k + 1, targets, times)
  {
    var s, s' := StackAt(t, i, k), StackAt(t, i, k + 1);
    var b := StackAfter(n, t, i, k);
    CallMoves(b, t.actions[k], i);
    WayInCall(s, s', targets, ProgressAt(t, i, d, m, k, targets, times));
    StaysUnderway(t, i, d, m, k, targets, times);
  }

  lemma StepInHandler(
    n: nat, t: Trace, i: nat, d: nat, m: nat, k: nat, targets: seq<Id>, times: seq<nat>
  )
    requires IsTrace(n, t)
    requires m < k < |t.actions| && Underway(t, i, d, m, k, targets, times)
    requires |StackAt(t, i, k)| == d + 1 && StackAt(t, i, k)[0].Running?
    ensures Underway(t, i, d, m, k + 1, targets, times)
  {
    var s, s' := StackAt(t, i, k), StackAt(t, i, k + 1);
    var b := StackAfter(n, t, i, k);
    HandlerMoves(b, t.actions[k], i);
    WayInHandler(s, s', targets, ProgressAt(t, i, d, m, k, targets, times), t.actions[k] == Throw(i));
    StaysUnderway(t, i, d, m, k, targets, times);
  }

  /** A publish in its loop reaches its next target, or it is over. */
  lemma Reached(
    n: nat, t: Trace, i: nat, d: nat, m: nat, k: nat, targets: seq<Id>, times: seq<nat>
  )
    requires IsTrace(n, t)
    requires m < k < |t.actions| && Underway(t, i, d, m, k, targets, times)
    requires |StackAt(t, i, k)| == d + 1 && StackAt(t, i, k)[0].Looping?
    requires t.actions[k] == Advance(i) && |StackAt(t, i, k + 1)| > d
    ensures |times| < |targets| && Underway(t, i, d, m, k + 1, targets, times + [k])
  {
    var s, s' := StackAt(t, i, k), StackAt(t, i, k + 1);
    var p := ProgressAt(t, i, d, m, k, targets, times);
    var b := StackAfter(n, t, i, k);
    LoopMoves(b, t.actions[k], i);
    assert b.subs[s[0].todo[0]].removed == RemovedAt(t, s[0].todo[0], k);
    WayInLoop(s, s', targets, p, b.subs[s[0].todo[0]].removed);
    NextVisit(t, i, d, m, k, targets, times);
    ProgressMoves(t, i, d, m, k, targets, times);
    ProgressVisits(t, i, d, m, k, targets, times);
  }

  lemma LoopWaits(
    n: nat, t: Trace, i: nat, d: nat, m: nat, k: nat, targets: seq<Id>, times: seq<nat>
  )
    requires IsTrace(n, t)
    requires m < k < |t.actions| && Underway(t, i, d, m, k, targets, times)
    requires |StackAt(t, i, k)| == d + 1 && StackAt(t, i, k)[0].Looping?
    requires t.actions[k] != Advance(i)
    ensures Underway(t, i, d, m, k + 1, targets, times)
  {
    var p := ProgressAt(t, i, d, m, k, targets, times);
    var b := StackAfter(n, t, i, k);
    LoopMoves(b, t.actions[k], i);
    StaysUnderway(t, i, d, m, k, targets, times);
  }

  lemma StepInLoop(
    n: nat, t: Trace, i: nat, d: nat, m: nat, k: nat, targets: seq<Id>, times: seq<nat>
  ) returns (times': seq<nat>)
    requires IsTrace(n, t)
    requires m < k < |t.actions| && Underway(t, i, d, m, k, targets, times)
    requires |StackAt(t, i, k)| == d + 1 && StackAt(t, i, k)[0].Looping?
    requires |StackAt(t, i, k + 1)| > d
    ensures Underway(t, i, d, m, k + 1, targets, times')
  {
    if t.actions[k] == Advance(i) {
      Reached(n, t, i, d, m, k, targets, times);
      times' := times + [k];
    } else {
      LoopWaits(n, t, i, d, m, k, targets, times);
      times' := times;
    }
  }

  lemma PublishBegins(n: nat, t: Trace, i: nat, ty: nat, m: nat)
    requires IsTrace(n, t)
    requires m < |t.actions| && t.actions[m] == Publish(i, ty) && IsCall(t, m)
    ensures var targets := OfType(BookAt(t, m).entries, ty);
            var s, s' := StackAt(t, i, m), StackAt(t, i, m + 1);
            if |s'| > |s| then |s'| == |s| + 1 && s'[0] == Looping(targets) else targets == []
  {
    var b := BusAt(t, m);
    assert Steps(t, m);
    PublishEnters(b, i, ty);
    ListsAreTheBook(n, t, m);
    assert Listed(b.registry, ty) == OfType(BookAt(t, m).entries, ty);
  }

  lemma NothingYet(t: Trace, i: nat, m: nat, targets: seq<Id>)
    requires m < |t.actions|
    ensures ProgressAt(t, i, |StackAt(t, i, m)|, m, m + 1, targets, []) == Progress(false, 0, [], [])
  {
    var d := |StackAt(t, i, m)|;
    assert CallsMade(t, i, d, m, m) == [];
  }

  /** The publish takes its copy: its targets are the ids registered for the type. */
  lemma FirstAction(n: nat, t: Trace, i: nat, ty: nat, d: nat, m: nat, targets: seq<Id>)
    requires IsTrace(n, t)
    requires m < |t.actions| && t.actions[m] == Publish(i, ty) && IsCall(t, m) && d == |StackAt(t, i, m)|
    requires targets == OfType(BookAt(t, m).entries, ty) && |StackAt(t, i, m + 1)| > d
    ensures IsUnderway(t, i, d, m, m + 1, targets)
  {
    PublishBegins(n, t, i, ty, m);
    NothingYet(t, i, m, targets);
    assert Underway(t, i, d, m, m + 1, targets, []);
  }

  lemma InItsFrame(
    t: Trace, i: nat, d: nat, m: nat, k: nat, targets: seq<Id>, times: seq<nat>
  )
    requires m < k < |t.actions| && Underway(t, i, d, m, k, targets, times)
    requires |StackAt(t, i, k)| == d + 1
    ensures var f := StackAt(t, i, k)[0];
            f.Looping? || f.Running? || f.Entered? || f.Leaving?
  {
  }

  lemma OwnAction(
    n: nat, t: Trace, i: nat, d: nat, m: nat, k: nat, targets: seq<Id>, times: seq<nat>
  )
    requires IsTrace(n, t)
    requires m < k < |t.actions| && Underway(t, i, d, m, k, targets, times)
    requires |StackAt(t, i, k)| == d + 1 && |StackAt(t, i, k + 1)| > d
    ensures IsUnderway(t, i, d, m, k + 1, targets)
  {
    InItsFrame(t, i, d, m, k, targets, times);
    if StackAt(t, i, k)[0].Looping? {
      var more := StepInLoop(n, t, i, d, m, k, targets, times);
    } else if StackAt(t, i, k)[0].Running? {
      StepInHandler(n, t, i, d, m, k, targets, times);
    } else {
      StepInCall(n, t, i, d, m, k, targets, times);
    }
  }

  lemma OneAction(n: nat, t: Trace, i: nat, d: nat, m: nat, k: nat, targets: seq<Id>)
    requires IsTrace(n, t)
    requires m < k < |t.actions| && IsUnderway(t, i, d, m, k, targets) && |StackAt(t, i, k + 1)| > d
    ensures IsUnderway(t, i, d, m, k + 1, targets)
  {
    var times :| Underway(t, i, d, m, k, targets, times);
    if |StackAt(t, i, k)| > d + 1 {
      StepAround(n, t, i, d, m, k, targets, times);
    } else {
      OwnAction(n, t, i, d, m, k, targets, times);
    }
  }

  /** The publish returns in action k: nothing was left to visit. */
  lemma Returns(
    n: nat, t: Trace, i: nat, d: nat, m: nat, k: nat, targets: seq<Id>, times: seq<nat>
  )
    requires IsTrace(n, t)
    requires m < k < |t.actions| && Underway(t, i, d, m, k, targets, times)
    requires |StackAt(t, i, k + 1)| <= d
    ensures var p := ProgressAt(t, i, d, m, k + 1, targets, times);
            p.called == p.kept && (!p.thrown ==> |times| == |targets|)
  {
    var s, s' := StackAt(t, i, k), StackAt(t, i, k + 1);
    var b := StackAfter(n, t, i, k);
    NextIsNear(b, t.actions[k], i);
    if s[0].Looping? {
      LoopMoves(b, t.actions[k], i);
    } else if s[0].Running? {
      HandlerMoves(b, t.actions[k], i);
    } else {
      CallMoves(b, t.actions[k], i);
    }
    ProgressMoves(t, i, d, m, k, targets, times);
    var p := ProgressAt(t, i, d, m, k, targets, times);
  }

  /** The publish came to its end as it should. */
  predicate Ended(
    t: Trace, i: nat, d: nat, m: nat, e: nat, targets: seq<Id>, times: seq<nat>
  )
    requires m <= e <= |t.actions|
  {
    && Visits(t, i, d, m, e, targets, times)
    && CallsMade(t, i, d, m, e) == Kept(t, targets, times)
    && (!Thrown(t, i, d, m, e) ==> |times| == |targets|)
  }

  /** A publish without targets is over at once. */
  lemma NobodyToCall(t: Trace, i: nat, d: nat, m: nat, e: nat, targets: seq<Id>)
    requires e == m + 1 <= |t.actions| && d == |StackAt(t, i, m)| && targets == []
    ensures Ended(t, i, d, m, e, targets, [])
  {
    assert CallsMade(t, i, d, m, m) == [];
  }

  lemma VisitsLast(
    t: Trace, i: nat, d: nat, m: nat, k: nat, e: nat, targets: seq<Id>, times: seq<nat>
  )
    requires k <= e && Visits(t, i, d, m, k, targets, times)
    ensures Visits(t, i, d, m, e, targets, times)
  {
    forall q: nat | q < |times|
      ensures times[q] < e && IsVisit(t, i, d, m, targets, times, q)
    {
      assert IsVisit(t, i, d, m, targets, times, q);
    }
  }

  /** Every target was reached, or a handler has thrown. */
  ghost predicate HasEnded(t: Trace, i: nat, d: nat, m: nat, e: nat, targets: seq<Id>)
    requires m <= e <= |t.actions|
  {
    exists times :: Ended(t, i, d, m, e, targets, times)
  }

  lemma LastAction(
    n: nat, t: Trace, i: nat, d: nat, m: nat, k: nat, e: nat, targets: seq<Id>, times: seq<nat>
  )
    requires IsTrace(n, t)
    requires m < k < e <= |t.actions| && e == k + 1 && Underway(t, i, d, m, k, targets, times)
    requires |StackAt(t, i, e)| <= d
    ensures Ended(t, i, d, m, e, targets, times)
  {
    Returns(n, t, i, d, m, k, targets, times);
    VisitsLast(t, i, d, m, k, e, targets, times);
  }

  lemma EndsHere(n: nat, t: Trace, i: nat, d: nat, m: nat, k: nat, e: nat, targets: seq<Id>)
    requires IsTrace(n, t)
    requires m < k < e <= |t.actions| && e == k + 1 && IsUnderway(t, i, d, m, k, targets)
    requires |StackAt(t, i, e)| <= d
    ensures HasEnded(t, i, d, m, e, targets)
  {
    var times :| Underway(t, i, d, m, k, targets, times);
    LastAction(n, t, i, d, m, k, e, targets, times);
  }

  lemma GoesOn(n: nat, t: Trace, i: nat, d: nat, m: nat, k: nat, next: nat, e: nat, targets: seq<Id>)
    requires IsTrace(n, t)
    requires m < k < next == k + 1 < e <= |t.actions| && InPublish(t, i, m, d, e - 1)
    requires IsUnderway(t, i, d, m, k, targets)
    ensures IsUnderway(t, i, d, m, next, targets)
  {
    assert IsDeeper(t, i, d, k + 1);
    OneAction(n, t, i, d, m, k, targets);
  }

  /** Between its first and its last action the publish stays under way. */
  lemma {:induction false} StaysInside(
    n: nat, t: Trace, i: nat, d: nat, m: nat, k: nat, e: nat, targets: seq<Id>
  )
    requires IsTrace(n, t)
    requires m < k < e <= |t.actions| && InPublish(t, i, m, d, e - 1)
    requires IsUnderway(t, i, d, m, m + 1, targets)
    ensures IsUnderway(t, i, d, m, k, targets)
    decreases k
  {
    if k > m + 1 {
      StaysInside(n, t, i, d, m, k - 1, e, targets);
      GoesOn(n, t, i, d, m, k - 1, k, e, targets);
    }
  }

  /** A publish without targets is over at once. */
  lemma EndsAtOnce(n: nat, t: Trace, i: nat, ty: nat, m: nat, d: nat, e: nat, targets: seq<Id>)
    requires IsTrace(n, t) && IsPublish(t, i, ty, m, d, e) && e == m + 1
    requires targets == OfType(BookAt(t, m).entries, ty)
    ensures HasEnded(t, i, d, m, e, targets)
  {
    PublishBegins(n, t, i, ty, m);
    NobodyToCall(t, i, d, m, e, targets);
    assert Ended(t, i, d, m, e, targets, []);
  }

  lemma StaysAfterFirst(n: nat, t: Trace, i: nat, ty: nat, m: nat, d: nat, e: nat, targets: seq<Id>)
    requires IsTrace(n, t) && IsPublish(t, i, ty, m, d, e) && e > m + 1
    requires targets == OfType(BookAt(t, m).entries, ty)
    ensures IsUnderway(t, i, d, m, m + 1, targets)
  {
    assert IsDeeper(t, i, d, m + 1);
    FirstAction(n, t, i, ty, d, m, targets);
  }

  /** All different, in the order of the subscriptions. */
  predicate Increases(ids: seq<Id>) {
    forall p, q :: 0 <= p < q < |ids| ==> ids[p] < ids[q]
  }

  lemma {:induction false} TargetsIncrease(entries: seq<Entry>, ty: nat)
    requires Ordered(entries)
    ensures Increases(OfType(entries, ty))
    decreases |entries|
  {
    if entries != [] {
      var ids := OfType(entries[1..], ty);
      TargetsIncrease(entries[1..], ty);
      forall q | 0 <= q < |ids|
        ensures entries[0].id < ids[q]
      {
        OfTypeMembers(entries[1..], ty, ids[q]);
      }
    }
  }

  /**
   * A publish that ends without a throw has called, in the order of their subscriptions and once each,
   * exactly the handlers that were registered for its type when it began and were not marked removed when
   * it reached them, one after the other. After a throw the same holds of those it reached before.
   */
  lemma PublishCallsItsTargets(n: nat, t: Trace, i: nat, ty: nat, m: nat, d: nat, e: nat)
    requires IsTrace(n, t) && IsPublish(t, i, ty, m, d, e)
    ensures HasEnded(t, i, d, m, e, OfType(BookAt(t, m).entries, ty))
    ensures Increases(OfType(BookAt(t, m).entries, ty))
  {
    var targets := OfType(BookAt(t, m).entries, ty);
    ListsAreTheBook(n, t, m);
    TargetsIncrease(BookAt(t, m).entries, ty);
    if e == m + 1 {
      EndsAtOnce(n, t, i, ty, m, d, e, targets);
    } else {
      StaysAfterFirst(n, t, i, ty, m, d, e, targets);
      StaysInside(n, t, i, d, m, e - 1, e, targets);
      EndsHere(n, t, i, d, m, e - 1, e, targets);
    }
  }

  // ---- which targets are called ---------------------------------------------------------------------------

  /** id is marked removed, or an unsubscribe that has erased it is about to do so. */
  ghost predicate Marked(b: Bus, id: Id) {
    || (id in b.subs && b.subs[id].removed)
    || exists i :: 0 <= i < |b.threads| && AboutToMark(b.threads[i].stack, id)
  }

  predicate AboutToMark(stack: seq<Frame>, id: Id) {
    stack != [] && stack[0] == Removing(id)
  }

  predicate Unsubscribes(t: Trace, id: Id, j: nat)
    requires j < |t.actions|
  {
    t.actions[j].Unsubscribe? && t.actions[j].id == id && IsCall(t, j)
  }

  ghost predicate WasUnsubscribed(t: Trace, id: Id, k: nat)
    requires k <= |t.actions|
  {
    exists j: nat :: j < k && Unsubscribes(t, id, j)
  }

  lemma ProceedMarks(b: Bus, i: nat, id: Id)
    requires i < |b.threads| && b.threads[i].stack != [] && NestInv(b.threads[i])
    requires !(id in b.subs && b.subs[id].removed) && !AboutToMark(b.threads[i].stack, id)
    ensures var c := Proceed(b, i);
            && i < |c.threads| && !(id in c.subs && c.subs[id].removed) && !AboutToMark(c.threads[i].stack, id)
  {
  }

  lemma OnlyUnsubscribeMarks(b: Bus, a: Action, id: Id)
    requires Inv(b) && Marked(Next(b, a), id) && !Marked(b, id)
    ensures a.Unsubscribe? && a.id == id && a.i < |b.threads| && CanCall(b.threads[a.i])
  {
    OthersStay(b, a);
    if a.i < |b.threads| {
      assert NestInv(b.threads[a.i]) && !AboutToMark(b.threads[a.i].stack, id);
      if a.Advance? && b.threads[a.i].stack != [] {
        ProceedMarks(b, a.i, id);
      }
    }
  }

  lemma {:induction false} MarkedMeansUnsubscribed(n: nat, t: Trace, id: Id, k: nat)
    requires IsTrace(n, t) && k <= |t.actions| && Marked(BusAt(t, k), id)
    ensures WasUnsubscribed(t, id, k)
    decreases k
  {
    if k > 0 {
      var b := BusAt(t, k - 1);
      assert Steps(t, k - 1);
      BusIsSound(n, t, k - 1);
      if Marked(b, id) {
        MarkedMeansUnsubscribed(n, t, id, k - 1);
        var j: nat :| j < k - 1 && Unsubscribes(t, id, j);
      } else {
        OnlyUnsubscribeMarks(b, t.actions[k - 1], id);
        assert Unsubscribes(t, id, k - 1);
      }
    }
  }

  lemma {:induction false} KeptUnlessRemoved(t: Trace, targets: seq<Id>, times: seq<nat>, q: nat)
    requires q < |times| <= |targets| && !RemovedAt(t, targets[q], times[q])
    ensures targets[q] in Kept(t, targets, times)
    decreases |times|
  {
    var last := |times| - 1;
    if q < last {
      KeptUnlessRemoved(t, targets, times[..last], q);
    }
  }

  /** A handler that is registered when the publish begins, and that nobody unsubscribes before it ends, is
      called unless another one throws. */
  lemma StayingHandlersAreCalled(n: nat, t: Trace, i: nat, ty: nat, m: nat, d: nat, e: nat, id: Id)
    requires IsTrace(n, t) && IsPublish(t, i, ty, m, d, e) && !Thrown(t, i, d, m, e)
    requires id in OfType(BookAt(t, m).entries, ty) && !WasUnsubscribed(t, id, e)
    ensures id in CallsMade(t, i, d, m, e)
  {
    var targets := OfType(BookAt(t, m).entries, ty);
    PublishCallsItsTargets(n, t, i, ty, m, d, e);
    var times :| Ended(t, i, d, m, e, targets, times);
    var q: nat :| q < |targets| && targets[q] == id;
    assert IsVisit(t, i, d, m, targets, times, q);
    if RemovedAt(t, id, times[q]) {
      MarkedMeansUnsubscribed(n, t, id, times[q]);
    }
    KeptUnlessRemoved(t, targets, times, q);
  }
}
