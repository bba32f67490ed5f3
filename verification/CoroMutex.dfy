/**
 * The coroutine mutex, as an interleaving of any number of threads over one atomic word and a heap of awaiters.
 * `state_` is "unlocked", "locked, no new waiters" (null), or the head of a stack of awaiters linked by `next_`; the
 * holder owns a second, private list `waiters_`.  Each step below reads or writes shared memory once.
 */
module CoroMutex {
  import opened Sequences

  type Thread(==, !new)
  type Addr(==, !new)

  datatype Word = Unlocked | Null | Ptr(addr: Addr)

  datatype Awaiter = Awaiter(next: Word, handle: Thread)

  /** Where a thread is; the awaiter of a lock call lives at address `a`. */
  datatype Pc =
    | Idle
    | Loading(a: Addr)                      // asynclockImpl, before the load
    | Looping(a: Addr, seen: Word)          // head of the loop, oldValue == seen
    | Linked(a: Addr, seen: Word)           // next_ written, before the push
    | Suspended(a: Addr)
    | Granted(a: Addr)                      // resumed by a handoff, not running yet
    | Holding
    | Checking                              // unlock: waiters_ was null, before the load of state_
    | Releasing                             // unlock: state_ was null, before the exchange to unlocked
    | Grabbing                              // unlock: before the exchange that takes the stack
    | Reversing(waiter: Addr, head: Word)   // unlock: head of the reversal loop
    | Popping(first: Addr)                  // unlock: waitersHead == first
    | Resuming(first: Addr)                 // unlock: waiters_ advanced, before the resume

  datatype Mutex = Mutex(state: Word, waiters: Word, heap: map<Addr, Awaiter>, pcs: map<Thread, Pc>)

  function PcOf(s: Mutex, t: Thread): Pc {
    if t in s.pcs then s.pcs[t] else Idle
  }

  function AwaiterOf(pc: Pc): Option<Addr> {
    match pc
    case Loading(a) => Some(a)
    case Looping(a, _) => Some(a)
    case Linked(a, _) => Some(a)
    case Suspended(a) => Some(a)
    case Granted(a) => Some(a)
    case _ => None
  }

  /** The thread has the lock, is being handed the lock, or is inside unlock. */
  predicate Owns(pc: Pc) {
    pc.Granted? || pc.Holding? || pc.Checking? || pc.Releasing? || pc.Grabbing? || pc.Reversing? || pc.Popping? || pc.Resuming?
  }

  ghost predicate Unused(s: Mutex, a: Addr) {
    forall t :: AwaiterOf(PcOf(s, t)) != Some(a)
  }

  // ---------------------------------------------------------------- steps

  datatype Action =
    | TryLock
    | StartLock(a: Addr, junk: Word)   // a new awaiter, at any address not in use; next_ is uninitialised
    | Load(v: Word)                    // the relaxed load; it may return any value, however stale
    | Link
    | CasAcquire
    | CasPush
    | CasFail(v: Word)                 // a failed exchange, also a spurious one; it too may load a stale value
    | BeginUnlock
    | Check
    | Release
    | Grab
    | Reverse
    | Pop
    | Resume
    | Wake

  ghost predicate Enabled(s: Mutex, t: Thread, act: Action) {
    var pc := PcOf(s, t);
    match act
    case TryLock => pc.Idle?
    case StartLock(a, _) => pc.Idle? && Unused(s, a)
    case Load(_) => pc.Loading?
    case Link => pc.Looping? && pc.seen != Unlocked && pc.a in s.heap
    case CasAcquire => pc.Looping? && pc.seen == Unlocked && s.state == Unlocked
    case CasPush => pc.Linked? && s.state == pc.seen
    case CasFail(_) => pc.Linked? || (pc.Looping? && pc.seen == Unlocked)
    case BeginUnlock => pc.Holding? && !s.waiters.Unlocked?
    case Check => pc.Checking?
    case Release => pc.Releasing?
    case Grab => pc.Grabbing? && s.state.Ptr?
    case Reverse => pc.Reversing? && pc.waiter in s.heap && !s.heap[pc.waiter].next.Unlocked?
    case Pop => pc.Popping? && pc.first in s.heap
    case Resume => pc.Resuming? && pc.first in s.heap
    case Wake => pc.Granted?
  }

  function Goto(s: Mutex, t: Thread, pc: Pc): Mutex {
    s.(pcs := s.pcs[t := pc])
  }

  function SetNext(s: Mutex, a: Addr, next: Word): Mutex
    requires a in s.heap
  {
    s.(heap := s.heap[a := s.heap[a].(next := next)])
  }

  ghost function Apply(s: Mutex, t: Thread, act: Action): Mutex
    requires Enabled(s, t, act)
  {
    var pc := PcOf(s, t);
    match act
    case TryLock =>
      if s.state == Unlocked then Goto(s, t, Holding).(state := Null) else s
    case StartLock(a, junk) =>
      if s.state == Unlocked then Goto(s, t, Holding).(state := Null)
      else Goto(s, t, Loading(a)).(heap := s.heap[a := Awaiter(junk, t)])
    case Load(v) => Goto(s, t, Looping(pc.a, v))
    case Link => Goto(SetNext(s, pc.a, pc.seen), t, Linked(pc.a, pc.seen))
    case CasAcquire => Goto(s, t, Holding).(state := Null)
    case CasPush => Goto(s, t, Suspended(pc.a)).(state := Ptr(pc.a))
    case CasFail(v) => Goto(s, t, Looping(pc.a, v))
    case BeginUnlock => Goto(s, t, if s.waiters.Ptr? then Popping(s.waiters.addr) else Checking)
    case Check => Goto(s, t, if s.state == Null then Releasing else Grabbing)
    case Release =>
      if s.state == Null then Goto(s, t, Idle).(state := Unlocked) else Goto(s, t, Grabbing)
    case Grab => Goto(s, t, Reversing(s.state.addr, Null)).(state := Null)
    case Reverse =>
      var temp := s.heap[pc.waiter].next;
      Goto(SetNext(s, pc.waiter, pc.head), t,
           if temp.Ptr? then Reversing(temp.addr, Ptr(pc.waiter)) else Popping(pc.waiter))
    case Pop => Goto(s, t, Resuming(pc.first)).(waiters := s.heap[pc.first].next)
    case Resume =>
      Goto(Goto(s, t, Idle), s.heap[pc.first].handle, Granted(pc.first))
    case Wake => Goto(s, t, Holding)
  }

  function Init(): Mutex {
    Mutex(Unlocked, Null, map[], map[])
  }

  // ---------------------------------------------------------------- the lists in the heap

  predicate Chain(heap: map<Addr, Awaiter>, from: Word, list: seq<Addr>)
    decreases |list|
  {
    if list == [] then from == Null
    else from == Ptr(list[0]) && list[0] in heap && Chain(heap, heap[list[0]].next, list[1..])
  }

  lemma {:induction false} ChainFrame(heap: map<Addr, Awaiter>, heap': map<Addr, Awaiter>, from: Word, list: seq<Addr>)
    requires Chain(heap, from, list)
    requires forall a | a in list :: a in heap && a in heap' && heap'[a].next == heap[a].next
    ensures Chain(heap', from, list)
    decreases |list|
  {
    if list != [] {
      ChainFrame(heap, heap', heap[list[0]].next, list[1..]);
    }
  }

  /** The owner, and the lists: the rest of a grabbed stack, the private list, the stack of new waiters. */
  datatype Aux = Aux(owner: Option<Thread>, todo: seq<Addr>, fifo: seq<Addr>, stack: seq<Addr>)

  /** All waiting awaiters, the longest waiting first. */
  function Queue(x: Aux): seq<Addr> {
    Reversed(x.todo) + x.fifo + Reversed(x.stack)
  }

  /** How the word, `waiters_` and the owner's locals hold the lists. */
  predicate ListsOk(s: Mutex, x: Aux) {
    && (if x.owner.None? then
          s.state == Unlocked && s.waiters == Null && x.todo == [] && x.fifo == [] && x.stack == []
        else
          && Chain(s.heap, s.state, x.stack)
          && (match PcOf(s, x.owner.value)
              case Reversing(w, h) =>
                s.waiters == Null && x.todo != [] && Chain(s.heap, Ptr(w), x.todo) && Chain(s.heap, h, x.fifo)
              case Popping(h) => x.todo == [] && x.fifo != [] && Chain(s.heap, Ptr(h), x.fifo)
              case Resuming(h) =>
                x.todo == [] && x.fifo != [] && x.fifo[0] == h && Chain(s.heap, s.waiters, x.fifo[1..])
              case Checking => x.todo == [] && x.fifo == [] && s.waiters == Null
              case Releasing => x.todo == [] && x.fifo == [] && s.waiters == Null
              case Grabbing => x.todo == [] && x.fifo == [] && s.waiters == Null && s.state != Null
              case _ => x.todo == [] && Chain(s.heap, s.waiters, x.fifo)))
  }

  /** What one thread's program point says about the owner, its awaiter and the queue. */
  predicate ThreadOk(s: Mutex, x: Aux, t: Thread) {
    var pc := PcOf(s, t);
    && (Owns(pc) <==> x.owner == Some(t))
    && (AwaiterOf(pc).Some? ==> AwaiterOf(pc).value in s.heap && s.heap[AwaiterOf(pc).value].handle == t)
    && (pc.Linked? ==> pc.seen != Unlocked && s.heap[pc.a].next == pc.seen)
    && (pc.Suspended? ==> pc.a in Queue(x))
  }

  predicate WaiterOk(s: Mutex, a: Addr) {
    a in s.heap && PcOf(s, s.heap[a].handle) == Suspended(a)
  }

  /** Every suspended awaiter is in the queue, once, and nothing else is. */
  ghost predicate Inv(s: Mutex, x: Aux) {
    && ListsOk(s, x)
    && Distinct(Queue(x))
    && (forall a | a in Queue(x) :: WaiterOk(s, a))
    && (forall t :: ThreadOk(s, x, t))
  }

  function AuxStep(s: Mutex, x: Aux, t: Thread, act: Action): Aux {
    var pc := PcOf(s, t);
    match act
    case TryLock => if s.state == Unlocked then x.(owner := Some(t)) else x
    case StartLock(_, _) => if s.state == Unlocked then x.(owner := Some(t)) else x
    case CasAcquire => x.(owner := Some(t))
    case CasPush => if pc.Linked? then x.(stack := [pc.a] + x.stack) else x
    case Release => if s.state == Null then x.(owner := None) else x
    case Grab => x.(todo := x.stack, stack := [])
    case Reverse => if x.todo != [] then x.(todo := x.todo[1..], fifo := [x.todo[0]] + x.fifo) else x
    case Resume =>
      if pc.Resuming? && pc.first in s.heap && x.fifo != [] then
        x.(owner := Some(s.heap[pc.first].handle), fifo := x.fifo[1..])
      else x
    case _ => x
  }

  // ---------------------------------------------------------------- the queue lock it refines

  /** A lock with a queue; `pushed` and `granted` record who joined the queue and who left it with the lock. */
  datatype FifoLock = FifoLock(owner: Option<Thread>, queue: seq<Thread>, pushed: seq<Thread>, granted: seq<Thread>)

  datatype Event = Stutter | Acquire(t: Thread) | Enqueue(t: Thread) | Handoff | Free

  /** Nobody takes the lock past a waiter, and it is freed only when nobody waits. */
  predicate May(l: FifoLock, e: Event) {
    match e
    case Stutter => true
    case Acquire(_) => l.owner.None? && l.queue == []
    case Enqueue(_) => l.owner.Some?
    case Handoff => l.owner.Some? && l.queue != []
    case Free => l.owner.Some? && l.queue == []
  }

  function Do(l: FifoLock, e: Event): FifoLock
    requires May(l, e)
  {
    match e
    case Stutter => l
    case Acquire(t) => l.(owner := Some(t))
    case Enqueue(t) => l.(queue := l.queue + [t], pushed := l.pushed + [t])
    case Handoff => l.(owner := Some(l.queue[0]), queue := l.queue[1..], granted := l.granted + [l.queue[0]])
    case Free => l.(owner := None)
  }

  function Threads(heap: map<Addr, Awaiter>, list: seq<Addr>): seq<Thread>
    requires forall a | a in list :: a in heap
  {
    seq(|list|, i requires 0 <= i < |list| => heap[list[i]].handle)
  }

  ghost predicate Rel(s: Mutex, x: Aux, l: FifoLock) {
    && Inv(s, x) && l.owner == x.owner && l.queue == Threads(s.heap, Queue(x))
    && l.pushed == l.granted + l.queue
  }

  ghost function EventOf(s: Mutex, t: Thread, act: Action): Event {
    match act
    case TryLock => if s.state == Unlocked then Acquire(t) else Stutter
    case StartLock(_, _) => if s.state == Unlocked then Acquire(t) else Stutter
    case CasAcquire => Acquire(t)
    case CasPush => Enqueue(t)
    case Release => if s.state == Null then Free else Stutter
    case Resume => Handoff
    case _ => Stutter
  }

  // ---------------------------------------------------------------- one lemma a step

  lemma QueueMembers(x: Aux)
    ensures forall a :: a in Queue(x) <==> a in x.todo || a in x.fifo || a in x.stack
  {
  }

  // The lists do not change when the heap changes elsewhere and the owner stays where it is.
  lemma ListsFrame(s: Mutex, s': Mutex, x: Aux)
    requires ListsOk(s, x) && s'.state == s.state && s'.waiters == s.waiters
    requires x.owner.Some? ==> PcOf(s', x.owner.value) == PcOf(s, x.owner.value)
    requires forall b | b in Queue(x) :: b in s.heap && b in s'.heap && s'.heap[b] == s.heap[b]
    ensures ListsOk(s', x)
  {
    QueueMembers(x);
    if x.owner.Some? {
      ChainFrame(s.heap, s'.heap, s.state, x.stack);
      match PcOf(s, x.owner.value) {
        case Reversing(w, h) =>
          ChainFrame(s.heap, s'.heap, Ptr(w), x.todo);
          ChainFrame(s.heap, s'.heap, h, x.fifo);
        case Popping(h) => ChainFrame(s.heap, s'.heap, Ptr(h), x.fifo);
        case Resuming(h) => ChainFrame(s.heap, s'.heap, s.waiters, x.fifo[1..]);
        case Checking =>
        case Releasing =>
        case Grabbing =>
        case _ => ChainFrame(s.heap, s'.heap, s.waiters, x.fifo);
      }
    }
  }

  // A step of t that leaves the queue as it is: only t's program point changes, and links of waiting awaiters
  // or of t's own.
  lemma Frame(s: Mutex, x: Aux, l: FifoLock, t: Thread, s': Mutex, x': Aux, l': FifoLock)
    requires Rel(s, x, l) && ListsOk(s', x') && Queue(x') == Queue(x)
    requires s'.pcs == s.pcs[t := PcOf(s', t)] && s.heap.Keys <= s'.heap.Keys
    requires !PcOf(s, t).Suspended? && !PcOf(s', t).Suspended? && ThreadOk(s', x', t)
    requires forall u :: u != t ==> (x'.owner == Some(u) <==> x.owner == Some(u))
    requires forall a | a in s.heap && s.heap[a].handle != t :: s'.heap[a].handle == s.heap[a].handle
    requires forall a | a in s.heap && s.heap[a].handle != t && a !in Queue(x) :: s'.heap[a].next == s.heap[a].next
    requires l' == l.(owner := x'.owner)
    ensures Rel(s', x', l')
  {
    hide ListsOk;
    forall u
      ensures ThreadOk(s', x', u)
    {
      assert ThreadOk(s, x, u);
      if PcOf(s, u).Linked? {
        Waits(s, x, PcOf(s, u).a);
      }
    }
    forall a | a in Queue(x')
      ensures WaiterOk(s', a) && s.heap[a].handle != t
    {
      assert WaiterOk(s, a);
    }
    ThreadsSame(s.heap, s'.heap, Queue(x));
  }

  lemma Waits(s: Mutex, x: Aux, a: Addr)
    requires Inv(s, x)
    ensures a in Queue(x) ==> a in s.heap && PcOf(s, s.heap[a].handle) == Suspended(a)
  {
    if a in Queue(x) {
      assert WaiterOk(s, a);
    }
  }

  lemma OwnerLocks(s: Mutex, x: Aux)
    requires Inv(s, x)
    ensures x.owner.Some? ==> s.state != Unlocked
  {
    if x.owner.Some? {
      assert ThreadOk(s, x, x.owner.value) && Chain(s.heap, s.state, x.stack);
    }
  }

  lemma ThreadsSame(heap: map<Addr, Awaiter>, heap': map<Addr, Awaiter>, list: seq<Addr>)
    requires forall a | a in list :: a in heap && a in heap' && heap'[a].handle == heap[a].handle
    ensures Threads(heap', list) == Threads(heap, list)
  {
    forall i | 0 <= i < |list|
      ensures Threads(heap', list)[i] == Threads(heap, list)[i]
    {
      assert list[i] in list;
    }
  }

  // A thread that takes the free lock.
  lemma TakeStep(s: Mutex, x: Aux, l: FifoLock, t: Thread)
    requires Rel(s, x, l) && s.state == Unlocked && !PcOf(s, t).Suspended? && !Owns(PcOf(s, t))
    ensures May(l, Acquire(t))
    ensures Rel(Goto(s, t, Holding).(state := Null), x.(owner := Some(t)), Do(l, Acquire(t)))
  {
    OwnerLocks(s, x);
    Frame(s, x, l, t, Goto(s, t, Holding).(state := Null), x.(owner := Some(t)), Do(l, Acquire(t)));
  }

  // A thread that only moves among the program points outside the queue and the lock.
  lemma MoveStep(s: Mutex, x: Aux, l: FifoLock, t: Thread, pc: Pc)
    requires Rel(s, x, l) && !PcOf(s, t).Suspended? && !Owns(PcOf(s, t))
    requires AwaiterOf(pc) == AwaiterOf(PcOf(s, t)) && (pc.Loading? || pc.Looping?)
    ensures Rel(Goto(s, t, pc), x, l)
  {
    assert ThreadOk(s, x, t);
    hide Queue, ListsOk, Chain, Threads;
    forall a | a in Queue(x)
      ensures a in s.heap
    {
      assert WaiterOk(s, a);
    }
    ListsFrame(s, Goto(s, t, pc), x);
    Frame(s, x, l, t, Goto(s, t, pc), x, l);
  }

  lemma NewAwaiterStep(s: Mutex, x: Aux, l: FifoLock, t: Thread, a: Addr, junk: Word)
    requires Rel(s, x, l) && PcOf(s, t).Idle? && Unused(s, a)
    ensures Rel(Goto(s, t, Loading(a)).(heap := s.heap[a := Awaiter(junk, t)]), x, l)
  {
    var s' := Goto(s, t, Loading(a)).(heap := s.heap[a := Awaiter(junk, t)]);
    assert ThreadOk(s, x, t);
    Waits(s, x, a);
    forall b | b in Queue(x)
      ensures b in s.heap && s'.heap[b] == s.heap[b]
    {
      assert WaiterOk(s, b);
    }
    ListsFrame(s, s', x);
    hide ListsOk, Queue, Chain, Threads;
    forall u
      ensures ThreadOk(s', x, u)
    {
      NewAwaiterThread(s, x, t, a, junk, u);
    }
    hide ThreadOk;
    forall b | b in Queue(x)
      ensures WaiterOk(s', b)
    {
      assert WaiterOk(s, b);
    }
    ThreadsSame(s.heap, s'.heap, Queue(x));
  }

  lemma NewAwaiterThread(s: Mutex, x: Aux, t: Thread, a: Addr, junk: Word, u: Thread)
    requires ThreadOk(s, x, t) && ThreadOk(s, x, u) && PcOf(s, t).Idle? && AwaiterOf(PcOf(s, u)) != Some(a)
    ensures ThreadOk(Goto(s, t, Loading(a)).(heap := s.heap[a := Awaiter(junk, t)]), x, u)
  {
  }

  lemma LinkStep(s: Mutex, x: Aux, l: FifoLock, t: Thread)
    requires Rel(s, x, l) && Enabled(s, t, Link)
    ensures Rel(Apply(s, t, Link), x, l)
  {
    var s', a := Apply(s, t, Link), PcOf(s, t).a;
    assert ThreadOk(s, x, t) && s.heap[a].handle == t;
    hide Queue, ListsOk, Chain, Threads;
    forall b | b in Queue(x)
      ensures b in s.heap && s'.heap[b] == s.heap[b]
    {
      assert WaiterOk(s, b);
    }
    ListsFrame(s, s', x);
    Frame(s, x, l, t, s', x, l);
  }

  lemma QueuePush(x: Aux, a: Addr)
    ensures Queue(x.(stack := [a] + x.stack)) == Queue(x) + [a]
  {
    assert ([a] + x.stack)[1..] == x.stack;
  }

  lemma PushLists(s: Mutex, x: Aux, l: FifoLock, t: Thread)
    requires Rel(s, x, l) && Enabled(s, t, CasPush)
    ensures var x' := x.(stack := [PcOf(s, t).a] + x.stack);
            ListsOk(Apply(s, t, CasPush), x') && x.owner.Some? && x.owner != Some(t)
  {
    var s', a := Apply(s, t, CasPush), PcOf(s, t).a;
    assert ThreadOk(s, x, t);
    assert x.owner.Some? && PcOf(s', x.owner.value) == PcOf(s, x.owner.value);
    assert ([a] + x.stack)[1..] == x.stack;
    assert Chain(s.heap, Ptr(a), [a] + x.stack);
  }

  lemma PushStep(s: Mutex, x: Aux, l: FifoLock, t: Thread)
    requires Rel(s, x, l) && Enabled(s, t, CasPush)
    ensures May(l, Enqueue(t)) && Rel(Apply(s, t, CasPush), AuxStep(s, x, t, CasPush), Do(l, Enqueue(t)))
  {
    var s', a := Apply(s, t, CasPush), PcOf(s, t).a;
    var x' := AuxStep(s, x, t, CasPush);
    PushLists(s, x, l, t);
    QueuePush(x, a);
    hide ListsOk, Queue;
    assert ThreadOk(s, x, t);
    Waits(s, x, a);
    forall u
      ensures ThreadOk(s', x', u)
    {
      assert ThreadOk(s, x, u);
    }
    forall b | b in Queue(x')
      ensures WaiterOk(s', b)
    {
      if b != a {
        assert WaiterOk(s, b);
      }
    }
    assert Threads(s'.heap, Queue(x')) == Threads(s.heap, Queue(x)) + [t];
  }

  // Inside unlock, before and after the reversal.
  lemma UnlockStep(s: Mutex, x: Aux, l: FifoLock, t: Thread, act: Action)
    requires Rel(s, x, l) && Enabled(s, t, act)
    requires act.BeginUnlock? || act.Check? || act.Pop? || act.Wake? || (act.Release? && s.state != Null)
    ensures Rel(Apply(s, t, act), x, l)
  {
    assert ThreadOk(s, x, t) && x.owner == Some(t);
    UnlockLists(s, x, t, act);
    Frame(s, x, l, t, Apply(s, t, act), x, l);
  }

  lemma UnlockLists(s: Mutex, x: Aux, t: Thread, act: Action)
    requires ListsOk(s, x) && x.owner == Some(t) && Enabled(s, t, act)
    requires act.BeginUnlock? || act.Check? || act.Pop? || act.Wake? || (act.Release? && s.state != Null)
    ensures ListsOk(Apply(s, t, act), x)
  {
  }

  lemma FreeStep(s: Mutex, x: Aux, l: FifoLock, t: Thread)
    requires Rel(s, x, l) && Enabled(s, t, Release) && s.state == Null
    ensures May(l, Free) && Rel(Apply(s, t, Release), x.(owner := None), Do(l, Free))
  {
    assert ThreadOk(s, x, t) && x.owner == Some(t);
    assert Chain(s.heap, s.state, x.stack) && Queue(x) == [];
    Frame(s, x, l, t, Apply(s, t, Release), x.(owner := None), Do(l, Free));
  }

  lemma GrabStep(s: Mutex, x: Aux, l: FifoLock, t: Thread)
    requires Rel(s, x, l) && Enabled(s, t, Grab)
    ensures Rel(Apply(s, t, Grab), AuxStep(s, x, t, Grab), l)
  {
    var x' := AuxStep(s, x, t, Grab);
    assert ThreadOk(s, x, t) && x.owner == Some(t);
    assert Queue(x') == Queue(x);
    assert ListsOk(Apply(s, t, Grab), x');
    Frame(s, x, l, t, Apply(s, t, Grab), x', l);
  }

  // A queue without duplicates keeps the head of the grabbed stack out of everything else.
  lemma Separate(x: Aux)
    requires x.todo != [] && Distinct(Queue(x))
    ensures x.todo[0] !in x.todo[1..] && x.todo[0] !in x.fifo && x.todo[0] !in x.stack
  {
    var q, n := Queue(x), |x.todo|;
    assert q[n - 1] == x.todo[0];
    assert Reversed(x.todo[1..]) == q[..n - 1];
    assert x.fifo == q[n..n + |x.fifo|];
    assert Reversed(x.stack) == q[n + |x.fifo|..];
  }

  lemma QueueReverse(x: Aux)
    requires x.todo != []
    ensures Queue(x.(todo := x.todo[1..], fifo := [x.todo[0]] + x.fifo)) == Queue(x)
    ensures x.todo[0] in Queue(x)
  {
    QueueMembers(x);
  }

  // One turn of the in-place reversal moves the head of the rest to the front of the reversed part.
  lemma ReverseLists(s: Mutex, x: Aux, t: Thread)
    requires ListsOk(s, x) && x.owner == Some(t) && Distinct(Queue(x)) && Enabled(s, t, Reverse)
    requires forall a | a in Queue(x) :: a in s.heap
    ensures ListsOk(Apply(s, t, Reverse), AuxStep(s, x, t, Reverse))
  {
    var s' := Apply(s, t, Reverse);
    var x' := AuxStep(s, x, t, Reverse);
    var w := PcOf(s, t).waiter;
    Separate(x);
    QueueMembers(x);
    ChainFrame(s.heap, s'.heap, s.heap[w].next, x.todo[1..]);
    ChainFrame(s.heap, s'.heap, PcOf(s, t).head, x.fifo);
    ChainFrame(s.heap, s'.heap, s.state, x.stack);
    assert x'.fifo[1..] == x.fifo;
  }

  // One turn of the in-place reversal keeps the queue.
  lemma ReverseStep(s: Mutex, x: Aux, l: FifoLock, t: Thread)
    requires Rel(s, x, l) && Enabled(s, t, Reverse)
    ensures Rel(Apply(s, t, Reverse), AuxStep(s, x, t, Reverse), l)
  {
    var s', x' := Apply(s, t, Reverse), AuxStep(s, x, t, Reverse);
    ReverseOwn(s, x, t);
    forall a | a in Queue(x)
      ensures a in s.heap
    {
      assert WaiterOk(s, a);
    }
    ReverseLists(s, x, t);
    QueueReverse(x);
    assert x'.owner == x.owner && Queue(x') == Queue(x);
    hide Queue, ListsOk, Chain, Threads, Reversed, Apply, AuxStep, Enabled;
    Frame(s, x, l, t, s', x', l);
  }

  // What a turn of the reversal does: it writes the link of a waiting awaiter.
  lemma ReverseOwn(s: Mutex, x: Aux, t: Thread)
    requires Inv(s, x) && Enabled(s, t, Reverse)
    ensures var s', x', w := Apply(s, t, Reverse), AuxStep(s, x, t, Reverse), PcOf(s, t).waiter;
            && x.owner == Some(t) && x.todo != [] && x.todo[0] == w && w in Queue(x) && w in s.heap
            && s'.pcs == s.pcs[t := PcOf(s', t)] && ThreadOk(s', x', t) && !PcOf(s', t).Suspended?
            && s'.heap == s.heap[w := Awaiter(PcOf(s, t).head, s.heap[w].handle)]
  {
    ReverseFront(s, x, t);
    assert ThreadOk(s, x, t);
    hide Queue, Reversed, ListsOk, Chain, Inv;
  }

  lemma ReverseFront(s: Mutex, x: Aux, t: Thread)
    requires Inv(s, x) && PcOf(s, t).Reversing?
    ensures var w := PcOf(s, t).waiter; x.owner == Some(t) && x.todo != [] && x.todo[0] == w && w in Queue(x)
  {
    assert ThreadOk(s, x, t);
    assert Chain(s.heap, Ptr(PcOf(s, t).waiter), x.todo);
    QueueMembers(x);
    hide Queue;
  }

  lemma DistinctTail(h: Addr, q: seq<Addr>)
    requires Distinct([h] + q)
    ensures Distinct(q) && h !in q
  {
    assert ([h] + q)[0] == h;
    assert forall i | 0 <= i < |q| :: ([h] + q)[i + 1] == q[i];
  }

  lemma QueueHandoff(x: Aux, owner: Option<Thread>)
    requires x.todo == [] && x.fifo != [] && Distinct(Queue(x))
    ensures var x' := x.(owner := owner, fifo := x.fifo[1..]);
            Queue(x) == [x.fifo[0]] + Queue(x') && x.fifo[0] !in Queue(x') && Distinct(Queue(x'))
  {
    var x' := x.(owner := owner, fifo := x.fifo[1..]);
    assert Queue(x) == [x.fifo[0]] + Queue(x');
    DistinctTail(x.fifo[0], Queue(x'));
  }

  // The first awaiter of the queue belongs to the thread that is about to be resumed.
  lemma HandoffHead(s: Mutex, x: Aux, l: FifoLock, t: Thread)
    requires Rel(s, x, l) && Enabled(s, t, Resume)
    ensures var h := PcOf(s, t).first;
            var u := s.heap[h].handle;
            var x' := AuxStep(s, x, t, Resume);
            && x.owner == Some(t) && x.todo == [] && x.fifo != [] && x.fifo[0] == h
            && x' == x.(owner := Some(u), fifo := x.fifo[1..])
            && Queue(x) == [h] + Queue(x') && h !in Queue(x') && Distinct(Queue(x'))
            && PcOf(s, u) == Suspended(h)
            && l.queue != [] && l.queue[0] == u
  {
    var h := PcOf(s, t).first;
    assert ThreadOk(s, x, t) && x.owner == Some(t);
    QueueHandoff(x, Some(s.heap[h].handle));
    assert Queue(x)[0] == h && h in Queue(x);
    assert WaiterOk(s, h);
  }

  lemma HandoffStep(s: Mutex, x: Aux, l: FifoLock, t: Thread)
    requires Rel(s, x, l) && Enabled(s, t, Resume)
    ensures May(l, Handoff) && Rel(Apply(s, t, Resume), AuxStep(s, x, t, Resume), Do(l, Handoff))
  {
    var s', x' := Apply(s, t, Resume), AuxStep(s, x, t, Resume);
    HandoffInv(s, x, l, t);
    HandoffHead(s, x, l, t);
    ThreadsTail(s.heap, PcOf(s, t).first, Queue(x'));
    hide Queue, AuxStep, Enabled, Inv, Threads;
    assert s'.heap == s.heap;
    hide Apply;
    assert l.queue == Threads(s.heap, Queue(x)) && l.queue[1..] == Threads(s.heap, Queue(x'));
    assert l.queue == [l.queue[0]] + l.queue[1..];
    Assoc(l.granted, [l.queue[0]], l.queue[1..]);
  }

  lemma HandoffInv(s: Mutex, x: Aux, l: FifoLock, t: Thread)
    requires Rel(s, x, l) && Enabled(s, t, Resume)
    ensures Inv(Apply(s, t, Resume), AuxStep(s, x, t, Resume))
  {
    HandoffHead(s, x, l, t);
    var s' := Apply(s, t, Resume);
    var x' := AuxStep(s, x, t, Resume);
    var h := PcOf(s, t).first;
    HandoffLists(s, x, l, t);
    hide ListsOk, Queue, AuxStep, Enabled;
    assert s.heap == s'.heap && s'.pcs == s.pcs[t := Idle][s.heap[h].handle := Granted(h)];
    hide Apply;
    QueueMembers(x);
    QueueMembers(x');
    forall u
      ensures ThreadOk(s', x', u)
    {
      assert ThreadOk(s, x, u) && ThreadOk(s, x, t);
      HandoffThread(s, x, s', x', t, h, u);
    }
    hide ThreadOk;
    forall a | a in Queue(x')
      ensures WaiterOk(s', a)
    {
      assert a in Queue(x) && WaiterOk(s, a);
    }
  }

  lemma HandoffLists(s: Mutex, x: Aux, l: FifoLock, t: Thread)
    requires Rel(s, x, l) && Enabled(s, t, Resume)
    ensures ListsOk(Apply(s, t, Resume), AuxStep(s, x, t, Resume))
  {
    HandoffHead(s, x, l, t);
  }

  lemma HandoffThread(s: Mutex, x: Aux, s': Mutex, x': Aux, t: Thread, h: Addr, u: Thread)
    requires ThreadOk(s, x, u) && x.owner == Some(t) && Owns(PcOf(s, t)) && h in s.heap
    requires var v := s.heap[h].handle; PcOf(s, v) == Suspended(h) && x'.owner == Some(v) && v != t
    requires s'.heap == s.heap && s'.pcs == s.pcs[t := Idle][s.heap[h].handle := Granted(h)]
    requires Queue(x) == [h] + Queue(x')
    ensures ThreadOk(s', x', u)
  {
  }

  lemma ThreadsTail(heap: map<Addr, Awaiter>, h: Addr, list: seq<Addr>)
    requires forall a | a in [h] + list :: a in heap
    ensures forall a | a in list :: a in heap
    ensures Threads(heap, [h] + list)[1..] == Threads(heap, list)
  {
    assert forall a | a in list :: a in [h] + list;
  }

  /** Main result: every step of every thread is an allowed event of the queue lock. */
  lemma StepRefines(s: Mutex, x: Aux, l: FifoLock, t: Thread, act: Action)
    requires Rel(s, x, l) && Enabled(s, t, act)
    ensures May(l, EventOf(s, t, act)) && Rel(Apply(s, t, act), AuxStep(s, x, t, act), Do(l, EventOf(s, t, act)))
  {
    hide Apply, Rel;
    match act
    case Link => LinkStep(s, x, l, t);
    case CasPush => PushStep(s, x, l, t);
    case BeginUnlock => UnlockStep(s, x, l, t, act);
    case Check => UnlockStep(s, x, l, t, act);
    case Release => ReleaseRefines(s, x, l, t);
    case Grab => GrabStep(s, x, l, t);
    case Reverse => ReverseStep(s, x, l, t);
    case Pop => UnlockStep(s, x, l, t, act);
    case Resume => HandoffStep(s, x, l, t);
    case Wake => UnlockStep(s, x, l, t, act);
    case _ => LockRefines(s, x, l, t, act);
  }

  lemma LockRefines(s: Mutex, x: Aux, l: FifoLock, t: Thread, act: Action)
    requires Rel(s, x, l) && Enabled(s, t, act)
    requires act.TryLock? || act.StartLock? || act.Load? || act.CasAcquire? || act.CasFail?
    ensures May(l, EventOf(s, t, act)) && Rel(Apply(s, t, act), AuxStep(s, x, t, act), Do(l, EventOf(s, t, act)))
  {
    hide Rel;
    match act
    case TryLock => if s.state == Unlocked { TakeStep(s, x, l, t); }
    case StartLock(a, junk) =>
      if s.state == Unlocked { TakeStep(s, x, l, t); } else { NewAwaiterStep(s, x, l, t, a, junk); }
    case Load(v) => MoveStep(s, x, l, t, Looping(PcOf(s, t).a, v));
    case CasAcquire => TakeStep(s, x, l, t);
    case CasFail(v) => MoveStep(s, x, l, t, Looping(PcOf(s, t).a, v));
  }

  lemma ReleaseRefines(s: Mutex, x: Aux, l: FifoLock, t: Thread)
    requires Rel(s, x, l) && Enabled(s, t, Release)
    ensures May(l, EventOf(s, t, Release))
    ensures Rel(Apply(s, t, Release), AuxStep(s, x, t, Release), Do(l, EventOf(s, t, Release)))
  {
    hide Rel, Apply;
    if s.state == Null { FreeStep(s, x, l, t); } else { UnlockStep(s, x, l, t, Release); }
  }

  // ---------------------------------------------------------------- what follows

  const NO_LISTS := Aux(None, [], [], [])
  const FREE := FifoLock(None, [], [], [])

  lemma InitRel()
    ensures Rel(Init(), NO_LISTS, FREE)
  {
  }

  type Step = (Thread, Action)

  /** The state after the given steps of the given threads; None if one of them could not be taken. */
  ghost function Exec(s: Mutex, steps: seq<Step>): Option<Mutex>
    decreases |steps|
  {
    if steps == [] then Some(s)
    else if Enabled(s, steps[0].0, steps[0].1) then Exec(Apply(s, steps[0].0, steps[0].1), steps[1..])
    else None
  }

  function PushOf(t: Thread, act: Action): seq<Thread> {
    if act.CasPush? then [t] else []
  }

  ghost function GrantOf(s: Mutex, t: Thread, act: Action): seq<Thread>
    requires Enabled(s, t, act)
  {
    if act.Resume? then [s.heap[PcOf(s, t).first].handle] else []
  }

  lemma StepRecords(s: Mutex, x: Aux, l: FifoLock, t: Thread, act: Action)
    requires Rel(s, x, l) && Enabled(s, t, act) && May(l, EventOf(s, t, act))
    ensures Do(l, EventOf(s, t, act)).pushed == l.pushed + PushOf(t, act)
    ensures Do(l, EventOf(s, t, act)).granted == l.granted + GrantOf(s, t, act)
  {
    if act.Resume? {
      HandoffHead(s, x, l, t);
    }
  }

  /** Who has pushed an awaiter onto the stack, in order. */
  ghost function Pushes(s: Mutex, steps: seq<Step>): seq<Thread>
    decreases |steps|
  {
    if steps == [] || !Enabled(s, steps[0].0, steps[0].1) then []
    else PushOf(steps[0].0, steps[0].1) + Pushes(Apply(s, steps[0].0, steps[0].1), steps[1..])
  }

  /** Who has been handed the lock by an unlock, in order. */
  ghost function Grants(s: Mutex, steps: seq<Step>): seq<Thread>
    decreases |steps|
  {
    if steps == [] || !Enabled(s, steps[0].0, steps[0].1) then []
    else
      GrantOf(s, steps[0].0, steps[0].1) + Grants(Apply(s, steps[0].0, steps[0].1), steps[1..])
  }

  // The first step of a run, apart from the rest.
  lemma Unfold(s: Mutex, steps: seq<Step>) returns (s': Mutex, p: seq<Thread>, g: seq<Thread>)
    requires steps != [] && Exec(s, steps).Some?
    ensures var (t, act) := steps[0];
            Enabled(s, t, act) && s' == Apply(s, t, act) && p == PushOf(t, act) && g == GrantOf(s, t, act)
    ensures Exec(s, steps) == Exec(s', steps[1..])
    ensures Pushes(s, steps) == p + Pushes(s', steps[1..]) && Grants(s, steps) == g + Grants(s', steps[1..])
  {
    var (t, act) := steps[0];
    s', p, g := Apply(s, t, act), PushOf(t, act), GrantOf(s, t, act);
  }

  lemma OneStep(s: Mutex, x: Aux, l: FifoLock, t: Thread, act: Action, s': Mutex, p: seq<Thread>, g: seq<Thread>)
      returns (x': Aux, l': FifoLock)
    requires Rel(s, x, l) && Enabled(s, t, act)
    requires s' == Apply(s, t, act) && p == PushOf(t, act) && g == GrantOf(s, t, act)
    ensures Rel(s', x', l') && l'.pushed == l.pushed + p && l'.granted == l.granted + g
  {
    StepRefines(s, x, l, t, act);
    StepRecords(s, x, l, t, act);
    x', l' := AuxStep(s, x, t, act), Do(l, EventOf(s, t, act));
  }

  lemma Advance(s: Mutex, x: Aux, l: FifoLock, steps: seq<Step>) returns (s': Mutex, x': Aux, l': FifoLock)
    requires Rel(s, x, l) && steps != [] && Exec(s, steps).Some?
    ensures Rel(s', x', l') && Exec(s, steps) == Exec(s', steps[1..])
    ensures l'.pushed + Pushes(s', steps[1..]) == l.pushed + Pushes(s, steps)
    ensures l'.granted + Grants(s', steps[1..]) == l.granted + Grants(s, steps)
  {
    hide Inv, Apply, AuxStep, Enabled;
    var p, g;
    s', p, g := Unfold(s, steps);
    x', l' := OneStep(s, x, l, steps[0].0, steps[0].1, s', p, g);
    hide *;
    Assoc(l.pushed, p, Pushes(s', steps[1..]));
    Assoc(l.granted, g, Grants(s', steps[1..]));
  }

  // Every run keeps the invariant, and the queue lock records what the run pushes and grants.
  lemma {:induction false} RunKeeps(s: Mutex, x: Aux, l: FifoLock, steps: seq<Step>) returns (x': Aux, l': FifoLock)
    requires Rel(s, x, l) && Exec(s, steps).Some?
    ensures Rel(Exec(s, steps).value, x', l')
    ensures l'.pushed == l.pushed + Pushes(s, steps) && l'.granted == l.granted + Grants(s, steps)
    decreases |steps|
  {
    if steps == [] {
      x', l' := x, l;
    } else {
      var s1, x1, l1 := Advance(s, x, l, steps);
      x', l' := RunKeeps(s1, x1, l1, steps[1..]);
    }
  }

  /** FIFO: on every interleaving the lock is handed over in the order of the successful pushes. */
  lemma GrantedInPushOrder(steps: seq<Step>)
    requires Exec(Init(), steps).Some?
    ensures Grants(Init(), steps) <= Pushes(Init(), steps)
  {
    InitRel();
    var _, l := RunKeeps(Init(), NO_LISTS, FREE, steps);
    assert l.pushed == Pushes(Init(), steps) && l.granted == Grants(Init(), steps);
  }

  /** Mutual exclusion: at most one thread has the lock, is being handed it, or is inside unlock; the word says
      "unlocked" exactly when nobody does, and then nobody waits and waiters_ is null. */
  lemma MutualExclusion(steps: seq<Step>, t: Thread, u: Thread)
    requires Exec(Init(), steps).Some?
    ensures var s := Exec(Init(), steps).value;
            && (Owns(PcOf(s, t)) && Owns(PcOf(s, u)) ==> t == u)
            && (s.state == Unlocked <==> forall v :: !Owns(PcOf(s, v)))
            && (s.state == Unlocked ==> s.waiters == Null && forall v :: !PcOf(s, v).Suspended?)
  {
    InitRel();
    var x, _ := RunKeeps(Init(), NO_LISTS, FREE, steps);
    var s := Exec(Init(), steps).value;
    assert ThreadOk(s, x, t) && ThreadOk(s, x, u);
    if x.owner.Some? {
      assert ThreadOk(s, x, x.owner.value);
    } else {
      assert Queue(x) == [];
      forall v
        ensures !Owns(PcOf(s, v)) && !PcOf(s, v).Suspended?
      {
        assert ThreadOk(s, x, v);
      }
    }
  }

  /** The step a thread inside lock or unlock takes next. */
  function Next(s: Mutex, t: Thread): Action
    requires !PcOf(s, t).Idle? && !PcOf(s, t).Suspended?
  {
    match PcOf(s, t)
    case Loading(_) => Load(s.state)
    case Looping(_, seen) => if seen != Unlocked then Link else if s.state == Unlocked then CasAcquire else CasFail(s.state)
    case Linked(_, seen) => if s.state == seen then CasPush else CasFail(s.state)
    case Granted(_) => Wake
    case Holding => BeginUnlock
    case Checking => Check
    case Releasing => Release
    case Grabbing => Grab
    case Reversing(_, _) => Action.Reverse
    case Popping(_) => Pop
    case Resuming(_) => Resume
  }

  /** The asserts of unlock never fail and no dangling or null pointer is followed: whoever is inside lock or unlock
      can always take the next step, the word is not "unlocked" while somebody owns the lock, and the awaiter that
      unlock looks at belongs to a coroutine that is still suspended on it. */
  lemma NeverStuck(steps: seq<Step>, t: Thread)
    requires Exec(Init(), steps).Some?
    ensures var s := Exec(Init(), steps).value;
            var pc := PcOf(s, t);
            && (!pc.Idle? && !pc.Suspended? ==> Enabled(s, t, Next(s, t)))
            && (Owns(pc) ==> s.state != Unlocked)
            && (pc.Reversing? ==> WaiterOk(s, pc.waiter))
            && (pc.Popping? || pc.Resuming? ==> WaiterOk(s, pc.first))
  {
    InitRel();
    var x, _ := RunKeeps(Init(), NO_LISTS, FREE, steps);
    NextEnabled(Exec(Init(), steps).value, x, t);
  }

  lemma NextEnabled(s: Mutex, x: Aux, t: Thread)
    requires Inv(s, x)
    ensures var pc := PcOf(s, t);
            && (!pc.Idle? && !pc.Suspended? ==> Enabled(s, t, Next(s, t)))
            && (Owns(pc) ==> s.state != Unlocked)
            && (pc.Reversing? ==> WaiterOk(s, pc.waiter))
            && (pc.Popping? || pc.Resuming? ==> WaiterOk(s, pc.first))
  {
    FirstWaits(s, x, t);
    assert ThreadOk(s, x, t);
    hide Queue, Threads;
  }

  // What unlock is looking at is the front of a list, and so somebody who waits.
  lemma FirstWaits(s: Mutex, x: Aux, t: Thread)
    requires Inv(s, x)
    ensures var pc := PcOf(s, t);
            && (Owns(pc) ==> x.owner == Some(t) && s.state != Unlocked)
            && (pc.Reversing? ==> WaiterOk(s, pc.waiter) && s.heap[pc.waiter].next != Unlocked)
            && (pc.Popping? || pc.Resuming? ==> WaiterOk(s, pc.first))
  {
    var pc := PcOf(s, t);
    assert ThreadOk(s, x, t);
    if Owns(pc) {
      assert Chain(s.heap, s.state, x.stack);
      QueueMembers(x);
      hide Queue;
      if pc.Popping? || pc.Resuming? {
        assert x.fifo[0] == pc.first;
        assert WaiterOk(s, pc.first);
      } else if pc.Reversing? {
        assert x.todo[0] == pc.waiter;
        assert WaiterOk(s, pc.waiter);
        assert Chain(s.heap, s.heap[pc.waiter].next, x.todo[1..]);
      }
    }
  }

  /** Waiter conservation: on every run the suspended awaiters are exactly those of the three lists that the word, the
      private list and the reversal hold; the lists are acyclic and disjoint. */
  lemma WaitersConserved(steps: seq<Step>) returns (x: Aux)
    requires Exec(Init(), steps).Some?
    ensures var s := Exec(Init(), steps).value;
            && ListsOk(s, x) && Distinct(x.todo + x.fifo + x.stack)
            && forall a :: a in x.todo + x.fifo + x.stack <==> exists t :: PcOf(s, t) == Suspended(a)
  {
    InitRel();
    var l;
    x, l := RunKeeps(Init(), NO_LISTS, FREE, steps);
    var s := Exec(Init(), steps).value;
    QueueMembers(x);
    ReversedDistinct(x);
    forall a
      ensures a in x.todo + x.fifo + x.stack <==> exists t :: PcOf(s, t) == Suspended(a)
    {
      if a in Queue(x) {
        assert WaiterOk(s, a);
      }
      if t :| PcOf(s, t) == Suspended(a) {
        assert ThreadOk(s, x, t);
      }
    }
  }

  lemma ReversedDistinct(x: Aux)
    requires Distinct(Queue(x))
    ensures Distinct(x.todo + x.fifo + x.stack)
  {
    var q, p := Queue(x), x.todo + x.fifo + x.stack;
    forall i, j | 0 <= i < j < |p|
      ensures p[i] != p[j]
    {
      Mirror(x, i);
      Mirror(x, j);
    }
  }

  /** Where an element of the lists is found in the queue. */
  function MirrorIndex(x: Aux, i: nat): (k: nat)
    requires i < |x.todo + x.fifo + x.stack|
    ensures k < |Queue(x)|
  {
    var n, m := |x.todo|, |x.todo| + |x.fifo|;
    if i < n then n - 1 - i else if i < m then i else m + (|x.stack| - 1 - (i - m))
  }

  lemma Mirror(x: Aux, i: nat)
    requires i < |x.todo + x.fifo + x.stack|
    ensures Queue(x)[MirrorIndex(x, i)] == (x.todo + x.fifo + x.stack)[i]
  {
  }
}
