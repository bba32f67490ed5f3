/** The mutex as a class, one operation at a time: `unlock` reverses the grabbed stack in place. */
module CoroMutexClass {
  import opened Sequences

  class CoroMutexAwaiter {
    var next: CoroMutexAwaiter?
  }

  /** `state_`: unlocked, or locked with the head of the stack of new waiters. */
  datatype State = Unlocked | Locked(head: CoroMutexAwaiter?)

  /** The k-th awaiter of the list, null past its end. */
  ghost function At(list: seq<CoroMutexAwaiter>, k: nat): CoroMutexAwaiter? {
    if k < |list| then list[k] else null
  }

  ghost function Before(list: seq<CoroMutexAwaiter>, k: nat): CoroMutexAwaiter? {
    if 0 < k <= |list| then list[k - 1] else null
  }

  /** The awaiters of the list are linked by `next`, in order, up to null. */
  ghost predicate Linked(list: seq<CoroMutexAwaiter>)
    reads list
  {
    forall i | 0 <= i < |list| :: list[i].next == At(list, i + 1)
  }

  lemma TailOf(list: seq<CoroMutexAwaiter>, rest: seq<CoroMutexAwaiter>)
    requires list != [] && Linked(list) && Distinct(list)
    ensures Linked(list[1..]) && Distinct(list[1..]) && list[0].next == At(list[1..], 0) && At(list, 0) == list[0]
    ensures (list + rest)[0] == list[0] && (list + rest)[1..] == list[1..] + rest
  {
  }

  lemma NobodyLinked(list: seq<CoroMutexAwaiter>)
    ensures At(list, 0) == null <==> list == []
    ensures Linked([]) && Distinct<CoroMutexAwaiter>([]) && Reversed<CoroMutexAwaiter>([]) == []
  {
  }

  // Once every awaiter points to the one before it, the reversed list is linked.
  lemma TurnedRound(list: seq<CoroMutexAwaiter>)
    requires Distinct(list) && forall i | 0 <= i < |list| :: list[i].next == Before(list, i)
    ensures Linked(Reversed(list)) && Distinct(Reversed(list)) && At(Reversed(list), 0) == Before(list, |list|)
  {
    var r, n := Reversed(list), |list|;
    hide Reversed;
    forall i | 0 <= i < n
      ensures r[i].next == At(r, i + 1)
    {
      assert r[i] == list[n - 1 - i] && list[n - 1 - i].next == Before(list, n - 1 - i);
    }
    forall i, j | 0 <= i < j < n
      ensures r[i] != r[j]
    {
      assert list[n - 1 - j] != list[n - 1 - i];
    }
  }

  class Mutex {
    var state: State
    var waiters: CoroMutexAwaiter?
    ghost var fifo: seq<CoroMutexAwaiter>   // behind `waiters`, longest waiting first
    ghost var stack: seq<CoroMutexAwaiter>  // behind `state`, newest first

    ghost predicate Valid()
      reads this, fifo, stack
    {
      && Distinct(fifo) && Distinct(stack) && (forall a | a in fifo :: a !in stack)
      && Linked(fifo) && waiters == At(fifo, 0)
      && Linked(stack) && (state.Locked? ==> state.head == At(stack, 0))
      && (state.Unlocked? ==> fifo == [] && stack == [])
    }

    /** Everybody who waits, the longest waiting first. */
    ghost function Queue(): seq<CoroMutexAwaiter>
      reads this
    {
      fifo + Reversed(stack)
    }

    constructor ()
      ensures Valid() && state.Unlocked? && Queue() == []
    {
      state, waiters := Unlocked, null;
      fifo, stack := [], [];
    }

    method TryLock() returns (locked: bool)
      requires Valid()
      modifies this
      ensures Valid() && Queue() == old(Queue()) && state.Locked?
      ensures locked <==> old(state).Unlocked?
    {
      locked := state.Unlocked?;
      if locked {
        state := Locked(null);
      }
    }

    /** Takes the lock at once or joins the end of the queue. */
    method Lock(awaiter: CoroMutexAwaiter) returns (suspended: bool)
      requires Valid() && awaiter !in fifo && awaiter !in stack
      modifies this, awaiter
      ensures Valid() && state.Locked?
      ensures suspended <==> old(state).Locked?
      ensures Queue() == if suspended then old(Queue()) + [awaiter] else []
    {
      if state.Unlocked? {
        state := Locked(null);
        return false;
      }
      awaiter.next := state.head;
      state := Locked(awaiter);
      stack := [awaiter] + stack;
      return true;
    }

    /** Frees the lock if nobody waits; otherwise hands it to the one who has waited longest. */
    method Unlock() returns (resumed: CoroMutexAwaiter?)
      requires Valid() && state.Locked?
      modifies this, stack
      ensures Valid()
      ensures if old(Queue()) == [] then resumed == null && state.Unlocked? && Queue() == []
              else resumed == old(Queue())[0] && state.Locked? && Queue() == old(Queue())[1..]
    {
      hide Reversed, At, Linked, Distinct;
      NobodyLinked(fifo);
      NobodyLinked(stack);
      var head := waiters;
      if head == null {
        if state.head == null {
          state := Unlocked;
          return null;
        }
        head := ReverseStack();
      }
      resumed := head;
      TailOf(fifo, Reversed(stack));
      waiters := head.next;
      fifo := fifo[1..];
    }

    /** Grabs the whole stack and turns it round in place; the queue stays the same. */
    method ReverseStack() returns (head: CoroMutexAwaiter?)
      requires Valid() && fifo == [] && stack != [] && state.Locked?
      modifies this, stack
      ensures state == Locked(null) && stack == [] && waiters == old(waiters)
      ensures fifo == Reversed(old(stack)) && Distinct(fifo) && Linked(fifo) && head == At(fifo, 0)
    {
      ghost var all := stack;
      var waiter := state.head;
      hide Reversed;
      state := Locked(null);
      head := null;
      ghost var n := 0;
      while waiter != null
        invariant Distinct(all) && 0 <= n <= |all| && waiter == At(all, n) && head == Before(all, n)
        invariant forall i | n <= i < |all| :: all[i].next == At(all, i + 1)
        invariant forall i | 0 <= i < n :: all[i].next == Before(all, i)
        invariant fifo == [] && stack == all && waiters == old(waiters) && state == Locked(null)
        decreases |all| - n
      {
        assert waiter == all[n] && forall i | 0 <= i < |all| && i != n :: all[i] != all[n];
        var temp := waiter.next;
        waiter.next := head;
        head := waiter;
        waiter := temp;
        n := n + 1;
      }
      assert n == |all|;
      TurnedRound(all);
      fifo, stack := Reversed(all), [];
    }
  }
}
