/** The cache as a class: the same steps, taken one operation at a time, update the fields in place. */
module CacheMapClass {
  import opened Sequences
  import opened Powers
  import opened TimingWheel
  import opened WheelSteps
  import opened CacheModel
  import opened ExpiringMap
  import opened CacheRefinement
  import opened CacheRuns
  import opened CacheTheorems

  /** What one whole tick does to the expiring map: exactly the items due in tick `now` are gone. */
  ghost predicate Swept(a0: Spec, a: Spec, now: nat) {
    && a.nextStamp == a0.nextStamp
    && (forall k | k in a.items :: k in a0.items && a.items[k] == a0.items[k])
    && (forall k | k in a0.items && k !in a.items :: a0.items[k].timeout > 0 && a0.items[k].deadline == Some(now))
    && a0.expired <= a.expired
    && (forall k | k in a0.items && k !in a.items :: Expiry(a0.items[k].stamp, k, now) in a.expired[|a0.expired|..])
    && (forall x | x in a.expired[|a0.expired|..] ::
          x.key in a0.items && x.key !in a.items && x == Expiry(a0.items[x.key].stamp, x.key, now))
  }

  lemma SweptStep(a0: Spec, a: Spec, now: nat, key: Key)
    requires Swept(a0, a, now) && May(a, Vanish(key, now))
    ensures Swept(a0, Do(a, Vanish(key, now)), now)
  {
    var a' := Do(a, Vanish(key, now));
    var x := Expiry(a.items[key].stamp, key, now);
    assert a'.expired[|a0.expired|..] == a.expired[|a0.expired|..] + [x];
    assert x in a'.expired[|a0.expired|..];
  }

  // One turn of the search for a place.
  lemma PlaceHere(c: Config, i: nat, delay: nat, t: nat, e: Entry)
    requires c.Ok() && i < c.wheelsNumber && delay >= 1 && Fits(e, i)
    ensures delay <= c.bucketsNumPerWheel ==> Place(c, i, delay, t, e) == Spot(i, delay - 1, e)
    ensures delay > c.bucketsNumPerWheel && i == c.wheelsNumber - 1 ==>
              Place(c, i, delay, t, e) == Spot(i, c.bucketsNumPerWheel - 1, e)
    ensures delay > c.bucketsNumPerWheel && i < c.wheelsNumber - 1 ==>
              Fits(Wrap(i, delay, t, e), i + 1)
              && Place(c, i, delay, t, e)
                 == Place(c, i + 1, NextDelay(c.bucketsNumPerWheel, delay, t), NextTime(c.bucketsNumPerWheel, t), Wrap(i, delay, t, e))
  {
  }

  // What a callback does, taken out of the step machine.
  lemma CallbackIs(c: Config, s: Cache, a: Spec)
    requires Rel(c, s, a) && Enabled(c, s, Callback)
    ensures var s', leaf := s.(dying := None), s.dying.value;
            && leaf.Leaf?
            && match leaf.task
               case Run(_) =>
                 && Apply(c, s, Callback) == s'.(ran := s.ran + [Ran(leaf, s.wheels.ticks)])
                 && EventOf(c, s, Callback) == Stutter
               case Expire(key) =>
                 && Apply(c, s, Callback) == RunExpiry(s', key)
                 && EventOf(c, s, Callback) == if Expires(s', key) then Vanish(key, s.wheels.ticks) else Stutter
  {
  }

  lemma SweptStutter(a0: Spec, a: Spec, now: nat)
    requires Swept(a0, a, now)
    ensures Swept(a0, Do(a, Stutter), now)
  {
  }

  // What destroying an entry does, taken out of the step machine.
  lemma DestroyIs(c: Config, s: Cache, e: Entry)
    requires Inv(c, s) && s.held.None? && Enabled(c, s, Destroy(e))
    ensures EventOf(c, s, Destroy(e)) == Stutter
    ensures e.Leaf? ==>
              && s.wheels.phase == 1
              && var w := s.wheels.(dropping := s.wheels.dropping - {e});
                 Apply(c, s, Destroy(e)) == s.(wheels := w, dying := if Referenced(w, e) then None else Some(e))
    ensures e.Wrap? ==>
              && e.delay > 0 && e.level < |s.wheels.buckets|
              && var j := (e.delay + e.t % c.bucketsNumPerWheel - 1) % c.bucketsNumPerWheel;
                 && 0 <= j < |s.wheels.buckets[e.level]|
                 && var w := s.wheels.(dropping := s.wheels.dropping - {e});
                    Apply(c, s, Destroy(e)) == s.(wheels := w.(buckets := PlacedIn(w.buckets, e.level, j, e.inner)))
  {
    if e.Leaf? {
      LeafDropsOnTime(c, s.wheels, e);
    }
  }

  lemma SweptClean(c: Config, s: Cache, a0: Spec, a: Spec)
    requires Rel(c, s, a) && Swept(a0, a, s.wheels.ticks)
    requires s.held.None? && s.dying.None? && s.wheels.phase >= 1 && s.wheels.dropping == {}
    ensures forall k :: k in a.items <==>
              k in a0.items && !(a0.items[k].timeout > 0 && a0.items[k].deadline == Some(s.wheels.ticks))
  {
    forall k | k in a.items && a.items[k].timeout > 0
      ensures a.items[k].deadline != Some(s.wheels.ticks)
    {
      NobodyOutlivesDeadline(c, s, a, k);
    }
  }

  // What an insertion and the hit it makes do to the expiring map.
  lemma InsertionIs(a: Spec, key: Key, value: Value, timeout: nat, due: nat)
    ensures var b := Do(a, Put(key, value, timeout));
            var h := Do(b, Hit(key, due));
            && b.nextStamp == h.nextStamp == a.nextStamp + (if key in a.items then 0 else 1)
            && b.expired == h.expired == a.expired
            && (if key in a.items then b.items == a.items
                else b.items == a.items[key := Item(value, timeout, a.nextStamp, None)])
            && (key in a.items && a.items[key].timeout == 0 ==> h.items == a.items)
            && (key in a.items && a.items[key].timeout > 0 ==>
                  var was := a.items[key];
                  h.items == a.items[key := was.(deadline := Some(
                       if was.deadline.Some? && was.deadline.value > due then was.deadline.value else due))])
            && (key !in a.items && timeout > 0 ==>
                  h.items == a.items[key := Item(value, timeout, a.nextStamp, Some(due))])
  {
  }

  class CacheMap {
    const c: Config
    var ticksCounter: nat
    var wheels: seq<seq<set<Entry>>>
    var cells: map<Key, Cell>
    var nextId: nat
    var nextStamp: nat
    var expired: seq<Expiry>
    var ran: seq<Ran>
    ghost var spec: Spec

    ghost function StateAt(phase: nat, dropping: set<Entry>, dying: Option<Entry>): Cache
      reads this
    {
      Cache(Wheels(ticksCounter, phase, wheels, dropping), cells, dying, None, nextId, nextStamp, expired, ran)
    }

    /** The state between ticks. */
    ghost function State(): Cache
      reads this
    {
      StateAt(c.wheelsNumber, {}, None)
    }

    ghost predicate Valid()
      reads this
    {
      Rel(c, State(), spec)
    }

    /** The tick in which an entry inserted now for `delay` seconds is released. */
    ghost function DueIn(delay: nat): int
      requires c.Ok()
      reads this
    {
      ticksCounter + c.Ticks(delay) - Early(c, c.Ticks(delay), ticksCounter)
    }

    lemma DueInIsFireTick(delay: nat)
      requires Valid()
      ensures DueIn(delay) == FireTick(c, State().wheels, c.Ticks(delay)) > ticksCounter
      ensures c.Ticks(delay) <= Pow(c.bucketsNumPerWheel, c.wheelsNumber) ==> DueIn(delay) == ticksCounter + c.Ticks(delay)
    {
      AddSchedules(c, State().wheels, c.Ticks(delay), Leaf(0, Run(0)));
    }

    constructor (c: Config)
      requires c.Ok()
      ensures Valid() && spec == EMPTY && ticksCounter == 0 && this.c == c && ran == []
    {
      this.c := c;
      ticksCounter := 0;
      wheels := seq(c.wheelsNumber, _ => seq(c.bucketsNumPerWheel, _ => {}));
      cells := map[];
      nextId, nextStamp := 0, 0;
      expired, ran := [], [];
      spec := EMPTY;
      new;
      assert State().wheels == WheelSteps.Init(c).(buckets := wheels);
      InitMatches(c);
      assert wheels == WheelSteps.Init(c).buckets;
    }

    /** Walks up the wheels, wrapping the entry once for each wheel that is too small. */
    method InsertEntry(delay: nat, leaf: Entry)
      requires Shaped(c, State().wheels) && leaf.Leaf?
      modifies this`wheels
      ensures delay == 0 ==> wheels == old(wheels)
      ensures delay > 0 ==> State().wheels == Add(c, old(State().wheels), c.Ticks(delay), leaf)
    {
      if delay <= 0 {
        return;
      }
      var d: nat := c.Ticks(delay);
      var t: nat := ticksCounter;
      var entry := leaf;
      ghost var spot := Place(c, 0, d, t, leaf);
      ghost var before := State().wheels;
      ghost var after := Add(c, before, d, leaf);
      assert after == before.(buckets := PlacedIn(wheels, spot.wheel, spot.index, spot.entry));
      assert |wheels| == c.wheelsNumber && forall k | 0 <= k < |wheels| :: |wheels[k]| == c.bucketsNumPerWheel;
      hide Shaped, Add, NextDelay, NextTime, Place, PutIn, PlacedIn;
      var i := 0;
      while i < c.wheelsNumber
        invariant 0 <= i <= c.wheelsNumber
        invariant i < c.wheelsNumber ==>
          d >= 1 && Fits(entry, i) && wheels == before.buckets && Place(c, i, d, t, entry) == spot
        invariant i == c.wheelsNumber ==> wheels == after.buckets
      {
        PlaceHere(c, i, d, t, entry);
        if d <= c.bucketsNumPerWheel {
          wheels := PlacedIn(wheels, i, d - 1, entry);
          break;
        }
        if i < c.wheelsNumber - 1 {
          entry := Wrap(i, d, t, entry);
        } else {
          wheels := PlacedIn(wheels, i, c.bucketsNumPerWheel - 1, entry);
        }
        d := NextDelay(c.bucketsNumPerWheel, d, t);
        t := NextTime(c.bucketsNumPerWheel, t);
        i := i + 1;
      }
    }

    /** eraseAfter without interference: the strong pointer is taken and put into a bucket. */
    method EraseAfter(delay: nat, key: Key)
      requires Shaped(c, State().wheels) && key in cells && delay > 0
      requires cells[key].weakEntry.Some? ==> cells[key].weakEntry.value.Leaf?
      modifies this`wheels, this`cells, this`nextId
      ensures var s := BeginHit(old(State()), key, delay);
              State() == s.(held := None, wheels := Add(c, s.wheels, c.Ticks(delay), s.held.value.leaf))
    {
      var leaf;
      if cells[key].weakEntry.Some? && Referenced(Wheels(ticksCounter, c.wheelsNumber, wheels, {}), cells[key].weakEntry.value) {
        leaf := cells[key].weakEntry.value;
      } else {
        leaf := Leaf(nextId, Expire(key));
        nextId := nextId + 1;
        cells := cells[key := cells[key].(weakEntry := Some(leaf))];
      }
      InsertEntry(delay, leaf);
    }

    /** A hit on a timed item moves its deadline to at least `DueIn` its timeout. */
    ghost function Touched(a: Spec, key: Key): Spec
      requires c.Ok()
      reads this
    {
      if key in a.items && a.items[key].timeout > 0 && DueIn(a.items[key].timeout) >= 0 then
        Do(a, Hit(key, DueIn(a.items[key].timeout)))
      else a
    }

    // The steps of a hit, one right after the other.
    lemma FinishedHit(s: Cache, a: Spec, key: Key, delay: nat)
      requires Rel(c, s, a) && key in s.cells && s.cells[key].weakEntry.Some? && s.wheels.phase == c.wheelsNumber
      requires s.held == Some(Held(s.cells[key].weakEntry.value, delay, Taken))
      requires State() == s.(held := None, wheels := Add(c, s.wheels, c.Ticks(delay), s.held.value.leaf))
      ensures DueIn(delay) > ticksCounter && Rel(c, State(), Do(a, Hit(key, DueIn(delay))))
    {
      var leaf := s.held.value.leaf;
      assert CellOk(s, key, s.cells[key]);
      PutHitStep(c, s, a);
      AddSchedules(c, s.wheels, c.Ticks(delay), leaf);
      var s1 := Apply(c, s, PutHit);
      var due := FireTick(c, s.wheels, c.Ticks(delay));
      assert EventOf(c, s, PutHit) == Hit(key, due) && due == DueIn(delay);
      AddReferences(c, s.wheels, s1.wheels, leaf, due, leaf);
      ReleaseStep(c, s1, Do(a, Hit(key, due)));
      assert Apply(c, s1, Release) == State();
    }

    /** A hit on a cell, which may have just been made. */
    method HitCell(key: Key, delay: nat, ghost unfinished: set<Key>)
      requires InvBut(c, State(), unfinished) && Matches(c, State(), spec) && unfinished <= {key}
      requires key in cells && delay > 0
      modifies this`wheels, this`cells, this`nextId, this`spec
      ensures Valid() && DueIn(delay) > ticksCounter
      ensures spec == Do(old(spec), Hit(key, DueIn(delay)))
    {
      ghost var s0 := State();
      BeginHitStep(c, s0, key, delay, spec, unfinished);
      assert key !in unfinished ==> CellOk(s0, key, cells[key]);
      assert Shaped(c, s0.wheels) && s0.wheels.phase == c.wheelsNumber;
      hide Rel, Do, Matches, InvBut, CellOk, Shaped, Referenced, Add, Alive;
      EraseAfter(delay, key);
      FinishedHit(BeginHit(s0, key, delay), spec, key, delay);
      spec := Do(spec, Hit(key, DueIn(delay)));
    }

    method Insert(key: Key, value: Value, timeout: nat)
      requires Valid()
      modifies this
      ensures Valid() && ticksCounter == old(ticksCounter) && ran == old(ran)
      ensures timeout > 0 ==> DueIn(timeout) > ticksCounter
      ensures var a := Do(old(spec), Put(key, value, timeout));
              spec == if timeout > 0 then Do(a, Hit(key, DueIn(timeout))) else a
      ensures key in old(spec).items && old(spec).items[key].timeout > 0 && timeout > 0 ==>
                var was, due := old(spec).items[key], DueIn(timeout);
                spec.items == old(spec).items[key := was.(deadline := Some(
                     if was.deadline.Some? && was.deadline.value > due then was.deadline.value else due))]
      ensures key in old(spec).items && (old(spec).items[key].timeout == 0 || timeout == 0) ==> spec.items == old(spec).items
      ensures key !in old(spec).items ==>
                spec.items == old(spec).items[key := Item(value, timeout, old(spec).nextStamp,
                                                          if timeout > 0 then Some(DueIn(timeout)) else None)]
      ensures spec.nextStamp == old(spec).nextStamp + (if key in old(spec).items then 0 else 1)
      ensures spec.expired == old(spec).expired
    {
      PutStep(c, State(), key, value, timeout, spec);
      ghost var unfinished := if key in cells || timeout == 0 then {} else {key};
      ghost var s1 := PutCell(State(), key, value, timeout);
      if key !in cells {
        cells := cells[key := Cell(value, timeout, nextStamp, None)];
        nextStamp := nextStamp + 1;
      }
      spec := Do(spec, Put(key, value, timeout));
      assert State() == s1;
      InsertionIs(old(spec), key, value, timeout, 0);
      hide Do, Rel, Matches, InvBut, CellOk;
      if timeout > 0 {
        HitCell(key, timeout, unfinished);
        InsertionIs(old(spec), key, value, timeout, DueIn(timeout));
      }
    }

    /** The hit every lookup makes. */
    method Touch(key: Key)
      requires Valid() && key in cells
      modifies this`wheels, this`cells, this`nextId, this`spec
      ensures Valid() && spec == Touched(old(spec), key)
      ensures key in old(spec).items && old(spec).items[key].timeout > 0 ==>
                var was, due := old(spec).items[key], DueIn(old(spec).items[key].timeout);
                && due > ticksCounter
                && spec.items == old(spec).items[key := was.(deadline := Some(
                     if was.deadline.Some? && was.deadline.value > due then was.deadline.value else due))]
      ensures !(key in old(spec).items && old(spec).items[key].timeout > 0) ==> spec.items == old(spec).items
      ensures spec.nextStamp == old(spec).nextStamp && spec.expired == old(spec).expired
    {
      var timeout := cells[key].timeout;
      assert CellMatches(c, State(), cells[key], spec.items[key]);
      if timeout > 0 {
        HitCell(key, timeout, {});
      }
    }

    method Find(key: Key) returns (found: bool)
      requires Valid()
      modifies this
      ensures Valid() && ticksCounter == old(ticksCounter) && ran == old(ran)
      ensures found <==> key in old(spec).items
      ensures spec == Touched(old(spec), key)
      ensures key in old(spec).items && old(spec).items[key].timeout > 0 ==>
                var was, due := old(spec).items[key], DueIn(old(spec).items[key].timeout);
                && due > ticksCounter
                && spec.items == old(spec).items[key := was.(deadline := Some(
                     if was.deadline.Some? && was.deadline.value > due then was.deadline.value else due))]
      ensures !(key in old(spec).items && old(spec).items[key].timeout > 0) ==> spec.items == old(spec).items
      ensures spec.nextStamp == old(spec).nextStamp && spec.expired == old(spec).expired
    {
      found := key in cells;
      if found {
        Touch(key);
      }
    }

    method FindAndFetch(key: Key, unset: Value) returns (found: bool, value: Value)
      requires Valid()
      modifies this
      ensures Valid() && ticksCounter == old(ticksCounter) && ran == old(ran)
      ensures found <==> key in old(spec).items
      ensures value == if found then old(spec).items[key].value else unset
      ensures spec == Touched(old(spec), key)
      ensures key in old(spec).items && old(spec).items[key].timeout > 0 ==>
                var was, due := old(spec).items[key], DueIn(old(spec).items[key].timeout);
                && due > ticksCounter
                && spec.items == old(spec).items[key := was.(deadline := Some(
                     if was.deadline.Some? && was.deadline.value > due then was.deadline.value else due))]
      ensures !(key in old(spec).items && old(spec).items[key].timeout > 0) ==> spec.items == old(spec).items
      ensures spec.nextStamp == old(spec).nextStamp && spec.expired == old(spec).expired
    {
      found, value := key in cells, unset;
      if found {
        value := cells[key].value;
        assert CellMatches(c, State(), cells[key], spec.items[key]);
        Touch(key);
      }
    }

    /** operator[]; `initial` is the value of a default-constructed T2. */
    method Index(key: Key, initial: Value) returns (value: Value)
      requires Valid()
      modifies this
      ensures Valid() && ticksCounter == old(ticksCounter) && ran == old(ran)
      ensures value == if key in old(spec).items then old(spec).items[key].value else initial
      ensures spec == Touched(old(spec), key)
      ensures key in old(spec).items && old(spec).items[key].timeout > 0 ==>
                var was, due := old(spec).items[key], DueIn(old(spec).items[key].timeout);
                && due > ticksCounter
                && spec.items == old(spec).items[key := was.(deadline := Some(
                     if was.deadline.Some? && was.deadline.value > due then was.deadline.value else due))]
      ensures !(key in old(spec).items && old(spec).items[key].timeout > 0) ==> spec.items == old(spec).items
      ensures spec.nextStamp == old(spec).nextStamp && spec.expired == old(spec).expired
    {
      var found;
      found, value := FindAndFetch(key, initial);
    }

    method Modify(key: Key, handler: Value -> Value, initial: Value, timeout: nat)
      requires Valid()
      modifies this
      ensures Valid() && ticksCounter == old(ticksCounter) && ran == old(ran)
      ensures spec ==
              if key in old(spec).items then
                Touched(Do(old(spec), Store(key, handler(old(spec).items[key].value))), key)
              else
                Touched(Do(old(spec), Put(key, handler(initial), timeout)), key)
      ensures key in old(spec).items && old(spec).items[key].timeout > 0 ==>
                var was, due := old(spec).items[key], DueIn(old(spec).items[key].timeout);
                && due > ticksCounter
                && spec.items == old(spec).items[key := was.(value := handler(was.value), deadline := Some(
                     if was.deadline.Some? && was.deadline.value > due then was.deadline.value else due))]
      ensures key in old(spec).items && old(spec).items[key].timeout == 0 ==>
                spec.items == old(spec).items[key := old(spec).items[key].(value := handler(old(spec).items[key].value))]
      ensures key !in old(spec).items && timeout > 0 ==>
                && DueIn(timeout) > ticksCounter
                && spec.items
                   == old(spec).items[key := Item(handler(initial), timeout, old(spec).nextStamp, Some(DueIn(timeout)))]
      ensures key !in old(spec).items && timeout == 0 ==>
                spec.items == old(spec).items[key := Item(handler(initial), 0, old(spec).nextStamp, None)]
      ensures spec.nextStamp == old(spec).nextStamp + (if key in old(spec).items then 0 else 1)
      ensures spec.expired == old(spec).expired
    {
      if key in cells {
        var v := handler(cells[key].value);
        assert CellMatches(c, State(), cells[key], spec.items[key]);
        StoreStep(c, State(), key, v, spec);
        cells := cells[key := cells[key].(value := v)];
        spec := Do(spec, Store(key, v));
        Touch(key);
      } else {
        Insert(key, handler(initial), timeout);
      }
    }

    method Erase(key: Key)
      requires Valid()
      modifies this
      ensures Valid() && ticksCounter == old(ticksCounter) && ran == old(ran)
      ensures spec == Do(old(spec), Remove(key))
      ensures key !in spec.items && (forall k | k != key :: k in spec.items <==> k in old(spec).items)
      ensures (forall k | k in spec.items :: spec.items[k] == old(spec).items[k]) && spec.expired == old(spec).expired
    {
      RemoveStep(c, State(), key, spec);
      cells := cells - {key};
      spec := Do(spec, Remove(key));
    }

    method RunAfter(delay: nat, task: nat) returns (ghost leaf: Entry)
      requires Valid() && delay > 0
      modifies this
      ensures Valid() && ticksCounter == old(ticksCounter) && ran == old(ran) && spec == old(spec)
      ensures DueIn(delay) > ticksCounter && Timer(c, State(), leaf, DueIn(delay)) && NotRun(ran, leaf)
      ensures leaf.task == Run(task)
    {
      ghost var s0 := State();
      RunAfterStep(c, s0, delay, task, spec);
      DueInIsFireTick(delay);
      TimerStarts(c, s0, delay, task, DueIn(delay));
      leaf := Leaf(nextId, Run(task));
      nextId := nextId + 1;
      InsertEntry(delay, Leaf(nextId - 1, Run(task)));
    }

    /** The body of a key's expiry callback. */
    method RunExpiryOf(key: Key, tmp: set<Entry>)
      modifies this`cells, this`expired
      ensures StateAt(1, tmp, None) == RunExpiry(old(StateAt(1, tmp, None)), key)
    {
      if key in cells {
        var weak := cells[key].weakEntry;
        var locked := weak.Some? && Referenced(Wheels(ticksCounter, 1, wheels, tmp), weak.value);
        if cells[key].timeout > 0 && !locked {
          expired := expired + [Expiry(cells[key].stamp, key, ticksCounter)];
          cells := cells - {key};
        }
      }
    }

    /** The task of a leaf that has lost its last reference; `tmp` is what is left of the bucket being destroyed. */
    method RunTask(leaf: Entry, tmp: set<Entry>, ghost a0: Spec)
      requires Rel(c, StateAt(1, tmp, Some(leaf)), spec) && Swept(a0, spec, ticksCounter)
      modifies this`cells, this`expired, this`ran, this`spec
      ensures Rel(c, StateAt(1, tmp, None), spec) && Swept(a0, spec, ticksCounter)
      ensures StateAt(1, tmp, None) == Apply(c, old(StateAt(1, tmp, Some(leaf))), Callback)
    {
      ghost var s0 := StateAt(1, tmp, Some(leaf));
      LoopStepRefines(c, s0, Callback, spec);
      CallbackIs(c, s0, spec);
      ghost var e := EventOf(c, s0, Callback);
      hide Rel, Swept, Do, May, Apply, EventOf, Enabled, Shaped, Expires, RunExpiry;
      if e.Vanish? {
        SweptStep(a0, spec, ticksCounter, e.key);
      }
      SweptStutter(a0, spec, ticksCounter);
      match leaf.task {
        case Expire(key) => RunExpiryOf(key, tmp);
        case Run(_) => ran := ran + [Ran(leaf, ticksCounter)];
      }
      spec := Do(spec, e);
    }

    /** Destroys one entry of a swapped-out bucket; `tmp` is what is left of the bucket. */
    method DestroyEntry(e: Entry, tmp: set<Entry>, ghost phase: nat, ghost a0: Spec, ghost t0: Cache)
      requires e !in tmp && Rel(c, StateAt(phase, tmp + {e}, None), spec) && Swept(a0, spec, ticksCounter)
      requires TimersKept(c, t0, StateAt(phase, tmp + {e}, None))
      modifies this`wheels, this`cells, this`expired, this`ran, this`spec
      ensures Rel(c, StateAt(phase, tmp, None), spec) && Swept(a0, spec, ticksCounter)
      ensures TimersKept(c, t0, StateAt(phase, tmp, None))
    {
      ghost var s0 := StateAt(phase, tmp + {e}, None);
      LoopStepRefines(c, s0, Destroy(e), spec);
      TimersStep(c, t0, s0, Destroy(e));
      DestroyIs(c, s0, e);
      assert tmp + {e} - {e} == tmp;
      hide Rel, Swept, TimersKept, Apply, EventOf, Referenced, PlacedIn;
      match e {
        case Wrap(level, delay, t, inner) =>
          if delay > 0 {
            var j := (delay + t % c.bucketsNumPerWheel - 1) % c.bucketsNumPerWheel;
            wheels := PlacedIn(wheels, level, j, inner);
          }
        case Leaf(_, _) =>
          if !Referenced(Wheels(ticksCounter, 1, wheels, tmp), e) {
            TimersStep(c, t0, StateAt(phase, tmp, Some(e)), Callback);
            RunTask(e, tmp, a0);
          }
      }
    }

    /** Destroys a swapped-out bucket entry by entry, in any order. */
    method DestroyBucket(bucket: set<Entry>, ghost phase: nat, ghost a0: Spec, ghost t0: Cache)
      requires Rel(c, StateAt(phase, bucket, None), spec) && Swept(a0, spec, ticksCounter)
      requires TimersKept(c, t0, StateAt(phase, bucket, None))
      modifies this`wheels, this`cells, this`expired, this`ran, this`spec
      ensures Rel(c, StateAt(phase, {}, None), spec) && Swept(a0, spec, ticksCounter)
      ensures TimersKept(c, t0, StateAt(phase, {}, None))
    {
      hide Rel, Swept, TimersKept;
      var tmp := bucket;
      while tmp != {}
        invariant TimersKept(c, t0, StateAt(phase, tmp, None))
        invariant Rel(c, StateAt(phase, tmp, None), spec) && Swept(a0, spec, ticksCounter)
        decreases |tmp|
      {
        var e :| e in tmp;
        assert tmp - {e} + {e} == tmp;
        tmp := tmp - {e};
        DestroyEntry(e, tmp, phase, a0, t0);
      }
    }

    /** Wheel i's part of a tick; it turns when `pow`, that is B^i, divides the counter. */
    method TurnOne(i: nat, pow: nat, ghost a0: Spec, ghost t0: Cache)
      requires i < c.wheelsNumber && Rel(c, StateAt(i, {}, None), spec) && pow == Pow(c.bucketsNumPerWheel, i)
      requires Swept(a0, spec, ticksCounter) && TimersKept(c, t0, StateAt(i, {}, None))
      modifies this`wheels, this`cells, this`expired, this`ran, this`spec
      ensures Rel(c, StateAt(i + 1, {}, None), spec)
      ensures Swept(a0, spec, ticksCounter) && TimersKept(c, t0, StateAt(i + 1, {}, None))
    {
      ghost var s0 := StateAt(i, {}, None);
      LoopStepRefines(c, s0, Turn, spec);
      TimersStep(c, t0, s0, Turn);
      PowPositive(c.bucketsNumPerWheel, i);
      if ticksCounter % pow == 0 {
        var tmp := wheels[i][0];
        wheels := wheels[i := wheels[i][1..] + [{}]];
        assert StateAt(i + 1, tmp, None) == Apply(c, s0, Turn);
        DestroyBucket(tmp, i + 1, a0, t0);
      } else {
        assert StateAt(i + 1, {}, None) == Apply(c, s0, Turn);
      }
    }

    /**
     * One tick of the timer.  Exactly the timed items whose deadline is the new tick vanish, and for exactly those the
     * timeout callback runs.  Each runAfter task due in it has run once, in it.
     */
    method Tick()
      requires Valid()
      modifies this
      ensures Valid() && ticksCounter == old(ticksCounter) + 1
      ensures Swept(old(spec), spec, ticksCounter) && TimersKept(c, old(State()), State())
      ensures forall k :: k in spec.items <==>
                k in old(spec).items
                && !(old(spec).items[k].timeout > 0 && old(spec).items[k].deadline == Some(ticksCounter))
      ensures forall leaf :: Timer(c, old(State()), leaf, ticksCounter) ==> RanOnce(ran, leaf, ticksCounter)
    {
      ghost var t0, a0 := State(), spec;
      LoopStepRefines(c, t0, StartTick, spec);
      TimersStep(c, t0, t0, StartTick);
      ticksCounter := ticksCounter + 1;
      assert StateAt(0, {}, None) == Apply(c, t0, StartTick);
      var pow := 1;
      var i := 0;
      while i < c.wheelsNumber
        invariant 0 <= i <= c.wheelsNumber && pow == Pow(c.bucketsNumPerWheel, i)
        invariant Rel(c, StateAt(i, {}, None), spec)
        invariant ticksCounter == old(ticksCounter) + 1
        invariant Swept(a0, spec, ticksCounter) && TimersKept(c, t0, StateAt(i, {}, None))
      {
        TurnOne(i, pow, a0, t0);
        pow := c.bucketsNumPerWheel * pow;
        i := i + 1;
      }
      SweptClean(c, State(), a0, spec);
      forall leaf | Timer(c, t0, leaf, ticksCounter)
        ensures RanOnce(ran, leaf, ticksCounter)
      {
        TimerDone(c, State(), leaf, ticksCounter);
      }
    }
  }
}
