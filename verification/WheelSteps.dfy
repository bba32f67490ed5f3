/**
 * The wheels as they change: the counter, the buckets, and the tick in progress.  All of it is a
 * complicated way to keep one flat set of (leaf, release tick) pairs, `Pending`.
 */
module WheelSteps {
  import opened Powers
  import opened TimingWheel

  /**
   * `phase` wheels have done their part of tick number `ticks`; between ticks all of them have.
   * `dropping` is the bucket last swapped out, as far as it is not destroyed yet.
   */
  datatype Wheels = Wheels(ticks: nat, phase: nat, buckets: seq<seq<set<Entry>>>, dropping: set<Entry>)

  ghost predicate Shaped(c: Config, w: Wheels) {
    && c.Ok()
    && w.phase <= c.wheelsNumber
    && (w.phase < c.wheelsNumber ==> w.ticks >= 1)
    && |w.buckets| == c.wheelsNumber
    && (forall i | 0 <= i < |w.buckets| :: |w.buckets[i]| == c.bucketsNumPerWheel)
    && (forall i: nat, j: nat, e | At(w.buckets, i, j, e) :: Fits(e, i))
    && (w.dropping != {} ==> w.phase >= 1 && TurnsNow(c, w, w.phase - 1))
    && (forall e | e in w.dropping :: w.phase >= 1 && Fits(e, w.phase - 1))
  }

  /** Wheel i turns in the tick numbered w.ticks. */
  predicate TurnsNow(c: Config, w: Wheels, i: nat)
    requires c.Ok()
  {
    PowPositive(c.bucketsNumPerWheel, i);
    w.ticks % Pow(c.bucketsNumPerWheel, i) == 0
  }

  /** Wheel i turns in the tick in progress but has not done so yet. */
  predicate StillDue(c: Config, w: Wheels, i: nat)
    requires c.Ok()
  {
    w.phase <= i < c.wheelsNumber && TurnsNow(c, w, i)
  }

  /** The number of turns wheel i has made so far. */
  function Turned(c: Config, w: Wheels, i: nat): nat
    requires c.Ok()
  {
    Turns(c.bucketsNumPerWheel, i, if i < w.phase || w.ticks == 0 then w.ticks else w.ticks - 1)
  }

  /** The release tick of an entry that lies in bucket j of wheel i. */
  function DueAt(c: Config, w: Wheels, i: nat, j: nat, e: Entry): nat
    requires c.Ok()
  {
    Due(c.bucketsNumPerWheel, e, Turned(c, w, i) + j + 1)
  }

  /** The release tick of an entry whose bucket is being destroyed. */
  function DueNow(c: Config, w: Wheels, e: Entry): nat
    requires c.Ok() && w.phase >= 1
  {
    Due(c.bucketsNumPerWheel, e, Turned(c, w, w.phase - 1))
  }

  ghost function Queued(c: Config, w: Wheels): set<(Entry, nat)>
    requires c.Ok()
  {
    set i: nat, j: nat, e | i < |w.buckets| && j < |w.buckets[i]| && e in w.buckets[i][j]
      :: (LeafOf(e), DueAt(c, w, i, j, e))
  }

  ghost function Falling(c: Config, w: Wheels): set<(Entry, nat)>
    requires c.Ok() && (w.dropping != {} ==> w.phase >= 1)
  {
    set e | e in w.dropping && w.phase >= 1 :: (LeafOf(e), DueNow(c, w, e))
  }

  ghost predicate At(buckets: seq<seq<set<Entry>>>, i: nat, j: nat, e: Entry) {
    i < |buckets| && j < |buckets[i]| && e in buckets[i][j]
  }

  lemma Has(c: Config, w: Wheels, i: nat, j: nat, e: Entry)
    requires c.Ok() && At(w.buckets, i, j, e)
    ensures (LeafOf(e), DueAt(c, w, i, j, e)) in Queued(c, w)
  {
  }

  lemma Find(c: Config, w: Wheels, x: (Entry, nat)) returns (i: nat, j: nat, e: Entry)
    requires c.Ok() && x in Queued(c, w)
    ensures At(w.buckets, i, j, e) && x == (LeafOf(e), DueAt(c, w, i, j, e))
  {
    i, j, e :| i < |w.buckets| && j < |w.buckets[i]| && e in w.buckets[i][j] && x == (LeafOf(e), DueAt(c, w, i, j, e));
  }

  /** The abstract schedule: every leaf some entry still refers to, with its release tick. */
  ghost function Pending(c: Config, w: Wheels): set<(Entry, nat)>
    requires Shaped(c, w)
  {
    Queued(c, w) + Falling(c, w)
  }

  // ---------------------------------------------------------------- steps

  function Init(c: Config): (w: Wheels)
    requires c.Ok()
    ensures Shaped(c, w) && Pending(c, w) == {}
  {
    Wheels(0, c.wheelsNumber, seq(c.wheelsNumber, _ => seq(c.bucketsNumPerWheel, _ => {})), {})
  }

  function StartTick(w: Wheels): Wheels {
    w.(ticks := w.ticks + 1, phase := 0)
  }

  function TurnWheel(c: Config, w: Wheels): Wheels
    requires Shaped(c, w) && w.phase < c.wheelsNumber && w.dropping == {}
  {
    if TurnsNow(c, w, w.phase) then
      var wheel := w.buckets[w.phase];
      w.(phase := w.phase + 1, buckets := w.buckets[w.phase := wheel[1..] + [{}]], dropping := wheel[0])
    else
      w.(phase := w.phase + 1)
  }

  function PutIn(w: Wheels, i: nat, j: nat, e: Entry): Wheels
    requires i < |w.buckets| && j < |w.buckets[i]|
  {
    w.(buckets := PlacedIn(w.buckets, i, j, e))
  }

  function PlacedIn(buckets: seq<seq<set<Entry>>>, i: nat, j: nat, e: Entry): seq<seq<set<Entry>>>
    requires i < |buckets| && j < |buckets[i]|
  {
    buckets[i := buckets[i][j := buckets[i][j] + {e}]]
  }

  /** Destroying one entry of the swapped-out bucket; a closure re-inserts what it carries. */
  function Drop(c: Config, w: Wheels, e: Entry): Wheels
    requires Shaped(c, w) && e in w.dropping
  {
    var w' := w.(dropping := w.dropping - {e});
    if e.Wrap? && e.delay > 0 then PutIn(w', e.level, FallIndex(c.bucketsNumPerWheel, e.delay, e.t), e.inner)
    else w'
  }

  function Add(c: Config, w: Wheels, delay: nat, leaf: Entry): Wheels
    requires Shaped(c, w) && delay >= 1 && leaf.Leaf?
  {
    var s := Place(c, 0, delay, w.ticks, leaf);
    PutIn(w, s.wheel, s.index, s.entry)
  }

  // ---------------------------------------------------------------- every step against the schedule

  lemma StartTickKeeps(c: Config, w: Wheels)
    requires Shaped(c, w) && w.phase == c.wheelsNumber && w.dropping == {}
    ensures Shaped(c, StartTick(w)) && Pending(c, StartTick(w)) == Pending(c, w)
  {
    var w' := StartTick(w);
    assert forall i: nat | i < c.wheelsNumber :: Turned(c, w', i) == Turned(c, w, i);
    assert Queued(c, w') == Queued(c, w);
  }

  lemma TurnCount(c: Config, w: Wheels)
    requires Shaped(c, w) && w.phase < c.wheelsNumber && w.dropping == {}
    ensures var w' := TurnWheel(c, w);
            && (forall i: nat | i < c.wheelsNumber && i != w.phase :: Turned(c, w', i) == Turned(c, w, i))
            && Turned(c, w', w.phase) == Turned(c, w, w.phase) + (if TurnsNow(c, w, w.phase) then 1 else 0)
  {
    PowPositive(c.bucketsNumPerWheel, w.phase);
    DivStep(w.ticks, Pow(c.bucketsNumPerWheel, w.phase));
  }

  // A turning wheel loses its front bucket, and all its other buckets move up by one.
  lemma TurnLooks(c: Config, w: Wheels)
    requires Shaped(c, w) && w.phase < c.wheelsNumber && w.dropping == {} && TurnsNow(c, w, w.phase)
    ensures var w' := TurnWheel(c, w);
            && Shaped(c, w')
            && (forall e :: e in w'.dropping <==> At(w.buckets, w.phase, 0, e))
            && (forall i: nat, j: nat, e :: At(w'.buckets, i, j, e) <==>
                  At(w.buckets, i, if i == w.phase then j + 1 else j, e))
  {
    var w', p := TurnWheel(c, w), w.phase;
    forall i: nat, j: nat, e
      ensures At(w'.buckets, i, j, e) <==> At(w.buckets, i, if i == p then j + 1 else j, e)
    {
      if i == p && j < c.bucketsNumPerWheel - 1 {
        assert w'.buckets[p][j] == w.buckets[p][j + 1];
      }
    }
    forall e | e in w'.dropping
      ensures Fits(e, p)
    {
      assert At(w.buckets, p, 0, e);
    }
    assert TurnsNow(c, w', p);
  }

  lemma TurnForward(c: Config, w: Wheels, x: (Entry, nat))
    requires Shaped(c, w) && w.phase < c.wheelsNumber && w.dropping == {} && TurnsNow(c, w, w.phase)
    requires x in Queued(c, w)
    ensures var w' := TurnWheel(c, w); Shaped(c, w') && x in Pending(c, w')
  {
    var w', p := TurnWheel(c, w), w.phase;
    TurnLooks(c, w);
    TurnCount(c, w);
    var i, j, e := Find(c, w, x);
    if i == p && j == 0 {
      assert e in w'.dropping && x == (LeafOf(e), DueNow(c, w', e));
    } else {
      Has(c, w', i, if i == p then j - 1 else j, e);
    }
  }

  lemma TurnBackward(c: Config, w: Wheels, x: (Entry, nat))
    requires Shaped(c, w) && w.phase < c.wheelsNumber && w.dropping == {} && TurnsNow(c, w, w.phase)
    requires var w' := TurnWheel(c, w); Shaped(c, w') && x in Pending(c, w')
    ensures x in Queued(c, w)
  {
    var w', p := TurnWheel(c, w), w.phase;
    TurnLooks(c, w);
    TurnCount(c, w);
    if x in Queued(c, w') {
      var i, j, e := Find(c, w', x);
      Has(c, w, i, if i == p then j + 1 else j, e);
    } else {
      var e :| e in w'.dropping && x == (LeafOf(e), DueNow(c, w', e));
      Has(c, w, p, 0, e);
    }
  }

  // Swapping a bucket out of a wheel keeps the schedule.
  lemma TurnWheelKeeps(c: Config, w: Wheels)
    requires Shaped(c, w) && w.phase < c.wheelsNumber && w.dropping == {}
    ensures Shaped(c, TurnWheel(c, w)) && Pending(c, TurnWheel(c, w)) == Pending(c, w)
  {
    var w' := TurnWheel(c, w);
    if TurnsNow(c, w, w.phase) {
      TurnLooks(c, w);
      forall x | x in Pending(c, w)
        ensures x in Pending(c, w')
      {
        TurnForward(c, w, x);
      }
      forall x | x in Pending(c, w')
        ensures x in Pending(c, w)
      {
        TurnBackward(c, w, x);
      }
    } else {
      TurnCount(c, w);
      assert Queued(c, w') == Queued(c, w);
    }
  }

  lemma PutInLooks(w: Wheels, i: nat, j: nat, e: Entry)
    requires i < |w.buckets| && j < |w.buckets[i]|
    ensures var w' := PutIn(w, i, j, e);
            && |w'.buckets| == |w.buckets|
            && (forall i0 | 0 <= i0 < |w.buckets| :: |w'.buckets[i0]| == |w.buckets[i0]|)
            && (forall i0: nat, j0: nat, e0 :: At(w'.buckets, i0, j0, e0) <==> At(w.buckets, i0, j0, e0) || (i0, j0, e0) == (i, j, e))
  {
  }

  lemma PutInShaped(c: Config, w: Wheels, i: nat, j: nat, e: Entry)
    requires Shaped(c, w) && i < |w.buckets| && j < |w.buckets[i]| && Fits(e, i)
    ensures Shaped(c, PutIn(w, i, j, e))
  {
    var w' := PutIn(w, i, j, e);
    PutInLooks(w, i, j, e);
    hide At, PlacedIn;
    forall i0: nat, j0: nat, e0 | At(w'.buckets, i0, j0, e0)
      ensures Fits(e0, i0)
    {
    }
  }

  lemma QueuedGrows(c: Config, w: Wheels, w': Wheels, i: nat, j: nat, e: Entry)
    requires c.Ok() && w'.ticks == w.ticks && w'.phase == w.phase
    requires forall i0: nat, j0: nat, e0 :: At(w'.buckets, i0, j0, e0) <==> At(w.buckets, i0, j0, e0) || (i0, j0, e0) == (i, j, e)
    ensures Queued(c, w') == Queued(c, w) + {(LeafOf(e), DueAt(c, w, i, j, e))}
  {
    hide Queued;
    var x0 := (LeafOf(e), DueAt(c, w, i, j, e));
    Has(c, w', i, j, e);
    QueuedMonotone(c, w, w');
    forall x | x in Queued(c, w') && x != x0
      ensures x in Queued(c, w)
    {
      var i0, j0, e0 := Find(c, w', x);
      Has(c, w, i0, j0, e0);
    }
  }

  lemma QueuedMonotone(c: Config, w: Wheels, w': Wheels)
    requires c.Ok() && w'.ticks == w.ticks && w'.phase == w.phase
    requires forall i: nat, j: nat, e :: At(w.buckets, i, j, e) ==> At(w'.buckets, i, j, e)
    ensures Queued(c, w) <= Queued(c, w')
  {
    forall x | x in Queued(c, w)
      ensures x in Queued(c, w')
    {
      var i, j, e := Find(c, w, x);
      Has(c, w', i, j, e);
    }
  }

  lemma QueuedSame(c: Config, w: Wheels, w': Wheels)
    requires c.Ok() && w'.ticks == w.ticks && w'.phase == w.phase && w'.buckets == w.buckets
    ensures Queued(c, w') == Queued(c, w)
  {
  }

  lemma FallingSame(c: Config, w: Wheels, w': Wheels)
    requires c.Ok() && (w.dropping != {} ==> w.phase >= 1)
    requires w'.ticks == w.ticks && w'.phase == w.phase && w'.dropping == w.dropping
    ensures Falling(c, w') == Falling(c, w)
  {
  }

  lemma PutInAdds(c: Config, w: Wheels, i: nat, j: nat, e: Entry)
    requires Shaped(c, w) && i < |w.buckets| && j < |w.buckets[i]| && Fits(e, i)
    ensures Shaped(c, PutIn(w, i, j, e))
    ensures Pending(c, PutIn(w, i, j, e)) == Pending(c, w) + {(LeafOf(e), DueAt(c, w, i, j, e))}
  {
    var w' := PutIn(w, i, j, e);
    PutInLooks(w, i, j, e);
    PutInShaped(c, w, i, j, e);
    QueuedGrows(c, w, w', i, j, e);
    FallingSame(c, w, w');
    hide Shaped, Queued, Falling, DueAt, PlacedIn, At;
  }

  // What is left of the schedule when one entry of the swapped-out bucket is taken out.
  lemma TakeOut(c: Config, w: Wheels, e: Entry)
    requires Shaped(c, w) && e in w.dropping
    ensures var w' := w.(dropping := w.dropping - {e});
            && Shaped(c, w') && Pending(c, w) == Pending(c, w') + {(LeafOf(e), DueNow(c, w, e))}
  {
    var w' := w.(dropping := w.dropping - {e});
    TakeOutShaped(c, w, e);
    QueuedSame(c, w, w');
    FallingSplit(c, w, w', e);
    hide Queued, Falling, DueNow, Shaped;
    assert Pending(c, w) == Queued(c, w) + Falling(c, w) && Pending(c, w') == Queued(c, w) + Falling(c, w');
  }

  lemma TakeOutShaped(c: Config, w: Wheels, e: Entry)
    requires Shaped(c, w) && e in w.dropping
    ensures Shaped(c, w.(dropping := w.dropping - {e})) && w.phase >= 1
  {
    assert w.(dropping := w.dropping - {e}).buckets == w.buckets;
  }

  lemma FallingSplit(c: Config, w: Wheels, w': Wheels, e: Entry)
    requires c.Ok() && w.phase >= 1 && e in w.dropping
    requires w'.ticks == w.ticks && w'.phase == w.phase && w'.dropping == w.dropping - {e}
    ensures Falling(c, w) == Falling(c, w') + {(LeafOf(e), DueNow(c, w, e))}
  {
    forall x | x in Falling(c, w)
      ensures x in Falling(c, w') + {(LeafOf(e), DueNow(c, w, e))}
    {
      var e0 :| e0 in w.dropping && x == (LeafOf(e0), DueNow(c, w, e0));
      if e0 != e {
        assert e0 in w'.dropping && x == (LeafOf(e0), DueNow(c, w', e0));
      }
    }
  }

  // A cascade keeps the schedule.  This rests on the ascending order of the wheels: the wheel below has
  // already turned in this tick.
  lemma CascadeKeeps(c: Config, w: Wheels, e: Entry)
    requires Shaped(c, w) && e in w.dropping && e.Wrap?
    ensures Shaped(c, Drop(c, w, e)) && Pending(c, Drop(c, w, e)) == Pending(c, w)
  {
    var b, i := c.bucketsNumPerWheel, e.level;
    var w' := w.(dropping := w.dropping - {e});
    var r := FallIndex(b, e.delay, e.t);
    TakeOut(c, w, e);
    FallsInTime(c, w, e);
    hide Shaped, DueAt, DueNow, Pending, FallIndex;
    PutInAdds(c, w', i, r, e.inner);
  }

  lemma FallsInTime(c: Config, w: Wheels, e: Entry)
    requires Shaped(c, w) && e in w.dropping && e.Wrap?
    ensures var w', r := w.(dropping := w.dropping - {e}), FallIndex(c.bucketsNumPerWheel, e.delay, e.t);
            && e.level < |w'.buckets| && r < |w'.buckets[e.level]| && Fits(e.inner, e.level) && e.delay > 0
            && DueAt(c, w', e.level, r, e.inner) == DueNow(c, w, e)
  {
    TurnsBelow(c.bucketsNumPerWheel, e.level, w.ticks);
  }

  lemma ExactTurns(b: nat, i: nat, t: nat)
    requires b >= 1 && (PowPositive(b, i); t % Pow(b, i) == 0)
    ensures Turns(b, i, t) * Pow(b, i) == t
  {
    PowPositive(b, i);
  }

  lemma TurnsBelow(b: nat, i: nat, t: nat)
    requires b >= 1 && (PowPositive(b, i + 1); t % Pow(b, i + 1) == 0)
    ensures Turns(b, i, t) == Turns(b, i + 1, t) * b
  {
    PowPositive(b, i + 1);
    var q := t / Pow(b, i + 1);
    PowPositive(b, i);
    MulAssociates(q, b, Pow(b, i));
    DivUnique(t, Pow(b, i), q * b, 0);
  }

  // A leaf comes out of wheel 0, in the very tick the schedule says, and only that one pair goes.
  lemma LeafDropsOnTime(c: Config, w: Wheels, e: Entry)
    requires Shaped(c, w) && e in w.dropping && e.Leaf?
    ensures Shaped(c, Drop(c, w, e)) && w.phase == 1
    ensures (e, w.ticks) in Pending(c, w)
    ensures Pending(c, Drop(c, w, e)) == Pending(c, w) - {(e, w.ticks)}
  {
    var w' := Drop(c, w, e);
    TakeOut(c, w, e);
    assert Turned(c, w, 0) == w.ticks by { assert Pow(c.bucketsNumPerWheel, 0) == 1; }
    assert DueNow(c, w, e) == w.ticks;
    LeavesFall(c, w');
    forall x | x in Queued(c, w')
      ensures x.1 > w.ticks
    {
      QueuedLater(c, w', x);
    }
  }

  // What falls out of wheel 0 is a leaf itself.
  lemma LeavesFall(c: Config, w: Wheels)
    requires Shaped(c, w) && w.phase == 1
    ensures forall x | x in Falling(c, w) :: x.0 in w.dropping
  {
    forall x | x in Falling(c, w)
      ensures x.0 in w.dropping
    {
      var e :| e in w.dropping && x == (LeafOf(e), DueNow(c, w, e));
      assert Fits(e, 0);
    }
  }

  // ---------------------------------------------------------------- when things fall due

  // Once wheel 0 has turned, no bucket holds anything due in this tick or before.
  lemma QueuedLater(c: Config, w: Wheels, x: (Entry, nat))
    requires Shaped(c, w) && x in Queued(c, w)
    ensures x.1 >= w.ticks
    ensures w.phase >= 1 ==> x.1 > w.ticks
  {
    var i, j, e := Find(c, w, x);
    var b := c.bucketsNumPerWheel;
    var n := Turned(c, w, i);
    NextTurn(b, i, if i < w.phase || w.ticks == 0 then w.ticks else w.ticks - 1);
    MulMonotone(n + 1, n + j + 1, Pow(b, i));
    DueAfterTurn(b, e, i, n + j + 1);
  }

  lemma PendingLater(c: Config, w: Wheels, x: (Entry, nat))
    requires Shaped(c, w) && x in Pending(c, w)
    ensures x.1 >= w.ticks
    ensures (w.phase >= 1 && w.dropping == {}) || w.phase >= 2 ==> x.1 > w.ticks
  {
    if x in Queued(c, w) {
      QueuedLater(c, w, x);
    } else {
      var e :| e in w.dropping && x == (LeafOf(e), DueNow(c, w, e));
      ExactTurns(c.bucketsNumPerWheel, w.phase - 1, w.ticks);
      DueAfterTurn(c.bucketsNumPerWheel, e, w.phase - 1, Turned(c, w, w.phase - 1));
    }
  }

  // ---------------------------------------------------------------- insertion at any moment

  /** When an entry for `delay` ticks, inserted right now, will be released. */
  function FireTick(c: Config, w: Wheels, delay: nat): int
    requires c.Ok() && delay >= 1
  {
    var k := StopWheel(c, 0, delay, w.ticks);
    w.ticks + delay - Early(c, delay, w.ticks)
      - (if StillDue(c, w, k) then Pow(c.bucketsNumPerWheel, k) else 0)
  }

  lemma TurnedNow(c: Config, w: Wheels, k: nat)
    requires Shaped(c, w) && k < c.wheelsNumber
    ensures Turns(c.bucketsNumPerWheel, k, w.ticks) == Turned(c, w, k) + (if StillDue(c, w, k) then 1 else 0)
  {
    PowPositive(c.bucketsNumPerWheel, k);
    if w.ticks >= 1 {
      DivStep(w.ticks, Pow(c.bucketsNumPerWheel, k));
    }
  }

  lemma AddDue(c: Config, w: Wheels, delay: nat, leaf: Entry)
    requires Shaped(c, w) && delay >= 1 && leaf.Leaf?
    ensures var s := Place(c, 0, delay, w.ticks, leaf); DueAt(c, w, s.wheel, s.index, s.entry) == FireTick(c, w, delay)
  {
    var s := Place(c, 0, delay, w.ticks, leaf);
    PlaceStops(c, 0, delay, w.ticks, leaf);
    ExactFiring(c, delay, w.ticks, leaf);
    TurnedNow(c, w, s.wheel);
    if StillDue(c, w, s.wheel) {
      DueShift(c.bucketsNumPerWheel, s.entry, s.wheel, Turned(c, w, s.wheel) + s.index + 1, 1);
    }
  }

  /**
   * Phase-precise firing: an entry inserted at any moment, also in the middle of a tick, is released at
   * ticks + delay (less the clamp), or B^k earlier if the wheel k it lands in still has to turn in the tick in
   * progress; so never late.
   */
  lemma AddSchedules(c: Config, w: Wheels, delay: nat, leaf: Entry)
    requires Shaped(c, w) && delay >= 1 && leaf.Leaf?
    ensures Shaped(c, Add(c, w, delay, leaf)) && w.ticks <= FireTick(c, w, delay) <= w.ticks + delay
    ensures Pending(c, Add(c, w, delay, leaf)) == Pending(c, w) + {(leaf, FireTick(c, w, delay) as nat)}
    ensures w.phase == c.wheelsNumber && delay <= Pow(c.bucketsNumPerWheel, c.wheelsNumber)
            ==> FireTick(c, w, delay) == w.ticks + delay
    ensures w.phase >= 1 ==> FireTick(c, w, delay) > w.ticks
  {
    var s := Place(c, 0, delay, w.ticks, leaf);
    var due := DueAt(c, w, s.wheel, s.index, s.entry);
    var w' := PutIn(w, s.wheel, s.index, s.entry);
    AddDue(c, w, delay, leaf);
    PutInAdds(c, w, s.wheel, s.index, s.entry);
    AddedLater(c, w, s.wheel, s.index, s.entry);
    FireTickBounds(c, w, delay, leaf);
    hide FireTick, Place, Shaped, Pending, DueAt, PutIn;
    assert Add(c, w, delay, leaf) == w' && due == FireTick(c, w, delay) && LeafOf(s.entry) == leaf;
  }

  // What is put into a bucket is due in the tick in progress at the earliest, and later once wheel 0 has turned.
  lemma AddedLater(c: Config, w: Wheels, i: nat, j: nat, e: Entry)
    requires Shaped(c, w) && i < |w.buckets| && j < |w.buckets[i]| && Fits(e, i)
    ensures DueAt(c, w, i, j, e) >= w.ticks && (w.phase >= 1 ==> DueAt(c, w, i, j, e) > w.ticks)
  {
    var w' := PutIn(w, i, j, e);
    PutInShaped(c, w, i, j, e);
    PutInLooks(w, i, j, e);
    Has(c, w', i, j, e);
    QueuedLater(c, w', (LeafOf(e), DueAt(c, w', i, j, e)));
    hide Shaped, Queued, PlacedIn;
  }

  lemma FireTickBounds(c: Config, w: Wheels, delay: nat, leaf: Entry)
    requires Shaped(c, w) && delay >= 1 && leaf.Leaf?
    ensures FireTick(c, w, delay) <= w.ticks + delay
    ensures w.phase == c.wheelsNumber && delay <= Pow(c.bucketsNumPerWheel, c.wheelsNumber)
            ==> FireTick(c, w, delay) == w.ticks + delay
  {
    ExactFiring(c, delay, w.ticks, leaf);
    PowPositive(c.bucketsNumPerWheel, StopWheel(c, 0, delay, w.ticks));
    hide Early, Shaped, Place;
  }
}
