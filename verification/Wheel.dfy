/** Division, remainder and powers, as far as the wheels need them. */
module Powers {
  function Pow(b: nat, n: nat): nat {
    if n == 0 then 1 else b * Pow(b, n - 1)
  }

  lemma {:induction false} PowPositive(b: nat, n: nat)
    requires b >= 1
    ensures Pow(b, n) >= 1
  {
    if n > 0 {
      PowPositive(b, n - 1);
    }
  }

  lemma MulDistributes(x: int, y: int, z: int)
    ensures (x + y) * z == x * z + y * z
  {
  }

  lemma MulAssociates(x: int, y: int, z: int)
    ensures (x * y) * z == x * (y * z)
  {
  }

  lemma MulMonotone(x: int, y: int, z: nat)
    requires x <= y
    ensures x * z <= y * z
  {
  }

  lemma RealMulMonotone(x: real, y: real, z: real)
    requires x <= y && z > 0.0
    ensures x * z <= y * z
    ensures x < y ==> x * z < y * z
  {
  }

  lemma FloorBounds(x: real, i: real)
    requires i > 0.0
    ensures (x / i).Floor as real * i <= x < ((x / i).Floor + 1) as real * i
  {
    var q := x / i;
    var n := q.Floor;
    assert q * i == x;
    RealMulMonotone(n as real, q, i);
    RealMulMonotone(q, (n + 1) as real, i);
    assert x < (n + 1) as real * i;
  }

  lemma DivUnique(x: int, p: nat, q: int, r: int)
    requires p > 0 && 0 <= r < p && x == q * p + r
    ensures x / p == q && x % p == r
  {
    var d := x / p - q;
    MulDistributes(d, q, p);
    assert d * p == r - x % p;
    if d != 0 {
      MulMonotone(if d > 0 then 1 else d, if d > 0 then d else -1, p);
      assert false;
    }
  }

  // The number of multiples of p passed goes up by one exactly when x is one of them.
  lemma DivStep(x: nat, p: nat)
    requires p >= 1 && x >= 1
    ensures x / p == (x - 1) / p + (if x % p == 0 then 1 else 0)
  {
    var q, r := x / p, x % p;
    if r == 0 {
      MulDistributes(q - 1, 1, p);
      DivUnique(x - 1, p, q - 1, p - 1);
    } else {
      DivUnique(x - 1, p, q, r - 1);
    }
  }

  lemma DivDiv(x: nat, b: nat, p: nat)
    requires b >= 1 && p >= 1
    ensures b * p >= 1 && (x / b) / p == x / (b * p)
  {
    var q := (x / b) / p;
    var r := (x / b) % p;
    var s := x % b;
    MulMonotone(1, b, p);
    MulDistributes(q * p, r, b);
    MulAssociates(q, p, b);
    MulDistributes(r, 1, b);
    MulMonotone(r + 1, p, b);
    MulMonotone(0, r, b);
    DivUnique(x, b * p, q, r * b + s);
  }
}

/**
 * The hierarchical timing wheel: nested entries, where they are put, and the tick at which each
 * one is released.  A wheel is a queue of buckets; wheel i turns every B^i ticks.
 */
module TimingWheel {
  import opened Powers

  datatype Config = Config(wheelsNumber: nat, bucketsNumPerWheel: nat, tickInterval: real) {
    predicate Ok() {
      wheelsNumber >= 1 && bucketsNumPerWheel >= 1 && tickInterval > 0.0
    }

    /** A delay in seconds as a number of ticks, rounded up to the tick after it. */
    function Ticks(delay: nat): (d: nat)
      requires Ok()
      ensures d >= 1
    {
      FloorBounds(delay as real, tickInterval);
      (delay as real / tickInterval).Floor + 1
    }

    lemma TicksMeaning(delay: nat)
      requires Ok()
      ensures (Ticks(delay) - 1) as real * tickInterval <= delay as real < Ticks(delay) as real * tickInterval
    {
      FloorBounds(delay as real, tickInterval);
    }
  }

  /** The type of the keys (the template parameter T1). */
  type Key(==, !new)

  datatype Task = Expire(key: Key) | Run(task: nat)

  /** A CallbackEntry: one with a task of its own, or a closure that puts `inner` one wheel lower. */
  datatype Entry =
    | Leaf(id: nat, task: Task)
    | Wrap(level: nat, delay: nat, t: nat, inner: Entry)

  function LeafOf(e: Entry): (r: Entry)
    ensures r.Leaf?
  {
    if e.Leaf? then e else LeafOf(e.inner)
  }

  /** Wheel 0 holds leaves; wheel i + 1 holds closures that fall back to wheel i. */
  predicate Fits(e: Entry, wheel: nat) {
    match e
    case Leaf(_, _) => wheel == 0
    case Wrap(level, delay, _, inner) => wheel == level + 1 && delay > 0 && Fits(inner, level)
  }

  /** The bucket a closure picks when it falls back. */
  function FallIndex(b: nat, delay: nat, t: nat): (r: nat)
    requires b >= 1 && delay >= 1
    ensures r < b
  {
    (delay + t % b - 1) % b
  }

  /** The tick at which the leaf of `e` is released if `e` leaves its wheel at that wheel's a-th turn. */
  function Due(b: nat, e: Entry, a: nat): nat
    requires b >= 1
  {
    match e
    case Leaf(_, _) => a
    case Wrap(_, delay, t, inner) =>
      Due(b, inner, a * b + (if delay > 0 then FallIndex(b, delay, t) else 0) + 1)
  }

  lemma {:induction false} DueShift(b: nat, e: Entry, wheel: nat, a: nat, n: nat)
    requires b >= 1 && Fits(e, wheel)
    ensures Due(b, e, a + n) == Due(b, e, a) + n * Pow(b, wheel)
  {
    if e.Wrap? {
      var r := FallIndex(b, e.delay, e.t) + 1;
      MulDistributes(a, n, b);
      MulAssociates(n, b, Pow(b, wheel - 1));
      DueShift(b, e.inner, wheel - 1, a * b + r, n * b);
    }
  }

  // Nothing falls out before its wheel turns, and what falls through a wheel comes out strictly later.
  lemma {:induction false} DueAfterTurn(b: nat, e: Entry, wheel: nat, a: nat)
    requires b >= 1 && Fits(e, wheel)
    ensures Due(b, e, a) >= a * Pow(b, wheel)
    ensures wheel > 0 ==> Due(b, e, a) > a * Pow(b, wheel)
  {
    if e.Wrap? {
      var a' := a * b + FallIndex(b, e.delay, e.t) + 1;
      DueAfterTurn(b, e.inner, wheel - 1, a');
      PowPositive(b, wheel - 1);
      MulMonotone(a * b + 1, a', Pow(b, wheel - 1));
      MulDistributes(a * b, 1, Pow(b, wheel - 1));
      MulAssociates(a, b, Pow(b, wheel - 1));
    }
  }

  // ---------------------------------------------------------------- placing an entry

  datatype Spot = Spot(wheel: nat, index: nat, entry: Entry)

  /** The delay seen by the next wheel up. */
  function NextDelay(b: nat, delay: nat, t: nat): (r: nat)
    requires b >= 1 && delay > b
    ensures r >= 1
  {
    (delay + t % b - 1) / b
  }

  /** The counter as the next wheel up sees it. */
  function NextTime(b: nat, t: nat): nat
    requires b >= 1
  {
    t / b
  }

  /** Where an entry for `delay` ticks ends up when the search starts at wheel i. */
  function Place(c: Config, i: nat, delay: nat, t: nat, e: Entry): (s: Spot)
    requires c.Ok() && i < c.wheelsNumber && delay >= 1 && Fits(e, i)
    ensures i <= s.wheel < c.wheelsNumber && s.index < c.bucketsNumPerWheel
    ensures Fits(s.entry, s.wheel) && LeafOf(s.entry) == LeafOf(e)
    decreases c.wheelsNumber - i
  {
    var b := c.bucketsNumPerWheel;
    if delay <= b then Spot(i, delay - 1, e)
    else if i < c.wheelsNumber - 1 then
      Place(c, i + 1, NextDelay(b, delay, t), NextTime(b, t), Wrap(i, delay, t, e))
    else Spot(i, b - 1, e)
  }

  /** The wheel the search stops at. */
  function StopWheel(c: Config, i: nat, delay: nat, t: nat): (k: nat)
    requires c.Ok() && i < c.wheelsNumber && delay >= 1
    ensures i <= k < c.wheelsNumber
    decreases c.wheelsNumber - i
  {
    var b := c.bucketsNumPerWheel;
    if delay <= b || i == c.wheelsNumber - 1 then i
    else StopWheel(c, i + 1, NextDelay(b, delay, t), NextTime(b, t))
  }

  /** The delay as seen by the wheel the search stops at. */
  function StopDelay(c: Config, i: nat, delay: nat, t: nat): (d: nat)
    requires c.Ok() && i < c.wheelsNumber && delay >= 1
    ensures d >= 1
    ensures StopWheel(c, i, delay, t) < c.wheelsNumber - 1 ==> d <= c.bucketsNumPerWheel
    decreases c.wheelsNumber - i
  {
    var b := c.bucketsNumPerWheel;
    if delay <= b || i == c.wheelsNumber - 1 then delay
    else StopDelay(c, i + 1, NextDelay(b, delay, t), NextTime(b, t))
  }

  lemma {:induction false} PlaceStops(c: Config, i: nat, delay: nat, t: nat, e: Entry)
    requires c.Ok() && i < c.wheelsNumber && delay >= 1 && Fits(e, i)
    ensures Place(c, i, delay, t, e).wheel == StopWheel(c, i, delay, t)
    decreases c.wheelsNumber - i
  {
    var b := c.bucketsNumPerWheel;
    if delay > b && i < c.wheelsNumber - 1 {
      PlaceStops(c, i + 1, NextDelay(b, delay, t), NextTime(b, t), Wrap(i, delay, t, e));
    }
  }

  // Going up one wheel and falling back through the closure loses nothing.
  lemma FallSum(b: nat, delay: nat, t: nat)
    requires b >= 1 && delay > b
    ensures (NextTime(b, t) + NextDelay(b, delay, t)) * b + FallIndex(b, delay, t) + 1 == t + delay
  {
    var x: nat := delay + t % b - 1;
    MulDistributes(t / b, x / b, b);
    assert x == (x / b) * b + x % b;
    assert t == (t / b) * b + t % b;
  }

  // A closure is released when what it carries would be.
  lemma FallDue(b: nat, i: nat, delay: nat, t: nat, e: Entry)
    requires b >= 1 && delay > b
    ensures Due(b, Wrap(i, delay, t, e), NextTime(b, t) + NextDelay(b, delay, t)) == Due(b, e, t + delay)
  {
    FallSum(b, delay, t);
    hide FallIndex, NextDelay;
  }

  /** What the clamp at the top wheel takes away from a delay of d top-level turns. */
  function Clamped(c: Config, d: nat): nat
    requires c.Ok()
  {
    if d <= c.bucketsNumPerWheel then 0
    else (d - c.bucketsNumPerWheel) * Pow(c.bucketsNumPerWheel, c.wheelsNumber - 1)
  }

  /** The number of turns a wheel has made by the time the one `levels` below it has made t. */
  function Turns(b: nat, levels: nat, t: nat): nat
    requires b >= 1
  {
    PowPositive(b, levels);
    t / Pow(b, levels)
  }

  lemma TurnsStep(b: nat, levels: nat, t: nat)
    requires b >= 1 && levels >= 1
    ensures Turns(b, levels, t) == Turns(b, levels - 1, NextTime(b, t))
  {
    PowPositive(b, levels - 1);
    DivDiv(t, b, Pow(b, levels - 1));
  }

  // The next turn of a wheel lies in the future.
  lemma NextTurn(b: nat, levels: nat, t: nat)
    requires b >= 1
    ensures (Turns(b, levels, t) + 1) * Pow(b, levels) > t
  {
    PowPositive(b, levels);
    MulDistributes(Turns(b, levels, t), 1, Pow(b, levels));
  }

  // The placed entry leaves its wheel at turn t/B^k + index + 1 and is then released at t + delay,
  // less what the clamp at the top wheel takes away.
  lemma {:induction false} PlaceDue(c: Config, i: nat, delay: nat, t: nat, e: Entry)
    requires c.Ok() && i < c.wheelsNumber && delay >= 1 && Fits(e, i)
    ensures var s := Place(c, i, delay, t, e);
            Due(c.bucketsNumPerWheel, s.entry, Turns(c.bucketsNumPerWheel, s.wheel - i, t) + s.index + 1)
            == Due(c.bucketsNumPerWheel, e, t + delay) - Clamped(c, StopDelay(c, i, delay, t))
    decreases c.wheelsNumber - i
  {
    var b := c.bucketsNumPerWheel;
    if delay <= b {
      assert Turns(b, 0, t) == t;
    } else if i < c.wheelsNumber - 1 {
      var e' := Wrap(i, delay, t, e);
      var d' := NextDelay(b, delay, t);
      PlaceDue(c, i + 1, d', NextTime(b, t), e');
      var s := Place(c, i + 1, d', NextTime(b, t), e');
      assert Place(c, i, delay, t, e) == s;
      TurnsStep(b, s.wheel - i, t);
      FallDue(b, i, delay, t, e);
    } else {
      assert Turns(b, 0, t) == t;
      DueShift(b, e, i, t + b, delay - b);
      assert t + b + (delay - b) == t + delay;
    }
  }

  // A delay the wheels can hold is never clamped.
  lemma {:induction false} InRange(c: Config, i: nat, delay: nat, t: nat)
    requires c.Ok() && i < c.wheelsNumber && 1 <= delay <= Pow(c.bucketsNumPerWheel, c.wheelsNumber - i)
    ensures StopDelay(c, i, delay, t) <= c.bucketsNumPerWheel
    decreases c.wheelsNumber - i
  {
    var b := c.bucketsNumPerWheel;
    if delay > b && i < c.wheelsNumber - 1 {
      var p := Pow(b, c.wheelsNumber - i - 1);
      var x: nat := delay + t % b - 1;
      assert x <= b * p + (b - 2);
      assert NextDelay(b, delay, t) <= p by {
        if x / b > p {
          MulMonotone(p + 1, x / b, b);
          MulDistributes(p, 1, b);
          assert false;
        }
      }
      InRange(c, i + 1, NextDelay(b, delay, t), NextTime(b, t));
    } else if i == c.wheelsNumber - 1 {
      assert Pow(b, 1) == b * Pow(b, 0);
    }
  }

  /** By how many ticks an entry is released early because even the top wheel is too small for it. */
  function Early(c: Config, delay: nat, t: nat): nat
    requires c.Ok() && delay >= 1
  {
    Clamped(c, StopDelay(c, 0, delay, t))
  }

  /**
   * Main result on insertion between ticks: an entry for delay d, placed while the counter is t,
   * is released at exactly t + d when d <= B^W, and otherwise early by (d_top - B) * B^(W-1), where
   * d_top is the delay seen by the top wheel; never late and never at once.
   */
  lemma ExactFiring(c: Config, delay: nat, t: nat, leaf: Entry)
    requires c.Ok() && delay >= 1 && leaf.Leaf?
    ensures var s := Place(c, 0, delay, t, leaf);
            Due(c.bucketsNumPerWheel, s.entry, Turns(c.bucketsNumPerWheel, s.wheel, t) + s.index + 1)
            == t + delay - Early(c, delay, t)
    ensures delay <= Pow(c.bucketsNumPerWheel, c.wheelsNumber) ==> Early(c, delay, t) == 0
    ensures Early(c, delay, t) < delay
  {
    PlaceDue(c, 0, delay, t, leaf);
    if delay <= Pow(c.bucketsNumPerWheel, c.wheelsNumber) {
      InRange(c, 0, delay, t);
    }
    var s := Place(c, 0, delay, t, leaf);
    NextTurn(c.bucketsNumPerWheel, s.wheel, t);
    DueAfterTurn(c.bucketsNumPerWheel, s.entry, s.wheel, Turns(c.bucketsNumPerWheel, s.wheel, t) + s.index + 1);
    MulMonotone(Turns(c.bucketsNumPerWheel, s.wheel, t) + 1,
                Turns(c.bucketsNumPerWheel, s.wheel, t) + s.index + 1, Pow(c.bucketsNumPerWheel, s.wheel));
  }
}
