/**
 * The end of `eraseAfter`, where the local strong pointer goes while `mtx_` is held: when it is the last one, the expiry
 * callback runs on the user's thread and waits for the mutex that this thread holds.
 */
module CacheRelease {
  import opened Sequences
  import opened Powers
  import opened TimingWheel
  import opened WheelSteps
  import opened CacheModel
  import opened ExpiringMap
  import opened CacheRefinement
  import opened CacheRuns

  // ---------------------------------------------------------------- exactly when

  // Nothing that was due by a tick is left of the leaf once the bucket of that tick has been served.
  lemma ServedNotPending(c: Config, w: Wheels, leaf: Entry, tick: int)
    requires Shaped(c, w) && Served(w, leaf, tick)
    ensures forall due | (leaf, due) in Pending(c, w) :: due > tick
  {
    if w.phase == 1 {
      LeavesFall(c, w);
    }
    forall due | (leaf, due) in Pending(c, w)
      ensures due > tick
    {
      PendingLater(c, w, (leaf, due));
      if (leaf, due) in Queued(c, w) {
        QueuedLater(c, w, (leaf, due));
      }
    }
  }

  /** The last tick the wheels hold for the leaf. */
  ghost predicate IsLast(c: Config, w: Wheels, leaf: Entry, last: nat)
    requires Shaped(c, w)
  {
    (leaf, last) in Pending(c, w) && NoneLater(c, w, leaf, last)
  }

  ghost predicate NoneLater(c: Config, w: Wheels, leaf: Entry, last: nat)
    requires Shaped(c, w)
  {
    forall due | (leaf, due) in Pending(c, w) :: due <= last
  }

  lemma LastExists(c: Config, w: Wheels, leaf: Entry) returns (last: nat)
    requires Shaped(c, w) && Scheduled(c, w, leaf)
    ensures IsLast(c, w, leaf, last)
  {
    var dues := set x | x in Pending(c, w) && x.0 == leaf :: x.1;
    var due :| (leaf, due) in Pending(c, w);
    assert (leaf, due).1 in dues;
    last := Greatest(dues);
    forall due | (leaf, due) in Pending(c, w)
      ensures due <= last
    {
      assert (leaf, due).1 in dues;
    }
  }

  lemma {:induction false} Greatest(s: set<nat>) returns (g: nat)
    requires s != {}
    ensures g in s && forall n | n in s :: n <= g
  {
    g :| g in s;
    var rest := s - {g};
    assert forall n | n in s :: n == g || n in rest;
    if rest != {} {
      var h := Greatest(rest);
      g := if h > g then h else g;
    }
  }

  // While a hit has its leaf in a bucket, nobody else puts it into one: it only goes, in its tick.
  lemma HeldStep(c: Config, s: Cache, a: Spec, act: Action, leaf: Entry, last: nat)
    requires Rel(c, s, a) && Enabled(c, s, act) && act != Release
    requires s.held.Some? && !s.held.value.stage.Taken? && s.held.value.leaf == leaf
    requires Kept(c, s.wheels, leaf, last) && NoneLater(c, s.wheels, leaf, last)
    ensures var s' := Apply(c, s, act);
            && Shaped(c, s'.wheels) && s'.held == s.held && s'.cells == s.cells
            && Kept(c, s'.wheels, leaf, last) && NoneLater(c, s'.wheels, leaf, last)
  {
    match act
    case StartTick => StartTickKeeps(c, s.wheels);
    case Turn => TurnWheelKeeps(c, s.wheels);
    case Destroy(e) => HeldDrop(c, s, e, leaf, last);
    case Callback =>
    case RunAfter(delay, task) => HeldAdd(c, s, delay, task, leaf, last);
    case _ =>
  }

  lemma HeldDrop(c: Config, s: Cache, e: Entry, leaf: Entry, last: nat)
    requires Inv(c, s) && Enabled(c, s, Destroy(e)) && Kept(c, s.wheels, leaf, last) && NoneLater(c, s.wheels, leaf, last)
    ensures var w := Drop(c, s.wheels, e); Shaped(c, w) && Kept(c, w, leaf, last) && NoneLater(c, w, leaf, last)
  {
    KeptDrop(c, s.wheels, e, leaf, last);
    hide Kept;
    if e.Wrap? {
      CascadeKeeps(c, s.wheels, e);
    } else {
      LeafDropsOnTime(c, s.wheels, e);
    }
  }

  lemma HeldAdd(c: Config, s: Cache, delay: nat, task: nat, leaf: Entry, last: nat)
    requires Inv(c, s) && delay > 0 && leaf.Leaf? && leaf.id < s.nextId
    requires Kept(c, s.wheels, leaf, last) && NoneLater(c, s.wheels, leaf, last)
    ensures var w := Add(c, s.wheels, c.Ticks(delay), Leaf(s.nextId, Run(task)));
            Shaped(c, w) && Kept(c, w, leaf, last) && NoneLater(c, w, leaf, last)
  {
    AddSchedules(c, s.wheels, c.Ticks(delay), Leaf(s.nextId, Run(task)));
  }

  lemma {:induction false} HeldRuns(c: Config, s: Cache, a: Spec, acts: seq<Action>, leaf: Entry, last: nat)
      returns (a': Spec)
    requires Rel(c, s, a) && Exec(c, s, acts).Some? && Release !in acts
    requires s.held.Some? && !s.held.value.stage.Taken? && s.held.value.leaf == leaf
    requires Kept(c, s.wheels, leaf, last) && NoneLater(c, s.wheels, leaf, last)
    ensures var s' := Exec(c, s, acts).value;
            && Rel(c, s', a') && s'.held == s.held && s'.cells == s.cells
            && Kept(c, s'.wheels, leaf, last) && NoneLater(c, s'.wheels, leaf, last)
    decreases |acts|
  {
    if acts == [] {
      a' := a;
    } else {
      assert acts[0] in acts;
      var s1, a1 := Unfold(c, s, acts, a);
      HeldStep(c, s, a, acts[0], leaf, last);
      a' := HeldRuns(c, s1, a1, acts[1..], leaf, last);
    }
  }

  /**
   * Exactly when a hit locks itself out, on every run: the release is stuck if and only if no reference to the leaf is
   * left, and that is if and only if the wheel-0 bucket of the last tick the leaf was scheduled for has been served.
   * That tick is not before the one the hit's own insertion is due in.
   */
  lemma LocksItselfOutIff(c: Config, s: Cache, a: Spec, acts: seq<Action>, last: nat)
    requires Rel(c, s, a) && Enabled(c, s, PutHit) && Release !in acts
    requires var s1 := Apply(c, s, PutHit); Shaped(c, s1.wheels) && IsLast(c, s1.wheels, s.held.value.leaf, last)
    requires Exec(c, s, [PutHit] + acts).Some?
    ensures var s' := Exec(c, s, [PutHit] + acts).value;
            var h := s.held.value;
            && last >= FireTick(c, s.wheels, c.Ticks(h.delay))
            && Ready(c, s', Release)
            && (Stuck(Apply(c, s', Release), h.leaf) <==> !Referenced(s'.wheels, h.leaf))
            && (Stuck(Apply(c, s', Release), h.leaf) <==> Served(s'.wheels, h.leaf, last))
            && (Apply(c, s', Release).held.None? <==> !Served(s'.wheels, h.leaf, last))
  {
    var h := s.held.value;
    var all := [PutHit] + acts;
    assert all[1..] == acts;
    PutHitLasts(c, s, last);
    var s1, a1 := Unfold(c, s, all, a);
    hide Apply, Exec, Kept, NoneLater, Served, Referenced, Rel, Shaped, Add, FireTick;
    var a' := HeldRuns(c, s1, a1, acts, h.leaf, last);
    ReleaseIff(c, Exec(c, s, all).value, a', last);
  }

  lemma PutHitLasts(c: Config, s: Cache, last: nat)
    requires Inv(c, s) && Enabled(c, s, PutHit)
    requires var s1 := Apply(c, s, PutHit); Shaped(c, s1.wheels) && IsLast(c, s1.wheels, s.held.value.leaf, last)
    ensures var s1, h := Apply(c, s, PutHit), s.held.value;
            var due := FireTick(c, s.wheels, c.Ticks(h.delay));
            && s1.held == Some(h.(stage := Inserted(due))) && last >= due
            && Kept(c, s1.wheels, h.leaf, last) && NoneLater(c, s1.wheels, h.leaf, last)
  {
    var h := s.held.value;
    AddSchedules(c, s.wheels, c.Ticks(h.delay), h.leaf);
    assert (h.leaf, FireTick(c, s.wheels, c.Ticks(h.delay)) as nat) in Pending(c, Apply(c, s, PutHit).wheels);
  }

  lemma ReleaseIff(c: Config, s: Cache, a: Spec, last: nat)
    requires Rel(c, s, a) && s.held.Some? && s.held.value.stage.Inserted?
    requires Kept(c, s.wheels, s.held.value.leaf, last) && NoneLater(c, s.wheels, s.held.value.leaf, last)
    ensures var leaf := s.held.value.leaf;
            && Ready(c, s, Release)
            && (Stuck(Apply(c, s, Release), leaf) <==> !Referenced(s.wheels, leaf))
            && (Stuck(Apply(c, s, Release), leaf) <==> Served(s.wheels, leaf, last))
            && (Apply(c, s, Release).held.None? <==> !Served(s.wheels, leaf, last))
  {
    var leaf := s.held.value.leaf;
    ReferencedIffScheduled(c, s.wheels, leaf);
    if Served(s.wheels, leaf, last) {
      ServedNotPending(c, s.wheels, leaf, last);
    }
    hide Referenced, Served;
  }

  /** A hit that has locked itself out stays so for ever: nobody gets `mtx_`, no cell changes, and the key never goes. */
  lemma {:induction false} StuckForEver(c: Config, s: Cache, a: Spec, acts: seq<Action>, leaf: Entry) returns (a': Spec)
    requires Rel(c, s, a) && Stuck(s, leaf) && Exec(c, s, acts).Some?
    ensures var s' := Exec(c, s, acts).value;
            Rel(c, s', a') && Stuck(s', leaf) && s'.cells == s.cells && s'.expired == s.expired
    decreases |acts|
  {
    if acts == [] {
      a' := a;
    } else {
      var s1, a1 := Unfold(c, s, acts, a);
      StuckStep(c, s, acts[0], leaf);
      hide Apply, Rel, Ready, Stuck;
      a' := StuckForEver(c, s1, a1, acts[1..], leaf);
    }
  }

  lemma StuckStep(c: Config, s: Cache, act: Action, leaf: Entry)
    requires Ready(c, s, act) && Stuck(s, leaf)
    ensures var s' := Apply(c, s, act); Stuck(s', leaf) && s'.cells == s.cells && s'.expired == s.expired
  {
    hide Referenced, Add, Shaped;
  }

  // ---------------------------------------------------------------- a run on which it happens

  lemma ExecMore(c: Config, s: Cache, act: Action, acts: seq<Action>)
    requires Ready(c, s, act)
    ensures Exec(c, s, [act] + acts) == Exec(c, Apply(c, s, act), acts)
  {
    assert ([act] + acts)[1..] == acts;
  }

  /** One wheel of one bucket, a tick interval of two seconds. */
  const SMALL := Config(1, 1, 2.0)

  /** The states of the run: the hit begun, in its bucket, the next tick with the bucket swapped out, and destroyed. */
  function Begun(key: Key, value: Value): Cache {
    var leaf := Leaf(0, Expire(key));
    Cache(Wheels(0, 1, [[{}]], {}), map[key := Cell(value, 1, 0, Some(leaf))], None, Some(Held(leaf, 1, Taken)), 1, 1, [], [])
  }

  function InBucketAt(key: Key, value: Value, ticks: nat, phase: nat, bucket: set<Entry>, dropping: set<Entry>): Cache {
    var s := Begun(key, value);
    s.(held := Some(s.held.value.(stage := Inserted(1))), wheels := Wheels(ticks, phase, [[bucket]], dropping))
  }

  lemma SmallShaped(ticks: nat, phase: nat, bucket: set<Entry>, dropping: set<Entry>)
    requires phase <= 1 && (phase < 1 ==> ticks >= 1) && (dropping != {} ==> phase == 1)
    requires forall e | e in bucket + dropping :: e.Leaf?
    ensures Shaped(SMALL, Wheels(ticks, phase, [[bucket]], dropping))
    ensures TurnsNow(SMALL, Wheels(ticks, phase, [[bucket]], dropping), 0)
  {
    assert Pow(1, 0) == 1;
  }

  lemma InsertBegins(key: Key, value: Value)
    ensures Ready(SMALL, CacheModel.Init(SMALL), Insert(key, value, 1))
    ensures Apply(SMALL, CacheModel.Init(SMALL), Insert(key, value, 1)) == Begun(key, value)
  {
    var w := WheelSteps.Init(SMALL);
    assert w.buckets[0] == [{}];
    assert w.buckets == [[{}]];
  }

  lemma PutHitFills(key: Key, value: Value)
    ensures var leaf, s := Leaf(0, Expire(key)), Begun(key, value);
            && Ready(SMALL, s, PutHit) && Apply(SMALL, s, PutHit) == InBucketAt(key, value, 0, 1, {leaf}, {})
  {
    var leaf, w := Leaf(0, Expire(key)), Begun(key, value).wheels;
    SmallShaped(0, 1, {}, {});
    assert SMALL.Ticks(1) == 1;
    assert Place(SMALL, 0, 1, 0, leaf) == Spot(0, 0, leaf);
    var none: set<Entry> := {};
    assert w.buckets == [[none]] && none + {leaf} == {leaf};
    assert [none][0 := {leaf}] == [{leaf}];
    assert [[none]][0 := [{leaf}]] == [[{leaf}]];
    assert Add(SMALL, w, 1, leaf).buckets == [[{leaf}]];
    assert StopWheel(SMALL, 0, 1, 0) == 0 && FireTick(SMALL, w, 1) == 1;
  }

  lemma TickEmpties(key: Key, value: Value)
    ensures var leaf := Leaf(0, Expire(key));
            var s2, s3 := InBucketAt(key, value, 0, 1, {leaf}, {}), InBucketAt(key, value, 1, 0, {leaf}, {});
            var s4, s5 := InBucketAt(key, value, 1, 1, {}, {leaf}), InBucketAt(key, value, 1, 1, {}, {});
            && Ready(SMALL, s2, StartTick) && Apply(SMALL, s2, StartTick) == s3
            && Ready(SMALL, s3, Turn) && Apply(SMALL, s3, Turn) == s4
            && Ready(SMALL, s4, Destroy(leaf)) && Apply(SMALL, s4, Destroy(leaf)) == s5
  {
    var leaf := Leaf(0, Expire(key));
    SmallShaped(0, 1, {leaf}, {});
    SmallShaped(1, 0, {leaf}, {});
    SmallShaped(1, 1, {}, {leaf});
    var wheel := [{leaf}];
    assert wheel[1..] + [{}] == [{}];
    assert [wheel][0 := wheel[1..] + [{}]] == [[{}]];
    assert {leaf} - {leaf} == {};
    hide Shaped, Referenced, Add, FireTick;
  }

  lemma ReleaseLocks(key: Key, value: Value)
    ensures var leaf, s := Leaf(0, Expire(key)), InBucketAt(key, value, 1, 1, {}, {});
            && Ready(SMALL, s, Release) && !Referenced(s.wheels, leaf)
            && Apply(SMALL, s, Release) == s.(held := Some(s.held.value.(stage := SelfLocked)))
  {
    SmallShaped(1, 1, {}, {});
  }

  /** The next tick comes between the bucket insertion and the end of `eraseAfter`; the key is still there, with nothing
      left in the wheels, and its callback waits for the mutex that its own thread holds. */
  lemma SelfLockRun(key: Key, value: Value)
    ensures var leaf := Leaf(0, Expire(key));
            var acts := [Insert(key, value, 1), PutHit, StartTick, Turn, Destroy(leaf), Release];
            var s := Exec(SMALL, CacheModel.Init(SMALL), acts);
            && s.Some? && Stuck(s.value, leaf)
            && key in s.value.cells && s.value.cells[key].timeout > 0 && !Referenced(s.value.wheels, leaf)
  {
    var leaf := Leaf(0, Expire(key));
    var s0, s1, s2 := CacheModel.Init(SMALL), Begun(key, value), InBucketAt(key, value, 0, 1, {leaf}, {});
    var s3, s4 := InBucketAt(key, value, 1, 0, {leaf}, {}), InBucketAt(key, value, 1, 1, {}, {leaf});
    var s5 := InBucketAt(key, value, 1, 1, {}, {});
    InsertBegins(key, value);
    PutHitFills(key, value);
    TickEmpties(key, value);
    ReleaseLocks(key, value);
    hide Apply, Ready, Referenced;
    ExecMore(SMALL, s5, Release, []);
    ExecMore(SMALL, s4, Destroy(leaf), [Release]);
    ExecMore(SMALL, s3, Turn, [Destroy(leaf), Release]);
    ExecMore(SMALL, s2, StartTick, [Turn, Destroy(leaf), Release]);
    ExecMore(SMALL, s1, PutHit, [StartTick, Turn, Destroy(leaf), Release]);
    ExecMore(SMALL, s0, Insert(key, value, 1), [PutHit, StartTick, Turn, Destroy(leaf), Release]);
  }

  // ---------------------------------------------------------------- a condition that rules it out

  /** Every hit lets go of its pointer before the bucket its insertion is due in has been served. */
  ghost predicate Prompt(c: Config, s: Cache, acts: seq<Action>)
    decreases |acts|
  {
    acts == [] || !Ready(c, s, acts[0]) || (
      && (acts[0].Release? ==> !Served(s.wheels, s.held.value.leaf, s.held.value.stage.due))
      && Prompt(c, Apply(c, s, acts[0]), acts[1..]))
  }

  ghost predicate NobodyStuck(s: Cache) {
    s.held.Some? ==> !s.held.value.stage.SelfLocked?
  }

  /** On a prompt run no hit locks itself out. */
  lemma {:induction false} PromptRunsFree(c: Config, s: Cache, a: Spec, acts: seq<Action>)
    requires Rel(c, s, a) && NobodyStuck(s) && Exec(c, s, acts).Some? && Prompt(c, s, acts)
    ensures NobodyStuck(Exec(c, s, acts).value)
    decreases |acts|
  {
    if acts != [] {
      var s1, a1 := Unfold(c, s, acts, a);
      PromptStep(c, s, acts[0]);
      hide Apply, Rel, NobodyStuck;
      PromptRunsFree(c, s1, a1, acts[1..]);
    }
  }

  lemma PromptStep(c: Config, s: Cache, act: Action)
    requires Inv(c, s) && NobodyStuck(s) && Enabled(c, s, act)
    requires act.Release? ==> !Served(s.wheels, s.held.value.leaf, s.held.value.stage.due)
    ensures NobodyStuck(Apply(c, s, act))
  {
    if act.Release? {
      ReferencedIffScheduled(c, s.wheels, s.held.value.leaf);
      assert Kept(c, s.wheels, s.held.value.leaf, s.held.value.stage.due);
    }
    hide Referenced, Add;
  }
}
