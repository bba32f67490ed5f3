/** What follows for whole runs of the cache, from any number of threads. */
module CacheTheorems {
  import opened Sequences
  import opened TimingWheel
  import opened WheelSteps
  import opened CacheModel
  import opened ExpiringMap
  import opened CacheRefinement
  import opened CacheRuns
  import opened CacheRelease

  // ---------------------------------------------------------------- deadlines

  // Between ticks, and once wheel 0 has been served, nobody has outlived the deadline but a key in the middle of a hit.
  lemma NobodyOutlivesDeadline(c: Config, s: Cache, a: Spec, key: Key)
    requires Rel(c, s, a) && key in a.items && a.items[key].timeout > 0 && s.dying.None?
    requires s.held.None? || s.cells[key].weakEntry != Some(s.held.value.leaf)
    requires s.wheels.phase >= 1 && s.wheels.dropping == {}
    ensures a.items[key].deadline.Some? && a.items[key].deadline.value > s.wheels.ticks
  {
    assert CellOk(s, key, s.cells[key]) && CellMatches(c, s, s.cells[key], a.items[key]);
    var leaf := s.cells[key].weakEntry.value;
    ReferencedIffScheduled(c, s.wheels, leaf);
    PendingLater(c, s.wheels, (leaf, a.items[key].deadline.value));
  }

  /** On every run, a key leaves the map only by erase or, being timed, in its expiry callback at its deadline. */
  lemma GoesOnlyWhenDue(c: Config, acts: seq<Action>, act: Action, key: Key)
    requires c.Ok() && Exec(c, CacheModel.Init(c), acts).Some?
    requires var s := Exec(c, CacheModel.Init(c), acts).value;
             Ready(c, s, act) && key in s.cells && key !in Apply(c, s, act).cells
    ensures var s := Exec(c, CacheModel.Init(c), acts).value;
            var a := SpecExec(EMPTY, Events(c, CacheModel.Init(c), acts));
            && a.Some? && key in a.value.items
            && (act == Erase(key)
                || (act == Callback && s.dying == s.cells[key].weakEntry && a.value.items[key].timeout > 0
                    && a.value.items[key].deadline == Some(s.wheels.ticks)))
  {
    InitMatches(c);
    RunRefines(c, CacheModel.Init(c), acts, EMPTY);
    var s := Exec(c, CacheModel.Init(c), acts).value;
    StepRefines(c, s, act, SpecExec(EMPTY, Events(c, CacheModel.Init(c), acts)).value);
    GoesByEvent(c, s, act, key);
    if act == Callback {
      ExpiresIffOwn(c, s, key);
    }
  }

  lemma GoesByEvent(c: Config, s: Cache, act: Action, key: Key)
    requires Ready(c, s, act) && key in s.cells && key !in Apply(c, s, act).cells
    ensures act == Erase(key)
            || (act == Callback && s.held.None? && s.dying.value.task == Expire(key) && Expires(s, key)
                && EventOf(c, s, act) == Vanish(key, s.wheels.ticks))
  {
    hide Referenced, Add, FireTick, Shaped;
  }

  // ---------------------------------------------------------------- no immortal key

  ghost predicate OnItsWay(c: Config, s: Cache, leaf: Entry) {
    Shaped(c, s.wheels) && exists due :: due >= s.wheels.ticks && (leaf, due) in Pending(c, s.wheels)
  }

  /** In every reachable state each timed key has a scheduled entry, or a hit holding one, or its expiry callback is
      about to run; or else a hit has locked itself out, which no prompt run allows. */
  lemma NoImmortalKey(c: Config, acts: seq<Action>, key: Key)
    requires c.Ok() && Exec(c, CacheModel.Init(c), acts).Some?
    requires var s := Exec(c, CacheModel.Init(c), acts).value; key in s.cells && s.cells[key].timeout > 0
    ensures var s := Exec(c, CacheModel.Init(c), acts).value;
            exists leaf :: s.cells[key].weakEntry == Some(leaf) && leaf.Leaf? && leaf.task == Expire(key)
              && (OnItsWay(c, s, leaf) || Holds(s, leaf) || s.dying == Some(leaf)
                  || (Stuck(s, leaf) && !Prompt(c, CacheModel.Init(c), acts)))
  {
    InitMatches(c);
    RunRefines(c, CacheModel.Init(c), acts, EMPTY);
    if Prompt(c, CacheModel.Init(c), acts) {
      PromptRunsFree(c, CacheModel.Init(c), EMPTY, acts);
    }
    KeyGuarded(c, Exec(c, CacheModel.Init(c), acts).value, key);
  }

  lemma KeyGuarded(c: Config, s: Cache, key: Key)
    requires Inv(c, s) && key in s.cells && s.cells[key].timeout > 0
    ensures s.cells[key].weakEntry.Some?
    ensures var leaf := s.cells[key].weakEntry.value;
            && leaf.Leaf? && leaf.task == Expire(key)
            && (OnItsWay(c, s, leaf) || Holds(s, leaf) || s.dying == Some(leaf) || Stuck(s, leaf))
  {
    assert CellOk(s, key, s.cells[key]);
    var leaf := s.cells[key].weakEntry.value;
    ReferencedIffScheduled(c, s.wheels, leaf);
    if Scheduled(c, s.wheels, leaf) {
      var due :| (leaf, due) in Pending(c, s.wheels);
      PendingLater(c, s.wheels, (leaf, due));
    }
  }

  // ---------------------------------------------------------------- hits against expiry

  /** The key has been given a leaf other than the one whose callback is about to run. */
  ghost predicate Renewed(s: Cache, key: Key, leaf: Entry, stamp: nat) {
    && s.dying == Some(leaf) && leaf.Leaf? && leaf.task == Expire(key)
    && key in s.cells && s.cells[key].timeout > 0 && s.cells[key].stamp == stamp
    && s.cells[key].weakEntry.Some? && s.cells[key].weakEntry != Some(leaf)
  }

  lemma RenewedStays(c: Config, s: Cache, a: Spec, act: Action, key: Key, leaf: Entry, stamp: nat)
    requires Rel(c, s, a) && Renewed(s, key, leaf, stamp)
    requires Enabled(c, s, act) && act != Callback && act != Erase(key)
    ensures Renewed(Apply(c, s, act), key, leaf, stamp)
  {
    CellKept(c, s, act, key);
    assert DyingOk(s);
    hide Apply, Enabled, Rel;
  }

  // What a step that neither erases a key nor runs a callback does to the key's cell.
  lemma CellKept(c: Config, s: Cache, act: Action, key: Key)
    requires Shaped(c, s.wheels) && Enabled(c, s, act) && key in s.cells && s.dying.Some?
    requires s.held.Some? ==> s.held.value.leaf.Leaf?
    requires act != Callback && act != Erase(key)
    ensures var s' := Apply(c, s, act);
            && s'.dying == s.dying && key in s'.cells
            && s'.cells[key].timeout == s.cells[key].timeout && s'.cells[key].stamp == s.cells[key].stamp
            && (s'.cells[key].weakEntry == s.cells[key].weakEntry
                || s'.cells[key].weakEntry == Some(Leaf(s.nextId, Expire(key))))
  {
    hide Locks;
  }

  lemma {:induction false} RenewedRuns(c: Config, s: Cache, a: Spec, acts: seq<Action>, key: Key, leaf: Entry, stamp: nat)
      returns (a': Spec)
    requires Rel(c, s, a) && Renewed(s, key, leaf, stamp) && Callback !in acts && Erase(key) !in acts
    requires Exec(c, s, acts).Some?
    ensures Renewed(Exec(c, s, acts).value, key, leaf, stamp) && Rel(c, Exec(c, s, acts).value, a')
    decreases |acts|
  {
    if acts == [] {
      a' := a;
    } else {
      var s1, a1 := Unfold(c, s, acts, a);
      assert Renewed(s1, key, leaf, stamp) by {
        assert acts[0] in acts;
        RenewedStays(c, s, a, acts[0], key, leaf, stamp);
      }
      a' := RenewedRuns(c, s1, a1, acts[1..], key, leaf, stamp);
    }
  }

  /** A timed hit on the key, by whichever operation. */
  predicate IsHit(act: Action, key: Key) {
    || act == Touch(key)
    || (act.Insert? && act.key == key && act.timeout > 0)
    || (act.Modify? && act.key == key)
  }

  // A hit while the key's own leaf is dead gives the key a new leaf.
  lemma HitRenews(c: Config, s: Cache, act: Action, key: Key)
    requires Inv(c, s) && s.held.None? && s.dying.Some? && s.dying.value.task == Expire(key)
    requires key in s.cells && s.cells[key].timeout > 0 && IsHit(act, key)
    ensures Renewed(Apply(c, s, act), key, s.dying.value, s.cells[key].stamp)
  {
    assert CellOk(s, key, s.cells[key]);
    BeginRenews(s, key, s.cells[key].timeout);
    match act
    case Insert(_, _, timeout) => BeginRenews(s, key, timeout);
    case Modify(_, handler, _, _) =>
      BeginRenews(s.(cells := s.cells[key := s.cells[key].(value := handler(s.cells[key].value))]), key, s.cells[key].timeout);
    case _ =>
  }

  lemma BeginRenews(s: Cache, key: Key, delay: nat)
    requires key in s.cells && CellOk(s, key, s.cells[key]) && DyingOk(s) && s.held.None?
    requires s.dying.Some? && s.dying.value.task == Expire(key) && s.cells[key].timeout > 0 && delay > 0
    ensures Renewed(BeginHit(s, key, delay), key, s.dying.value, s.cells[key].stamp)
  {
  }

  lemma RenewedSurvives(c: Config, s: Cache, key: Key, leaf: Entry, stamp: nat)
    requires Inv(c, s) && Renewed(s, key, leaf, stamp) && Enabled(c, s, Callback)
    ensures Apply(c, s, Callback).cells == s.cells && s.cells[key].stamp == stamp
  {
    ExpiresIffOwn(c, s, key);
  }

  /** A hit that takes mtx_ before the expiry callback does keeps the key, whatever else happens in between: the callback
      leaves it alone, should it ever get mtx_, and on prompt runs no hit keeps mtx_ for ever. */
  lemma HitBeatsExpiry(c: Config, s: Cache, a: Spec, hit: Action, acts: seq<Action>, key: Key)
    requires Rel(c, s, a) && s.held.None? && s.dying.Some? && s.dying.value.task == Expire(key)
    requires key in s.cells && s.cells[key].timeout > 0 && IsHit(hit, key)
    requires Callback !in acts && Erase(key) !in acts && Exec(c, s, [hit] + acts).Some?
    ensures var s' := Exec(c, s, [hit] + acts).value;
            && key in s'.cells && s'.cells[key].stamp == s.cells[key].stamp
            && (Ready(c, s', Callback) ==> Apply(c, s', Callback).cells == s'.cells)
            && (Prompt(c, s, [hit] + acts) ==> NobodyStuck(s'))
  {
    var all := [hit] + acts;
    var s1, a1 := Unfold(c, s, all, a);
    assert all[1..] == acts;
    HitRenews(c, s, hit, key);
    var _ := RenewedRuns(c, s1, a1, acts, key, s.dying.value, s.cells[key].stamp);
    var s' := Exec(c, s1, acts).value;
    if Ready(c, s', Callback) {
      RenewedSurvives(c, s', key, s.dying.value, s.cells[key].stamp);
    }
    if Prompt(c, s, all) {
      PromptRunsFree(c, s, a, all);
    }
  }

  /** A leftover leaf of an erased or replaced incarnation never removes the key's newer cell. */
  lemma LeftoverIsHarmless(c: Config, s: Cache, key: Key)
    requires Inv(c, s) && s.held.None? && s.dying.Some? && s.dying.value.task == Expire(key)
    requires key in s.cells && s.cells[key].weakEntry != s.dying
    ensures Apply(c, s, Callback).cells == s.cells && Apply(c, s, Callback).expired == s.expired
  {
    ExpiresIffOwn(c, s, key);
  }

  // ---------------------------------------------------------------- each timeout callback at most once

  ghost predicate StampsOk(a: Spec) {
    && (forall k | k in a.items :: a.items[k].stamp < a.nextStamp)
    && (forall k, k' | k in a.items && k' in a.items :: a.items[k].stamp == a.items[k'].stamp ==> k == k')
    && (forall i | 0 <= i < |a.expired| :: a.expired[i].stamp < a.nextStamp)
    && (forall i, k | 0 <= i < |a.expired| && k in a.items :: a.expired[i].stamp != a.items[k].stamp)
    && (forall i, j | 0 <= i < j < |a.expired| :: a.expired[i].stamp != a.expired[j].stamp)
  }

  lemma StampsStep(a: Spec, e: Event)
    requires StampsOk(a) && May(a, e)
    ensures StampsOk(Do(a, e))
  {
    if e.Put? {
      StampsPut(a, e);
    } else if e.Vanish? {
      StampsVanish(a, e);
    } else {
      StampsKept(a, e);
    }
  }

  lemma StampsPut(a: Spec, e: Event)
    requires StampsOk(a) && e.Put?
    ensures StampsOk(Do(a, e))
  {
  }

  lemma StampsVanish(a: Spec, e: Event)
    requires StampsOk(a) && e.Vanish? && May(a, e)
    ensures StampsOk(Do(a, e))
  {
  }

  lemma StampsKept(a: Spec, e: Event)
    requires StampsOk(a) && !e.Put? && !e.Vanish? && May(a, e)
    ensures StampsOk(Do(a, e))
  {
    var a' := Do(a, e);
    assert forall k | k in a'.items :: k in a.items && a'.items[k].stamp == a.items[k].stamp;
    assert a'.expired == a.expired && a'.nextStamp == a.nextStamp;
    hide Do;
  }

  lemma {:induction false} StampsStay(a: Spec, events: seq<Event>)
    requires StampsOk(a) && SpecExec(a, events).Some?
    ensures StampsOk(SpecExec(a, events).value)
    decreases |events|
  {
    if events != [] {
      StampsStep(a, events[0]);
      StampsStay(Do(a, events[0]), events[1..]);
    }
  }

  /** No incarnation's timeout callback runs twice, on any run of any number of threads. */
  lemma CallbackAtMostOnce(c: Config, acts: seq<Action>, i: nat, j: nat)
    requires c.Ok() && Exec(c, CacheModel.Init(c), acts).Some?
    requires i < j < |Exec(c, CacheModel.Init(c), acts).value.expired|
    ensures var log := Exec(c, CacheModel.Init(c), acts).value.expired; log[i].stamp != log[j].stamp
  {
    InitMatches(c);
    RunRefines(c, CacheModel.Init(c), acts, EMPTY);
    StampsStay(EMPTY, Events(c, CacheModel.Init(c), acts));
  }

  ghost predicate Gone(a: Spec, stamp: nat) {
    && stamp < a.nextStamp
    && (forall k | k in a.items :: a.items[k].stamp != stamp)
    && (forall i | 0 <= i < |a.expired| :: a.expired[i].stamp != stamp)
  }

  lemma GoneStep(a: Spec, e: Event, stamp: nat)
    requires Gone(a, stamp) && May(a, e)
    ensures Gone(Do(a, e), stamp)
  {
  }

  // An erased incarnation's callback never runs afterwards.
  lemma {:induction false} ErasedStaysSilent(a: Spec, events: seq<Event>, stamp: nat)
    requires Gone(a, stamp) && SpecExec(a, events).Some?
    ensures Gone(SpecExec(a, events).value, stamp)
    decreases |events|
  {
    if events != [] {
      GoneStep(a, events[0], stamp);
      ErasedStaysSilent(Do(a, events[0]), events[1..], stamp);
    }
  }

  /** Explicit erase never causes the timeout callback of the erased incarnation, now or later. */
  lemma EraseSilences(c: Config, s: Cache, a: Spec, key: Key, acts: seq<Action>)
    requires Rel(c, s, a) && StampsOk(a) && s.held.None? && key in s.cells
    requires Exec(c, s, [Erase(key)] + acts).Some?
    ensures var log := Exec(c, s, [Erase(key)] + acts).value.expired;
            forall i | 0 <= i < |log| :: log[i].stamp != s.cells[key].stamp
  {
    var all := [Erase(key)] + acts;
    assert all[1..] == acts;
    StepRefines(c, s, Erase(key), a);
    var s1, a1 := Apply(c, s, Erase(key)), Do(a, Remove(key));
    assert CellMatches(c, s, s.cells[key], a.items[key]);
    assert Gone(a1, s.cells[key].stamp);
    RunRefines(c, s1, acts, a1);
    ErasedStaysSilent(a1, Events(c, s1, acts), s.cells[key].stamp);
  }

  // ---------------------------------------------------------------- runAfter

  /** A runAfter leaf whose task is to run in tick f: scheduled for f, or running in f, or done once, in f. */
  ghost predicate Timer(c: Config, s: Cache, leaf: Entry, f: nat) {
    && Shaped(c, s.wheels) && leaf.Leaf? && leaf.task.Run? && leaf.id < s.nextId
    && (forall due | (leaf, due) in Pending(c, s.wheels) :: due == f)
    && if (leaf, f) in Pending(c, s.wheels) then s.dying != Some(leaf) && NotRun(s.ran, leaf)
       else if s.dying == Some(leaf) then s.wheels.ticks == f && NotRun(s.ran, leaf)
       else RanOnce(s.ran, leaf, f)
  }

  ghost predicate NotRun(ran: seq<Ran>, leaf: Entry) {
    forall i | 0 <= i < |ran| :: ran[i].leaf != leaf
  }

  ghost predicate RanOnce(ran: seq<Ran>, leaf: Entry, f: nat) {
    exists i | 0 <= i < |ran| :: RanOnlyAt(ran, leaf, f, i)
  }

  ghost predicate RanOnlyAt(ran: seq<Ran>, leaf: Entry, f: nat, i: nat)
    requires i < |ran|
  {
    ran[i] == Ran(leaf, f) && forall j | 0 <= j < |ran| && ran[j].leaf == leaf :: j == i
  }

  lemma TimerStarts(c: Config, s: Cache, delay: nat, task: nat, f: nat)
    requires Inv(c, s) && delay > 0 && f == FireTick(c, s.wheels, c.Ticks(delay))
    ensures Timer(c, Apply(c, s, RunAfter(delay, task)), Leaf(s.nextId, Run(task)), f)
  {
    AddSchedules(c, s.wheels, c.Ticks(delay), Leaf(s.nextId, Run(task)));
    hide Shaped, FireTick, Add, Referenced;
  }

  lemma TimerRan(c: Config, s: Cache, leaf: Entry, f: nat)
    requires Inv(c, s) && Timer(c, s, leaf, f) && Enabled(c, s, Callback)
    ensures Timer(c, Apply(c, s, Callback), leaf, f)
  {
    var s' := Apply(c, s, Callback);
    if s.dying == Some(leaf) {
      ReferencedIffScheduled(c, s.wheels, leaf);
      assert RanOnlyAt(s'.ran, leaf, f, |s.ran|);
    } else if (leaf, f) !in Pending(c, s.wheels) {
      var i :| 0 <= i < |s.ran| && RanOnlyAt(s.ran, leaf, f, i);
      assert RanOnlyAt(s'.ran, leaf, f, i);
    }
  }

  lemma TimerDrop(c: Config, s: Cache, e: Entry, leaf: Entry, f: nat)
    requires Inv(c, s) && Timer(c, s, leaf, f) && Enabled(c, s, Destroy(e))
    ensures Timer(c, Apply(c, s, Destroy(e)), leaf, f)
  {
    hide Shaped, Pending, NotRun, RanOnce;
    if e.Wrap? {
      CascadeKeeps(c, s.wheels, e);
    } else {
      LeafDropsOnTime(c, s.wheels, e);
      ReferencedIffScheduled(c, Apply(c, s, Destroy(e)).wheels, leaf);
    }
  }

  lemma TimerAdd(c: Config, s: Cache, act: Action, leaf: Entry, f: nat)
    requires Inv(c, s) && Timer(c, s, leaf, f) && Enabled(c, s, act) && (act.PutHit? || act.RunAfter?)
    ensures Timer(c, Apply(c, s, act), leaf, f)
  {
    if act.PutHit? {
      AddSchedules(c, s.wheels, c.Ticks(s.held.value.delay), s.held.value.leaf);
    } else {
      AddSchedules(c, s.wheels, c.Ticks(act.delay), Leaf(s.nextId, Run(act.task)));
    }
  }

  lemma TimerStep(c: Config, s: Cache, act: Action, leaf: Entry, f: nat)
    requires Inv(c, s) && Timer(c, s, leaf, f) && Enabled(c, s, act)
    ensures Timer(c, Apply(c, s, act), leaf, f)
  {
    hide Timer, Apply;
    match act
    case StartTick => TimerTick(c, s, act, leaf, f);
    case Turn => TimerTick(c, s, act, leaf, f);
    case Destroy(e) => TimerDrop(c, s, e, leaf, f);
    case Callback => TimerRan(c, s, leaf, f);
    case PutHit => TimerAdd(c, s, act, leaf, f);
    case RunAfter(_, _) => TimerAdd(c, s, act, leaf, f);
    case _ => TimerElsewhere(c, s, act, leaf, f);
  }

  lemma TimerTick(c: Config, s: Cache, act: Action, leaf: Entry, f: nat)
    requires Inv(c, s) && Timer(c, s, leaf, f) && Enabled(c, s, act) && (act.StartTick? || act.Turn?)
    ensures Timer(c, Apply(c, s, act), leaf, f)
  {
    if act.StartTick? {
      StartTickKeeps(c, s.wheels);
    } else {
      TurnWheelKeeps(c, s.wheels);
    }
  }

  // Outside the bucket insertions the users' operations do not touch the wheels.
  lemma TimerElsewhere(c: Config, s: Cache, act: Action, leaf: Entry, f: nat)
    requires Inv(c, s) && Timer(c, s, leaf, f) && Enabled(c, s, act)
    requires act.Insert? || act.Touch? || act.Modify? || act.Erase? || act.Release?
    ensures Timer(c, Apply(c, s, act), leaf, f)
  {
    Elsewhere(c, s, act);
    hide Apply, Enabled, Shaped, Pending;
  }

  lemma Elsewhere(c: Config, s: Cache, act: Action)
    requires Ready(c, s, act) && (act.Insert? || act.Touch? || act.Modify? || act.Erase? || act.Release?)
    ensures var s' := Apply(c, s, act);
            s'.wheels == s.wheels && s'.dying == s.dying && s'.ran == s.ran && s'.nextId >= s.nextId
  {
    hide Referenced, Shaped, Add, FireTick;
  }

  /** Every runAfter task is still on its way to its tick, or has run in it. */
  ghost predicate TimersKept(c: Config, s: Cache, s': Cache) {
    forall leaf, f: nat :: Timer(c, s, leaf, f) ==> Timer(c, s', leaf, f)
  }

  lemma TimersStep(c: Config, s0: Cache, s: Cache, act: Action)
    requires Inv(c, s) && TimersKept(c, s0, s) && Enabled(c, s, act)
    ensures TimersKept(c, s0, Apply(c, s, act))
  {
    forall leaf, f: nat | Timer(c, s0, leaf, f)
      ensures Timer(c, Apply(c, s, act), leaf, f)
    {
      TimerStep(c, s, act, leaf, f);
    }
  }

  // Between ticks, a task whose tick has come has run exactly once, in that tick; no other has run.
  lemma TimerDone(c: Config, s: Cache, leaf: Entry, f: nat)
    requires Inv(c, s) && Timer(c, s, leaf, f) && s.wheels.phase == c.wheelsNumber && s.wheels.dropping == {} && s.dying.None?
    ensures if f <= s.wheels.ticks then RanOnce(s.ran, leaf, f) else NotRun(s.ran, leaf)
  {
    if (leaf, f) in Pending(c, s.wheels) {
      PendingLater(c, s.wheels, (leaf, f));
    }
  }

  lemma {:induction false} TimerRuns(c: Config, s: Cache, a: Spec, acts: seq<Action>, leaf: Entry, f: nat)
      returns (s': Cache, a': Spec)
    requires Rel(c, s, a) && Timer(c, s, leaf, f) && Exec(c, s, acts).Some?
    ensures s' == Exec(c, s, acts).value && Timer(c, s', leaf, f) && Rel(c, s', a')
    decreases |acts|
  {
    if acts == [] {
      s', a' := s, a;
    } else {
      var s1, a1 := Unfold(c, s, acts, a);
      TimerStep(c, s, acts[0], leaf, f);
      s', a' := TimerRuns(c, s1, a1, acts[1..], leaf, f);
    }
  }

  /**
   * Exact firing over whole runs: whatever the other threads do, a runAfter task has not run before tick f, its
   * `FireTick`, and has run exactly once, in tick f, when the counter has moved past f.
   */
  lemma RunsExactlyThen(c: Config, s: Cache, a: Spec, delay: nat, task: nat, acts: seq<Action>)
    requires Rel(c, s, a) && delay > 0 && Exec(c, s, [RunAfter(delay, task)] + acts).Some?
    ensures var s' := Exec(c, s, [RunAfter(delay, task)] + acts).value;
            var f := FireTick(c, s.wheels, c.Ticks(delay));
            var leaf := Leaf(s.nextId, Run(task));
            && f >= 0
            && (s'.wheels.ticks < f ==> NotRun(s'.ran, leaf))
            && (s'.wheels.ticks > f ==> RanOnce(s'.ran, leaf, f))
            && (NotRun(s'.ran, leaf) || RanOnce(s'.ran, leaf, f))
  {
    var all := [RunAfter(delay, task)] + acts;
    var leaf := Leaf(s.nextId, Run(task));
    AddSchedules(c, s.wheels, c.Ticks(delay), leaf);
    var f: nat := FireTick(c, s.wheels, c.Ticks(delay));
    var s1, a1 := Unfold(c, s, all, a);
    assert all[1..] == acts;
    TimerStarts(c, s, delay, task, f);
    var s', a' := TimerRuns(c, s1, a1, acts, leaf, f);
    if (leaf, f) in Pending(c, s'.wheels) {
      PendingLater(c, s'.wheels, (leaf, f));
    }
  }
}
