/** The cache of small steps refines the expiring map, on every interleaving. */
module CacheRefinement {
  import opened Sequences
  import opened TimingWheel
  import opened WheelSteps
  import opened CacheModel
  import opened ExpiringMap

  /** The abstract event a concrete step amounts to. */
  function EventOf(c: Config, s: Cache, a: Action): Event
    requires Shaped(c, s.wheels) && Enabled(c, s, a)
    requires s.held.Some? ==> s.held.value.leaf.Leaf? && s.held.value.leaf.task.Expire?
  {
    match a
    case Insert(key, value, timeout) => Put(key, value, timeout)
    case Modify(key, handler, initial, timeout) =>
      if key in s.cells then Store(key, handler(s.cells[key].value)) else Put(key, handler(initial), timeout)
    case Erase(key) => Remove(key)
    case PutHit =>
      var due := FireTick(c, s.wheels, c.Ticks(s.held.value.delay));
      if due >= 0 then Hit(s.held.value.leaf.task.key, due) else Stutter
    case Callback =>
      (match s.dying.value.task
       case Expire(key) => if Expires(s, key) then Vanish(key, s.wheels.ticks) else Stutter
       case Run(_) => Stutter)
    case _ => Stutter
  }

  /** The deadline of a timed cell is the last release tick the wheels hold for its leaf.  Only while a hit holds the
      leaf can the deadline have passed. */
  ghost predicate DeadlineOk(c: Config, s: Cache, leaf: Entry, d: Option<nat>)
    requires Shaped(c, s.wheels)
  {
    if Scheduled(c, s.wheels, leaf) then
      && d.Some? && (leaf, d.value) in Pending(c, s.wheels)
      && forall due | (leaf, due) in Pending(c, s.wheels) :: due <= d.value
    else if s.held.Some? && s.held.value.leaf == leaf then
      if d.Some? then d.value <= s.wheels.ticks else s.held.value.stage.Taken?
    else
      d == Some(s.wheels.ticks)
  }

  ghost predicate CellMatches(c: Config, s: Cache, cell: Cell, item: Item)
    requires Shaped(c, s.wheels)
  {
    && cell.value == item.value && cell.timeout == item.timeout && cell.stamp == item.stamp
    && (if cell.timeout > 0 && cell.weakEntry.Some? then DeadlineOk(c, s, cell.weakEntry.value, item.deadline)
        else item.deadline.None?)
  }

  ghost predicate Matches(c: Config, s: Cache, a: Spec)
    requires Shaped(c, s.wheels)
  {
    && s.cells.Keys == a.items.Keys
    && (forall k {:trigger CellMatches(c, s, s.cells[k], a.items[k])} | k in s.cells ::
          CellMatches(c, s, s.cells[k], a.items[k]))
    && s.nextStamp == a.nextStamp && s.expired == a.expired
  }

  /** The concrete invariant together with the abstraction. */
  ghost predicate Rel(c: Config, s: Cache, a: Spec) {
    Inv(c, s) && Matches(c, s, a)
  }

  // ---------------------------------------------------------------- the loop thread

  lemma KeptDrop(c: Config, w: Wheels, e: Entry, leaf: Entry, due: int)
    requires Shaped(c, w) && e in w.dropping && Kept(c, w, leaf, due)
    ensures Shaped(c, Drop(c, w, e)) && Kept(c, Drop(c, w, e), leaf, due)
  {
    if e.Wrap? {
      CascadeKeeps(c, w, e);
    } else {
      LeafDropsOnTime(c, w, e);
    }
  }

  // A step that keeps the schedule changes nothing abstractly.
  lemma SameSchedule(c: Config, s: Cache, w': Wheels, a: Spec)
    requires Rel(c, s, a) && s.dying.None? && Shaped(c, w') && Pending(c, w') == Pending(c, s.wheels)
    requires w'.ticks >= s.wheels.ticks
    requires forall leaf, due :: Served(s.wheels, leaf, due) ==> Served(w', leaf, due)
    ensures Rel(c, s.(wheels := w'), a)
  {
    if s.held.Some? {
      ReferencedIffScheduled(c, s.wheels, s.held.value.leaf);
      ReferencedIffScheduled(c, w', s.held.value.leaf);
    }
    var s' := s.(wheels := w');
    forall k | k in s.cells
      ensures CellMatches(c, s', s.cells[k], a.items[k]) && CellOk(s', k, s.cells[k])
    {
      assert CellMatches(c, s, s.cells[k], a.items[k]) && CellOk(s, k, s.cells[k]);
      if s.cells[k].weakEntry.Some? {
        ReferencedIffScheduled(c, s.wheels, s.cells[k].weakEntry.value);
        ReferencedIffScheduled(c, w', s.cells[k].weakEntry.value);
      }
    }
  }

  // What a leaf dropped in its last bucket or an earlier one does to the deadlines.
  lemma DropDeadline(c: Config, s: Cache, s': Cache, e: Entry, leaf: Entry, d: Option<nat>)
    requires Shaped(c, s.wheels) && Shaped(c, s'.wheels) && DeadlineOk(c, s, leaf, d)
    requires (e, s.wheels.ticks) in Pending(c, s.wheels)
    requires Pending(c, s'.wheels) == Pending(c, s.wheels) - {(e, s.wheels.ticks)}
    requires s'.wheels.ticks == s.wheels.ticks && s'.held == s.held
    ensures DeadlineOk(c, s', leaf, d)
  {
    if Scheduled(c, s.wheels, leaf) {
      var last := (leaf, d.value);
      if last in Pending(c, s'.wheels) {
      } else {
        assert leaf == e && d.value == s.wheels.ticks;
        forall due | (leaf, due) in Pending(c, s'.wheels)
          ensures false
        {
          PendingLater(c, s.wheels, (leaf, due));
        }
      }
    }
  }

  lemma LeafReferences(c: Config, w: Wheels, e: Entry, leaf: Entry)
    requires Shaped(c, w) && e in w.dropping && e.Leaf?
    ensures Referenced(w, e)
    ensures leaf != e ==> Referenced(Drop(c, w, e), leaf) == Referenced(w, leaf)
  {
    LeafDropsOnTime(c, w, e);
    assert Scheduled(c, w, e);
    ReferencedIffScheduled(c, w, e);
    ReferencedIffScheduled(c, w, leaf);
    ReferencedIffScheduled(c, Drop(c, w, e), leaf);
  }

  // Destroying a leaf's reference: if it was the last one, the leaf's task is about to run.
  lemma LeafStep(c: Config, s: Cache, e: Entry, a: Spec)
    requires Rel(c, s, a) && Enabled(c, s, Destroy(e)) && e.Leaf?
    ensures Rel(c, Apply(c, s, Destroy(e)), a)
  {
    var s' := Apply(c, s, Destroy(e));
    LeafFrame(c, s, e);
    forall k | k in s.cells
      ensures CellMatches(c, s', s.cells[k], a.items[k]) && CellOk(s', k, s.cells[k])
    {
      LeafCell(c, s, e, a, k);
    }
    hide Shaped, IdsOk, HeldOk, StageOk, DyingOk, CellOk, CellMatches, Referenced;
  }

  lemma LeafFrame(c: Config, s: Cache, e: Entry)
    requires Inv(c, s) && Enabled(c, s, Destroy(e)) && e.Leaf?
    ensures var s' := Apply(c, s, Destroy(e)); Shaped(c, s'.wheels) && IdsOk(c, s') && HeldOk(s') && StageOk(c, s') && DyingOk(s')
  {
    LeafDropsOnTime(c, s.wheels, e);
    if s.held.Some? {
      LeafReferences(c, s.wheels, e, s.held.value.leaf);
      if s.held.value.stage.Inserted? {
        KeptDrop(c, s.wheels, e, s.held.value.leaf, s.held.value.stage.due);
      }
    }
    hide Shaped, Kept, Referenced, Pending, Drop;
  }

  lemma LeafCell(c: Config, s: Cache, e: Entry, a: Spec, k: Key)
    requires Rel(c, s, a) && Enabled(c, s, Destroy(e)) && e.Leaf? && k in s.cells
    ensures var s' := Apply(c, s, Destroy(e));
            Shaped(c, s'.wheels) && CellMatches(c, s', s.cells[k], a.items[k]) && CellOk(s', k, s.cells[k])
  {
    var s' := Apply(c, s, Destroy(e));
    LeafDropsOnTime(c, s.wheels, e);
    assert CellMatches(c, s, s.cells[k], a.items[k]) && CellOk(s, k, s.cells[k]);
    if s.cells[k].timeout > 0 {
      var leaf := s.cells[k].weakEntry.value;
      LeafReferences(c, s.wheels, e, leaf);
      DropDeadline(c, s, s', e, leaf, a.items[k].deadline);
    }
  }

  // ---------------------------------------------------------------- the users

  // Taking a strong pointer changes nothing abstractly, also for a cell that has just been made.
  lemma BeginHitStep(c: Config, s: Cache, key: Key, delay: nat, a: Spec, unfinished: set<Key>)
    requires InvBut(c, s, unfinished) && Matches(c, s, a) && s.held.None? && unfinished <= {key}
    requires key in s.cells && delay > 0
    ensures Rel(c, BeginHit(s, key, delay), a)
  {
    var s' := BeginHit(s, key, delay);
    ReferencedIffScheduled(c, s.wheels, s'.held.value.leaf);
    assert HeldOk(s') && DyingOk(s') by {
      if key !in unfinished {
        assert CellOk(s, key, s.cells[key]);
      }
    }
    assert IdsOk(c, s');
    forall k | k in s.cells
      ensures CellMatches(c, s', s'.cells[k], a.items[k]) && CellOk(s', k, s'.cells[k])
    {
      BeginHitCell(c, s, key, delay, a, unfinished, k);
    }
  }

  lemma BeginHitCell(c: Config, s: Cache, key: Key, delay: nat, a: Spec, unfinished: set<Key>, k: Key)
    requires InvBut(c, s, unfinished) && Matches(c, s, a) && s.held.None? && unfinished <= {key}
    requires key in s.cells && delay > 0 && k in s.cells
    ensures var s' := BeginHit(s, key, delay);
            CellMatches(c, s', s'.cells[k], a.items[k]) && CellOk(s', k, s'.cells[k])
  {
    var s' := BeginHit(s, key, delay);
    assert CellMatches(c, s, s.cells[k], a.items[k]);
    ReferencedIffScheduled(c, s.wheels, s'.held.value.leaf);
    if k != key {
      assert CellOk(s, k, s.cells[k]);
    } else if s.cells[k].weakEntry.Some? {
      assert CellOk(s, k, s.cells[k]);
      ReferencedIffScheduled(c, s.wheels, s.cells[k].weakEntry.value);
    }
  }

  lemma PutStep(c: Config, s: Cache, key: Key, value: Value, timeout: nat, a: Spec)
    requires Rel(c, s, a) && s.held.None?
    ensures var s' := PutCell(s, key, value, timeout);
            && InvBut(c, s', if key in s.cells || timeout == 0 then {} else {key})
            && Matches(c, s', Do(a, Put(key, value, timeout)))
  {
    var s' := PutCell(s, key, value, timeout);
    forall k | k in s.cells
      ensures CellMatches(c, s', s'.cells[k], Do(a, Put(key, value, timeout)).items[k]) && CellOk(s', k, s'.cells[k])
    {
      assert CellMatches(c, s, s.cells[k], a.items[k]) && CellOk(s, k, s.cells[k]);
    }
  }

  lemma StoreStep(c: Config, s: Cache, key: Key, value: Value, a: Spec)
    requires Rel(c, s, a) && s.held.None? && key in s.cells
    ensures Rel(c, s.(cells := s.cells[key := s.cells[key].(value := value)]), Do(a, Store(key, value)))
  {
    var s' := s.(cells := s.cells[key := s.cells[key].(value := value)]);
    forall k | k in s.cells
      ensures CellMatches(c, s', s'.cells[k], Do(a, Store(key, value)).items[k]) && CellOk(s', k, s'.cells[k])
    {
      assert CellMatches(c, s, s.cells[k], a.items[k]) && CellOk(s, k, s.cells[k]);
    }
  }

  lemma RemoveStep(c: Config, s: Cache, key: Key, a: Spec)
    requires Rel(c, s, a) && s.held.None?
    ensures Rel(c, s.(cells := s.cells - {key}), Do(a, Remove(key)))
  {
    var s' := s.(cells := s.cells - {key});
    forall k | k in s'.cells
      ensures CellMatches(c, s', s'.cells[k], Do(a, Remove(key)).items[k]) && CellOk(s', k, s'.cells[k])
    {
      assert CellMatches(c, s, s.cells[k], a.items[k]) && CellOk(s, k, s.cells[k]);
    }
  }

  // The test of the callback succeeds exactly for the cell whose own leaf is the dead one, and then
  // the last release tick of that leaf is now.
  lemma ExpiresIffOwn(c: Config, s: Cache, key: Key)
    requires Inv(c, s) && s.held.None? && s.dying.Some? && s.dying.value.task == Expire(key)
    ensures Expires(s, key) <==> key in s.cells && s.cells[key].timeout > 0 && s.cells[key].weakEntry == s.dying
  {
    if key in s.cells {
      assert CellOk(s, key, s.cells[key]);
    }
  }

  lemma VanishAllowed(c: Config, s: Cache, key: Key, a: Spec)
    requires Rel(c, s, a) && s.held.None? && s.dying.Some? && s.dying.value.task == Expire(key)
    requires Expires(s, key)
    ensures May(a, Vanish(key, s.wheels.ticks))
  {
    ExpiresIffOwn(c, s, key);
    ReferencedIffScheduled(c, s.wheels, s.dying.value);
    assert CellMatches(c, s, s.cells[key], a.items[key]);
  }

  lemma ExpiryStep(c: Config, s: Cache, key: Key, a: Spec)
    requires Rel(c, s, a) && s.held.None? && s.dying.Some? && s.dying.value.task == Expire(key)
    ensures var e := EventOf(c, s, Callback); May(a, e) && Rel(c, Apply(c, s, Callback), Do(a, e))
  {
    var s' := Apply(c, s, Callback);
    var e := EventOf(c, s, Callback);
    ExpiresIffOwn(c, s, key);
    if Expires(s, key) {
      VanishAllowed(c, s, key, a);
      assert CellMatches(c, s, s.cells[key], a.items[key]);
    }
    forall k | k in s'.cells
      ensures CellMatches(c, s', s'.cells[k], Do(a, e).items[k]) && CellOk(s', k, s'.cells[k])
    {
      assert s'.cells[k] == s.cells[k] && Do(a, e).items[k] == a.items[k];
      assert CellMatches(c, s, s.cells[k], a.items[k]) && CellOk(s, k, s.cells[k]);
    }
  }

  // Adding a leaf to the wheels moves its deadline forward, never back.
  lemma AddDeadline(c: Config, s: Cache, s': Cache, leaf: Entry, due: nat, d: Option<nat>)
    requires Shaped(c, s.wheels) && Shaped(c, s'.wheels) && DeadlineOk(c, s, leaf, d)
    requires Pending(c, s'.wheels) == Pending(c, s.wheels) + {(leaf, due)} && due >= s.wheels.ticks
    ensures DeadlineOk(c, s', leaf, Some(Later(d, due)))
  {
    assert (leaf, due) in Pending(c, s'.wheels);
    if Scheduled(c, s.wheels, leaf) {
      assert (leaf, d.value) in Pending(c, s'.wheels);
    }
  }

  lemma AddReferences(c: Config, w: Wheels, w': Wheels, leaf: Entry, due: nat, other: Entry)
    requires Shaped(c, w) && Shaped(c, w') && Pending(c, w') == Pending(c, w) + {(leaf, due)}
    ensures Referenced(w', leaf)
    ensures other != leaf ==> Referenced(w', other) == Referenced(w, other)
    ensures other != leaf ==> Scheduled(c, w', other) == Scheduled(c, w, other)
  {
    assert (leaf, due) in Pending(c, w');
    ReferencedIffScheduled(c, w', leaf);
    ReferencedIffScheduled(c, w, other);
    ReferencedIffScheduled(c, w', other);
  }

  // Adding a leaf that is not the dying one leaves the rest of the invariant alone.
  lemma AddKeeps(c: Config, s: Cache, s': Cache, leaf: Entry, due: nat)
    requires Shaped(c, s.wheels) && Shaped(c, s'.wheels) && IdsOk(c, s) && DyingOk(s)
    requires Pending(c, s'.wheels) == Pending(c, s.wheels) + {(leaf, due)}
    requires leaf.Leaf? && leaf.id < s'.nextId && s.nextId <= s'.nextId && s'.dying == s.dying != Some(leaf)
    requires forall e :: Holds(s', e) ==> Holds(s, e)
    requires s'.wheels.phase == s.wheels.phase && s'.ran == s.ran
    requires s'.wheels.ticks == s.wheels.ticks
    ensures IdsOk(c, s') && DyingOk(s')
  {
    if s.dying.Some? {
      AddReferences(c, s.wheels, s'.wheels, leaf, due, s.dying.value);
    }
  }

  lemma PutHitCell(c: Config, s: Cache, a: Spec, k: Key)
    requires Rel(c, s, a) && Enabled(c, s, PutHit) && k in s.cells
    ensures var e := EventOf(c, s, PutHit);
            var s' := Apply(c, s, PutHit);
            && Shaped(c, s'.wheels) && May(a, e) && CellOk(s', k, s.cells[k])
            && k in Do(a, e).items && CellMatches(c, s', s.cells[k], Do(a, e).items[k])
  {
    var h := s.held.value;
    AddSchedules(c, s.wheels, c.Ticks(h.delay), h.leaf);
    assert CellMatches(c, s, s.cells[k], a.items[k]) && CellOk(s, k, s.cells[k]);
    hide FireTick, Add, Shaped, Pending, Referenced, DeadlineOk, Guarded, Inv;
    if s.cells[k].timeout > 0 {
      var s' := Apply(c, s, PutHit);
      assert s'.held == Some(h.(stage := s'.held.value.stage)) && !s'.held.value.stage.SelfLocked?;
      AddedCell(c, s, s', FireTick(c, s.wheels, c.Ticks(h.delay)), s.cells[k], a.items[k].deadline);
    }
  }

  // What a cell and its deadline are worth once the hit's leaf has been added to the schedule.
  lemma AddedCell(c: Config, s: Cache, s': Cache, due: nat, cell: Cell, d: Option<nat>)
    requires Shaped(c, s.wheels) && Shaped(c, s'.wheels) && s'.wheels.ticks == s.wheels.ticks && s'.dying == s.dying
    requires s.held.Some? && s'.held.Some? && s'.held.value.leaf == s.held.value.leaf
    requires !s.held.value.stage.SelfLocked? && !s'.held.value.stage.SelfLocked?
    requires Pending(c, s'.wheels) == Pending(c, s.wheels) + {(s.held.value.leaf, due)} && due >= s.wheels.ticks
    requires Guarded(s, cell) && DeadlineOk(c, s, cell.weakEntry.value, d)
    ensures Guarded(s', cell)
    ensures DeadlineOk(c, s', cell.weakEntry.value, if cell.weakEntry == Some(s.held.value.leaf) then Some(Later(d, due)) else d)
  {
    hide Shaped, Pending, Referenced;
    var leaf, added := cell.weakEntry.value, s.held.value.leaf;
    AddReferences(c, s.wheels, s'.wheels, added, due, leaf);
    if leaf == added {
      AddDeadline(c, s, s', leaf, due, d);
    } else {
      OtherDeadline(c, s, s', leaf, added, due, d);
    }
  }

  lemma OtherDeadline(c: Config, s: Cache, s': Cache, leaf: Entry, added: Entry, due: nat, d: Option<nat>)
    requires Shaped(c, s.wheels) && Shaped(c, s'.wheels) && DeadlineOk(c, s, leaf, d) && leaf != added
    requires Pending(c, s'.wheels) == Pending(c, s.wheels) + {(added, due)} && s'.wheels.ticks == s.wheels.ticks
    requires s.held.Some? && s'.held.Some? && s.held.value.leaf == s'.held.value.leaf == added
    ensures DeadlineOk(c, s', leaf, d)
  {
    hide Pending, Shaped;
    if Scheduled(c, s.wheels, leaf) {
      var due' :| (leaf, due') in Pending(c, s.wheels);
      assert (leaf, due') in Pending(c, s'.wheels);
    }
  }

  // The bucket insertion is what moves the deadline.
  lemma PutHitStep(c: Config, s: Cache, a: Spec)
    requires Rel(c, s, a) && Enabled(c, s, PutHit)
    ensures var e := EventOf(c, s, PutHit); May(a, e) && Rel(c, Apply(c, s, PutHit), Do(a, e))
  {
    var s' := Apply(c, s, PutHit);
    var e := EventOf(c, s, PutHit);
    PutHitFrame(c, s);
    hide Add, FireTick, Shaped, IdsOk, StageOk, DyingOk, CellOk, CellMatches, Referenced;
    assert Do(a, e).items.Keys == a.items.Keys;
    forall k | k in s.cells
      ensures CellMatches(c, s', s.cells[k], Do(a, e).items[k]) && CellOk(s', k, s.cells[k])
    {
      PutHitCell(c, s, a, k);
    }
  }

  lemma PutHitFrame(c: Config, s: Cache)
    requires Inv(c, s) && Enabled(c, s, PutHit)
    ensures var s' := Apply(c, s, PutHit); Shaped(c, s'.wheels) && IdsOk(c, s') && HeldOk(s') && StageOk(c, s') && DyingOk(s')
  {
    var h := s.held.value;
    AddSchedules(c, s.wheels, c.Ticks(h.delay), h.leaf);
    AddKeeps(c, s, Apply(c, s, PutHit), h.leaf, FireTick(c, s.wheels, c.Ticks(h.delay)));
    hide Shaped, Referenced, IdsOk, DyingOk, FireTick;
  }

  // Letting go of the local pointer changes nothing abstractly, whether or not it was the last one.
  lemma ReleaseStep(c: Config, s: Cache, a: Spec)
    requires Rel(c, s, a) && Enabled(c, s, Release)
    ensures Rel(c, Apply(c, s, Release), a)
  {
    var s' := Apply(c, s, Release);
    ReferencedIffScheduled(c, s.wheels, s.held.value.leaf);
    forall k | k in s.cells
      ensures CellMatches(c, s', s.cells[k], a.items[k]) && CellOk(s', k, s.cells[k])
    {
      assert CellMatches(c, s, s.cells[k], a.items[k]) && CellOk(s, k, s.cells[k]);
    }
  }

  lemma RunAfterStep(c: Config, s: Cache, delay: nat, task: nat, a: Spec)
    requires Rel(c, s, a) && delay > 0
    ensures Rel(c, Apply(c, s, RunAfter(delay, task)), a)
  {
    var s' := Apply(c, s, RunAfter(delay, task));
    RunAfterFrame(c, s, delay, task);
    hide Add, FireTick, Shaped, IdsOk, HeldOk, StageOk, DyingOk, CellOk, CellMatches, Referenced;
    forall k | k in s.cells
      ensures CellMatches(c, s', s.cells[k], a.items[k]) && CellOk(s', k, s.cells[k])
    {
      RunAfterCell(c, s, delay, task, a, k);
    }
  }

  lemma RunAfterFrame(c: Config, s: Cache, delay: nat, task: nat)
    requires Inv(c, s) && delay > 0
    ensures var s' := Apply(c, s, RunAfter(delay, task));
            Shaped(c, s'.wheels) && IdsOk(c, s') && HeldOk(s') && StageOk(c, s') && DyingOk(s')
  {
    var leaf := Leaf(s.nextId, Run(task));
    var s' := Apply(c, s, RunAfter(delay, task));
    AddSchedules(c, s.wheels, c.Ticks(delay), leaf);
    var due := FireTick(c, s.wheels, c.Ticks(delay));
    if s.held.Some? {
      AddReferences(c, s.wheels, s'.wheels, leaf, due, s.held.value.leaf);
    }
    AddKeeps(c, s, s', leaf, due);
    hide Shaped, Referenced, IdsOk, DyingOk, FireTick;
  }

  lemma RunAfterCell(c: Config, s: Cache, delay: nat, task: nat, a: Spec, k: Key)
    requires Rel(c, s, a) && delay > 0 && k in s.cells
    ensures var s' := Apply(c, s, RunAfter(delay, task));
            Shaped(c, s'.wheels) && CellMatches(c, s', s.cells[k], a.items[k]) && CellOk(s', k, s.cells[k])
  {
    var leaf := Leaf(s.nextId, Run(task));
    var s' := Apply(c, s, RunAfter(delay, task));
    AddSchedules(c, s.wheels, c.Ticks(delay), leaf);
    assert CellMatches(c, s, s.cells[k], a.items[k]) && CellOk(s, k, s.cells[k]);
    if s.cells[k].timeout > 0 {
      AddReferences(c, s.wheels, s'.wheels, leaf, FireTick(c, s.wheels, c.Ticks(delay)), s.cells[k].weakEntry.value);
    }
    hide Shaped, Referenced, FireTick;
  }

  // ---------------------------------------------------------------- every step, every run

  lemma LoopStepRefines(c: Config, s: Cache, act: Action, a: Spec)
    requires Rel(c, s, a) && Enabled(c, s, act)
    requires act.StartTick? || act.Turn? || act.Destroy? || act.Callback?
    ensures May(a, EventOf(c, s, act)) && Rel(c, Apply(c, s, act), Do(a, EventOf(c, s, act)))
  {
    match act
    case StartTick =>
      StartTickKeeps(c, s.wheels);
      SameSchedule(c, s, WheelSteps.StartTick(s.wheels), a);
    case Turn =>
      TurnWheelKeeps(c, s.wheels);
      SameSchedule(c, s, TurnWheel(c, s.wheels), a);
    case Destroy(e) =>
      if e.Leaf? {
        LeafStep(c, s, e, a);
      } else {
        CascadeKeeps(c, s.wheels, e);
        SameSchedule(c, s, Drop(c, s.wheels, e), a);
      }
    case Callback =>
      if s.dying.value.task.Expire? {
        ExpiryStep(c, s, s.dying.value.task.key, a);
      } else {
        RunStep(c, s, a);
      }
  }

  lemma RunStep(c: Config, s: Cache, a: Spec)
    requires Rel(c, s, a) && Enabled(c, s, Callback) && s.dying.value.task.Run?
    ensures Rel(c, Apply(c, s, Callback), a)
  {
    var s' := Apply(c, s, Callback);
    forall k | k in s.cells
      ensures CellMatches(c, s', s.cells[k], a.items[k]) && CellOk(s', k, s.cells[k])
    {
      assert CellMatches(c, s, s.cells[k], a.items[k]) && CellOk(s, k, s.cells[k]);
    }
  }

  lemma InsertStep(c: Config, s: Cache, key: Key, value: Value, timeout: nat, a: Spec)
    requires Rel(c, s, a) && s.held.None?
    ensures Rel(c, Apply(c, s, Insert(key, value, timeout)), Do(a, Put(key, value, timeout)))
    ensures Do(a, Put(key, value, timeout)).items
            == if key in a.items then a.items else a.items[key := Item(value, timeout, a.nextStamp, None)]
  {
    PutStep(c, s, key, value, timeout, a);
    if timeout > 0 {
      BeginHitStep(c, PutCell(s, key, value, timeout), key, timeout, Do(a, Put(key, value, timeout)),
                   if key in s.cells then {} else {key});
    }
  }

  lemma ModifyStep(c: Config, s: Cache, act: Action, a: Spec)
    requires Rel(c, s, a) && Enabled(c, s, act) && act.Modify?
    ensures May(a, EventOf(c, s, act)) && Rel(c, Apply(c, s, act), Do(a, EventOf(c, s, act)))
  {
    var key := act.key;
    if key in s.cells {
      var v := act.handler(s.cells[key].value);
      var s1 := s.(cells := s.cells[key := s.cells[key].(value := v)]);
      StoreStep(c, s, key, v, a);
      if s.cells[key].timeout > 0 {
        BeginHitStep(c, s1, key, s.cells[key].timeout, Do(a, Store(key, v)), {});
      }
      assert Apply(c, s, act) == HitIfTimed(s1, key);
    } else {
      var v := act.handler(act.initial);
      InsertStep(c, s, key, v, act.timeout, a);
      assert Apply(c, s, act) == Apply(c, s, Insert(key, v, act.timeout));
    }
  }

  /** Main result: every enabled step, of any thread, is an allowed event of the expiring map. */
  lemma StepRefines(c: Config, s: Cache, act: Action, a: Spec)
    requires Rel(c, s, a) && Enabled(c, s, act)
    ensures May(a, EventOf(c, s, act)) && Rel(c, Apply(c, s, act), Do(a, EventOf(c, s, act)))
  {
    match act
    case Insert(key, value, timeout) => InsertStep(c, s, key, value, timeout, a);
    case Touch(key) =>
      if key in s.cells && s.cells[key].timeout > 0 {
        BeginHitStep(c, s, key, s.cells[key].timeout, a, {});
      }
    case Modify(_, _, _, _) => ModifyStep(c, s, act, a);
    case Erase(key) => RemoveStep(c, s, key, a);
    case PutHit => PutHitStep(c, s, a);
    case Release => ReleaseStep(c, s, a);
    case RunAfter(delay, task) => RunAfterStep(c, s, delay, task, a);
    case _ => LoopStepRefines(c, s, act, a);
  }
}
