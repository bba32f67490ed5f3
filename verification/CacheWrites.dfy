/** What the operations write into the cells of the cache, step by step and on whole runs. */
module CacheWrites {
  import opened Sequences
  import opened TimingWheel
  import opened WheelSteps
  import opened CacheModel
  import opened ExpiringMap
  import opened CacheRefinement
  import opened CacheRuns

  // ---------------------------------------------------------------- one step

  /** Insert keeps the value, timeout and incarnation of a present key; an absent one gets the arguments. */
  lemma InsertKeepsPresent(c: Config, s: Cache, key: Key, value: Value, timeout: nat)
    requires Ready(c, s, Insert(key, value, timeout))
    ensures var s' := Apply(c, s, Insert(key, value, timeout));
            && key in s'.cells
            && (key in s.cells ==>
                  && s'.cells[key].value == s.cells[key].value && s'.cells[key].timeout == s.cells[key].timeout
                  && s'.cells[key].stamp == s.cells[key].stamp && s'.nextStamp == s.nextStamp)
            && (key !in s.cells ==>
                  && s'.cells[key].value == value && s'.cells[key].timeout == timeout
                  && s'.cells[key].stamp == s.nextStamp && s'.nextStamp == s.nextStamp + 1)
            && (forall k | k != key :: k in s'.cells <==> k in s.cells)
            && (forall k | k != key && k in s.cells :: s'.cells[k] == s.cells[k])
            && s'.wheels == s.wheels && s'.expired == s.expired && s'.ran == s.ran
  {
    hide Locks;
  }

  /** Modify lets the handler change a present value, and a default one if there is none. */
  lemma ModifyHandles(c: Config, s: Cache, key: Key, handler: Value -> Value, initial: Value, timeout: nat)
    requires Ready(c, s, Modify(key, handler, initial, timeout))
    ensures var s' := Apply(c, s, Modify(key, handler, initial, timeout));
            && key in s'.cells
            && (key in s.cells ==>
                  && s'.cells[key].value == handler(s.cells[key].value) && s'.cells[key].timeout == s.cells[key].timeout
                  && s'.cells[key].stamp == s.cells[key].stamp && s'.nextStamp == s.nextStamp)
            && (key !in s.cells ==>
                  && s'.cells[key].value == handler(initial) && s'.cells[key].timeout == timeout
                  && s'.cells[key].stamp == s.nextStamp && s'.nextStamp == s.nextStamp + 1)
            && (forall k | k != key :: k in s'.cells <==> k in s.cells)
            && (forall k | k != key && k in s.cells :: s'.cells[k] == s.cells[k])
            && s'.wheels == s.wheels && s'.expired == s.expired && s'.ran == s.ran
  {
    hide Locks;
  }

  /** How long the hit of an operation is for: insert asks for its argument, the others for the key's own timeout. */
  predicate HitsFor(s: Cache, act: Action, key: Key, delay: nat) {
    || (act.Insert? && act.key == key && delay == act.timeout > 0)
    || (act == Touch(key) && key in s.cells && delay == s.cells[key].timeout > 0)
    || (act.Modify? && act.key == key
        && delay == (if key in s.cells then s.cells[key].timeout else act.timeout) && delay > 0)
  }

  /** Every hit begins by pointing to the key's leaf: the one there is if it is alive, and else a new one. */
  lemma HitBegins(c: Config, s: Cache, act: Action, key: Key, delay: nat)
    requires Ready(c, s, act) && HitsFor(s, act, key, delay)
    ensures var s' := Apply(c, s, act);
            && key in s'.cells && s'.cells[key].weakEntry.Some?
            && s'.held == Some(Held(s'.cells[key].weakEntry.value, delay, Taken))
            && (if key in s.cells && s.cells[key].weakEntry.Some? && Alive(s, s.cells[key].weakEntry.value) then
                  s'.cells[key].weakEntry == s.cells[key].weakEntry && s'.nextId == s.nextId
                else s'.cells[key].weakEntry == Some(Leaf(s.nextId, Expire(key))) && s'.nextId == s.nextId + 1)
  {
    hide Referenced;
  }

  /** And every hit goes on to schedule that leaf once more, for the delay it was begun with; no cell changes. */
  lemma HitSchedules(c: Config, s: Cache)
    requires Inv(c, s) && Enabled(c, s, PutHit)
    ensures var s' := Apply(c, s, PutHit);
            var n := c.Ticks(s.held.value.delay);
            && s'.cells == s.cells && Shaped(c, s'.wheels) && s'.held.Some? && s'.held.value.leaf == s.held.value.leaf
            && FireTick(c, s.wheels, n) >= s.wheels.ticks
            && Pending(c, s'.wheels) == Pending(c, s.wheels) + {(s.held.value.leaf, FireTick(c, s.wheels, n))}
  {
    AddSchedules(c, s.wheels, c.Ticks(s.held.value.delay), s.held.value.leaf);
    hide Pending, Add, FireTick, Shaped;
  }

  // ---------------------------------------------------------------- whole runs

  // What any step does to a cell; stamps are never used again.
  lemma CellAfter(c: Config, s: Cache, act: Action, key: Key)
    requires Ready(c, s, act)
    ensures var s' := Apply(c, s, act);
            && s.nextStamp <= s'.nextStamp
            && (key in s'.cells ==>
                  if key in s.cells then
                    && s'.cells[key].stamp == s.cells[key].stamp && s'.cells[key].timeout == s.cells[key].timeout
                    && s'.cells[key].value
                       == if act.Modify? && act.key == key then act.handler(s.cells[key].value) else s.cells[key].value
                  else s'.cells[key].stamp == s.nextStamp && (act.Insert? || act.Modify?) && act.key == key)
  {
    hide Locks, Expires, Add, Drop, TurnWheel, FireTick, Referenced;
  }

  /** The handlers of the run's modifications of the key, one after another. */
  function Handled(acts: seq<Action>, key: Key, value: Value): Value {
    if acts == [] then value
    else
      Handled(acts[1..], key, if acts[0].Modify? && acts[0].key == key then acts[0].handler(value) else value)
  }

  /** Only modify writes: on every run, whatever is inserted, found or erased, a key that still has the same incarnation
      has the same timeout, and its value is the old one after the run's handlers in their order. */
  lemma {:induction false} OnlyModifyWrites(c: Config, s: Cache, a: Spec, acts: seq<Action>, key: Key)
    requires Rel(c, s, a) && Exec(c, s, acts).Some?
    requires var s' := Exec(c, s, acts).value; key in s'.cells && s'.cells[key].stamp < s.nextStamp
    ensures var s' := Exec(c, s, acts).value;
            && key in s.cells && s'.cells[key].stamp == s.cells[key].stamp && s'.cells[key].timeout == s.cells[key].timeout
            && s'.cells[key].value == Handled(acts, key, s.cells[key].value)
    decreases |acts|
  {
    if acts != [] {
      var s1, a1 := Unfold(c, s, acts, a);
      CellAfter(c, s, acts[0], key);
      hide Rel, Apply;
      OnlyModifyWrites(c, s1, a1, acts[1..], key);
    }
  }

  // So what an insertion has put into the cache stands, until somebody modifies it, as long as it stays at all.
  lemma InsertedStands(c: Config, s: Cache, a: Spec, key: Key, value: Value, timeout: nat, acts: seq<Action>)
    requires Rel(c, s, a) && key !in s.cells && Exec(c, s, [Insert(key, value, timeout)] + acts).Some?
    requires forall i | 0 <= i < |acts| :: !(acts[i].Modify? && acts[i].key == key)
    requires var s' := Exec(c, s, [Insert(key, value, timeout)] + acts).value;
             key in s'.cells && s'.cells[key].stamp == s.nextStamp
    ensures var s' := Exec(c, s, [Insert(key, value, timeout)] + acts).value;
            s'.cells[key].value == value && s'.cells[key].timeout == timeout
  {
    var all := [Insert(key, value, timeout)] + acts;
    var s1, a1 := Unfold(c, s, all, a);
    assert all[1..] == acts;
    InsertKeepsPresent(c, s, key, value, timeout);
    OnlyModifyWrites(c, s1, a1, acts, key);
    NothingHandled(acts, key, value);
  }

  lemma {:induction false} NothingHandled(acts: seq<Action>, key: Key, value: Value)
    requires forall i | 0 <= i < |acts| :: !(acts[i].Modify? && acts[i].key == key)
    ensures Handled(acts, key, value) == value
  {
    if acts != [] {
      NothingHandled(acts[1..], key, value);
    }
  }
}
