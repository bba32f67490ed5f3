/**
 * The expiring cache as a machine of small steps, so that every interleaving of the loop thread (which ticks and
 * runs expiry callbacks) with any number of user threads is a run of it.  User operations hold `mtx_`.  A timed hit
 * takes three steps, because the loop thread may move in between: it locks or makes the strong pointer, puts it into a
 * bucket under the bucket lock, and lets go of its own copy, still under `mtx_`.  If that copy is the last one by then,
 * the entry's destructor runs the expiry callback on the user's thread, which waits for the `mtx_` it already holds.
 */
module CacheModel {
  import opened Sequences
  import opened TimingWheel
  import opened WheelSteps

  type Value(!new)

  /** A cell of `map_`. The stamp numbers incarnations: it names the timeout callback stored in the cell. */
  datatype Cell = Cell(value: Value, timeout: nat, stamp: nat, weakEntry: Option<Entry>)

  /** How far the hit that holds `mtx_` has come. */
  datatype Stage =
    | Taken                // the bucket insertion is still to come
    | Inserted(due: int)   // in a bucket, to be released in tick `due`; the local pointer is still there
    | SelfLocked           // the local pointer was the last one: its callback waits for `mtx_` for ever

  datatype Held = Held(leaf: Entry, delay: nat, stage: Stage)

  datatype Expiry = Expiry(stamp: nat, key: Key, tick: nat)

  datatype Ran = Ran(leaf: Entry, tick: nat)

  datatype Cache = Cache(
    wheels: Wheels,
    cells: map<Key, Cell>,
    dying: Option<Entry>,    // a leaf without references whose task is about to run
    held: Option<Held>,      // a hit that holds mtx_ and a strong pointer
    nextId: nat,
    nextStamp: nat,
    expired: seq<Expiry>,    // timeout callbacks run so far
    ran: seq<Ran>)           // runAfter tasks run so far

  // ---------------------------------------------------------------- shared pointers

  /** Some bucket holds a strong pointer to the leaf, possibly through closures. */
  predicate Referenced(w: Wheels, leaf: Entry) {
    || (exists i | 0 <= i < |w.buckets| :: exists j | 0 <= j < |w.buckets[i]| :: InBucket(w.buckets[i][j], leaf))
    || InBucket(w.dropping, leaf)
  }

  predicate InBucket(bucket: set<Entry>, leaf: Entry) {
    exists e | e in bucket :: LeafOf(e) == leaf
  }

  ghost predicate Scheduled(c: Config, w: Wheels, leaf: Entry)
    requires Shaped(c, w)
  {
    exists due :: (leaf, due) in Pending(c, w)
  }

  lemma ReferencedIffScheduled(c: Config, w: Wheels, leaf: Entry)
    requires Shaped(c, w)
    ensures Referenced(w, leaf) <==> Scheduled(c, w, leaf)
  {
    if Referenced(w, leaf) {
      if InBucket(w.dropping, leaf) {
        var e :| e in w.dropping && LeafOf(e) == leaf;
        assert (leaf, DueNow(c, w, e)) in Falling(c, w);
      } else {
        var i, j :| 0 <= i < |w.buckets| && 0 <= j < |w.buckets[i]| && InBucket(w.buckets[i][j], leaf);
        var e :| e in w.buckets[i][j] && LeafOf(e) == leaf;
        Has(c, w, i, j, e);
      }
    }
    if Scheduled(c, w, leaf) {
      var due :| (leaf, due) in Pending(c, w);
      if (leaf, due) in Queued(c, w) {
        var i, j, e := Find(c, w, (leaf, due));
        assert InBucket(w.buckets[i][j], leaf);
      } else {
        var e :| e in w.dropping && (leaf, due) == (LeafOf(e), DueNow(c, w, e));
        assert InBucket(w.dropping, leaf);
      }
    }
  }

  /** A hit's local strong pointer points to the leaf. */
  predicate Holds(s: Cache, leaf: Entry) {
    s.held.Some? && s.held.value.leaf == leaf && !s.held.value.stage.SelfLocked?
  }

  /** The leaf's reference count is positive. */
  predicate Alive(s: Cache, leaf: Entry) {
    Referenced(s.wheels, leaf) || Holds(s, leaf)
  }

  /** The wheel-0 bucket of the given tick, should it have held the leaf, has destroyed its reference to it. */
  predicate Served(w: Wheels, leaf: Entry, tick: int) {
    w.ticks > tick || (w.ticks == tick && (w.phase >= 2 || (w.phase == 1 && leaf !in w.dropping)))
  }

  /** weakEntryPtr_.lock() succeeds. */
  predicate Locks(s: Cache, cell: Cell) {
    cell.weakEntry.Some? && Alive(s, cell.weakEntry.value)
  }

  // ---------------------------------------------------------------- steps

  datatype Action =
    | StartTick
    | Turn
    | Destroy(e: Entry)
    | Callback
    | Insert(key: Key, value: Value, timeout: nat)
    | Touch(key: Key)                        // find, findAndFetch and operator[]
    | Modify(key: Key, handler: Value -> Value, initial: Value, timeout: nat)
    | Erase(key: Key)
    | PutHit                                 // the hit's bucket insertion
    | Release                                // the end of eraseAfter: the local pointer goes
    | RunAfter(delay: nat, task: nat)

  /** The loop thread is not inside a callback. */
  predicate LoopFree(s: Cache) {
    s.dying.None?
  }

  predicate Enabled(c: Config, s: Cache, a: Action) {
    match a
    case StartTick => LoopFree(s) && s.wheels.phase == c.wheelsNumber && s.wheels.dropping == {}
    case Turn => LoopFree(s) && s.wheels.phase < c.wheelsNumber && s.wheels.dropping == {}
    case Destroy(e) => LoopFree(s) && e in s.wheels.dropping
    case Callback => s.dying.Some? && s.dying.value.Leaf? && (s.dying.value.task.Expire? ==> s.held.None?)
    case PutHit => s.held.Some? && s.held.value.stage.Taken?
    case Release => s.held.Some? && s.held.value.stage.Inserted?
    case RunAfter(delay, _) => delay > 0
    case _ => s.held.None?
  }

  /** eraseAfter up to the bucket lock: take a strong pointer to the key's leaf, or make a new leaf. */
  function BeginHit(s: Cache, key: Key, delay: nat): Cache
    requires key in s.cells && delay > 0
  {
    var cell := s.cells[key];
    if Locks(s, cell) then
      s.(held := Some(Held(cell.weakEntry.value, delay, Taken)))
    else
      var leaf := Leaf(s.nextId, Expire(key));
      s.(held := Some(Held(leaf, delay, Taken)), nextId := s.nextId + 1,
         cells := s.cells[key := cell.(weakEntry := Some(leaf))])
  }

  /** map_.insert: a key already present keeps its cell. */
  function PutCell(s: Cache, key: Key, value: Value, timeout: nat): Cache {
    if key in s.cells then s
    else s.(cells := s.cells[key := Cell(value, timeout, s.nextStamp, None)], nextStamp := s.nextStamp + 1)
  }

  function HitIfTimed(s: Cache, key: Key): Cache
    requires key in s.cells
  {
    if s.cells[key].timeout > 0 then BeginHit(s, key, s.cells[key].timeout) else s
  }

  /** The test of the expiry callback, made under mtx_. */
  predicate Expires(s: Cache, key: Key) {
    key in s.cells && s.cells[key].timeout > 0 && !Locks(s, s.cells[key])
  }

  /** The body of the expiry callback. */
  function RunExpiry(s: Cache, key: Key): Cache {
    if Expires(s, key) then
      s.(cells := s.cells - {key}, expired := s.expired + [Expiry(s.cells[key].stamp, key, s.wheels.ticks)])
    else s
  }

  function Apply(c: Config, s: Cache, a: Action): Cache
    requires Shaped(c, s.wheels) && Enabled(c, s, a)
    requires s.held.Some? ==> s.held.value.leaf.Leaf?
  {
    match a
    case StartTick => s.(wheels := WheelSteps.StartTick(s.wheels))
    case Turn => s.(wheels := TurnWheel(c, s.wheels))
    case Destroy(e) =>
      var s' := s.(wheels := Drop(c, s.wheels, e));
      if e.Leaf? && !Alive(s', e) then s'.(dying := Some(e)) else s'
    case Callback =>
      var leaf := s.dying.value;
      var s' := s.(dying := None);
      (match leaf.task
       case Expire(key) => RunExpiry(s', key)
       case Run(_) => s'.(ran := s.ran + [Ran(leaf, s.wheels.ticks)]))
    case Insert(key, value, timeout) =>
      var s' := PutCell(s, key, value, timeout);
      if timeout > 0 then BeginHit(s', key, timeout) else s'
    case Touch(key) =>
      if key in s.cells then HitIfTimed(s, key) else s
    case Modify(key, handler, initial, timeout) =>
      if key in s.cells then
        HitIfTimed(s.(cells := s.cells[key := s.cells[key].(value := handler(s.cells[key].value))]), key)
      else
        HitIfTimed(PutCell(s, key, handler(initial), timeout), key)
    case Erase(key) => s.(cells := s.cells - {key})
    case PutHit =>
      var h := s.held.value;
      s.(held := Some(h.(stage := Inserted(FireTick(c, s.wheels, c.Ticks(h.delay))))),
         wheels := Add(c, s.wheels, c.Ticks(h.delay), h.leaf))
    case Release =>
      if Referenced(s.wheels, s.held.value.leaf) then s.(held := None)
      else s.(held := Some(s.held.value.(stage := SelfLocked)))
    case RunAfter(delay, task) =>
      s.(nextId := s.nextId + 1, wheels := Add(c, s.wheels, c.Ticks(delay), Leaf(s.nextId, Run(task))))
  }

  function Init(c: Config): Cache
    requires c.Ok()
  {
    Cache(WheelSteps.Init(c), map[], None, None, 0, 0, [], [])
  }

  // ---------------------------------------------------------------- the invariant

  /** A user's thread is inside the leaf's callback, waiting for the `mtx_` it holds itself. */
  predicate Stuck(s: Cache, leaf: Entry) {
    s.held.Some? && s.held.value.leaf == leaf && s.held.value.stage.SelfLocked?
  }

  /** The cell is kept by a live leaf, or its expiry callback is about to run or waits for ever. */
  predicate Guarded(s: Cache, cell: Cell) {
    cell.weakEntry.Some? && (Locks(s, cell) || s.dying == cell.weakEntry || Stuck(s, cell.weakEntry.value))
  }

  /** A leaf in a cell's weak pointer is a leaf of that key. */
  predicate LeafFor(s: Cache, key: Key, leaf: Entry) {
    leaf.Leaf? && leaf.task == Expire(key) && leaf.id < s.nextId
  }

  predicate CellOk(s: Cache, key: Key, cell: Cell) {
    && (cell.weakEntry.Some? ==> LeafFor(s, key, cell.weakEntry.value))
    && (cell.timeout > 0 ==> Guarded(s, cell))
  }

  ghost predicate IdsOk(c: Config, s: Cache)
    requires Shaped(c, s.wheels)
  {
    && (forall x | x in Pending(c, s.wheels) :: x.0.Leaf? && x.0.id < s.nextId)
    && (forall i | 0 <= i < |s.ran| :: s.ran[i].leaf.Leaf? && s.ran[i].leaf.id < s.nextId && s.ran[i].tick <= s.wheels.ticks)
  }

  predicate HeldOk(s: Cache) {
    s.held.Some? ==>
      var h := s.held.value;
      && h.leaf.Leaf? && h.leaf.task.Expire? && h.delay > 0 && h.leaf.id < s.nextId
      && h.leaf.task.key in s.cells && s.cells[h.leaf.task.key].weakEntry == Some(h.leaf)
      && (h.stage.SelfLocked? ==> !Referenced(s.wheels, h.leaf))
      && s.dying != Some(h.leaf)
  }

  /** What a hit has put into a bucket is there until that bucket has been served. */
  ghost predicate StageOk(c: Config, s: Cache)
    requires Shaped(c, s.wheels)
  {
    s.held.Some? && s.held.value.stage.Inserted? ==> Kept(c, s.wheels, s.held.value.leaf, s.held.value.stage.due)
  }

  ghost predicate Kept(c: Config, w: Wheels, leaf: Entry, due: int)
    requires Shaped(c, w)
  {
    Served(w, leaf, due) || (due >= 0 && (leaf, due as nat) in Pending(c, w))
  }

  predicate DyingOk(s: Cache) {
    s.dying.Some? ==>
      && s.dying.value.Leaf? && s.dying.value.id < s.nextId
      && s.wheels.phase == 1 && !Alive(s, s.dying.value)
  }

  /** The invariant; inside an operation the cells of `unfinished` may have no leaf yet. */
  ghost predicate InvBut(c: Config, s: Cache, unfinished: set<Key>) {
    && Shaped(c, s.wheels)
    && IdsOk(c, s) && HeldOk(s) && StageOk(c, s) && DyingOk(s)
    && (forall k {:trigger CellOk(s, k, s.cells[k])} | k in s.cells :: k in unfinished || CellOk(s, k, s.cells[k]))
    && (forall k | k in unfinished && k in s.cells :: s.cells[k].weakEntry.None?)
  }

  ghost predicate Inv(c: Config, s: Cache) {
    InvBut(c, s, {})
  }

  lemma InitInv(c: Config)
    requires c.Ok()
    ensures Inv(c, Init(c))
  {
  }
}
