/**
 * What the cache promises: a plain map whose timed items carry a deadline.  A hit moves the deadline
 * forward, never back; an item goes only when it is erased or when its deadline tick has come.
 */
module ExpiringMap {
  import opened Sequences
  import opened TimingWheel
  import opened CacheModel

  /** `deadline` is None for an untimed item, and for a timed one until its first hit is scheduled. */
  datatype Item = Item(value: Value, timeout: nat, stamp: nat, deadline: Option<nat>)

  datatype Spec = Spec(items: map<Key, Item>, nextStamp: nat, expired: seq<Expiry>)

  datatype Event =
    | Stutter
    | Put(key: Key, value: Value, timeout: nat)
    | Store(key: Key, value: Value)
    | Remove(key: Key)
    | Hit(key: Key, due: nat)
    | Vanish(key: Key, now: nat)

  function Later(d: Option<nat>, due: nat): nat {
    if d.Some? && d.value > due then d.value else due
  }

  /** Only a timed item whose deadline is now may vanish. */
  predicate May(a: Spec, e: Event) {
    match e
    case Vanish(key, now) => key in a.items && a.items[key].timeout > 0 && a.items[key].deadline == Some(now)
    case Store(key, _) => key in a.items
    case _ => true
  }

  function Do(a: Spec, e: Event): Spec
    requires May(a, e)
  {
    match e
    case Stutter => a
    case Put(key, value, timeout) =>
      if key in a.items then a
      else a.(items := a.items[key := Item(value, timeout, a.nextStamp, None)], nextStamp := a.nextStamp + 1)
    case Store(key, value) => a.(items := a.items[key := a.items[key].(value := value)])
    case Remove(key) => a.(items := a.items - {key})
    case Hit(key, due) =>
      if key in a.items && a.items[key].timeout > 0 then
        a.(items := a.items[key := a.items[key].(deadline := Some(Later(a.items[key].deadline, due)))])
      else a
    case Vanish(key, now) =>
      a.(items := a.items - {key}, expired := a.expired + [Expiry(a.items[key].stamp, key, now)])
  }

  const EMPTY := Spec(map[], 0, [])
}
