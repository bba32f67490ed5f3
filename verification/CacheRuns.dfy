/** Runs of the cache, from any number of threads, and the runs of the expiring map they refine. */
module CacheRuns {
  import opened Sequences
  import opened TimingWheel
  import opened WheelSteps
  import opened CacheModel
  import opened ExpiringMap
  import opened CacheRefinement

  ghost predicate Ready(c: Config, s: Cache, act: Action) {
    && Shaped(c, s.wheels) && Enabled(c, s, act)
    && (s.held.Some? ==> s.held.value.leaf.Leaf? && s.held.value.leaf.task.Expire?)
  }

  /** The state after the steps `acts`; None if one of them was not enabled. */
  ghost function Exec(c: Config, s: Cache, acts: seq<Action>): Option<Cache>
    decreases |acts|
  {
    if acts == [] then Some(s)
    else if Ready(c, s, acts[0]) then Exec(c, Apply(c, s, acts[0]), acts[1..])
    else None
  }

  ghost function Events(c: Config, s: Cache, acts: seq<Action>): seq<Event>
    decreases |acts|
  {
    if acts == [] || !Ready(c, s, acts[0]) then []
    else [EventOf(c, s, acts[0])] + Events(c, Apply(c, s, acts[0]), acts[1..])
  }

  /** The abstract run; None if some event was not allowed. */
  ghost function SpecExec(a: Spec, events: seq<Event>): Option<Spec>
    decreases |events|
  {
    if events == [] then Some(a)
    else if May(a, events[0]) then SpecExec(Do(a, events[0]), events[1..])
    else None
  }

  /** Refinement over runs: whatever the threads do, the abstract events are allowed and lead to the matching map. */
  lemma {:induction false} RunRefines(c: Config, s: Cache, acts: seq<Action>, a: Spec)
    requires Rel(c, s, a) && Exec(c, s, acts).Some?
    ensures SpecExec(a, Events(c, s, acts)).Some?
    ensures Rel(c, Exec(c, s, acts).value, SpecExec(a, Events(c, s, acts)).value)
    decreases |acts|
  {
    if acts != [] {
      var e := EventOf(c, s, acts[0]);
      var s' := Apply(c, s, acts[0]);
      StepRefines(c, s, acts[0], a);
      RunRefines(c, s', acts[1..], Do(a, e));
      assert Events(c, s, acts)[1..] == Events(c, s', acts[1..]);
    }
  }

  lemma InitMatches(c: Config)
    requires c.Ok()
    ensures Rel(c, CacheModel.Init(c), EMPTY)
  {
  }

  // The first step of a run, apart from the rest.
  lemma Unfold(c: Config, s: Cache, acts: seq<Action>, a: Spec) returns (s': Cache, a': Spec)
    requires Rel(c, s, a) && acts != [] && Exec(c, s, acts).Some?
    ensures Ready(c, s, acts[0]) && s' == Apply(c, s, acts[0])
    ensures Rel(c, s', a') && Exec(c, s', acts[1..]) == Exec(c, s, acts)
  {
    StepRefines(c, s, acts[0], a);
    s' := Apply(c, s, acts[0]);
    a' := Do(a, EventOf(c, s, acts[0]));
  }
}
