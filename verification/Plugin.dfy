/** Plugin initialisation: a depth-first search with three colours over an arbitrary graph of plugin objects. */
module Plugins {
  import opened Sequences

  datatype PluginStatus = None | Initializing | Initialized

  type Graph = map<PluginBase, seq<PluginBase>>

  /** What happened, in order: calls of initAndStart, and calls of the initialized callback. */
  class Trace {
    var started: seq<PluginBase>
    var announced: seq<PluginBase>

    constructor ()
      ensures started == announced == []
    {
      started, announced := [], [];
    }
  }

  // ---------------------------------------------------------------- paths and cycles

  ghost predicate IsPath(g: Graph, path: seq<PluginBase>) {
    && path != []
    && (forall p | p in path :: p in g)
    && (forall i | 0 <= i < |path| - 1 :: path[i + 1] in g[path[i]])
  }

  /** A path from the root, through plugins of `none` only. */
  ghost predicate IsFreshPath(g: Graph, none: set<PluginBase>, root: PluginBase, older path: seq<PluginBase>) {
    && (forall i | 0 <= i < |path| :: path[i] in none)
    && IsPath(g, path) && path[0] == root
  }

  /** Such a path that comes back to a plugin it has visited. */
  ghost predicate IsFreshCycle(g: Graph, none: set<PluginBase>, root: PluginBase, older path: seq<PluginBase>) {
    IsFreshPath(g, none, root, path) && path[|path| - 1] in path[..|path| - 1]
  }

  ghost predicate HasFreshCycle(g: Graph, none: set<PluginBase>, root: PluginBase) {
    exists path :: IsFreshCycle(g, none, root, path)
  }

  ghost predicate Reached(g: Graph, none: set<PluginBase>, root: PluginBase, p: PluginBase) {
    exists path :: IsFreshPath(g, none, root, path) && path[|path| - 1] == p
  }

  /** Everything started comes after all of its dependencies, apart from those of `done`. */
  ghost predicate InOrder(g: Graph, done: set<PluginBase>, order: seq<PluginBase>) {
    forall k | 0 <= k < |order| :: order[k] in g && forall d | d in g[order[k]] :: d in done || d in order[..k]
  }

  // One more plugin whose dependencies have all been dealt with.
  lemma Extends(g: Graph, done: set<PluginBase>, order: seq<PluginBase>, p: PluginBase)
    requires InOrder(g, done, order) && Distinct(order) && p in g && p !in order
    requires forall d | d in g[p] :: d in done || d in order
    ensures InOrder(g, done, order + [p]) && Distinct(order + [p])
  {
    forall k | 0 <= k < |order + [p]|
      ensures (order + [p])[k] in g && forall d | d in g[(order + [p])[k]] :: d in done || d in (order + [p])[..k]
    {
      assert (order + [p])[..k] == order[..k];
    }
  }

  // Along a path through fresh plugins, each comes earlier in the order than the one before it.
  lemma {:induction false} OrderDescends(g: Graph, none: set<PluginBase>, done: set<PluginBase>, order: seq<PluginBase>,
                                         path: seq<PluginBase>, i: nat, k: nat) returns (m: nat)
    requires InOrder(g, done, order) && Distinct(order) && IsPath(g, path) && none !! done
    requires forall p | p in path :: p in none
    requires i < |path| && k < |order| && order[k] == path[0]
    ensures m <= k && order[m] == path[i] && (i > 0 ==> m < k)
  {
    if i == 0 {
      m := k;
    } else {
      var d := path[1];
      assert d in g[order[k]] && d in path && d !in done;
      var k' :| 0 <= k' < k && order[k'] == d;
      m := OrderDescends(g, none, done, order, path[1..], i - 1, k');
    }
  }

  // With the root in order, everything a fresh path leads to is.
  lemma ReachedInOrder(g: Graph, none: set<PluginBase>, done: set<PluginBase>, order: seq<PluginBase>, root: PluginBase,
                       p: PluginBase)
    requires InOrder(g, done, order) && Distinct(order) && none !! done && (root in none ==> root in order)
    requires Reached(g, none, root, p)
    ensures p in order
  {
    var path :| IsFreshPath(g, none, root, path) && path[|path| - 1] == p;
    assert root in path;
    var k :| 0 <= k < |order| && order[k] == root;
    var _ := OrderDescends(g, none, done, order, path, |path| - 1, k);
  }

  // If everything could be put in order, there is no cycle.
  lemma NoCycleInOrder(g: Graph, none: set<PluginBase>, done: set<PluginBase>, order: seq<PluginBase>, root: PluginBase)
    requires InOrder(g, done, order) && Distinct(order) && none !! done && (root in none ==> root in order)
    ensures !HasFreshCycle(g, none, root)
  {
    if HasFreshCycle(g, none, root) {
      var path :| IsFreshCycle(g, none, root, path);
      var last := |path| - 1;
      var i :| 0 <= i < last && path[i] == path[last];
      assert root == path[0] && root in path;
      assert path[i..][last - i] == path[last];
      var k :| 0 <= k < |order| && order[k] == root;
      var m := OrderDescends(g, none, done, order, path, i, k);
      var n := OrderDescends(g, none, done, order, path[i..], last - i, m);
      assert false;
    }
  }

  // ---------------------------------------------------------------- the plugins

  class PluginBase {
    var status: PluginStatus
    var dependencies: seq<PluginBase>

    constructor ()
      ensures status == PluginStatus.None && dependencies == []
    {
      status, dependencies := PluginStatus.None, [];
    }

    method AddDependency(dp: PluginBase)
      modifies this`dependencies
      ensures dependencies == old(dependencies) + [dp]
    {
      dependencies := dependencies + [dp];
    }

    /**
     * Returns false where the program aborts.  `stack` holds the plugins whose initialisation is under way, `none`
     * and `done` those that were in state None and Initialized when it all began.
     */
    method Initialize(ghost g: Graph, ghost none: set<PluginBase>, ghost done: set<PluginBase>,
                      ghost root: PluginBase, ghost stack: seq<PluginBase>, trace: Trace)
        returns (ok: bool, ghost cycle: seq<PluginBase>)
      requires this in g && GraphOk(g, none, done) && StateOk(g, none, done, root, stack, trace)
      requires if stack == [] then this == root else IsPath(g, stack) && stack[0] == root && this in g[stack[|stack| - 1]]
      modifies g.Keys`status, trace
      ensures ok ==> StateOk(g, none, done, root, stack, trace) && status == Initialized
      ensures ok ==> old(trace.started) <= trace.started && Unstarted(g) <= old(Unstarted(g))
      ensures !ok ==> IsFreshCycle(g, none, root, cycle)
      decreases Unstarted(g), 0
    {
      cycle := [];
      if status == PluginStatus.None {
        Begin(g, none, done, root, stack, trace);
        ghost var path := stack + [this];
        hide *;
        var i := 0;
        while i < |dependencies|
          invariant 0 <= i <= |dependencies| && this !in stack && GraphOk(g, none, done)
          invariant StateOk(g, none, done, root, path, trace) && old(trace.started) <= trace.started
          invariant forall j | 0 <= j < i :: dependencies[j].status == Initialized
          invariant Unstarted(g) <= old(Unstarted(g)) - {this}
        {
          ok, cycle := InitializeDependency(i, g, none, done, root, path, trace);
          if !ok {
            return;
          }
          i := i + 1;
        }
        AllInitialized(g, none, done);
        Finish(g, none, done, root, stack, trace);
        ok := true;
      } else if status == Initialized {
        ok := true;
      } else {
        ok := false;
        cycle := stack + [this];
      }
    }

    lemma AllInitialized(g: Graph, none: set<PluginBase>, done: set<PluginBase>)
      requires this in g && GraphOk(g, none, done)
      requires forall j | 0 <= j < |dependencies| :: dependencies[j].status == Initialized
      ensures forall d | d in g[this] :: d.status == Initialized
    {
    }

    /** The i-th dependency's turn; those before it stay Initialized. */
    method InitializeDependency(i: nat, ghost g: Graph, ghost none: set<PluginBase>, ghost done: set<PluginBase>,
                                ghost root: PluginBase, ghost path: seq<PluginBase>, trace: Trace)
        returns (ok: bool, ghost cycle: seq<PluginBase>)
      requires this in g && GraphOk(g, none, done) && StateOk(g, none, done, root, path, trace)
      requires IsPath(g, path) && path[0] == root && path[|path| - 1] == this && i < |dependencies|
      requires forall j | 0 <= j < i :: dependencies[j].status == Initialized
      modifies g.Keys`status, trace
      ensures ok ==> StateOk(g, none, done, root, path, trace) && old(trace.started) <= trace.started
      ensures ok ==> forall j | 0 <= j <= i :: dependencies[j].status == Initialized
      ensures ok ==> Unstarted(g) <= old(Unstarted(g)) && GraphOk(g, none, done)
      ensures !ok ==> IsFreshCycle(g, none, root, cycle)
      decreases Unstarted(g), 1
    {
      assert forall j | 0 <= j < i :: dependencies[j] in g;
      ok, cycle := dependencies[i].Initialize(g, none, done, root, path, trace);
      assert ok ==> forall j | 0 <= j < i :: old(dependencies[j].status) == Initialized;
    }

    /** The start of `Initialize` for a plugin in state None. */
    method Begin(ghost g: Graph, ghost none: set<PluginBase>, ghost done: set<PluginBase>,
                 ghost root: PluginBase, ghost stack: seq<PluginBase>, trace: Trace)
      requires this in g && GraphOk(g, none, done) && StateOk(g, none, done, root, stack, trace)
      requires if stack == [] then this == root else IsPath(g, stack) && stack[0] == root && this in g[stack[|stack| - 1]]
      requires status == PluginStatus.None
      modifies this`status
      ensures StateOk(g, none, done, root, stack + [this], trace) && IsPath(g, stack + [this]) && (stack + [this])[0] == root && this !in stack
      ensures Unstarted(g) == old(Unstarted(g)) - {this} && this in old(Unstarted(g)) && GraphOk(g, none, done)
    {
      status := Initializing;
      assert this !in stack && this !in trace.started;
    }

    /** The end of `Initialize`, when all dependencies are Initialized: initAndStart, the new status, the callback. */
    method Finish(ghost g: Graph, ghost none: set<PluginBase>, ghost done: set<PluginBase>,
                  ghost root: PluginBase, ghost stack: seq<PluginBase>, trace: Trace)
      requires this in g && GraphOk(g, none, done) && StateOk(g, none, done, root, stack + [this], trace) && this !in stack
      requires IsPath(g, stack + [this]) && (stack + [this])[0] == root
      requires forall d | d in g[this] :: d.status == Initialized
      modifies this`status, trace
      ensures StateOk(g, none, done, root, stack, trace) && status == Initialized
      ensures trace.started == old(trace.started) + [this] && Unstarted(g) <= old(Unstarted(g))
    {
      assert this in stack + [this];
      assert forall p | p in stack :: p in stack + [this];
      Extends(g, done, trace.started, this);
      assert IsFreshPath(g, none, root, stack + [this]);
      assert Reached(g, none, root, this);
      hide InOrder, Distinct, Reached, IsFreshPath, IsPath;
      trace.started := trace.started + [this];
      status := Initialized;
      trace.announced := trace.announced + [this];
    }

    /**
     * A top-level call.  It aborts if and only if a dependency cycle is reachable through plugins not yet
     * initialised; otherwise every newly reached plugin is started exactly once, after all of its dependencies, and
     * whatever is Initialized has all its dependencies Initialized if that was so before.
     */
    method Start(ghost g: Graph, trace: Trace) returns (ok: bool)
      requires this in g && trace.started == trace.announced == []
      requires forall p | p in g :: p.dependencies == g[p] && forall d | d in g[p] :: d in g
      requires forall p | p in g :: p.status != Initializing
      modifies g.Keys`status, trace
      ensures ok <==> !HasFreshCycle(g, old(WithStatus(g, PluginStatus.None)), this)
      ensures ok ==> status == Initialized && trace.announced == trace.started
      ensures ok ==> Distinct(trace.started) && InOrder(g, old(WithStatus(g, Initialized)), trace.started)
      ensures ok ==> forall p | p in g :: p.status == if p in trace.started then Initialized else old(p.status)
      ensures ok ==> forall p | p in g :: p in trace.started <==> Reached(g, old(WithStatus(g, PluginStatus.None)), this, p)
      ensures ok ==> forall p | p in trace.started :: old(p.status) == PluginStatus.None
      ensures ok && old(Closed(g)) ==> Closed(g)
    {
      ghost var none, done := WithStatus(g, PluginStatus.None), WithStatus(g, Initialized);
      ghost var cycle;
      ok, cycle := Initialize(g, none, done, this, [], trace);
      if ok {
        NoCycleInOrder(g, none, done, trace.started, this);
        forall p | p in g && Reached(g, none, this, p)
          ensures p in trace.started
        {
          ReachedInOrder(g, none, done, trace.started, this, p);
        }
      }
    }
  }

  ghost function WithStatus(g: Graph, s: PluginStatus): set<PluginBase>
    reads g.Keys
  {
    set p | p in g && p.status == s
  }

  /** What bounds the recursion: the plugins still in state None. */
  ghost function Unstarted(g: Graph): set<PluginBase>
    reads g.Keys
  {
    WithStatus(g, PluginStatus.None)
  }

  /** Whatever is Initialized has all its dependencies Initialized. */
  ghost predicate Closed(g: Graph)
    reads g.Keys
  {
    forall p | p in g && p.status == Initialized :: forall d | d in g[p] && d in g :: d.status == Initialized
  }

  ghost predicate GraphOk(g: Graph, none: set<PluginBase>, done: set<PluginBase>)
    reads g.Keys
  {
    && (forall p | p in g :: p.dependencies == g[p] && forall d | d in g[p] :: d in g)
    && none !! done && none + done == g.Keys
  }

  ghost predicate StateOk(g: Graph, none: set<PluginBase>, done: set<PluginBase>, root: PluginBase,
                          stack: seq<PluginBase>, trace: Trace)
    reads g.Keys, trace
  {
    && (forall p | p in g :: p.status == Initialized <==> p in done || p in trace.started)
    && (forall p | p in g :: p.status == Initializing <==> p in stack)
    && (forall p | p in stack :: p in none)
    && (forall p | p in trace.started :: p in none && p !in stack && Reached(g, none, root, p))
    && Distinct(trace.started) && InOrder(g, done, trace.started) && trace.announced == trace.started
  }
}
