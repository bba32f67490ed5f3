/**
 * The publish/subscribe registry as an interleaving of any number of threads.  The topic map is guarded by a
 * shared/unique lock; subscribe and unsubscribe first try under the shared lock, let go of it, and decide again under
 * the unique one.  A section under the unique lock is one step, possible only while nobody holds the shared lock.
 */
module PubSub {
  import opened Sequences

  type Name(==, !new)
  type Thread(==, !new)
  type Handler(!new)
  type Message(!new)

  datatype Topic = Topic(handlers: map<nat, Handler>, lastId: nat) {
    function Subscribe(h: Handler): Topic {
      Topic(handlers[lastId + 1 := h], lastId + 1)
    }

    function Unsubscribe(id: nat): Topic {
      Topic(handlers - {id}, lastId)
    }

    predicate Empty() {
      handlers == map[]
    }

    /** Identifiers are handed out in ascending order, from one. */
    predicate Ok() {
      forall id | id in handlers :: 1 <= id <= lastId
    }
  }

  datatype Pc =
    | Idle
    | SubscribeShared(name: Name, handler: Handler)      // holds the shared lock
    | SubscribeGap(name: Name, handler: Handler)         // the topic was missing; holds nothing
    | UnsubscribeShared(name: Name, id: nat)             // holds the shared lock
    | UnsubscribeCheck(name: Name, topic: nat)           // holds the shared lock; the handler is gone
    | UnsubscribeGap(name: Name)                         // the topic was empty; holds nothing
    | PublishShared(name: Name, message: Message)        // holds the shared lock
    | PublishSend(name: Name, topic: nat, message: Message)  // holds a pointer to the topic

  datatype Delivery = Delivery(message: Message, handlers: map<nat, Handler>)

  /** `topics` is the heap of topic objects; a topic lives on while a publisher points to it. */
  datatype Service = Service(
    names: map<Name, nat>,
    topics: seq<Topic>,
    pcs: map<Thread, Pc>,
    delivered: seq<Delivery>)

  function PcOf(s: Service, t: Thread): Pc {
    if t in s.pcs then s.pcs[t] else Idle
  }

  predicate Reads(pc: Pc) {
    pc.SubscribeShared? || pc.UnsubscribeShared? || pc.UnsubscribeCheck? || pc.PublishShared?
  }

  ghost predicate NoReader(s: Service) {
    forall t :: !Reads(PcOf(s, t))
  }

  // ---------------------------------------------------------------- steps

  datatype Action =
    | BeginSubscribe(name: Name, handler: Handler)
    | SubscribeFirst
    | SubscribeAgain
    | BeginUnsubscribe(name: Name, id: nat)
    | UnsubscribeFirst
    | CheckEmpty
    | UnsubscribeAgain
    | BeginPublish(name: Name, message: Message)
    | PublishFind
    | Send
    | RemoveTopic(name: Name)
    | Clear

  ghost predicate Enabled(s: Service, t: Thread, act: Action) {
    var pc := PcOf(s, t);
    match act
    case SubscribeFirst => pc.SubscribeShared?
    case SubscribeAgain => pc.SubscribeGap? && NoReader(s)
    case UnsubscribeFirst => pc.UnsubscribeShared?
    case CheckEmpty => pc.UnsubscribeCheck?
    case UnsubscribeAgain => pc.UnsubscribeGap? && NoReader(s)
    case PublishFind => pc.PublishShared?
    case Send => pc.PublishSend?
    case RemoveTopic(_) => pc.Idle? && NoReader(s)
    case Clear => pc.Idle? && NoReader(s)
    case _ => pc.Idle?
  }

  function Goto(s: Service, t: Thread, pc: Pc): Service {
    s.(pcs := s.pcs[t := pc])
  }

  /** Adds the handler to the topic mapped under the name. */
  function Join(s: Service, name: Name, h: Handler): Service
    requires name in s.names && s.names[name] < |s.topics|
  {
    var k := s.names[name];
    s.(topics := s.topics[k := s.topics[k].Subscribe(h)])
  }

  /** Maps the name to a new topic holding just the handler. */
  function Create(s: Service, name: Name, h: Handler): Service {
    s.(topics := s.topics + [Topic(map[], 0).Subscribe(h)], names := s.names[name := |s.topics|])
  }

  ghost function Apply(s: Service, t: Thread, act: Action): Service
    requires Enabled(s, t, act) && Shaped(s)
  {
    var pc := PcOf(s, t);
    assert PointsOk(s, t);
    match act
    case BeginSubscribe(name, h) => Goto(s, t, Pc.SubscribeShared(name, h))
    case SubscribeFirst =>
      if pc.name in s.names then Goto(Join(s, pc.name, pc.handler), t, Idle)
      else Goto(s, t, SubscribeGap(pc.name, pc.handler))
    case SubscribeAgain =>
      Goto(if pc.name in s.names then Join(s, pc.name, pc.handler) else Create(s, pc.name, pc.handler), t, Idle)
    case BeginUnsubscribe(name, id) => Goto(s, t, Pc.UnsubscribeShared(name, id))
    case UnsubscribeFirst =>
      if pc.name in s.names then
        var k := s.names[pc.name];
        Goto(s.(topics := s.topics[k := s.topics[k].Unsubscribe(pc.id)]), t, UnsubscribeCheck(pc.name, k))
      else Goto(s, t, Idle)
    case CheckEmpty =>
      Goto(s, t, if s.topics[pc.topic].Empty() then UnsubscribeGap(pc.name) else Idle)
    case UnsubscribeAgain =>
      Goto(if pc.name in s.names && s.topics[s.names[pc.name]].Empty() then s.(names := s.names - {pc.name}) else s, t, Idle)
    case BeginPublish(name, m) => Goto(s, t, PublishShared(name, m))
    case PublishFind =>
      Goto(s, t, if pc.name in s.names then PublishSend(pc.name, s.names[pc.name], pc.message) else Idle)
    case Send =>
      Goto(s, t, Idle).(delivered := s.delivered + [Delivery(pc.message, s.topics[pc.topic].handlers)])
    case RemoveTopic(name) => Goto(s.(names := s.names - {name}), t, Idle)
    case Clear => Goto(s.(names := map[]), t, Idle)
  }

  // ---------------------------------------------------------------- the invariant

  ghost predicate Shaped(s: Service) {
    && (forall n | n in s.names :: s.names[n] < |s.topics|)
    && (forall t :: PointsOk(s, t))
  }

  /** A thread's pointer to a topic is a pointer to a topic; under the shared lock it is the one mapped. */
  predicate PointsOk(s: Service, t: Thread) {
    match PcOf(s, t)
    case UnsubscribeCheck(n, k) => k < |s.topics| && n in s.names && s.names[n] == k
    case PublishSend(_, k, _) => k < |s.topics|
    case _ => true
  }

  /** The thread is an unsubscribe of this name that will still look at the topic. */
  predicate Cleaning(s: Service, t: Thread, name: Name) {
    PcOf(s, t) == UnsubscribeGap(name)
    || (PcOf(s, t).UnsubscribeCheck? && PcOf(s, t).name == name)
  }

  /** Different names are mapped to different topics. */
  predicate NamesApart(names: map<Name, nat>, n: Name, n': Name) {
    n in names && n' in names && names[n] == names[n'] ==> n == n'
  }

  ghost predicate Inv(s: Service) {
    && Shaped(s)
    && (forall n, n' :: NamesApart(s.names, n, n'))
    && (forall k | 0 <= k < |s.topics| :: s.topics[k].Ok())
    && (forall n | n in s.names && s.topics[s.names[n]].Empty() :: exists t :: Cleaning(s, t, n))
  }

  // ---------------------------------------------------------------- the registry it refines

  /** Who is subscribed under each name; a name without subscribers is not there. */
  type Registry = map<Name, map<nat, Handler>>

  datatype Event =
    | Stutter
    | Added(name: Name, id: nat, handler: Handler)
    | Removed(name: Name, id: nat)
    | Dropped(name: Name)
    | AllDropped

  function Subscribers(r: Registry, name: Name): map<nat, Handler> {
    if name in r then r[name] else map[]
  }

  function SetSubscribers(r: Registry, name: Name, m: map<nat, Handler>): Registry {
    if m == map[] then r - {name} else r[name := m]
  }

  /** A subscription never takes over an identifier in use. */
  predicate May(r: Registry, e: Event) {
    e.Added? ==> e.id !in Subscribers(r, e.name)
  }

  function Do(r: Registry, e: Event): Registry {
    match e
    case Stutter => r
    case Added(n, id, h) => SetSubscribers(r, n, Subscribers(r, n)[id := h])
    case Removed(n, id) => SetSubscribers(r, n, Subscribers(r, n) - {id})
    case Dropped(n) => r - {n}
    case AllDropped => map[]
  }

  function Abs(s: Service): Registry
    requires forall n | n in s.names :: s.names[n] < |s.topics|
  {
    map n | n in s.names && !s.topics[s.names[n]].Empty() :: s.topics[s.names[n]].handlers
  }

  /** The identifier a subscribing step returns. */
  function ReturnedId(s: Service, name: Name): nat
    requires name in s.names ==> s.names[name] < |s.topics|
  {
    if name in s.names then s.topics[s.names[name]].lastId + 1 else 1
  }

  ghost function EventOf(s: Service, t: Thread, act: Action): Event
    requires Shaped(s)
  {
    var pc := PcOf(s, t);
    match act
    case SubscribeFirst =>
      if pc.SubscribeShared? && pc.name in s.names then Added(pc.name, ReturnedId(s, pc.name), pc.handler) else Stutter
    case SubscribeAgain =>
      if pc.SubscribeGap? then Added(pc.name, ReturnedId(s, pc.name), pc.handler) else Stutter
    case UnsubscribeFirst => if pc.UnsubscribeShared? then Removed(pc.name, pc.id) else Stutter
    case RemoveTopic(name) => Dropped(name)
    case Clear => AllDropped
    case _ => Stutter
  }

  ghost predicate Rel(s: Service, r: Registry) {
    Inv(s) && r == Abs(s)
  }

  // ---------------------------------------------------------------- one lemma a kind of step

  // A step that changes only the thread's program point; an unsubscribe may stop looking only at a non-empty topic.
  lemma MoveStep(s: Service, r: Registry, t: Thread, pc: Pc, delivered: seq<Delivery>)
    requires Rel(s, r) && PointsOk(Goto(s, t, pc), t)
    requires forall n | n in s.names && s.topics[s.names[n]].Empty() :: Cleaning(s, t, n) ==> Cleaning(Goto(s, t, pc), t, n)
    ensures Rel(Goto(s, t, pc).(delivered := delivered), r)
  {
    var s' := Goto(s, t, pc).(delivered := delivered);
    forall u
      ensures PointsOk(s', u)
    {
      assert PointsOk(s, u);
    }
    forall n | n in s'.names && s'.topics[s'.names[n]].Empty()
      ensures exists u :: Cleaning(s', u, n)
    {
      var u :| Cleaning(s, u, n);
      assert Cleaning(s', u, n);
    }
  }

  lemma JoinStep(s: Service, r: Registry, t: Thread, name: Name, h: Handler)
    requires Rel(s, r) && name in s.names && !PcOf(s, t).UnsubscribeCheck? && !PcOf(s, t).UnsubscribeGap?
    ensures May(r, Added(name, ReturnedId(s, name), h))
    ensures Rel(Goto(Join(s, name, h), t, Idle), Do(r, Added(name, ReturnedId(s, name), h)))
  {
    var s' := Goto(Join(s, name, h), t, Idle);
    forall u
      ensures PointsOk(s', u)
    {
      assert PointsOk(s, u);
    }
    assert ReturnedId(s, name) in s'.topics[s.names[name]].handlers;
    OthersKept(s, s', name);
    forall n | n in s'.names && s'.topics[s'.names[n]].Empty()
      ensures exists u :: Cleaning(s', u, n)
    {
      var u :| Cleaning(s, u, n);
      assert Cleaning(s', u, n);
    }
    JoinAbs(s, name, h);
  }

  lemma JoinAbs(s: Service, name: Name, h: Handler)
    requires Inv(s) && name in s.names
    ensures ReturnedId(s, name) !in Subscribers(Abs(s), name)
    ensures Abs(Join(s, name, h)) == Do(Abs(s), Added(name, ReturnedId(s, name), h))
  {
    assert s.topics[s.names[name]].Ok();
    assert ReturnedId(s, name) in Join(s, name, h).topics[s.names[name]].handlers;
    AddedIs(Abs(s), name, ReturnedId(s, name), h);
    hide Do;
    OthersKept(s, Join(s, name, h), name);
  }

  // A step that writes one topic leaves those of the other names as they are.
  lemma OthersKept(s: Service, s': Service, name: Name)
    requires Inv(s) && name in s.names && s'.names == s.names && |s'.topics| == |s.topics|
    requires forall k | 0 <= k < |s.topics| && k != s.names[name] :: s'.topics[k] == s.topics[k]
    ensures forall n | n in s.names && n != name :: s'.topics[s.names[n]] == s.topics[s.names[n]]
  {
    forall n | n in s.names && n != name
      ensures s'.topics[s.names[n]] == s.topics[s.names[n]]
    {
      assert NamesApart(s.names, n, name);
    }
  }

  lemma CreateStep(s: Service, r: Registry, t: Thread, name: Name, h: Handler)
    requires Rel(s, r) && name !in s.names && PcOf(s, t).SubscribeGap? && NoReader(s)
    ensures Rel(Goto(Create(s, name, h), t, Idle), Do(r, Added(name, 1, h)))
  {
    var s' := Goto(Create(s, name, h), t, Idle);
    forall u
      ensures PointsOk(s', u)
    {
      assert PointsOk(s, u);
    }
    forall n, n'
      ensures NamesApart(s'.names, n, n')
    {
      assert NamesApart(s.names, n, n');
    }
    assert 1 in s'.topics[|s.topics|].handlers;
    forall n | n in s'.names && s'.topics[s'.names[n]].Empty()
      ensures exists u :: Cleaning(s', u, n)
    {
      var u :| Cleaning(s, u, n);
      assert Cleaning(s', u, n);
    }
    CreateAbs(s, name, h);
  }

  lemma CreateAbs(s: Service, name: Name, h: Handler)
    requires name !in s.names && forall n | n in s.names :: s.names[n] < |s.topics|
    ensures Abs(Create(s, name, h)) == Do(Abs(s), Added(name, 1, h))
  {
    assert 1 in Create(s, name, h).topics[|s.topics|].handlers;
    AddedIs(Abs(s), name, 1, h);
    hide Do;
  }

  lemma AddedIs(r: Registry, name: Name, id: nat, h: Handler)
    ensures Do(r, Added(name, id, h)) == r[name := Subscribers(r, name)[id := h]]
  {
    assert id in Subscribers(r, name)[id := h];
  }

  // What the events do to the registry, subscription by subscription.
  lemma AddedOnly(r: Registry, name: Name, id: nat, h: Handler)
    requires id !in Subscribers(r, name)
    ensures var r' := Do(r, Added(name, id, h));
            && (name in r ==> id !in r[name])
            && name in r' && id in r'[name] && r'[name][id] == h
            && (forall n, i | n in r && i in r[n] :: n in r' && i in r'[n] && r'[n][i] == r[n][i])
            && (forall n, i | n in r' && i in r'[n] && !(n == name && i == id) :: n in r && i in r[n])
  {
    AddedIs(r, name, id, h);
    hide Do;
  }

  lemma RemovedIs(r: Registry, name: Name, id: nat)
    ensures var m := Subscribers(r, name) - {id};
            Do(r, Removed(name, id)) == if m == map[] then r - {name} else r[name := m]
  {
  }

  lemma RemovedOnly(r: Registry, name: Name, id: nat)
    ensures var r' := Do(r, Removed(name, id));
            && (name in r' ==> id !in r'[name] && r'[name] != map[])
            && (forall n, i | n in r && i in r[n] && !(n == name && i == id) :: n in r' && i in r'[n] && r'[n][i] == r[n][i])
            && (forall n, i | n in r' && i in r'[n] :: n in r && i in r[n])
  {
    var m := Subscribers(r, name) - {id};
    assert forall i | name in r && i in r[name] && i != id :: i in m;
  }

  lemma LeaveStep(s: Service, r: Registry, t: Thread)
    requires Rel(s, r) && Enabled(s, t, UnsubscribeFirst) && PcOf(s, t).name in s.names
    ensures Rel(Apply(s, t, UnsubscribeFirst), Do(r, Removed(PcOf(s, t).name, PcOf(s, t).id)))
  {
    var s', name, id := Apply(s, t, UnsubscribeFirst), PcOf(s, t).name, PcOf(s, t).id;
    forall u
      ensures PointsOk(s', u)
    {
      assert PointsOk(s, u);
    }
    OthersKept(s, s', name);
    forall n | n in s'.names && s'.topics[s'.names[n]].Empty()
      ensures exists u :: Cleaning(s', u, n)
    {
      if n == name {
        assert Cleaning(s', t, n);
      } else {
        var u :| Cleaning(s, u, n);
        assert Cleaning(s', u, n);
      }
    }
    LeaveAbs(s, name, id);
  }

  lemma LeaveAbs(s: Service, name: Name, id: nat)
    requires Inv(s) && name in s.names
    ensures var k := s.names[name];
            Abs(s.(topics := s.topics[k := s.topics[k].Unsubscribe(id)])) == Do(Abs(s), Removed(name, id))
  {
    var k := s.names[name];
    var s' := s.(topics := s.topics[k := s.topics[k].Unsubscribe(id)]);
    OthersKept(s, s', name);
    OneTopic(s, s', name);
    assert Subscribers(Abs(s), name) == s.topics[k].handlers;
    hide Abs, Inv;
  }

  // When only the topic of one name has changed, so has only that name's entry.
  lemma OneTopic(s: Service, s': Service, name: Name)
    requires name in s.names && s'.names == s.names && |s'.topics| == |s.topics|
    requires forall n | n in s.names :: s.names[n] < |s.topics|
    requires forall n | n in s.names && n != name :: s'.topics[s.names[n]] == s.topics[s.names[n]]
    ensures Abs(s') == SetSubscribers(Abs(s), name, s'.topics[s.names[name]].handlers)
  {
  }

  // Under the unique lock names go; the threads that were cleaning up the ones that stay still are.
  lemma UnmapStep(s: Service, r: Registry, t: Thread, names: map<Name, nat>, e: Event)
    requires Rel(s, r) && NoReader(s) && (PcOf(s, t).Idle? || PcOf(s, t).UnsubscribeGap?)
    requires forall n | n in names :: n in s.names && names[n] == s.names[n]
    requires PcOf(s, t).UnsubscribeGap? && PcOf(s, t).name in names ==> !s.topics[names[PcOf(s, t).name]].Empty()
    requires Do(r, e) == Abs(s.(names := names))
    ensures Rel(Goto(s.(names := names), t, Idle), Do(r, e))
  {
    var s' := Goto(s.(names := names), t, Idle);
    forall u
      ensures PointsOk(s', u)
    {
      assert PointsOk(s, u) && !Reads(PcOf(s, u));
    }
    forall n, n'
      ensures NamesApart(s'.names, n, n')
    {
      assert NamesApart(s.names, n, n');
    }
    forall n | n in s'.names && s'.topics[s'.names[n]].Empty()
      ensures exists u :: Cleaning(s', u, n)
    {
      var u :| Cleaning(s, u, n);
      assert Cleaning(s', u, n);
    }
  }

  // The second look of an unsubscribe: an empty topic goes, and nobody notices.
  lemma EraseStep(s: Service, r: Registry, t: Thread)
    requires Rel(s, r) && Enabled(s, t, UnsubscribeAgain)
    ensures Rel(Apply(s, t, UnsubscribeAgain), r)
  {
    var name := PcOf(s, t).name;
    var gone := name in s.names && s.topics[s.names[name]].Empty();
    UnmapStep(s, r, t, if gone then s.names - {name} else s.names, Stutter);
  }

  lemma SubscribeRefines(s: Service, r: Registry, t: Thread, act: Action)
    requires Rel(s, r) && Enabled(s, t, act) && (act.SubscribeFirst? || act.SubscribeAgain?)
    ensures May(r, EventOf(s, t, act)) && Rel(Apply(s, t, act), Do(r, EventOf(s, t, act)))
  {
    var pc := PcOf(s, t);
    hide Rel, Do, Abs;
    if pc.name in s.names {
      JoinStep(s, r, t, pc.name, pc.handler);
    } else if act.SubscribeFirst? {
      MoveStep(s, r, t, SubscribeGap(pc.name, pc.handler), s.delivered);
      DoStutter(r);
    } else {
      CreateStep(s, r, t, pc.name, pc.handler);
      CreateAllowed(s, r, pc.name, pc.handler);
    }
  }

  lemma DoStutter(r: Registry)
    ensures Do(r, Stutter) == r
  {
  }

  lemma CreateAllowed(s: Service, r: Registry, name: Name, h: Handler)
    requires Rel(s, r) && name !in s.names
    ensures May(r, Added(name, ReturnedId(s, name), h)) && ReturnedId(s, name) == 1
  {
  }

  lemma LeaveRefines(s: Service, r: Registry, t: Thread)
    requires Rel(s, r) && Enabled(s, t, UnsubscribeFirst)
    ensures var e := EventOf(s, t, UnsubscribeFirst); May(r, e) && Rel(Apply(s, t, UnsubscribeFirst), Do(r, e))
  {
    var pc := PcOf(s, t);
    if pc.name in s.names {
      LeaveStep(s, r, t);
    } else {
      MoveStep(s, r, t, Idle, s.delivered);
      assert pc.name !in r && Do(r, Removed(pc.name, pc.id)) == r;
    }
    hide Rel, Do, Abs;
  }

  // The steps that write nothing shared.
  lemma ReadRefines(s: Service, r: Registry, t: Thread, act: Action)
    requires Rel(s, r) && Enabled(s, t, act)
    requires act.BeginSubscribe? || act.BeginUnsubscribe? || act.CheckEmpty? || act.BeginPublish? || act.PublishFind? || act.Send?
    ensures Rel(Apply(s, t, act), r) && EventOf(s, t, act) == Stutter
  {
    assert Shaped(s);
    hide Rel, Abs, Do;
    match act
    case BeginSubscribe(name, h) => MoveStep(s, r, t, SubscribeShared(name, h), s.delivered);
    case BeginUnsubscribe(name, id) => MoveStep(s, r, t, UnsubscribeShared(name, id), s.delivered);
    case CheckEmpty => CheckRefines(s, r, t);
    case BeginPublish(name, m) => MoveStep(s, r, t, PublishShared(name, m), s.delivered);
    case PublishFind => FindRefines(s, r, t);
    case Send => MoveStep(s, r, t, Idle, Apply(s, t, Send).delivered);
  }

  lemma CheckRefines(s: Service, r: Registry, t: Thread)
    requires Rel(s, r) && Enabled(s, t, CheckEmpty)
    ensures Rel(Apply(s, t, CheckEmpty), r)
  {
    var pc := PcOf(s, t);
    assert PointsOk(s, t);
    hide Rel, Abs, Do;
    MoveStep(s, r, t, if s.topics[pc.topic].Empty() then UnsubscribeGap(pc.name) else Idle, s.delivered);
  }

  lemma FindRefines(s: Service, r: Registry, t: Thread)
    requires Rel(s, r) && Enabled(s, t, PublishFind)
    ensures Rel(Apply(s, t, PublishFind), r)
  {
    var pc := PcOf(s, t);
    assert pc.name in s.names ==> s.names[pc.name] < |s.topics|;
    hide Rel, Abs, Do;
    MoveStep(s, r, t, if pc.name in s.names then PublishSend(pc.name, s.names[pc.name], pc.message) else Idle, s.delivered);
  }

  lemma DropRefines(s: Service, r: Registry, t: Thread, act: Action)
    requires Rel(s, r) && Enabled(s, t, act) && (act.RemoveTopic? || act.Clear?)
    ensures Rel(Apply(s, t, act), Do(r, EventOf(s, t, act)))
  {
    if act.Clear? {
      UnmapStep(s, r, t, map[], AllDropped);
    } else {
      UnmapStep(s, r, t, s.names - {act.name}, Dropped(act.name));
    }
  }

  /** Main result: every step of every thread is an event of the registry; in particular the second look under the
      unique lock never erases a subscriber and never replaces a topic. */
  lemma StepRefines(s: Service, r: Registry, t: Thread, act: Action)
    requires Rel(s, r) && Enabled(s, t, act)
    ensures May(r, EventOf(s, t, act)) && Rel(Apply(s, t, act), Do(r, EventOf(s, t, act)))
  {
    hide Rel, Apply, Enabled;
    if act.SubscribeFirst? || act.SubscribeAgain? {
      SubscribeRefines(s, r, t, act);
    } else if act.UnsubscribeFirst? {
      LeaveRefines(s, r, t);
    } else if act.UnsubscribeAgain? {
      EraseStep(s, r, t);
    } else if act.RemoveTopic? || act.Clear? {
      DropRefines(s, r, t, act);
    } else {
      ReadRefines(s, r, t, act);
    }
  }

  // ---------------------------------------------------------------- what follows for whole runs

  type Step = (Thread, Action)

  function Init(): Service {
    Service(map[], [], map[], [])
  }

  /** The state after the given steps of the given threads; None if one of them could not be taken. */
  ghost function Exec(s: Service, steps: seq<Step>): Option<Service>
    decreases |steps|
  {
    if steps == [] then Some(s)
    else if Shaped(s) && Enabled(s, steps[0].0, steps[0].1) then Exec(Apply(s, steps[0].0, steps[0].1), steps[1..])
    else None
  }

  lemma {:induction false} RunKeeps(s: Service, steps: seq<Step>)
    requires Inv(s) && Exec(s, steps).Some?
    ensures Inv(Exec(s, steps).value)
    decreases |steps|
  {
    if steps != [] {
      StepRefines(s, Abs(s), steps[0].0, steps[0].1);
      RunKeeps(Apply(s, steps[0].0, steps[0].1), steps[1..]);
    }
  }

  lemma InitInv()
    ensures Inv(Init()) && Abs(Init()) == map[]
  {
  }

  /** The handler is registered under (name, id). */
  ghost predicate Registered(s: Service, name: Name, id: nat, h: Handler) {
    && Shaped(s) && id in Subscribers(Abs(s), name) && Subscribers(Abs(s), name)[id] == h
  }

  /** The step takes this subscription away on request. */
  ghost predicate Revokes(s: Service, t: Thread, act: Action, name: Name, id: nat) {
    || (act.UnsubscribeFirst? && PcOf(s, t) == UnsubscribeShared(name, id))
    || act == RemoveTopic(name)
    || act.Clear?
  }

  ghost predicate NeverRevoked(s: Service, steps: seq<Step>, name: Name, id: nat)
    decreases |steps|
  {
    steps == [] || (
      && !Revokes(s, steps[0].0, steps[0].1, name, id)
      && (Shaped(s) && Enabled(s, steps[0].0, steps[0].1) ==>
            NeverRevoked(Apply(s, steps[0].0, steps[0].1), steps[1..], name, id)))
  }

  // A subscribing step returns an identifier that was free, and registers the handler under it.
  lemma SubscribeRegisters(s: Service, t: Thread, act: Action)
    requires Inv(s) && Enabled(s, t, act) && EventOf(s, t, act).Added?
    ensures var e := EventOf(s, t, act);
            && e.id == ReturnedId(s, PcOf(s, t).name) && e.name == PcOf(s, t).name && e.handler == PcOf(s, t).handler
            && e.id !in Subscribers(Abs(s), e.name)
            && Registered(Apply(s, t, act), e.name, e.id, e.handler)
  {
    StepRefines(s, Abs(s), t, act);
  }

  lemma RegisteredStays(s: Service, t: Thread, act: Action, name: Name, id: nat, h: Handler)
    requires Inv(s) && Enabled(s, t, act) && Registered(s, name, id, h) && !Revokes(s, t, act, name, id)
    ensures Registered(Apply(s, t, act), name, id, h) && Inv(Apply(s, t, act))
  {
    var e := EventOf(s, t, act);
    StepRefines(s, Abs(s), t, act);
    assert e != Removed(name, id) && e != Dropped(name) && e != AllDropped;
    hide Apply, Abs, EventOf;
    EventKeeps(Abs(s), e, name, id, h);
  }

  lemma EventKeeps(r: Registry, e: Event, name: Name, id: nat, h: Handler)
    requires May(r, e) && id in Subscribers(r, name) && Subscribers(r, name)[id] == h
    requires e != Removed(name, id) && e != Dropped(name) && e != AllDropped
    ensures id in Subscribers(Do(r, e), name) && Subscribers(Do(r, e), name)[id] == h
  {
  }

  /** No lost subscriber: over every interleaving, a subscription stays until it is unsubscribed or its topic is
      removed or everything is cleared. */
  lemma {:induction false} NoLostSubscriber(s: Service, steps: seq<Step>, name: Name, id: nat, h: Handler)
    requires Inv(s) && Registered(s, name, id, h) && Exec(s, steps).Some? && NeverRevoked(s, steps, name, id)
    ensures Registered(Exec(s, steps).value, name, id, h)
    decreases |steps|
  {
    if steps != [] {
      RegisteredStays(s, steps[0].0, steps[0].1, name, id, h);
      NoLostSubscriber(Apply(s, steps[0].0, steps[0].1), steps[1..], name, id, h);
    }
  }

  /** Nothing is registered under (name, id). */
  ghost predicate Unregistered(s: Service, name: Name, id: nat) {
    Shaped(s) && (name in s.names ==> id !in s.topics[s.names[name]].handlers)
  }

  /** Unsubscribing takes away exactly the subscription it is asked to: in the topic mapped under the name, and so in the
      registry. */
  lemma UnsubscribeRevokes(s: Service, t: Thread)
    requires Inv(s) && Enabled(s, t, UnsubscribeFirst)
    ensures var s', name, id := Apply(s, t, UnsubscribeFirst), PcOf(s, t).name, PcOf(s, t).id;
            && Unregistered(s', name, id) && s'.names == s.names && |s'.topics| == |s.topics|
            && (name in Abs(s') ==> id !in Abs(s')[name] && Abs(s')[name] != map[])
            && (forall n, i | n in Abs(s) && i in Abs(s)[n] && !(n == name && i == id) ::
                  n in Abs(s') && i in Abs(s')[n] && Abs(s')[n][i] == Abs(s)[n][i])
            && (forall n, i | n in Abs(s') && i in Abs(s')[n] :: n in Abs(s) && i in Abs(s)[n])
  {
    StepRefines(s, Abs(s), t, UnsubscribeFirst);
    RemovedOnly(Abs(s), PcOf(s, t).name, PcOf(s, t).id);
    hide Do, Abs;
  }

  /** RemoveTopic takes away exactly the subscriptions of its name, Clear all. */
  lemma DropRevokes(s: Service, t: Thread, name: Name)
    requires Inv(s)
    ensures Enabled(s, t, RemoveTopic(name)) ==>
              var s' := Apply(s, t, RemoveTopic(name));
              && Shaped(s') && name !in s'.names && name !in Abs(s')
              && (forall n | n != name :: n in Abs(s') <==> n in Abs(s))
              && (forall n | n in Abs(s') :: Abs(s')[n] == Abs(s)[n])
    ensures Enabled(s, t, Clear) ==> var s' := Apply(s, t, Clear); Shaped(s') && s'.names == map[] && Abs(s') == map[]
  {
    if Enabled(s, t, RemoveTopic(name)) {
      StepRefines(s, Abs(s), t, RemoveTopic(name));
    }
    if Enabled(s, t, Clear) {
      StepRefines(s, Abs(s), t, Clear);
    }
  }

  /** No step of the run hands this identifier of the name out again. */
  ghost predicate NeverAdded(s: Service, steps: seq<Step>, name: Name, id: nat)
    decreases |steps|
  {
    steps == [] || (
      Shaped(s) && Enabled(s, steps[0].0, steps[0].1) ==>
        var e := EventOf(s, steps[0].0, steps[0].1);
        && !(e.Added? && e.name == name && e.id == id)
        && NeverAdded(Apply(s, steps[0].0, steps[0].1), steps[1..], name, id))
  }

  lemma UnregisteredStays(s: Service, t: Thread, act: Action, name: Name, id: nat)
    requires Inv(s) && Enabled(s, t, act) && Unregistered(s, name, id)
    requires var e := EventOf(s, t, act); !(e.Added? && e.name == name && e.id == id)
    ensures Inv(Apply(s, t, act)) && Unregistered(Apply(s, t, act), name, id)
  {
    StepRefines(s, Abs(s), t, act);
    assert PointsOk(s, t);
    if act.SubscribeFirst? || act.SubscribeAgain? || act.UnsubscribeFirst? {
      var s', n := Apply(s, t, act), PcOf(s, t).name;
      if n in s.names {
        OthersKept(s, s', n);
      }
    }
  }

  /** Nobody is called after having unsubscribed: over every interleaving, until the identifier is handed out again. */
  lemma {:induction false} UnsubscribedStaysAway(s: Service, steps: seq<Step>, name: Name, id: nat)
    requires Inv(s) && Unregistered(s, name, id) && Exec(s, steps).Some? && NeverAdded(s, steps, name, id)
    ensures Unregistered(Exec(s, steps).value, name, id)
    decreases |steps|
  {
    if steps != [] {
      UnregisteredStays(s, steps[0].0, steps[0].1, name, id);
      UnsubscribedStaysAway(Apply(s, steps[0].0, steps[0].1), steps[1..], name, id);
    }
  }

  /** size(). */
  function Size(s: Service): nat {
    |s.names|
  }

  /** No leaked topic: in every reachable state an empty topic in the map has an unsubscribe for its name on the way
      that will look at it again; so when no unsubscribe is on the way, size() is the number of names with at
      least one subscriber. */
  lemma NoLeakedTopic(steps: seq<Step>, name: Name)
    requires Exec(Init(), steps).Some?
    ensures var s := Exec(Init(), steps).value;
            && Shaped(s)
            && (name in s.names && name !in Abs(s) ==> exists t :: Cleaning(s, t, name))
            && ((forall t, n :: !Cleaning(s, t, n)) ==> Size(s) == |Abs(s)|)
  {
    InitInv();
    RunKeeps(Init(), steps);
    var s := Exec(Init(), steps).value;
    if forall t, n :: !Cleaning(s, t, n) {
      assert forall n | n in s.names :: !s.topics[s.names[n]].Empty();
      assert s.names.Keys == Abs(s).Keys;
      assert |s.names| == |s.names.Keys| && |Abs(s)| == |Abs(s).Keys|;
    }
  }

  /** A message sent while its topic is still the mapped one reaches exactly those registered at that moment. */
  lemma SendReachesSubscribers(s: Service, t: Thread)
    requires Inv(s) && Enabled(s, t, Send)
    requires var pc := PcOf(s, t); pc.name in s.names && s.names[pc.name] == pc.topic
    ensures Apply(s, t, Send).delivered
            == s.delivered + [Delivery(PcOf(s, t).message, Subscribers(Abs(s), PcOf(s, t).name))]
  {
    assert PointsOk(s, t);
  }

  // A publisher that finds subscribers goes on to call them: those registered then, if it is not interrupted.
  lemma FoundIsSent(s: Service, t: Thread)
    requires Inv(s) && Enabled(s, t, PublishFind) && PcOf(s, t).name in Abs(s)
    ensures var s' := Apply(s, t, PublishFind);
            && Shaped(s') && Enabled(s', t, Send)
            && Apply(s', t, Send).delivered == s.delivered + [Delivery(PcOf(s, t).message, Abs(s)[PcOf(s, t).name])]
  {
    StepRefines(s, Abs(s), t, PublishFind);
    SendReachesSubscribers(Apply(s, t, PublishFind), t);
  }
}
