/** The registry as classes, one operation at a time: topics are objects updated in place. */
module PubSubClass {
  import opened PubSub

  class TopicObject {
    var handlersMap: map<nat, Handler>
    var id: nat

    ghost predicate Valid()
      reads this
    {
      forall i | i in handlersMap :: 1 <= i <= id
    }

    constructor ()
      ensures Valid() && handlersMap == map[] && id == 0
    {
      handlersMap, id := map[], 0;
    }

    method Subscribe(handler: Handler) returns (r: nat)
      requires Valid()
      modifies this
      ensures Valid() && r == id == old(id) + 1 && r !in old(handlersMap)
      ensures handlersMap == old(handlersMap)[r := handler]
    {
      id := id + 1;
      handlersMap := handlersMap[id := handler];
      r := id;
    }

    method Unsubscribe(i: nat)
      requires Valid()
      modifies this`handlersMap
      ensures Valid() && handlersMap == old(handlersMap) - {i}
    {
      handlersMap := handlersMap - {i};
    }

    method Empty() returns (r: bool)
      ensures r <==> handlersMap == map[]
    {
      r := handlersMap == map[];
    }

    /** Calls every handler with the message, in any order; `called` lists the calls made. */
    method Publish(message: Message) returns (called: seq<(nat, Handler, Message)>)
      ensures |called| == |handlersMap|
      ensures forall x | x in called :: x.0 in handlersMap && x.1 == handlersMap[x.0] && x.2 == message
      ensures forall i | i in handlersMap :: exists k | 0 <= k < |called| :: called[k].0 == i
      ensures forall k, k' | 0 <= k < k' < |called| :: called[k].0 != called[k'].0
    {
      called := [];
      var rest := handlersMap.Keys;
      while rest != {}
        invariant rest <= handlersMap.Keys && |called| + |rest| == |handlersMap.Keys|
        invariant forall x | x in called :: x.0 in handlersMap && x.1 == handlersMap[x.0] && x.2 == message
        invariant forall i | i in handlersMap :: i in rest || exists k | 0 <= k < |called| :: called[k].0 == i
        invariant forall k | 0 <= k < |called| :: called[k].0 !in rest
        invariant forall k, k' | 0 <= k < k' < |called| :: called[k].0 != called[k'].0
        decreases |rest|
      {
        var i :| i in rest;
        ghost var before := called;
        called := called + [(i, handlersMap[i], message)];
        rest := rest - {i};
        assert called[|before|].0 == i;
        assert forall k | 0 <= k < |before| :: called[k] == before[k];
      }
    }
  }

  class PubSubService {
    var topicMap: map<Name, TopicObject>

    /** Different names have different topics, and between operations no topic is empty. */
    ghost predicate Valid()
      reads this, topicMap.Values
    {
      && (forall n :: TopicOk(n))
      && (forall n, n' :: TopicsApart(n, n'))
    }

    ghost predicate TopicOk(n: Name)
      reads this, topicMap.Values
    {
      n in topicMap ==> topicMap[n].Valid() && topicMap[n].handlersMap != map[]
    }

    ghost predicate TopicsApart(n: Name, n': Name)
      reads this
    {
      n in topicMap && n' in topicMap && n != n' ==> topicMap[n] != topicMap[n']
    }

    ghost function Subscriptions(): Registry
      reads this, topicMap.Values
    {
      map n | n in topicMap :: topicMap[n].handlersMap
    }

    constructor ()
      ensures Valid() && Subscriptions() == map[]
    {
      topicMap := map[];
    }

    method Subscribe(name: Name, handler: Handler) returns (id: nat)
      requires Valid()
      modifies this, topicMap.Values
      ensures Valid() && May(old(Subscriptions()), Added(name, id, handler))
      ensures Subscriptions() == Do(old(Subscriptions()), Added(name, id, handler))
      ensures name in old(Subscriptions()) ==> id !in old(Subscriptions())[name]
      ensures name in Subscriptions() && id in Subscriptions()[name] && Subscriptions()[name][id] == handler
      ensures forall n, i | n in old(Subscriptions()) && i in old(Subscriptions())[n] ::
                && n in Subscriptions() && i in Subscriptions()[n]
                && Subscriptions()[n][i] == old(Subscriptions())[n][i]
      ensures forall n, i | n in Subscriptions() && i in Subscriptions()[n] && !(n == name && i == id) ::
                n in old(Subscriptions()) && i in old(Subscriptions())[n]
    {
      if name in topicMap {
        hide Do;
        var topic := topicMap[name];
        assert TopicOk(name);
        assert forall n | n in topicMap && n != name :: TopicsApart(n, name) && topicMap[n] != topic;
        id := topic.Subscribe(handler);
        forall n
          ensures TopicOk(n)
        {
          assert old(TopicOk(n)) && TopicsApart(n, name);
        }
        assert id in topic.handlersMap;
        AddedIs(old(Subscriptions()), name, id, handler);
      } else {
        id := CreateTopic(name, handler);
      }
      AddedOnly(old(Subscriptions()), name, id, handler);
    }

    /** The first subscriber of a name brings its topic along. */
    method CreateTopic(name: Name, handler: Handler) returns (id: nat)
      requires Valid() && name !in topicMap
      modifies this
      ensures Valid() && May(old(Subscriptions()), Added(name, id, handler))
      ensures Subscriptions() == Do(old(Subscriptions()), Added(name, id, handler))
    {
      hide Do;
      var topic := new TopicObject();
      id := topic.Subscribe(handler);
      topicMap := topicMap[name := topic];
      forall n
        ensures TopicOk(n)
      {
        assert old(TopicOk(n));
      }
      forall n, n'
        ensures TopicsApart(n, n')
      {
        assert old(TopicsApart(n, n'));
      }
      assert id in topic.handlersMap;
      AddedIs(old(Subscriptions()), name, id, handler);
    }

    method Unsubscribe(name: Name, id: nat)
      requires Valid()
      modifies this, topicMap.Values
      ensures Valid() && Subscriptions() == Do(old(Subscriptions()), Removed(name, id))
      ensures name in Subscriptions() ==> id !in Subscriptions()[name] && Subscriptions()[name] != map[]
      ensures forall n, i | n in old(Subscriptions()) && i in old(Subscriptions())[n] && !(n == name && i == id) ::
                && n in Subscriptions() && i in Subscriptions()[n]
                && Subscriptions()[n][i] == old(Subscriptions())[n][i]
      ensures forall n, i | n in Subscriptions() && i in Subscriptions()[n] ::
                n in old(Subscriptions()) && i in old(Subscriptions())[n]
    {
      hide Do, SetSubscribers;
      RemovedOnly(old(Subscriptions()), name, id);
      if name !in topicMap {
        RemovedIs(old(Subscriptions()), name, id);
        return;
      }
      var topic := topicMap[name];
      assert TopicOk(name);
      assert forall n | n in topicMap && n != name :: TopicsApart(n, name) && topicMap[n] != topic;
      topic.Unsubscribe(id);
      var empty := topic.Empty();
      if empty {
        topicMap := topicMap - {name};
      }
      forall n
        ensures TopicOk(n)
      {
        assert old(TopicOk(n)) && old(TopicsApart(n, name));
      }
      forall n, n'
        ensures TopicsApart(n, n')
      {
        assert old(TopicsApart(n, n'));
      }
      RemovedIs(old(Subscriptions()), name, id);
    }

    method Publish(name: Name, message: Message) returns (called: seq<(nat, Handler, Message)>)
      requires Valid()
      ensures var m := Subscribers(Subscriptions(), name);
              && |called| == |m|
              && (forall x | x in called :: x.0 in m && x.1 == m[x.0] && x.2 == message)
              && (forall i | i in m :: exists k | 0 <= k < |called| :: called[k].0 == i)
      ensures name in Subscriptions() ==> |called| == |Subscriptions()[name]|
      ensures name !in Subscriptions() ==> called == []
    {
      if name !in topicMap {
        return [];
      }
      called := topicMap[name].Publish(message);
    }

    method RemoveTopic(name: Name)
      requires Valid()
      modifies this
      ensures Valid() && Subscriptions() == Do(old(Subscriptions()), Dropped(name))
      ensures name !in Subscriptions() && forall n | n != name :: n in Subscriptions() <==> n in old(Subscriptions())
      ensures forall n | n in Subscriptions() :: Subscriptions()[n] == old(Subscriptions())[n]
    {
      topicMap := topicMap - {name};
      forall n
        ensures TopicOk(n)
      {
        assert old(TopicOk(n));
      }
      forall n, n'
        ensures TopicsApart(n, n')
      {
        assert old(TopicsApart(n, n'));
      }
    }

    method Clear()
      requires Valid()
      modifies this
      ensures Valid() && Subscriptions() == Do(old(Subscriptions()), AllDropped) == map[]
    {
      topicMap := map[];
    }

    method Size() returns (n: nat)
      requires Valid()
      ensures n == |Subscriptions()|
    {
      n := |topicMap|;
      assert Subscriptions().Keys == topicMap.Keys;
      assert |Subscriptions()| == |Subscriptions().Keys| && |topicMap| == |topicMap.Keys|;
    }
  }
}
