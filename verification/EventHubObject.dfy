/** The event hub as the object the streams share: each method is one uninterrupted stretch of
    its code, proved to be the corresponding step of the protocol.
    Subscriptions are entries of the object's tables, so what a method does to one of them and
    leaves alone in all others is one equation about the whole state.
    EventStream proves what these steps guarantee in every interleaving. */
module EventHubObject {
  import opened EventStream

  class EventHub {
    const capacity: nat
    var logs: map<RunId, seq<int>>
    var unpublished: multiset<(RunId, int)>
    var dispatch: multiset<(StreamId, int)>
    var subscribers: map<RunId, set<StreamId>>
    var streams: map<StreamId, Stream>

    constructor (capacity: nat)
      ensures Value() == Start(capacity)
    {
      this.capacity := capacity;
      logs, unpublished, dispatch, subscribers, streams := map[], multiset{}, multiset{}, map[], map[];
    }

    function Value(): World
      reads this
    {
      World(capacity, logs, unpublished, dispatch, subscribers, streams)
    }

    method Subscribe(id: StreamId, run: RunId, after: int)
      requires id !in streams
      modifies this
      ensures Value() == Apply(old(Value()), Step.Subscribe(id, run, after))
    {
      streams := streams[id := Stream(run, after, after, [], Querying, [], [], false)];
      if run !in subscribers {
        subscribers := subscribers[run := {}];
      }
      subscribers := subscribers[run := subscribers[run] + {id}];
    }

    method Unsubscribe(id: StreamId)
      requires id in streams
      modifies this
      ensures Value() == EventStream.Unsubscribe(old(Value()), id)
    {
      var run := streams[id].run;
      streams := streams[id := streams[id].(closed := true)];
      if run !in subscribers {
        assert subscribers == subscribers - {run};
        return;
      }
      subscribers := subscribers[run := subscribers[run] - {id}];
      if subscribers[run] == {} {
        ghost var before := subscribers;
        subscribers := subscribers - {run};
      }
    }

    /** The first half of `publish`: the subscribers of the run, read under the lock. */
    method PublishSnapshot(run: RunId, sequence: int)
      requires (run, sequence) in unpublished
      modifies this
      ensures Value() == Apply(old(Value()), Publish(run, sequence))
    {
      unpublished := unpublished - multiset{(run, sequence)};
      if run in subscribers {
        dispatch := dispatch + Notices(subscribers[run], sequence);
      } else {
        assert Notices({}, sequence) == multiset{};
      }
    }

    /** The second half, for one subscriber of the snapshot. */
    method PublishOne(id: StreamId, sequence: int)
      requires (id, sequence) in dispatch
      modifies this
      ensures Value() == Apply(old(Value()), Dispatch(id, sequence))
    {
      dispatch := dispatch - multiset{(id, sequence)};
      if id in streams {
        if streams[id].closed {
          Unsubscribe(id);
        } else {
          streams := streams[id := streams[id].(scheduled := streams[id].scheduled + [sequence])];
        }
      }
    }

    /** A scheduled callback runs: the notice is queued, or a full queue closes its subscriber. */
    method Deliver(id: StreamId)
      requires id in streams && streams[id].scheduled != []
      modifies this
      ensures Value() == Apply(old(Value()), Step.Deliver(id))
    {
      var sequence := streams[id].scheduled[0];
      streams := streams[id := streams[id].(scheduled := streams[id].scheduled[1..])];
      if streams[id].closed {
        return;
      }
      if |streams[id].queue| >= capacity {
        Unsubscribe(id);
      } else {
        ghost var before := streams;
        streams := streams[id := streams[id].(queue := streams[id].queue + [sequence])];
      }
    }

    /** One event of a page: skipped when already seen, yielded otherwise. */
    method YieldNext(id: StreamId)
      requires id in streams && streams[id].pc.Yielding? && streams[id].pc.rest != []
      modifies this`streams
      ensures Value() == Apply(old(Value()), Step.YieldNext(id))
    {
      var s := streams[id];
      var event := s.pc.rest[0];
      var delivered := s.pc.delivered;
      if event > s.last {
        s := s.(last := event, yielded := s.yielded + [event]);
        delivered := delivered + 1;
      }
      s := s.(pc := Yielding(s.pc.rest[1..], s.pc.size, delivered));
      streams := streams[id := s];
    }

    method ReadPage(id: StreamId)
      requires id in streams && streams[id].pc.Querying?
      modifies this`streams
      ensures Value() == Apply(old(Value()), Query(id))
    {
      var s := streams[id];
      var log := if s.run in logs then logs[s.run] else [];
      var page := ListEvents(log, s.last, PAGE);
      streams := streams[id := s.(pc := Yielding(page, |page|, 0))];
    }

    method EndPage(id: StreamId)
      requires id in streams && streams[id].pc.Yielding? && streams[id].pc.rest == []
      modifies this`streams
      ensures Value() == Apply(old(Value()), Step.EndPage(id))
    {
      var s := streams[id];
      if s.pc.size < PAGE || s.pc.delivered == 0 {
        s := s.(pc := Polling);
      } else {
        s := s.(pc := Querying);
      }
      streams := streams[id := s];
    }

    /** The top of the live loop: leave on disconnection or overflow, otherwise wait. */
    method Poll(id: StreamId, disconnected: bool)
      requires id in streams && streams[id].pc.Polling?
      modifies this
      ensures Value() == Apply(old(Value()), Step.Poll(id, disconnected))
    {
      if disconnected || (streams[id].closed && streams[id].queue == []) {
        streams := streams[id := streams[id].(pc := Ended)];
        Unsubscribe(id);
      } else {
        streams := streams[id := streams[id].(pc := Waiting)];
      }
    }

    method Receive(id: StreamId)
      requires id in streams && streams[id].pc.Waiting? && streams[id].queue != []
      modifies this`streams
      ensures Value() == Apply(old(Value()), Step.Receive(id))
    {
      var s := streams[id];
      streams := streams[id := s.(queue := s.queue[1..], pc := Querying)];
    }
  }
}
