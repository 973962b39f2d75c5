/** Durable event streaming: a stream subscribes, reads the durable log, then uses a bounded
    live queue only as a wake-up. Every stretch of code between two suspension points, of any
    writer, callback or stream, is one step; steps interleave in any order. */
module EventStream {

  type RunId = nat
  type StreamId = nat

  const PAGE: nat := 500

  // ---------------------------------------------------------------- the durable log

  ghost predicate Increasing(log: seq<int>) {
    forall i, j :: 0 <= i < j < |log| ==> log[i] < log[j]
  }

  function After(log: seq<int>, after: int): seq<int> {
    if log == [] then []
    else (if log[0] > after then [log[0]] else []) + After(log[1..], after)
  }

  /** One page of the store: the lowest sequences greater than `after`. */
  function ListEvents(log: seq<int>, after: int, limit: nat): seq<int> {
    var all := After(log, after);
    if |all| <= limit then all else all[..limit]
  }

  /** How many leading events of the log have a sequence of at most `x`. */
  function Upto(log: seq<int>, x: int): (n: nat)
    ensures n <= |log|
  {
    if log == [] || log[0] > x then 0 else 1 + Upto(log[1..], x)
  }

  lemma {:induction false} UptoSplits(log: seq<int>, x: int)
    ensures forall i :: 0 <= i < Upto(log, x) ==> log[i] <= x
    ensures Upto(log, x) < |log| ==> log[Upto(log, x)] > x
  {
    if log != [] && log[0] <= x {
      UptoSplits(log[1..], x);
    }
  }

  lemma {:induction false} AfterIsSuffix(log: seq<int>, x: int)
    requires Increasing(log)
    ensures After(log, x) == log[Upto(log, x)..]
  {
    if log != [] {
      AfterIsSuffix(log[1..], x);
      if log[0] > x {
        UptoIs(log[1..], x, 0);
        assert log[1..][0..] == log[1..];
      }
    }
  }

  /** `Upto` is the only split point of an increasing log. */
  lemma UptoIs(log: seq<int>, x: int, n: nat)
    requires Increasing(log) && n <= |log|
    requires n > 0 ==> log[n - 1] <= x
    requires n < |log| ==> log[n] > x
    ensures Upto(log, x) == n
  {
    UptoSplits(log, x);
    assert forall i :: 0 <= i < n ==> log[i] <= log[n - 1];
    assert forall j :: n <= j < |log| ==> log[n] <= log[j];
  }

  lemma UptoGrows(log: seq<int>, q: int, x: int)
    requires Increasing(log + [q])
    ensures Upto(log + [q], x) == if Upto(log, x) == |log| && q <= x then |log| + 1 else Upto(log, x)
  {
    var n := Upto(log, x);
    UptoSplits(log, x);
    UptoIs(log + [q], x, if n == |log| && q <= x then |log| + 1 else n);
  }

  // ---------------------------------------------------------------- state

  datatype Pc =
    | Querying                                            // about to read a page
    | Yielding(rest: seq<int>, size: nat, delivered: nat) // handing a page out, one event at a time
    | Polling                                             // top of the live loop
    | Waiting                                             // suspended in the queue's get
    | Ended

  datatype Stream = Stream(
    run: RunId, after: int, last: int, yielded: seq<int>, pc: Pc,
    queue: seq<int>, scheduled: seq<int>, closed: bool)

  datatype World = World(
    capacity: nat,
    logs: map<RunId, seq<int>>,
    unpublished: multiset<(RunId, int)>,   // committed, hub not yet told
    dispatch: multiset<(StreamId, int)>,   // snapshot taken, callback not yet scheduled
    subscribers: map<RunId, set<StreamId>>,
    streams: map<StreamId, Stream>)

  function Log(w: World, run: RunId): seq<int> {
    if run in w.logs then w.logs[run] else []
  }

  function Listed(table: map<RunId, set<StreamId>>, run: RunId): set<StreamId> {
    if run in table then table[run] else {}
  }

  function Subscribers(w: World, run: RunId): set<StreamId> {
    Listed(w.subscribers, run)
  }

  // ---------------------------------------------------------------- steps

  datatype Step =
    | Commit(run: RunId, sequence: int)
    | Publish(run: RunId, sequence: int)
    | Dispatch(id: StreamId, sequence: int)
    | Deliver(id: StreamId)
    | Subscribe(id: StreamId, run: RunId, after: int)
    | Query(id: StreamId)
    | YieldNext(id: StreamId)
    | EndPage(id: StreamId)
    | Poll(id: StreamId, disconnected: bool)
    | Receive(id: StreamId)
    | Heartbeat(id: StreamId)
    | Abandon(id: StreamId)

  predicate Enabled(w: World, step: Step) {
    match step
    case Commit(run, q) => forall k :: 0 <= k < |Log(w, run)| ==> Log(w, run)[k] < q
    case Publish(run, q) => (run, q) in w.unpublished
    case Dispatch(id, q) => (id, q) in w.dispatch
    case Deliver(id) => id in w.streams && w.streams[id].scheduled != []
    case Subscribe(id, run, after) => id !in w.streams
    case Query(id) => id in w.streams && w.streams[id].pc.Querying?
    case YieldNext(id) => id in w.streams && w.streams[id].pc.Yielding? && w.streams[id].pc.rest != []
    case EndPage(id) => id in w.streams && w.streams[id].pc.Yielding? && w.streams[id].pc.rest == []
    case Poll(id, _) => id in w.streams && w.streams[id].pc.Polling?
    case Receive(id) => id in w.streams && w.streams[id].pc.Waiting? && w.streams[id].queue != []
    case Heartbeat(id) => id in w.streams && w.streams[id].pc.Waiting?
    case Abandon(id) => id in w.streams && !w.streams[id].pc.Ended?
  }

  /** Closes the subscription and forgets it; a run without subscribers leaves the table. */
  function Unsubscribe(w: World, id: StreamId): World
    requires id in w.streams
  {
    var run := w.streams[id].run;
    var left := Subscribers(w, run) - {id};
    w.(streams := w.streams[id := w.streams[id].(closed := true)],
       subscribers := if left == {} then w.subscribers - {run} else w.subscribers[run := left])
  }

  function Notices(ids: set<StreamId>, q: int): multiset<(StreamId, int)> {
    multiset(set id | id in ids :: (id, q))
  }

  function End(w: World, id: StreamId): World
    requires id in w.streams
  {
    Unsubscribe(w.(streams := w.streams[id := w.streams[id].(pc := Ended)]), id)
  }

  /** The stream's own step, when it changes nothing but itself. */
  function Advance(log: seq<int>, s: Stream, step: Step): Stream
    requires step.Query? || step.YieldNext? || step.EndPage? || step.Receive? || step.Heartbeat?
    requires step.YieldNext? ==> s.pc.Yielding? && s.pc.rest != []
    requires step.EndPage? ==> s.pc.Yielding?
    requires step.Receive? ==> s.queue != []
  {
    match step
    case Query(_) =>
      var page := ListEvents(log, s.last, PAGE);
      s.(pc := Yielding(page, |page|, 0))
    case YieldNext(_) =>
      var e := s.pc.rest[0];
      if e <= s.last then s.(pc := s.pc.(rest := s.pc.rest[1..]))
      else s.(last := e, yielded := s.yielded + [e],
              pc := Yielding(s.pc.rest[1..], s.pc.size, s.pc.delivered + 1))
    case EndPage(_) =>
      s.(pc := if s.pc.size < PAGE || s.pc.delivered == 0 then Polling else Querying)
    case Receive(_) =>
      s.(queue := s.queue[1..], pc := Querying)
    case Heartbeat(_) =>
      s.(pc := Polling)
  }

  function Apply(w: World, step: Step): World
    requires Enabled(w, step)
  {
    match step
    case Commit(run, q) =>
      w.(logs := w.logs[run := Log(w, run) + [q]], unpublished := w.unpublished + multiset{(run, q)})
    case Publish(run, q) =>
      w.(unpublished := w.unpublished - multiset{(run, q)},
         dispatch := w.dispatch + Notices(Subscribers(w, run), q))
    case Dispatch(id, q) =>
      var v := w.(dispatch := w.dispatch - multiset{(id, q)});
      if id !in v.streams then v
      else if v.streams[id].closed then Unsubscribe(v, id)
      else v.(streams := v.streams[id := v.streams[id].(scheduled := v.streams[id].scheduled + [q])])
    case Deliver(id) =>
      var s := w.streams[id];
      var v := w.(streams := w.streams[id := s.(scheduled := s.scheduled[1..])]);
      if s.closed then v
      else if |s.queue| >= w.capacity then Unsubscribe(v, id)
      else w.(streams := w.streams[id := s.(scheduled := s.scheduled[1..], queue := s.queue + [s.scheduled[0]])])
    case Subscribe(id, run, after) =>
      w.(streams := w.streams[id := Stream(run, after, after, [], Querying, [], [], false)],
         subscribers := w.subscribers[run := Subscribers(w, run) + {id}])
    case Poll(id, disconnected) =>
      var s := w.streams[id];
      if disconnected then End(w, id)
      else if s.closed && s.queue == [] then End(w, id)
      else w.(streams := w.streams[id := s.(pc := Waiting)])
    case Abandon(id) => End(w, id)
    case _ =>
      var s := w.streams[step.id];
      w.(streams := w.streams[step.id := Advance(Log(w, s.run), s, step)])
  }

  /** A schedule is legal when every step is enabled where it is taken. */
  predicate Legal(w: World, steps: seq<Step>)
    decreases |steps|
  {
    steps == [] || (Enabled(w, steps[0]) && Legal(Apply(w, steps[0]), steps[1..]))
  }

  function Run(w: World, steps: seq<Step>): World
    requires Legal(w, steps)
    decreases |steps|
  {
    if steps == [] then w else Run(Apply(w, steps[0]), steps[1..])
  }

  function Start(capacity: nat): World {
    World(capacity, map[], multiset{}, multiset{}, map[], map[])
  }

  // ---------------------------------------------------------------- what every step keeps

  /** The yielded events are one contiguous stretch of the log, from `after` up to `last`. */
  ghost predicate Contiguous(log: seq<int>, s: Stream) {
    && s.after <= s.last
    && (s.last == s.after || s.last in log)
    && Upto(log, s.after) <= Upto(log, s.last)
    && s.yielded == log[Upto(log, s.after)..Upto(log, s.last)]
  }

  ghost predicate PageOf(log: seq<int>, s: Stream) {
    s.pc.Yielding? ==>
      && s.pc.size == s.pc.delivered + |s.pc.rest| && s.pc.size <= PAGE
      && Upto(log, s.last) + |s.pc.rest| <= |log|
      && s.pc.rest == log[Upto(log, s.last)..Upto(log, s.last) + |s.pc.rest|]
  }

  /** Events the stream will not see without being woken again. */
  ghost predicate Uncovered(log: seq<int>, s: Stream) {
    match s.pc
    case Querying => false
    case Yielding(rest, size, delivered) => size < PAGE && Upto(log, s.last) + |rest| < |log|
    case Polling => Upto(log, s.last) < |log|
    case Waiting => Upto(log, s.last) < |log|
    case Ended => false
  }

  ghost predicate StreamOk(log: seq<int>, s: Stream, incoming: bool, capacity: nat) {
    && Contiguous(log, s)
    && PageOf(log, s)
    && |s.queue| <= capacity
    && (s.pc.Ended? ==> s.closed)
    && (s.pc.Waiting? && s.closed ==> s.queue != [])
    && (!s.closed && Uncovered(log, s) ==> incoming || s.scheduled != [] || s.queue != [])
  }

  /** A notification for this stream is on its way but not yet scheduled on its loop. */
  ghost predicate Incoming(w: World, id: StreamId)
    requires id in w.streams
  {
    (exists q :: (w.streams[id].run, q) in w.unpublished) || (exists q :: (id, q) in w.dispatch)
  }

  ghost predicate Listens(streams: map<StreamId, Stream>, id: StreamId, run: RunId) {
    id in streams && streams[id].run == run && !streams[id].closed
  }

  /** The hub's table lists exactly the open subscriptions. */
  ghost predicate Registered(table: map<RunId, set<StreamId>>, streams: map<StreamId, Stream>) {
    forall run, id :: id in Listed(table, run) <==> Listens(streams, id, run)
  }

  ghost predicate LogsOk(logs: map<RunId, seq<int>>) {
    forall run :: run in logs ==> Increasing(logs[run])
  }

  ghost predicate StreamAt(w: World, id: StreamId)
    requires id in w.streams
  {
    StreamOk(Log(w, w.streams[id].run), w.streams[id], Incoming(w, id), w.capacity)
  }

  ghost predicate Inv(w: World) {
    && w.capacity >= 1
    && LogsOk(w.logs)
    && Registered(w.subscribers, w.streams)
    && (forall id :: id in w.streams ==> StreamAt(w, id))
  }

  // ---------------------------------------------------------------- one stream's view

  lemma QueryKeeps(log: seq<int>, s: Stream, incoming: bool, capacity: nat)
    requires Increasing(log) && s.pc.Querying? && StreamOk(log, s, incoming, capacity)
    ensures StreamOk(log, Advance(log, s, Query(0)), incoming, capacity)
  {
    AfterIsSuffix(log, s.last);
  }

  lemma YieldMoves(log: seq<int>, s: Stream)
    requires Increasing(log) && s.pc.Yielding? && s.pc.rest != [] && Contiguous(log, s) && PageOf(log, s)
    ensures var n := Upto(log, s.last);
            n < |log| && s.pc.rest[0] == log[n] > s.last && Upto(log, log[n]) == n + 1
  {
    var n := Upto(log, s.last);
    UptoSplits(log, s.last);
    assert s.pc.rest[0] == log[n];
    UptoIs(log, log[n], n + 1);
  }

  lemma YieldContiguous(log: seq<int>, s: Stream, r: Stream)
    requires Contiguous(log, s) && Upto(log, s.last) < |log|
    requires var e := log[Upto(log, s.last)];
             r.after == s.after && r.last == e > s.last && r.yielded == s.yielded + [e] && Upto(log, e) == Upto(log, s.last) + 1
    ensures Contiguous(log, r)
  {
    SliceNext(log, Upto(log, s.after), Upto(log, s.last));
  }

  lemma SliceNext(log: seq<int>, low: nat, n: nat)
    requires low <= n < |log|
    ensures log[low..n + 1] == log[low..n] + [log[n]]
  {
  }

  lemma YieldKeeps(log: seq<int>, s: Stream, incoming: bool, capacity: nat)
    requires Increasing(log) && s.pc.Yielding? && s.pc.rest != [] && StreamOk(log, s, incoming, capacity)
    ensures StreamOk(log, Advance(log, s, YieldNext(0)), incoming, capacity)
  {
    YieldMoves(log, s);
    YieldContiguous(log, s, Advance(log, s, YieldNext(0)));
  }

  lemma OtherAdvanceKeeps(log: seq<int>, s: Stream, step: Step, incoming: bool, capacity: nat)
    requires Increasing(log) && StreamOk(log, s, incoming, capacity)
    requires (step.EndPage? && s.pc.Yielding? && s.pc.rest == []) || (step.Receive? && s.queue != []) || (step.Heartbeat? && s.pc.Waiting?)
    ensures StreamOk(log, Advance(log, s, step), incoming, capacity)
  {
  }

  lemma CommitKeeps(log: seq<int>, q: int, s: Stream, incoming: bool, capacity: nat)
    requires Increasing(log + [q]) && StreamOk(log, s, incoming, capacity)
    ensures StreamOk(log + [q], s, true, capacity)
  {
    var grown := log + [q];
    UptoGrows(log, q, s.after);
    UptoGrows(log, q, s.last);
    assert forall k :: 0 <= k < |log| ==> log[k] == grown[k] < grown[|log|];
    if s.last != s.after {
      var k :| 0 <= k < |log| && log[k] == s.last;
    }
    if Upto(grown, s.last) == Upto(log, s.last) {
      assert grown[Upto(log, s.after)..Upto(log, s.last)] == log[Upto(log, s.after)..Upto(log, s.last)];
    }
  }

  // ---------------------------------------------------------------- the whole world

  lemma CommitStep(w: World, run: RunId, q: int)
    requires Inv(w) && Enabled(w, Commit(run, q))
    ensures Inv(Apply(w, Commit(run, q)))
  {
    var v := Apply(w, Commit(run, q));
    assert Increasing(Log(w, run) + [q]);
    forall id | id in v.streams ensures StreamAt(v, id) {
      var s := w.streams[id];
      assert StreamAt(w, id);
      if s.run == run {
        CommitKeeps(Log(w, run), q, s, Incoming(w, id), w.capacity);
        assert (s.run, q) in v.unpublished;
      } else if Incoming(w, id) {
        assert forall e :: e in w.unpublished ==> e in v.unpublished;
      }
    }
  }

  lemma PublishStep(w: World, run: RunId, q: int)
    requires Inv(w) && Enabled(w, Publish(run, q))
    ensures Inv(Apply(w, Publish(run, q)))
  {
    var v := Apply(w, Publish(run, q));
    forall id | id in v.streams ensures StreamAt(v, id) {
      var s := w.streams[id];
      assert StreamAt(w, id);
      if !s.closed && Incoming(w, id) {
        if s.run == run {
          assert Listens(w.streams, id, run);
          assert id in Subscribers(w, run);
          assert (id, q) in Notices(Subscribers(w, run), q);
          assert (id, q) in v.dispatch;
        } else {
          assert forall e :: (s.run, e) in w.unpublished ==> (s.run, e) in v.unpublished;
          assert forall e :: (id, e) in w.dispatch ==> (id, e) in v.dispatch;
        }
      }
    }
  }

  /** Taking notices of stream `id` only leaves the other streams' notices alone. */
  ghost predicate SameForOthers(w: World, v: World, id: StreamId) {
    && v.capacity == w.capacity && v.logs == w.logs && v.unpublished == w.unpublished
    && v.streams.Keys == w.streams.Keys
    && (forall j :: j in w.streams && j != id ==> v.streams[j] == w.streams[j])
    && (forall j, q :: j != id ==> ((j, q) in w.dispatch <==> (j, q) in v.dispatch))
  }

  lemma OthersKeep(w: World, v: World, id: StreamId)
    requires Inv(w) && id in w.streams && SameForOthers(w, v, id)
    ensures forall j :: j in v.streams && j != id ==> StreamAt(v, j)
  {
    forall j | j in v.streams && j != id ensures StreamAt(v, j) {
      assert StreamAt(w, j);
      assert Incoming(v, j) <==> Incoming(w, j);
    }
  }

  /** A step that replaces one stream without opening or closing it. */
  lemma ReplaceStream(w: World, v: World, id: StreamId)
    requires Inv(w) && id in w.streams && SameForOthers(w, v, id) && v.subscribers == w.subscribers
    requires v.streams[id].run == w.streams[id].run && v.streams[id].closed == w.streams[id].closed
    requires StreamAt(v, id)
    ensures Inv(v)
  {
    OthersKeep(w, v, id);
    forall run, j ensures Listens(v.streams, j, run) <==> Listens(w.streams, j, run) {
    }
  }

  /** A step that closes one stream and removes it from the table. */
  lemma CloseStream(w: World, v: World, id: StreamId)
    requires Inv(w) && id in w.streams && SameForOthers(w, v, id)
    requires v.streams[id].run == w.streams[id].run && v.streams[id].closed
    requires Listed(v.subscribers, w.streams[id].run) == Listed(w.subscribers, w.streams[id].run) - {id}
    requires forall run :: run != w.streams[id].run ==> Listed(v.subscribers, run) == Listed(w.subscribers, run)
    requires StreamAt(v, id)
    ensures Inv(v)
  {
    OthersKeep(w, v, id);
    forall run, j ensures j in Listed(v.subscribers, run) <==> Listens(v.streams, j, run) {
      assert j in Listed(w.subscribers, run) <==> Listens(w.streams, j, run);
    }
  }

  lemma NoticeKeeps(log: seq<int>, s: Stream, r: Stream, before: bool, incoming: bool, capacity: nat)
    requires StreamOk(log, s, before, capacity)
    requires r == s.(queue := r.queue, scheduled := r.scheduled, closed := r.closed)
    requires |r.queue| <= capacity && (s.queue != [] ==> r.queue != [])
    requires s.closed ==> r.closed
    requires r.closed ==> s.closed || r.queue != []
    requires !r.closed ==> r.scheduled != [] || r.queue != []
    ensures StreamOk(log, r, incoming, capacity)
  {
  }

  lemma TakeNotice(w: World, id: StreamId, q: int, j: StreamId, e: int)
    requires j != id
    ensures (j, e) in w.dispatch <==> (j, e) in w.dispatch - multiset{(id, q)}
  {
  }

  /** `v` is `w` with stream `id` replaced by `s` and at most one of its notices taken. */
  ghost predicate Replaced(w: World, v: World, id: StreamId, s: Stream) {
    && v.capacity == w.capacity && v.logs == w.logs && v.unpublished == w.unpublished
    && v.streams == w.streams[id := s]
    && (v.dispatch == w.dispatch || exists q :: v.dispatch == w.dispatch - multiset{(id, q)})
  }

  lemma ReplacedIsSame(w: World, v: World, id: StreamId, s: Stream)
    requires id in w.streams && Replaced(w, v, id, s)
    ensures SameForOthers(w, v, id)
  {
    if v.dispatch != w.dispatch {
      var q :| v.dispatch == w.dispatch - multiset{(id, q)};
      forall j, e | j != id ensures (j, e) in w.dispatch <==> (j, e) in v.dispatch {
        TakeNotice(w, id, q, j, e);
      }
    }
  }

  lemma NoticeStep(w: World, v: World, id: StreamId, r: Stream)
    requires Inv(w) && id in w.streams && Replaced(w, v, id, r) && v.subscribers == w.subscribers
    requires r == w.streams[id].(queue := r.queue, scheduled := r.scheduled)
    requires w.streams[id].closed ==> r.queue == w.streams[id].queue
    requires !w.streams[id].closed ==>
               |r.queue| <= w.capacity && (w.streams[id].queue != [] ==> r.queue != []) && (r.scheduled != [] || r.queue != [])
    ensures Inv(v)
  {
    ReplacedIsSame(w, v, id, r);
    assert StreamAt(w, id);
    NoticeView(Log(w, r.run), w.streams[id], r, Incoming(w, id), Incoming(v, id), w.capacity);
    ReplaceStream(w, v, id);
  }

  lemma NoticeView(log: seq<int>, s: Stream, r: Stream, before: bool, incoming: bool, capacity: nat)
    requires StreamOk(log, s, before, capacity) && r == s.(queue := r.queue, scheduled := r.scheduled)
    requires s.closed ==> r.queue == s.queue
    requires !s.closed ==> |r.queue| <= capacity && (s.queue != [] ==> r.queue != []) && (r.scheduled != [] || r.queue != [])
    ensures StreamOk(log, r, incoming, capacity)
  {
    if !s.closed {
      NoticeKeeps(log, s, r, before, incoming, capacity);
    }
  }

  lemma CloseStep(w: World, v: World, id: StreamId, r: Stream)
    requires Inv(w) && id in w.streams && Replaced(w, v, id, r)
    requires Listed(v.subscribers, r.run) == Listed(w.subscribers, r.run) - {id}
    requires forall run :: run != r.run ==> Listed(v.subscribers, run) == Listed(w.subscribers, run)
    requires r == w.streams[id].(closed := true, scheduled := r.scheduled)
    requires w.streams[id].closed || w.streams[id].queue != []
    ensures Inv(v)
  {
    ReplacedIsSame(w, v, id, r);
    assert StreamAt(w, id);
    ClosedView(Log(w, r.run), w.streams[id], r, Incoming(w, id), Incoming(v, id), w.capacity);
    CloseStream(w, v, id);
  }

  lemma ClosedView(log: seq<int>, s: Stream, r: Stream, before: bool, incoming: bool, capacity: nat)
    requires StreamOk(log, s, before, capacity) && r == s.(closed := true, scheduled := r.scheduled)
    requires s.closed || s.queue != []
    ensures StreamOk(log, r, incoming, capacity)
  {
  }

  lemma DispatchStep(w: World, id: StreamId, q: int)
    requires Inv(w) && Enabled(w, Dispatch(id, q))
    ensures Inv(Apply(w, Dispatch(id, q)))
  {
    var v := Apply(w, Dispatch(id, q));
    if id !in w.streams {
      forall j | j in v.streams ensures StreamAt(v, j) {
        assert StreamAt(w, j);
        forall e ensures (j, e) in w.dispatch <==> (j, e) in v.dispatch {
          TakeNotice(w, id, q, j, e);
        }
        assert Incoming(v, j) <==> Incoming(w, j);
      }
    } else if w.streams[id].closed {
      CloseStep(w, v, id, v.streams[id]);
    } else {
      NoticeStep(w, v, id, v.streams[id]);
    }
  }

  lemma DeliverStep(w: World, id: StreamId)
    requires Inv(w) && Enabled(w, Deliver(id))
    ensures Inv(Apply(w, Deliver(id)))
  {
    var v := Apply(w, Deliver(id));
    if w.streams[id].closed || |w.streams[id].queue| < w.capacity {
      NoticeStep(w, v, id, v.streams[id]);
    } else {
      CloseStep(w, v, id, v.streams[id]);
    }
  }

  lemma SubscribeStep(w: World, id: StreamId, run: RunId, after: int)
    requires Inv(w) && Enabled(w, Subscribe(id, run, after))
    ensures Inv(Apply(w, Subscribe(id, run, after)))
  {
    var v := Apply(w, Subscribe(id, run, after));
    forall j | j in v.streams ensures StreamAt(v, j) {
      if j != id {
        assert StreamAt(w, j);
        assert Incoming(v, j) <==> Incoming(w, j);
      }
    }
    forall r, j ensures j in Listed(v.subscribers, r) <==> Listens(v.streams, j, r) {
      assert j in Listed(w.subscribers, r) <==> Listens(w.streams, j, r);
    }
  }

  lemma EndStep(w: World, id: StreamId)
    requires Inv(w) && id in w.streams
    ensures Inv(End(w, id))
  {
    assert StreamAt(w, id);
    CloseStream(w, End(w, id), id);
  }

  lemma AdvanceKeeps(log: seq<int>, s: Stream, step: Step, incoming: bool, capacity: nat)
    requires Increasing(log) && StreamOk(log, s, incoming, capacity)
    requires (step.Query? && s.pc.Querying?) || (step.YieldNext? && s.pc.Yielding? && s.pc.rest != [])
             || (step.EndPage? && s.pc.Yielding? && s.pc.rest == [])
             || (step.Receive? && s.queue != []) || (step.Heartbeat? && s.pc.Waiting?)
    ensures StreamOk(log, Advance(log, s, step), incoming, capacity)
    ensures Advance(log, s, step).run == s.run && Advance(log, s, step).closed == s.closed
  {
    if step.Query? {
      QueryKeeps(log, s, incoming, capacity);
    } else if step.YieldNext? {
      YieldKeeps(log, s, incoming, capacity);
    } else {
      OtherAdvanceKeeps(log, s, step, incoming, capacity);
    }
  }

  lemma AdvanceStep(w: World, step: Step)
    requires Inv(w) && Enabled(w, step)
    requires step.Query? || step.YieldNext? || step.EndPage? || step.Receive? || step.Heartbeat?
    ensures Inv(Apply(w, step))
  {
    var s := w.streams[step.id];
    assert StreamAt(w, step.id);
    AdvanceKeeps(Log(w, s.run), s, step, Incoming(w, step.id), w.capacity);
    var v := w.(streams := w.streams[step.id := Advance(Log(w, s.run), s, step)]);
    ReplaceStream(w, v, step.id);
    assert Apply(w, step) == v;
  }

  lemma WaitKeeps(log: seq<int>, s: Stream, incoming: bool, capacity: nat)
    requires StreamOk(log, s, incoming, capacity) && s.pc.Polling? && !(s.closed && s.queue == [])
    ensures StreamOk(log, s.(pc := Waiting), incoming, capacity)
  {
  }

  lemma WaitStep(w: World, id: StreamId, v: World)
    requires Inv(w) && id in w.streams && w.streams[id].pc.Polling? && !(w.streams[id].closed && w.streams[id].queue == [])
    requires v == w.(streams := w.streams[id := w.streams[id].(pc := Waiting)])
    ensures Inv(v)
  {
    assert StreamAt(w, id);
    WaitKeeps(Log(w, w.streams[id].run), w.streams[id], Incoming(w, id), w.capacity);
    assert Incoming(v, id) == Incoming(w, id);
    ReplaceStream(w, v, id);
  }

  lemma PollStep(w: World, id: StreamId, disconnected: bool)
    requires Inv(w) && Enabled(w, Poll(id, disconnected))
    ensures Inv(Apply(w, Poll(id, disconnected)))
  {
    if disconnected || (w.streams[id].closed && w.streams[id].queue == []) {
      EndStep(w, id);
    } else {
      WaitStep(w, id, Apply(w, Poll(id, disconnected)));
    }
  }

  lemma StepKeeps(w: World, step: Step)
    requires Inv(w) && Enabled(w, step)
    ensures Inv(Apply(w, step))
  {
    match step
    case Commit(run, q) => CommitStep(w, run, q);
    case Publish(run, q) => PublishStep(w, run, q);
    case Dispatch(id, q) => DispatchStep(w, id, q);
    case Deliver(id) => DeliverStep(w, id);
    case Subscribe(id, run, after) => SubscribeStep(w, id, run, after);
    case Poll(id, disconnected) => PollStep(w, id, disconnected);
    case Abandon(id) => EndStep(w, id);
    case _ => AdvanceStep(w, step);
  }

  // ---------------------------------------------------------------- the main results

  /** Every legal schedule from an empty hub keeps the invariant, whatever interleaves. */
  lemma {:induction false} ScheduleKeeps(w: World, steps: seq<Step>)
    requires Inv(w) && Legal(w, steps)
    ensures Inv(Run(w, steps))
    decreases |steps|
  {
    if steps != [] {
      StepKeeps(w, steps[0]);
      ScheduleKeeps(Apply(w, steps[0]), steps[1..]);
    }
  }

  ghost predicate Reached(w: World, capacity: nat, steps: seq<Step>) {
    capacity >= 1 && Legal(Start(capacity), steps) && w == Run(Start(capacity), steps)
  }

  lemma ReachedInv(w: World, capacity: nat, steps: seq<Step>)
    requires Reached(w, capacity, steps)
    ensures Inv(w)
  {
    ScheduleKeeps(Start(capacity), steps);
  }

  /** No gap, no repeat: a stream has yielded a prefix of the durable events after `after`,
      and the bounded queue never exceeds its capacity. */
  lemma NoGapNoRepeat(w: World, capacity: nat, steps: seq<Step>, id: StreamId)
    requires Reached(w, capacity, steps) && id in w.streams
    ensures var s := w.streams[id];
            s.yielded <= After(Log(w, s.run), s.after) && Increasing(s.yielded) && |s.queue| <= w.capacity
  {
    ReachedInv(w, capacity, steps);
    var s := w.streams[id];
    assert StreamAt(w, id);
    AfterIsSuffix(Log(w, s.run), s.after);
  }

  /** No lost wake-up: an open stream that waits with nothing queued, scheduled or on its way
      has yielded every committed event after `after`. */
  lemma NoLostWakeUp(w: World, capacity: nat, steps: seq<Step>, id: StreamId)
    requires Reached(w, capacity, steps) && id in w.streams
    requires var s := w.streams[id];
             s.pc.Waiting? && !s.closed && s.queue == [] && s.scheduled == [] && !Incoming(w, id)
    ensures w.streams[id].yielded == After(Log(w, w.streams[id].run), w.streams[id].after)
  {
    ReachedInv(w, capacity, steps);
    var s := w.streams[id];
    assert StreamAt(w, id);
    AfterIsSuffix(Log(w, s.run), s.after);
  }

  predicate ActsFor(step: Step, id: StreamId) {
    !step.Commit? && !step.Publish? && step.id == id
  }

  /** A stream that waits when its subscription is closed has something to receive. */
  lemma ClosedStreamMoves(w: World, capacity: nat, steps: seq<Step>, id: StreamId)
    requires Reached(w, capacity, steps) && id in w.streams
    requires w.streams[id].closed && w.streams[id].pc.Waiting?
    ensures Enabled(w, Receive(id))
  {
    ReachedInv(w, capacity, steps);
    assert StreamAt(w, id);
  }

  /** Reconnecting after the last sequence received continues the log exactly. */
  lemma ReconnectContinues(w: World, capacity: nat, steps: seq<Step>, first: StreamId, second: StreamId)
    requires Reached(w, capacity, steps) && first in w.streams && second in w.streams
    requires w.streams[second].run == w.streams[first].run
    requires w.streams[second].after == w.streams[first].last
    ensures w.streams[first].yielded + w.streams[second].yielded
            <= After(Log(w, w.streams[first].run), w.streams[first].after)
  {
    ReachedInv(w, capacity, steps);
    var a, b := w.streams[first], w.streams[second];
    assert StreamAt(w, first) && StreamAt(w, second);
    ContiguousJoin(Log(w, a.run), a, b);
  }

  lemma ContiguousJoin(log: seq<int>, a: Stream, b: Stream)
    requires Increasing(log) && Contiguous(log, a) && Contiguous(log, b) && b.after == a.last
    ensures a.yielded + b.yielded <= After(log, a.after)
  {
    AfterIsSuffix(log, a.after);
    assert a.yielded + b.yielded == log[Upto(log, a.after)..Upto(log, b.last)];
  }

  /** Nothing of anybody else's changed between `w` and `v`. */
  ghost predicate OnlyTouches(w: World, v: World, id: StreamId) {
    && v.logs == w.logs && v.unpublished == w.unpublished && v.streams.Keys == w.streams.Keys
    && (forall j :: j in w.streams && j != id ==> v.streams[j] == w.streams[j])
    && (forall run, j :: j != id ==> (j in Listed(v.subscribers, run) <==> j in Listed(w.subscribers, run)))
  }

  lemma UnsubscribeOnlyTouches(w: World, id: StreamId)
    requires id in w.streams
    ensures OnlyTouches(w, Unsubscribe(w, id), id)
  {
    var v := Unsubscribe(w, id);
    forall run, j | j != id ensures j in Listed(v.subscribers, run) <==> j in Listed(w.subscribers, run) {
      assert run != w.streams[id].run ==> Listed(v.subscribers, run) == Listed(w.subscribers, run);
    }
  }

  /** A slow or departing subscriber touches nobody else: its steps, overflow included, leave
      every other stream, every log and every other subscription as they were. */
  lemma SubscriberIsolated(w: World, step: Step, id: StreamId)
    requires Enabled(w, step) && ActsFor(step, id) && id in w.streams
    ensures OnlyTouches(w, Apply(w, step), id)
  {
    var s := w.streams[id];
    match step
    case Dispatch(_, q) =>
      UnsubscribeOnlyTouches(w.(dispatch := w.dispatch - multiset{(id, q)}), id);
    case Deliver(_) =>
      UnsubscribeOnlyTouches(w.(streams := w.streams[id := s.(scheduled := s.scheduled[1..])]), id);
    case Poll(_, _) => UnsubscribeOnlyTouches(w.(streams := w.streams[id := s.(pc := Ended)]), id);
    case Abandon(_) => UnsubscribeOnlyTouches(w.(streams := w.streams[id := s.(pc := Ended)]), id);
    case _ =>
  }
}
