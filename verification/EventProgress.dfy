/** Where a stream gets by itself: an open one to a wait with every committed event handed out, a
    closed one to its exit. Other streams, commits and callbacks may interleave; these schedules
    show that nothing else is needed. */
module EventProgress {
  import opened EventStream

  // ---------------------------------------------------------------- own steps

  /** How far a stream is from resting: where it stands, what the log still holds, its page. */
  function Stage(s: Stream): nat {
    match s.pc
    case Querying => 3
    case Yielding(_, _, _) => 3
    case Polling => 2
    case Waiting => 1
    case Ended => 0
  }

  function Unread(log: seq<int>, s: Stream): int {
    match s.pc
    case Querying => 2 * (|log| - Upto(log, s.last)) + 2
    case Yielding(rest, size, _) => 2 * (|log| - Upto(log, s.last) - |rest|) + (if size < PAGE then 1 else 3)
    case Polling => 0
    case Waiting => 0
    case Ended => 0
  }

  function Rest(s: Stream): nat {
    if s.pc.Yielding? then |s.pc.rest| else 0
  }

  /** The step a stream takes by itself when it is neither disconnected nor abandoned. */
  function OwnStep(s: Stream, id: StreamId): Step {
    match s.pc
    case Querying => Query(id)
    case Yielding(rest, _, _) => if rest != [] then YieldNext(id) else EndPage(id)
    case Polling => Poll(id, false)
    case Waiting => Receive(id)
    case Ended => Query(id)
  }

  /** Nothing left to do by itself: the exit, or a wait with an empty queue. */
  predicate Resting(s: Stream) {
    s.pc.Ended? || (s.pc.Waiting? && s.queue == [])
  }

  ghost predicate Nearer(log: seq<int>, s: Stream, r: Stream) {
    || |r.queue| < |s.queue|
    || (|r.queue| == |s.queue| && Stage(r) < Stage(s))
    || (|r.queue| == |s.queue| && Stage(r) == Stage(s) && 0 <= Unread(log, r) < Unread(log, s))
    || (|r.queue| == |s.queue| && Stage(r) == Stage(s) && 0 <= Unread(log, r) == Unread(log, s) && Rest(r) < Rest(s))
  }

  lemma OwnStepMoves(log: seq<int>, s: Stream, id: StreamId, incoming: bool, capacity: nat)
    requires Increasing(log) && StreamOk(log, s, incoming, capacity) && !Resting(s) && !s.pc.Polling?
    ensures Nearer(log, s, Advance(log, s, OwnStep(s, id)))
  {
    if s.pc.Querying? {
      AfterIsSuffix(log, s.last);
    } else if s.pc.Yielding? && s.pc.rest != [] {
      YieldMoves(log, s);
    }
  }

  /** A stream that is covered stays so by its own steps: what it reads reaches the end of the log. */
  lemma OwnStepCovers(log: seq<int>, s: Stream, id: StreamId, incoming: bool, capacity: nat)
    requires Increasing(log) && StreamOk(log, s, incoming, capacity) && !Resting(s) && !s.pc.Polling?
    requires !Uncovered(log, s)
    ensures !Uncovered(log, Advance(log, s, OwnStep(s, id)))
  {
    if s.pc.Querying? {
      AfterIsSuffix(log, s.last);
    } else if s.pc.Yielding? && s.pc.rest != [] {
      YieldMoves(log, s);
    }
  }

  lemma OwnStepEnabled(w: World, id: StreamId)
    requires Inv(w) && id in w.streams && !Resting(w.streams[id])
    ensures Enabled(w, OwnStep(w.streams[id], id))
  {
    assert StreamAt(w, id);
  }

  ghost predicate Touched(w: World, v: World, id: StreamId, r: Stream) {
    v.logs == w.logs && v.capacity == w.capacity && id in v.streams && v.streams[id] == r
  }

  lemma AdvanceTouches(w: World, step: Step)
    requires Enabled(w, step)
    requires step.Query? || step.YieldNext? || step.EndPage? || step.Receive? || step.Heartbeat?
    ensures Touched(w, Apply(w, step), step.id, Advance(Log(w, w.streams[step.id].run), w.streams[step.id], step))
  {
  }

  lemma PollTouches(w: World, id: StreamId)
    requires Enabled(w, Poll(id, false))
    ensures var s := w.streams[id];
            Touched(w, Apply(w, Poll(id, false)), id,
                    if s.closed && s.queue == [] then s.(pc := Ended, closed := true) else s.(pc := Waiting))
  {
  }

  /** The stream's subscription, the log and where it began are the same. */
  ghost predicate SameStream(w: World, v: World, id: StreamId)
    requires id in w.streams
  {
    && v.logs == w.logs && id in v.streams
    && v.streams[id].run == w.streams[id].run && v.streams[id].after == w.streams[id].after
    && v.streams[id].closed == w.streams[id].closed
  }

  /** The world after a stream's own step. */
  ghost predicate Moved(w: World, v: World, id: StreamId)
    requires id in w.streams
  {
    && Inv(v) && SameStream(w, v, id) && Nearer(Log(w, w.streams[id].run), w.streams[id], v.streams[id])
    && (Covered(w, id) ==> Covered(v, id))
  }

  lemma PollMoves(w: World, id: StreamId)
    requires Inv(w) && id in w.streams && w.streams[id].pc.Polling?
    ensures Enabled(w, Poll(id, false)) && Moved(w, Apply(w, Poll(id, false)), id)
  {
    StepKeeps(w, Poll(id, false));
    PollTouches(w, id);
  }

  lemma AdvanceMoves(w: World, id: StreamId, step: Step)
    requires Inv(w) && id in w.streams && !Resting(w.streams[id]) && !w.streams[id].pc.Polling?
    requires step == OwnStep(w.streams[id], id) && Enabled(w, step)
    ensures Moved(w, Apply(w, step), id)
  {
    var s := w.streams[id];
    assert StreamAt(w, id);
    StepKeeps(w, step);
    AdvanceTouches(w, step);
    OwnStepMoves(Log(w, s.run), s, id, Incoming(w, id), w.capacity);
    if Covered(w, id) {
      OwnStepCovers(Log(w, s.run), s, id, Incoming(w, id), w.capacity);
    }
  }

  /** A stream that does not rest can move, and its own step brings it nearer to rest. */
  lemma OwnStepIsNearer(w: World, id: StreamId) returns (v: World)
    requires Inv(w) && id in w.streams && !Resting(w.streams[id])
    ensures Enabled(w, OwnStep(w.streams[id], id)) && v == Apply(w, OwnStep(w.streams[id], id)) && Moved(w, v, id)
  {
    OwnStepEnabled(w, id);
    if w.streams[id].pc.Polling? {
      PollMoves(w, id);
    } else {
      AdvanceMoves(w, id, OwnStep(w.streams[id], id));
    }
    v := Apply(w, OwnStep(w.streams[id], id));
  }

  ghost predicate Covered(w: World, id: StreamId)
    requires id in w.streams
  {
    !Uncovered(Log(w, w.streams[id].run), w.streams[id])
  }

  predicate Own(step: Step, id: StreamId) {
    ActsFor(step, id) && (step.Query? || step.YieldNext? || step.EndPage? || step.Receive? || step == Poll(id, false))
  }

  lemma RunStep(w: World, v: World, step: Step, rest: seq<Step>)
    requires Enabled(w, step) && v == Apply(w, step) && Legal(v, rest)
    ensures Legal(w, [step] + rest) && Run(w, [step] + rest) == Run(v, rest)
  {
    assert ([step] + rest)[1..] == rest;
  }

  lemma FirstStep(w: World, steps: seq<Step>) returns (v: World)
    requires steps != [] && Legal(w, steps)
    ensures Enabled(w, steps[0]) && v == Apply(w, steps[0]) && Legal(v, steps[1..]) && Run(w, steps) == Run(v, steps[1..])
  {
    v := Apply(w, steps[0]);
  }

  /** `second` continues `first` from `w`. */
  ghost predicate Joins(w: World, first: seq<Step>, second: seq<Step>) {
    Legal(w, first) && Legal(Run(w, first), second)
    && Legal(w, first + second) && Run(w, first + second) == Run(Run(w, first), second)
  }

  lemma JoinsLater(w: World, v: World, step: Step, rest: seq<Step>, second: seq<Step>)
    requires Enabled(w, step) && v == Apply(w, step) && Joins(v, rest, second)
    ensures Joins(w, [step] + rest, second)
  {
    RunStep(w, v, step, rest);
    RunStep(w, v, step, rest + second);
    assert ([step] + rest) + second == [step] + (rest + second);
  }

  lemma {:induction false} RunJoins(w: World, first: seq<Step>, second: seq<Step>)
    requires Legal(w, first) && Legal(Run(w, first), second)
    ensures Joins(w, first, second)
    decreases |first|
  {
    if first == [] {
      assert first + second == second;
    } else {
      var v := FirstStep(w, first);
      RunJoins(v, first[1..], second);
      JoinsLater(w, v, first[0], first[1..], second);
      assert first == [first[0]] + first[1..];
    }
  }

  /** Own steps bring the stream from `w` to rest in `v`. */
  ghost predicate Settled(w: World, steps: seq<Step>, v: World, id: StreamId)
    requires id in w.streams
  {
    && Legal(w, steps) && (forall k :: 0 <= k < |steps| ==> Own(steps[k], id)) && v == Run(w, steps)
    && Inv(v) && SameStream(w, v, id) && Resting(v.streams[id]) && (Covered(w, id) ==> Covered(v, id))
  }

  lemma SettledLater(w: World, u: World, v: World, step: Step, rest: seq<Step>, id: StreamId)
    requires id in w.streams && Enabled(w, step) && u == Apply(w, step) && Own(step, id) && Moved(w, u, id)
    requires Settled(u, rest, v, id)
    ensures Settled(w, [step] + rest, v, id)
  {
    RunStep(w, u, step, rest);
  }

  /** Left to itself, a stream comes to rest. */
  lemma {:induction false} Settle(w: World, id: StreamId) returns (steps: seq<Step>)
    requires Inv(w) && id in w.streams
    ensures Legal(w, steps) && Settled(w, steps, Run(w, steps), id)
    decreases |w.streams[id].queue|, Stage(w.streams[id]), Unread(Log(w, w.streams[id].run), w.streams[id]), Rest(w.streams[id])
  {
    steps := [];
    var s := w.streams[id];
    if !Resting(s) {
      var u := OwnStepIsNearer(w, id);
      var rest := Settle(u, id);
      SettledLater(w, u, Run(u, rest), OwnStep(s, id), rest, id);
      steps := [OwnStep(s, id)] + rest;
    }
  }

  /** A stream never hangs on a closed subscription: left to itself, neither disconnected nor
      abandoned, it drains its queue and ends through the overflow exit. */
  lemma ClosedStreamEnds(w: World, id: StreamId) returns (steps: seq<Step>)
    requires Inv(w) && id in w.streams && w.streams[id].closed
    ensures Legal(w, steps) && forall k :: 0 <= k < |steps| ==> Own(steps[k], id)
    ensures id in Run(w, steps).streams && Run(w, steps).streams[id].pc.Ended?
  {
    steps := Settle(w, id);
    assert StreamAt(Run(w, steps), id);
  }

  // ---------------------------------------------------------------- being woken

  /** A stream's own step, or one that carries a pending notice to it. */
  predicate OwnOrNotice(step: Step, id: StreamId, run: RunId) {
    Own(step, id) || step == Deliver(id) || (step.Dispatch? && step.id == id) || (step.Publish? && step.run == run)
  }

  /** An open stream that waits with an empty queue. */
  ghost predicate Asleep(w: World, id: StreamId) {
    id in w.streams && w.streams[id].pc.Waiting? && !w.streams[id].closed && w.streams[id].queue == []
  }

  ghost predicate Woken(w: World, steps: seq<Step>, id: StreamId)
    requires id in w.streams
  {
    && Legal(w, steps) && (forall k :: 0 <= k < |steps| ==> OwnOrNotice(steps[k], id, w.streams[id].run))
    && Inv(Run(w, steps)) && SameStream(w, Run(w, steps), id) && Run(w, steps).streams[id].pc.Querying?
  }

  lemma WokenLater(w: World, step: Step, rest: seq<Step>, id: StreamId)
    requires id in w.streams && Enabled(w, step) && OwnOrNotice(step, id, w.streams[id].run)
    requires SameStream(w, Apply(w, step), id) && Woken(Apply(w, step), rest, id)
    ensures Woken(w, [step] + rest, id)
  {
    assert ([step] + rest)[1..] == rest;
  }

  lemma WakeQueued(w: World, id: StreamId)
    requires Inv(w) && id in w.streams && w.streams[id].pc.Waiting? && w.streams[id].queue != []
    ensures Woken(w, [Receive(id)], id)
  {
    var step := Receive(id);
    StepKeeps(w, step);
    AdvanceTouches(w, step);
    assert [step][1..] == [];
  }

  lemma DeliverTouches(w: World, id: StreamId)
    requires Asleep(w, id) && w.streams[id].scheduled != [] && w.capacity >= 1
    ensures var s := w.streams[id];
            Touched(w, Apply(w, Deliver(id)), id, s.(scheduled := s.scheduled[1..], queue := [s.scheduled[0]]))
  {
  }

  lemma WakeScheduled(w: World, id: StreamId) returns (steps: seq<Step>)
    requires Inv(w) && Asleep(w, id) && w.streams[id].scheduled != []
    ensures Woken(w, steps, id)
  {
    var v := Apply(w, Deliver(id));
    StepKeeps(w, Deliver(id));
    DeliverTouches(w, id);
    WakeQueued(v, id);
    WokenLater(w, Deliver(id), [Receive(id)], id);
    steps := [Deliver(id)] + [Receive(id)];
  }

  lemma DispatchTouches(w: World, id: StreamId, q: int)
    requires Asleep(w, id) && (id, q) in w.dispatch
    ensures var s := w.streams[id];
            Touched(w, Apply(w, Dispatch(id, q)), id, s.(scheduled := s.scheduled + [q]))
  {
  }

  lemma WakeDispatched(w: World, id: StreamId, q: int) returns (steps: seq<Step>)
    requires Inv(w) && Asleep(w, id) && (id, q) in w.dispatch
    ensures Woken(w, steps, id)
  {
    var v := Apply(w, Dispatch(id, q));
    StepKeeps(w, Dispatch(id, q));
    DispatchTouches(w, id, q);
    var rest := WakeScheduled(v, id);
    WokenLater(w, Dispatch(id, q), rest, id);
    steps := [Dispatch(id, q)] + rest;
  }

  lemma PublishTouches(w: World, id: StreamId, q: int)
    requires Inv(w) && Asleep(w, id) && (w.streams[id].run, q) in w.unpublished
    ensures var v := Apply(w, Publish(w.streams[id].run, q));
            Touched(w, v, id, w.streams[id]) && (id, q) in v.dispatch
  {
    var run := w.streams[id].run;
    assert Listens(w.streams, id, run);
    assert id in Subscribers(w, run);
    assert (id, q) in Notices(Subscribers(w, run), q);
  }

  lemma WakePublished(w: World, id: StreamId, q: int) returns (steps: seq<Step>)
    requires Inv(w) && Asleep(w, id) && (w.streams[id].run, q) in w.unpublished
    ensures Woken(w, steps, id)
  {
    var step := Publish(w.streams[id].run, q);
    var v := Apply(w, step);
    StepKeeps(w, step);
    PublishTouches(w, id, q);
    var rest := WakeDispatched(v, id, q);
    WokenLater(w, step, rest, id);
    steps := [step] + rest;
  }

  /** A sleeping stream that has not seen everything has a notice on its way, and that wakes it. */
  lemma Wake(w: World, id: StreamId) returns (steps: seq<Step>)
    requires Inv(w) && Asleep(w, id) && !Covered(w, id)
    ensures Woken(w, steps, id)
  {
    assert StreamAt(w, id);
    if w.streams[id].scheduled != [] {
      steps := WakeScheduled(w, id);
    } else if exists q :: (id, q) in w.dispatch {
      var q :| (id, q) in w.dispatch;
      steps := WakeDispatched(w, id, q);
    } else {
      var q :| (w.streams[id].run, q) in w.unpublished;
      steps := WakePublished(w, id, q);
    }
  }

  ghost predicate CaughtUp(w: World, v: World, id: StreamId)
    requires id in w.streams
  {
    && SameStream(w, v, id) && Asleep(v, id)
    && v.streams[id].yielded == After(Log(w, w.streams[id].run), w.streams[id].after)
  }

  lemma CoveredIsCaughtUp(w: World, v: World, id: StreamId)
    requires id in w.streams && Inv(v) && SameStream(w, v, id) && Asleep(v, id) && Covered(v, id)
    ensures CaughtUp(w, v, id)
  {
    assert StreamAt(v, id);
    AfterIsSuffix(Log(v, v.streams[id].run), v.streams[id].after);
  }

  /** An open stream always catches up: by its own steps and the notices already on their way, and
      by nothing else, it comes to wait with every committed event yielded. */
  lemma OpenStreamCatchesUp(w: World, id: StreamId) returns (steps: seq<Step>)
    requires Inv(w) && id in w.streams && !w.streams[id].closed
    ensures Legal(w, steps) && forall k :: 0 <= k < |steps| ==> OwnOrNotice(steps[k], id, w.streams[id].run)
    ensures CaughtUp(w, Run(w, steps), id)
  {
    var settled := Settle(w, id);
    var v := Run(w, settled);
    steps := settled;
    assert StreamAt(v, id);
    if Covered(v, id) {
      CoveredIsCaughtUp(w, v, id);
    } else {
      var woken := Wake(v, id);
      var u := Run(v, woken);
      var again := Settle(u, id);
      RunJoins(v, woken, again);
      RunJoins(w, settled, woken + again);
      steps := settled + (woken + again);
      assert StreamAt(Run(u, again), id);
      CoveredIsCaughtUp(w, Run(u, again), id);
    }
  }
}
