/** What holds in every interleaving of a tool session. */
module ToolAdmissionSafety {
  import opened ToolAdmission

  // ---------------------------------------------------------------- reading the log

  function CountAdmissions(log: seq<Entry>): nat {
    if log == [] then 0
    else CountAdmissions(log[..|log| - 1]) + if log[|log| - 1].Admission? then 1 else 0
  }

  function CountAdmissionsOf(log: seq<Entry>, a: Agent): nat {
    if log == [] then 0
    else CountAdmissionsOf(log[..|log| - 1], a) + if log[|log| - 1].Admission? && log[|log| - 1].agent == a then 1 else 0
  }

  function CountStarts(log: seq<Entry>, id: nat): nat {
    if log == [] then 0
    else CountStarts(log[..|log| - 1], id) + if log[|log| - 1].Started? && log[|log| - 1].call == id then 1 else 0
  }

  lemma {:induction false} CountsAdd(log: seq<Entry>, more: seq<Entry>, a: Agent, id: nat)
    ensures CountAdmissions(log + more) == CountAdmissions(log) + CountAdmissions(more)
    ensures CountAdmissionsOf(log + more, a) == CountAdmissionsOf(log, a) + CountAdmissionsOf(more, a)
    ensures CountStarts(log + more, id) == CountStarts(log, id) + CountStarts(more, id)
  {
    if more == [] {
      assert log + more == log;
    } else {
      var n := |more| - 1;
      CountsAdd(log, more[..n], a, id);
      assert (log + more)[..|log + more| - 1] == log + more[..n];
    }
  }

  lemma CountsOfOne(e: Entry, a: Agent, id: nat)
    ensures CountAdmissions([e]) == if e.Admission? then 1 else 0
    ensures CountAdmissionsOf([e], a) == if e.Admission? && e.agent == a then 1 else 0
    ensures CountStarts([e], id) == if e.Started? && e.call == id then 1 else 0
  {
    assert [e][..0] == [];
  }

  lemma CountsOfTwo(e: Entry, f: Entry, a: Agent, id: nat)
    ensures CountAdmissions([e, f]) == CountAdmissions([e]) + CountAdmissions([f])
    ensures CountAdmissionsOf([e, f], a) == CountAdmissionsOf([e], a) + CountAdmissionsOf([f], a)
    ensures CountStarts([e, f], id) == CountStarts([e], id) + CountStarts([f], id)
  {
    CountsAdd([e], [f], a, id);
    assert [e] + [f] == [e, f];
  }

  // ---------------------------------------------------------------- admissions stay within the budget

  /** Admissions never outnumber what was counted when the last of them passed the check. */
  ghost predicate WithinBudget(limits: Limits, st: State) {
    && CountAdmissions(st.log) <= limits.total && CountAdmissions(st.log) <= st.session.total
    && forall a: Agent :: CountAdmissionsOf(st.log, a) <= limits.perSpecialist
                          && CountAdmissionsOf(st.log, a) <= Queries(st.session.attempts, a)
  }

  /** What a step appends to the log. */
  function Appended(limits: Limits, st: State, e: Event): seq<Entry> {
    match e
    case Begin(r) => (
      match OutcomeOf(limits, st.session, r)
      case Ended => []
      case Aborted => []
      case Reused => [Reuse(r.agent)]
      case Refused(why) => [Rejection(r.agent, why)]
      case Admitted => [Admission(|st.calls|, r.agent, r.fingerprint)] + if r.startOpen then [Started(|st.calls|, 1)] else [])
    case Succeeds(id) => if IsRunning(st, id) then [Succeeded(id, st.calls[id].phase.attempt)] else []
    case Retryable(id, fencesOpen) =>
      if IsRunning(st, id) && !(st.calls[id].phase.attempt == 1 && fencesOpen) then [Failed(id, st.calls[id].phase.attempt)] else []
    case Fails(id, stops) => if IsLive(st, id) then [Failed(id, st.calls[id].phase.attempt)] else []
    case RecordWritten(id, startOpen) =>
      if !IsClosing(st, id) then []
      else [Failed(id, st.calls[id].phase.attempt),
            if OverBudget(limits, st.session, st.calls[id].agent) then Rejection(st.calls[id].agent, BudgetExhausted)
            else if !startOpen then Failed(id, st.calls[id].phase.attempt)
            else Started(id, st.calls[id].phase.attempt + 1)]
  }

  lemma NextAppends(limits: Limits, st: State, e: Event)
    ensures Next(limits, st, e).log == st.log + Appended(limits, st, e)
  {
  }

  lemma AppendedAdmissions(limits: Limits, st: State, e: Event, a: Agent)
    ensures CountAdmissions(Appended(limits, st, e)) == if e.Begin? && OutcomeOf(limits, st.session, e.request) == Admitted then 1 else 0
    ensures CountAdmissionsOf(Appended(limits, st, e), a)
            == if e.Begin? && OutcomeOf(limits, st.session, e.request) == Admitted && e.request.agent == a then 1 else 0
  {
    var more := Appended(limits, st, e);
    if |more| == 1 {
      assert more == [more[0]];
      CountsOfOne(more[0], a, 0);
    } else if |more| == 2 {
      assert more == [more[0], more[1]];
      CountsOfTwo(more[0], more[1], a, 0);
      CountsOfOne(more[0], a, 0);
      CountsOfOne(more[1], a, 0);
    }
  }

  /** How many admissions a step appends for agent `a`. */
  function NewAdmissions(limits: Limits, st: State, e: Event, a: Agent): nat {
    if e.Begin? && OutcomeOf(limits, st.session, e.request) == Admitted && e.request.agent == a then 1 else 0
  }

  lemma CountersKeepUp(limits: Limits, st: State, e: Event, a: Agent, total: nat, own: nat)
    requires total <= limits.total && total <= st.session.total
    requires own <= limits.perSpecialist && own <= Queries(st.session.attempts, a)
    ensures var added := if e.Begin? && OutcomeOf(limits, st.session, e.request) == Admitted then 1 else 0;
            total + added <= limits.total && total + added <= Next(limits, st, e).session.total
    ensures var added := NewAdmissions(limits, st, e, a);
            own + added <= limits.perSpecialist && own + added <= Queries(Next(limits, st, e).session.attempts, a)
  {
    if e.Begin? {
      BumpMeans(st.session.attempts, e.request.agent, a);
    }
  }

  lemma StepCounts(limits: Limits, st: State, e: Event, a: Agent)
    requires CountAdmissions(st.log) <= limits.total && CountAdmissions(st.log) <= st.session.total
    requires CountAdmissionsOf(st.log, a) <= limits.perSpecialist && CountAdmissionsOf(st.log, a) <= Queries(st.session.attempts, a)
    ensures var next := Next(limits, st, e);
            && CountAdmissions(next.log) <= limits.total && CountAdmissions(next.log) <= next.session.total
            && CountAdmissionsOf(next.log, a) <= limits.perSpecialist
            && CountAdmissionsOf(next.log, a) <= Queries(next.session.attempts, a)
  {
    NextAppends(limits, st, e);
    CountsAdd(st.log, Appended(limits, st, e), a, 0);
    AppendedAdmissions(limits, st, e, a);
    CountersKeepUp(limits, st, e, a, CountAdmissions(st.log), CountAdmissionsOf(st.log, a));
  }

  lemma StepWithinBudget(limits: Limits, st: State, e: Event)
    requires WithinBudget(limits, st)
    ensures WithinBudget(limits, Next(limits, st, e))
  {
    var next := Next(limits, st, e);
    forall a: Agent
      ensures CountAdmissionsOf(next.log, a) <= limits.perSpecialist && CountAdmissionsOf(next.log, a) <= Queries(next.session.attempts, a)
    {
      assert CountAdmissionsOf(st.log, a) <= limits.perSpecialist;
      StepCounts(limits, st, e, a);
    }
    assert CountAdmissionsOf(st.log, 0) <= limits.perSpecialist;
    StepCounts(limits, st, e, 0);
  }

  // ---------------------------------------------------------------- no fingerprint twice

  ghost predicate Admits(log: seq<Entry>, p: int, f: Fingerprint) {
    0 <= p < |log| && log[p].Admission? && log[p].fingerprint == f
  }

  ghost predicate FingerprintsOnce(st: State) {
    && (forall p, f :: Admits(st.log, p, f) ==> f in st.session.fingerprints)
    && (forall p, q, f :: Admits(st.log, p, f) && Admits(st.log, q, f) ==> p == q)
  }

  lemma StepFingerprintsOnce(limits: Limits, st: State, e: Event)
    requires FingerprintsOnce(st)
    ensures FingerprintsOnce(Next(limits, st, e))
  {
    var next, n, more := Next(limits, st, e), |st.log|, Appended(limits, st, e);
    NextAppends(limits, st, e);
    forall p, f | Admits(next.log, p, f) ensures f in next.session.fingerprints && (p < n ==> Admits(st.log, p, f)) && (p >= n ==> p == n && f !in st.session.fingerprints) {
      if p < n {
        assert Admits(st.log, p, f);
      } else {
        assert next.log[p] == more[p - n];
      }
    }
  }

  // ---------------------------------------------------------------- at most one retry, after its record

  /** Attempt 2 of a call starts only after attempt 1 has started and its failed record is written. */
  ghost predicate RetryFollowsRecord(log: seq<Entry>) {
    forall p, id, k :: IsEntry(log, p, Started(id, k)) ==> k == 1 || (k == 2 && FailedEarlier(log, p, id))
  }

  ghost predicate IsEntry(log: seq<Entry>, p: int, e: Entry) {
    0 <= p < |log| && log[p] == e
  }

  ghost predicate FailedEarlier(log: seq<Entry>, p: int, id: nat) {
    exists q :: q < p && IsEntry(log, q, Failed(id, 1)) && StartedEarlier(log, q, id)
  }

  ghost predicate StartedEarlier(log: seq<Entry>, q: int, id: nat) {
    exists r :: r < q && IsEntry(log, r, Started(id, 1))
  }

  /** How many attempts a call in this phase has started, at most. */
  predicate StartsFit(phase: Phase, starts: nat) {
    match phase
    case Running(k) => (k == 1 || k == 2) && starts == k
    case Closing(k) => k == 1 && starts == 1
    case Done => starts <= 2
  }

  ghost predicate CallsInOrder(st: State) {
    && (forall id: nat :: id < |st.calls| ==> StartsFit(st.calls[id].phase, CountStarts(st.log, id)))
    && (forall id: nat :: id >= |st.calls| ==> CountStarts(st.log, id) == 0)
    && (forall id: nat :: IsLive(st, id) && st.calls[id].phase.attempt == 1 ==> StartedEarlier(st.log, |st.log|, id))
  }

  function NewStarts(limits: Limits, st: State, e: Event, id: nat): nat {
    if (e.Begin? && OutcomeOf(limits, st.session, e.request) == Admitted && e.request.startOpen && id == |st.calls|)
       || (e.RecordWritten? && e.call == id && IsClosing(st, id) && e.startOpen && !OverBudget(limits, st.session, st.calls[id].agent))
    then 1 else 0
  }

  lemma AppendedStarts(limits: Limits, st: State, e: Event, id: nat)
    ensures CountStarts(Appended(limits, st, e), id) == NewStarts(limits, st, e, id)
  {
    var more := Appended(limits, st, e);
    if |more| == 1 {
      assert more == [more[0]];
      CountsOfOne(more[0], 0, id);
    } else if |more| == 2 {
      assert more == [more[0], more[1]];
      CountsOfTwo(more[0], more[1], 0, id);
      CountsOfOne(more[0], 0, id);
      CountsOfOne(more[1], 0, id);
    }
  }

  lemma StartedStays(log: seq<Entry>, more: seq<Entry>, q: int, id: nat)
    requires StartedEarlier(log, q, id)
    ensures StartedEarlier(log + more, q, id)
  {
    var r :| r < q && IsEntry(log, r, Started(id, 1));
    assert IsEntry(log + more, r, Started(id, 1));
  }

  lemma FailedStays(log: seq<Entry>, more: seq<Entry>, p: int, id: nat)
    requires FailedEarlier(log, p, id)
    ensures FailedEarlier(log + more, p, id)
  {
    var q :| q < p && IsEntry(log, q, Failed(id, 1)) && StartedEarlier(log, q, id);
    StartedStays(log, more, q, id);
    assert IsEntry(log + more, q, Failed(id, 1));
  }

  /** One call's phase and number of starts move together. */
  lemma PhaseFits(limits: Limits, st: State, e: Event, id: nat, starts: nat)
    requires if id < |st.calls| then StartsFit(st.calls[id].phase, starts) else starts == 0
    ensures var next := Next(limits, st, e);
            if id < |next.calls| then StartsFit(next.calls[id].phase, starts + NewStarts(limits, st, e, id))
            else starts + NewStarts(limits, st, e, id) == 0
  {
  }

  lemma StepStartsFit(limits: Limits, st: State, e: Event, id: nat)
    requires CallsInOrder(st)
    ensures var next := Next(limits, st, e);
            if id < |next.calls| then StartsFit(next.calls[id].phase, CountStarts(next.log, id)) else CountStarts(next.log, id) == 0
  {
    NextAppends(limits, st, e);
    CountsAdd(st.log, Appended(limits, st, e), 0, id);
    AppendedStarts(limits, st, e, id);
    PhaseFits(limits, st, e, id, CountStarts(st.log, id));
  }

  lemma StepKeepsStarted(limits: Limits, st: State, e: Event, id: nat)
    requires CallsInOrder(st)
    requires IsLive(Next(limits, st, e), id) && Next(limits, st, e).calls[id].phase.attempt == 1
    ensures StartedEarlier(Next(limits, st, e).log, |Next(limits, st, e).log|, id)
  {
    var next, more := Next(limits, st, e), Appended(limits, st, e);
    NextAppends(limits, st, e);
    if id < |st.calls| {
      assert IsLive(st, id) && st.calls[id].phase.attempt == 1;
      var r :| r < |st.log| && IsEntry(st.log, r, Started(id, 1));
      assert IsEntry(next.log, r, Started(id, 1));
    } else {
      assert IsEntry(next.log, |st.log| + 1, Started(id, 1));
    }
  }

  lemma StepCallsInOrder(limits: Limits, st: State, e: Event)
    requires CallsInOrder(st)
    ensures CallsInOrder(Next(limits, st, e))
  {
    forall id: nat
      ensures if id < |Next(limits, st, e).calls| then StartsFit(Next(limits, st, e).calls[id].phase, CountStarts(Next(limits, st, e).log, id))
              else CountStarts(Next(limits, st, e).log, id) == 0
    {
      StepStartsFit(limits, st, e, id);
    }
    forall id: nat | IsLive(Next(limits, st, e), id) && Next(limits, st, e).calls[id].phase.attempt == 1
      ensures StartedEarlier(Next(limits, st, e).log, |Next(limits, st, e).log|, id)
    {
      StepKeepsStarted(limits, st, e, id);
    }
  }

  lemma StepRetryFollows(limits: Limits, st: State, e: Event)
    requires CallsInOrder(st) && RetryFollowsRecord(st.log)
    ensures RetryFollowsRecord(Next(limits, st, e).log)
  {
    var next, n, more := Next(limits, st, e), |st.log|, Appended(limits, st, e);
    NextAppends(limits, st, e);
    forall p, id, k | IsEntry(next.log, p, Started(id, k)) ensures k == 1 || (k == 2 && FailedEarlier(next.log, p, id)) {
      if p < n {
        assert IsEntry(st.log, p, Started(id, k));
        if k == 2 {
          FailedStays(st.log, more, p, id);
        }
      } else {
        assert next.log[p] == more[p - n];
        if e.RecordWritten? {
          NewRetryFollows(st, more, id, k, p);
        }
      }
    }
  }

  lemma NewRetryFollows(st: State, more: seq<Entry>, id: nat, k: nat, p: int)
    requires CallsInOrder(st) && IsClosing(st, id) && k == st.calls[id].phase.attempt + 1
    requires more == [Failed(id, st.calls[id].phase.attempt), Started(id, k)] && p == |st.log| + 1
    ensures k == 2 && FailedEarlier(st.log + more, p, id)
  {
    assert StartsFit(st.calls[id].phase, CountStarts(st.log, id));
    assert IsLive(st, id);
    StartedStays(st.log, more, |st.log|, id);
    assert IsEntry(st.log + more, |st.log|, Failed(id, 1));
  }

  // ---------------------------------------------------------------- every interleaving

  /** In every interleaving of queries, outcomes and record writes: at most `total` queries are
      admitted and at most `perSpecialist` of one agent, no fingerprint is admitted twice, no
      query starts more than two attempts, and the second only after the first's failed record. */
  lemma {:induction false} EveryRunIsSafe(limits: Limits, events: seq<Event>)
    ensures var st := After(limits, FRESH, events);
            WithinBudget(limits, st) && FingerprintsOnce(st) && CallsInOrder(st) && RetryFollowsRecord(st.log)
  {
    if events != [] {
      var before := events[..|events| - 1];
      EveryRunIsSafe(limits, before);
      StepWithinBudget(limits, After(limits, FRESH, before), events[|events| - 1]);
      StepFingerprintsOnce(limits, After(limits, FRESH, before), events[|events| - 1]);
      StepCallsInOrder(limits, After(limits, FRESH, before), events[|events| - 1]);
      StepRetryFollows(limits, After(limits, FRESH, before), events[|events| - 1]);
    }
  }

  lemma AtMostTwoAttempts(limits: Limits, events: seq<Event>, id: nat)
    ensures CountStarts(After(limits, FRESH, events).log, id) <= 2
  {
    EveryRunIsSafe(limits, events);
    var st := After(limits, FRESH, events);
    if id < |st.calls| {
      assert StartsFit(st.calls[id].phase, CountStarts(st.log, id));
    }
  }

  // ---------------------------------------------------------------- what the remaining number promises

  function Begins(events: seq<Event>): nat {
    if events == [] then 0 else Begins(events[..|events| - 1]) + if events[|events| - 1].Begin? then 1 else 0
  }

  predicate BudgetRefused(log: seq<Entry>, p: int) {
    0 <= p < |log| && log[p].Rejection? && log[p].why == BudgetExhausted
  }

  /** The counters still leave room for `room` more queries of any agents. */
  predicate HasRoom(limits: Limits, s: Session, room: int) {
    0 <= room && s.total + room <= limits.total && Peak(s.attempts) + room <= limits.perSpecialist
  }

  lemma StepWithRoom(limits: Limits, st: State, e: Event, room: nat)
    requires HasRoom(limits, st.session, room) && (e.Begin? ==> room > 0)
    ensures HasRoom(limits, Next(limits, st, e).session, if e.Begin? then room - 1 else room)
    ensures forall p :: BudgetRefused(Next(limits, st, e).log, p) ==> BudgetRefused(st.log, p)
  {
    NextAppends(limits, st, e);
    match e
    case Begin(r) =>
      BumpMeans(st.session.attempts, r.agent, r.agent);
      BumpMeans(Bump(st.session.attempts, r.agent), r.agent, r.agent);
    case RecordWritten(id, startOpen) =>
      if IsClosing(st, id) {
        BumpMeans(st.session.attempts, st.calls[id].agent, st.calls[id].agent);
      }
    case _ =>
  }

  /** The number shown to the model is a promise: however queries of any agents and their
      outcomes interleave, the next `remaining` queries meet no refusal for the session budget,
      neither on entry nor before a retry. */
  lemma {:induction false} RemainingIsHonest(limits: Limits, st: State, outside: int, events: seq<Event>, p: int)
    requires 0 < RemainingCalls(limits, st.session, outside) && Begins(events) <= RemainingCalls(limits, st.session, outside)
    ensures BudgetRefused(After(limits, st, events).log, p) ==> BudgetRefused(st.log, p)
    ensures HasRoom(limits, After(limits, st, events).session, RemainingCalls(limits, st.session, outside) - Begins(events))
  {
    if events != [] {
      var before, last := events[..|events| - 1], events[|events| - 1];
      RemainingIsHonest(limits, st, outside, before, p);
      StepWithRoom(limits, After(limits, st, before), last, RemainingCalls(limits, st.session, outside) - Begins(before));
    }
  }

  /** With no other query in between, a fresh query is refused for the budget exactly when its
      agent's count or the total is used up. */
  lemma FreshQueryRefused(limits: Limits, s: Session, r: Request)
    requires r.deadlineOpen && r.available && r.parsed && r.callable && r.valid && r.inScope && r.fenceOpen && !r.committed
    requires r.fingerprint !in s.fingerprints && r.agent !in s.stopped
    ensures OutcomeOf(limits, s, r) == Refused(BudgetExhausted)
            <==> Queries(s.attempts, r.agent) >= limits.perSpecialist || s.total >= limits.total
    ensures forall outside: int :: RemainingCalls(limits, s, outside) > 0 ==> OutcomeOf(limits, s, r) == Admitted
  {
    BumpMeans(s.attempts, r.agent, r.agent);
  }
}
