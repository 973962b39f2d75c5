/** One adaptive tool session: admission of concurrent queries, their provider attempts and the
    single retry. Every stretch of code between two awaits is one step; the steps of different
    queries interleave freely.
    The log records, in order, what the session admits, starts, closes and refuses;
    ToolAdmissionSafety reads every promise off the log. */
module ToolAdmission {

  datatype Limits = Limits(total: nat, perSpecialist: nat)

  type Agent = int

  type Fingerprint = int

  /** What the environment and the earlier checks say about one query. `fenceOpen`: the run may
      still execute; `committed`: a durable success exists; `startOpen`: the deadline still has
      room when the first attempt starts. */
  datatype Request = Request(
    agent: Agent, fingerprint: Fingerprint, deadlineOpen: bool, available: bool, parsed: bool, callable: bool,
    valid: bool, inScope: bool, fenceOpen: bool, committed: bool, startOpen: bool)

  datatype Refusal = Unavailable | InvalidInput | NotCallable | InvalidQuery | OutOfScope | Duplicate | AgentStopped | BudgetExhausted

  datatype Outcome = Ended | Aborted | Reused | Refused(why: Refusal) | Admitted

  /** Attempt `attempt` is running, or its failed record is being written before a retry. */
  datatype Phase = Running(attempt: nat) | Closing(attempt: nat) | Done

  datatype Call = Call(agent: Agent, fingerprint: Fingerprint, phase: Phase)

  datatype Entry =
    | Admission(call: nat, agent: Agent, fingerprint: Fingerprint)
    | Started(call: nat, attempt: nat)
    | Succeeded(call: nat, attempt: nat)
    | Failed(call: nat, attempt: nat)
    | Rejection(agent: Agent, why: Refusal)
    | Reuse(agent: Agent)

  datatype Count = Count(agent: Agent, queries: nat)

  datatype Session = Session(attempts: seq<Count>, total: nat, fingerprints: set<Fingerprint>, stopped: set<Agent>)

  datatype State = State(session: Session, calls: seq<Call>, log: seq<Entry>)

  datatype Event =
    | Begin(request: Request)
    | Succeeds(call: nat)
    | Retryable(call: nat, fencesOpen: bool)
    | Fails(call: nat, stops: bool)
    | RecordWritten(call: nat, startOpen: bool)

  // ---------------------------------------------------------------- counters

  function Queries(attempts: seq<Count>, a: Agent): nat {
    if attempts == [] then 0
    else if attempts[0].agent == a then attempts[0].queries
    else Queries(attempts[1..], a)
  }

  function Bump(attempts: seq<Count>, a: Agent): seq<Count> {
    if attempts == [] then [Count(a, 1)]
    else if attempts[0].agent == a then [attempts[0].(queries := attempts[0].queries + 1)] + attempts[1..]
    else [attempts[0]] + Bump(attempts[1..], a)
  }

  function Peak(attempts: seq<Count>): nat {
    if attempts == [] then 0
    else
      var rest := Peak(attempts[1..]);
      if attempts[0].queries < rest then rest else attempts[0].queries
  }

  lemma {:induction false} BumpMeans(attempts: seq<Count>, a: Agent, b: Agent)
    ensures Queries(Bump(attempts, a), b) == Queries(attempts, b) + if a == b then 1 else 0
    ensures Peak(Bump(attempts, a)) <= Peak(attempts) + 1
    ensures Queries(attempts, a) <= Peak(attempts)
  {
    if attempts != [] {
      BumpMeans(attempts[1..], a, b);
      assert Bump(attempts, a)[1..] == if attempts[0].agent == a then attempts[1..] else Bump(attempts[1..], a);
    }
  }

  predicate OverBudget(limits: Limits, s: Session, a: Agent) {
    Queries(s.attempts, a) > limits.perSpecialist || s.total > limits.total
  }

  /** `outside` is the budget of the run, when there is one. */
  function RemainingCalls(limits: Limits, s: Session, outside: int): nat {
    var byTotal := limits.total - s.total;
    var bySpecialist := limits.perSpecialist - Peak(s.attempts);
    var least := if byTotal < bySpecialist then byTotal else bySpecialist;
    var bounded := if outside < least then outside else least;
    if bounded < 0 then 0 else bounded
  }

  // ---------------------------------------------------------------- one query enters

  function Counted(s: Session, a: Agent): Session {
    s.(attempts := Bump(s.attempts, a), total := s.total + 1)
  }

  /** The checks in order, after the query has been counted. */
  function OutcomeOf(limits: Limits, s: Session, r: Request): Outcome {
    if !r.deadlineOpen then Ended
    else if !r.available then Refused(Unavailable)
    else if !r.parsed then Refused(InvalidInput)
    else if !r.callable then Refused(NotCallable)
    else if !r.valid then Refused(InvalidQuery)
    else if !r.inScope then Refused(OutOfScope)
    else if !r.fenceOpen then Aborted
    else if r.committed then Reused
    else if r.fingerprint in s.fingerprints then Refused(Duplicate)
    else if r.agent in s.stopped then Refused(AgentStopped)
    else if OverBudget(limits, Counted(s, r.agent), r.agent) then Refused(BudgetExhausted)
    else Admitted
  }

  function Enter(limits: Limits, st: State, r: Request): State {
    var s := Counted(st.session, r.agent);
    match OutcomeOf(limits, st.session, r)
    case Ended => st
    case Aborted => st.(session := s)
    case Reused => st.(session := s, log := st.log + [Reuse(r.agent)])
    case Refused(why) =>
      st.(session := if why == BudgetExhausted then s.(stopped := s.stopped + {r.agent}) else s,
          log := st.log + [Rejection(r.agent, why)])
    case Admitted =>
      var id := |st.calls|;
      State(s.(fingerprints := s.fingerprints + {r.fingerprint}),
            st.calls + [Call(r.agent, r.fingerprint, if r.startOpen then Running(1) else Done)],
            st.log + [Admission(id, r.agent, r.fingerprint)] + if r.startOpen then [Started(id, 1)] else [])
  }

  // ---------------------------------------------------------------- one attempt ends

  function Ending(st: State, id: nat, entries: seq<Entry>, stops: bool): State
    requires id < |st.calls|
  {
    var c := st.calls[id];
    st.(calls := st.calls[id := c.(phase := Done)],
        log := st.log + entries,
        session := if stops then st.session.(stopped := st.session.stopped + {c.agent}) else st.session)
  }

  predicate IsRunning(st: State, id: nat) {
    id < |st.calls| && st.calls[id].phase.Running?
  }

  predicate IsClosing(st: State, id: nat) {
    id < |st.calls| && st.calls[id].phase.Closing?
  }

  predicate IsLive(st: State, id: nat) {
    IsRunning(st, id) || IsClosing(st, id)
  }

  /** A retryable failure: the first attempt is closed for a retry, the second fails the query.
      A closed fence (lease, deadline or permission) fails the query at once. */
  function OnRetryable(st: State, id: nat, fencesOpen: bool): State
    requires IsRunning(st, id)
  {
    var k := st.calls[id].phase.attempt;
    if k == 1 && fencesOpen then st.(calls := st.calls[id := st.calls[id].(phase := Closing(k))])
    else Ending(st, id, [Failed(id, k)], false)
  }

  /** The failed record of the first attempt has been written: retry, or give up. */
  function OnRecordWritten(limits: Limits, st: State, id: nat, startOpen: bool): State
    requires IsClosing(st, id)
  {
    var c := st.calls[id];
    var k := c.phase.attempt;
    if OverBudget(limits, st.session, c.agent) then
      Ending(st, id, [Failed(id, k), Rejection(c.agent, BudgetExhausted)], true)
    else if !startOpen then Ending(st, id, [Failed(id, k), Failed(id, k)], true)
    else
      st.(calls := st.calls[id := c.(phase := Running(k + 1))], log := st.log + [Failed(id, k), Started(id, k + 1)])
  }

  /** `Fails` covers timeouts, other errors and cancellation, also while a record is being
      written. An event that does not apply to its call changes nothing. */
  function Next(limits: Limits, st: State, e: Event): State {
    match e
    case Begin(r) => Enter(limits, st, r)
    case Succeeds(id) => if IsRunning(st, id) then Ending(st, id, [Succeeded(id, st.calls[id].phase.attempt)], false) else st
    case Retryable(id, fencesOpen) => if IsRunning(st, id) then OnRetryable(st, id, fencesOpen) else st
    case Fails(id, stops) => if IsLive(st, id) then Ending(st, id, [Failed(id, st.calls[id].phase.attempt)], stops) else st
    case RecordWritten(id, startOpen) => if IsClosing(st, id) then OnRecordWritten(limits, st, id, startOpen) else st
  }

  const FRESH := State(Session([], 0, {}, {}), [], [])

  function After(limits: Limits, st: State, events: seq<Event>): State {
    if events == [] then st else Next(limits, After(limits, st, events[..|events| - 1]), events[|events| - 1])
  }

  // ---------------------------------------------------------------- the session object

  class AdaptiveToolSession {
    const limits: Limits
    var attempts: seq<Count>
    var total: nat
    var fingerprints: set<Fingerprint>
    var stopped: set<Agent>
    var calls: seq<Call>
    var log: seq<Entry>

    constructor (limits: Limits)
      ensures this.limits == limits && Value() == FRESH
    {
      this.limits := limits;
      attempts, total, fingerprints, stopped, calls, log := [], 0, {}, {}, [], [];
    }

    function Value(): State
      reads this
    {
      State(Session(attempts, total, fingerprints, stopped), calls, log)
    }

    method Invoke(r: Request)
      modifies this
      ensures Value() == Enter(limits, old(Value()), r)
    {
      if !r.deadlineOpen {
        return;
      }
      ghost var before := Value();
      attempts := Bump(attempts, r.agent);
      total := total + 1;
      if !r.available {
        Reject(r.agent, Unavailable);
      } else if !r.parsed {
        Reject(r.agent, InvalidInput);
      } else if !r.callable {
        Reject(r.agent, NotCallable);
      } else if !r.valid {
        Reject(r.agent, InvalidQuery);
      } else if !r.inScope {
        Reject(r.agent, OutOfScope);
      } else if !r.fenceOpen {
        return;
      } else if r.committed {
        log := log + [Reuse(r.agent)];
      } else if r.fingerprint in fingerprints {
        Reject(r.agent, Duplicate);
      } else if r.agent in stopped {
        Reject(r.agent, AgentStopped);
      } else if Queries(attempts, r.agent) > limits.perSpecialist || total > limits.total {
        Reject(r.agent, BudgetExhausted);
      } else {
        fingerprints := fingerprints + {r.fingerprint};
        var id := |calls|;
        log := log + [Admission(id, r.agent, r.fingerprint)];
        calls := calls + [Call(r.agent, r.fingerprint, Done)];
        if r.startOpen {
          StartAttempt(id, 1);
        }
      }
    }

    method Reject(a: Agent, why: Refusal)
      modifies this`log, this`stopped
      ensures log == old(log) + [Rejection(a, why)]
      ensures stopped == old(stopped) + if why == BudgetExhausted then {a} else {}
    {
      log := log + [Rejection(a, why)];
      if why == BudgetExhausted {
        stopped := stopped + {a};
      }
    }

    method StartAttempt(id: nat, k: nat)
      requires id < |calls|
      modifies this`log, this`calls
      ensures log == old(log) + [Started(id, k)]
      ensures calls == old(calls)[id := old(calls)[id].(phase := Running(k))]
    {
      log := log + [Started(id, k)];
      calls := calls[id := calls[id].(phase := Running(k))];
    }

    /** Before the retry the failed record is written, and only then the budget is checked. */
    method RecordFailureAndRetry(id: nat, startOpen: bool)
      requires IsClosing(Value(), id)
      modifies this
      ensures Value() == OnRecordWritten(limits, old(Value()), id, startOpen)
    {
      var c := calls[id];
      log := log + [Failed(id, c.phase.attempt)];
      if Queries(attempts, c.agent) > limits.perSpecialist || total > limits.total {
        Reject(c.agent, BudgetExhausted);
        calls := calls[id := c.(phase := Done)];
      } else if !startOpen {
        log := log + [Failed(id, c.phase.attempt)];
        stopped := stopped + {c.agent};
        calls := calls[id := c.(phase := Done)];
      } else {
        StartAttempt(id, c.phase.attempt + 1);
      }
    }

    method RemainingToolCalls(outside: int) returns (r: nat)
      ensures r == RemainingCalls(limits, Value().session, outside)
    {
      var byTotal := limits.total - total;
      var bySpecialist := limits.perSpecialist - Peak(attempts);
      var remaining := if byTotal < bySpecialist then byTotal else bySpecialist;
      if outside < remaining {
        remaining := outside;
      }
      r := if remaining < 0 then 0 else remaining;
    }
  }
}
