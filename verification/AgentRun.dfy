/** The multi-agent turn driver: what it appends to a run's records and how it labels the run.

    Everything a model can return is a free input: drafts may be missing, repeated, from an
    unknown or unrequested agent, malformed, or cite evidence that was not supplied.
    A run is a function of what its turns give back; AgentDriver has the loops that compute it. */
module AgentRun {
  import opened Options
  import opened Vocabulary

  const ALL_AGENTS: seq<AgentName> := [LOG, METRIC, DEPLOYMENT]
  const COORDINATOR := "CoordinatorAgent"

  function Label(a: AgentName): string {
    match a
    case LOG => "LogAgent"
    case METRIC => "MetricAgent"
    case DEPLOYMENT => "DeploymentAgent"
  }

  function ParseAgent(text: string): Option<AgentName> {
    if text == "LogAgent" then Some(LOG)
    else if text == "MetricAgent" then Some(METRIC)
    else if text == "DeploymentAgent" then Some(DEPLOYMENT)
    else None
  }

  datatype Status = Completed | Failed | Skipped

  datatype StepKind = InitialCoordination | SpecialistCollection | SpecialistRecollection | FinalSynthesis

  datatype FailureCategory =
    | NoFailure | NotConfigured | Authentication | RateLimit | Quota | Timeout | CancelledCall
    | Transport | InvalidOutput | InvalidReference | MissingSpecialist | UnsafeOutput
    | Persistence | ContractIntegrity | UnknownFailure

  datatype RunStatus = RunCompleted | RunPartial | RunFailed | RunSkipped

  datatype Task = Task(id: nat, agent: string, round: nat, status: Status)

  datatype Execution = Execution(
    id: nat, taskId: nat, agent: string, round: nat, status: Status,
    step: StepKind, attempt: nat, category: FailureCategory, evidence: seq<EvidenceId>)

  datatype Finding = Finding(
    id: nat, agent: AgentName, kind: FindingType, cause: Option<Cause>, confidence: real,
    evidence: seq<EvidenceId>, blocking: bool, round: nat, revises: Option<nat>)

  datatype SpecialistDraft = SpecialistDraft(
    kind: FindingType, cause: Option<Cause>, confidence: real, evidence: seq<EvidenceId>, hasGaps: bool, blocking: bool)

  /** `draft` is None when the payload fails the draft schema, before or after redaction. */
  datatype CapturedDraft = CapturedDraft(agentName: string, round: int, draft: Option<SpecialistDraft>)

  datatype Turn = Turn(
    drafts: seq<CapturedDraft>, proposal: bool, error: Option<string>,
    cancelled: bool, category: FailureCategory)

  datatype TurnOutcome = Returned(turn: Turn) | TimedOut | Errored(category: FailureCategory) | CancelledTurn

  /** The record lists of one run; `next` feeds every fresh identifier. */
  datatype RunState = RunState(
    tasks: seq<Task>, executions: seq<Execution>, findings: seq<Finding>,
    review: bool, status: RunStatus, next: nat)

  const EMPTY_RUN := RunState([], [], [], false, RunFailed, 0)

  /** What one turn is asked for. */
  datatype Phase = Phase(
    requested: seq<AgentName>, allowed: AgentName -> set<EvidenceId>, round: nat,
    coordinatorStep: StepKind, specialistStep: StepKind, attempt: nat, recordCoordinator: bool)

  // ---------------------------------------------------------------- appending records

  function AddRecord(
    s: RunState, agent: string, round: nat, status: Status, step: StepKind,
    attempt: nat, category: FailureCategory, evidence: seq<EvidenceId>): RunState
  {
    s.(tasks := s.tasks + [Task(s.next, agent, round, status)],
       executions := s.executions
         + [Execution(s.next + 1, s.next, agent, round, status, step, attempt, category, evidence)],
       next := s.next + 2)
  }

  function AddFailure(s: RunState, agent: string, p: Phase, category: FailureCategory): RunState {
    AddRecord(s, agent, p.round, Failed, p.specialistStep, p.attempt, category, [])
  }

  /** A record for this agent name is refused: the title would exceed 128 characters, or the
      name belongs to an actor whose executions must carry a runtime run. */
  predicate RecordsReject(agent: string) {
    |agent| + 12 > 128 || agent in {"LeadAgent", "InvestigatorAgent", "CriticAgent"}
  }

  function FirstFinding(fs: seq<Finding>, a: AgentName, round: nat): (r: Option<Finding>)
    ensures r.Some? ==> r.value in fs && r.value.agent == a && r.value.round == round
    ensures r.None? ==> forall f :: f in fs ==> !(f.agent == a && f.round == round)
  {
    if fs == [] then None
    else if fs[0].agent == a && fs[0].round == round then Some(fs[0])
    else FirstFinding(fs[1..], a, round)
  }

  function LastFinding(fs: seq<Finding>, a: AgentName, round: nat): (r: Option<Finding>)
    ensures r.Some? ==> r.value in fs && r.value.agent == a && r.value.round == round
    ensures r.None? ==> forall f :: f in fs ==> !(f.agent == a && f.round == round)
  {
    if fs == [] then None
    else
      var last := fs[|fs| - 1];
      assert fs == fs[..|fs| - 1] + [last];
      if last.agent == a && last.round == round then Some(last)
      else LastFinding(fs[..|fs| - 1], a, round)
  }

  // ---------------------------------------------------------------- one turn, as a function

  datatype Intake = Intake(
    state: RunState, captured: set<AgentName>, invalid: set<AgentName>,
    invalidReference: set<AgentName>, returned: set<AgentName>, invalidCaptured: bool, raised: bool)

  predicate NamesNoCause(d: SpecialistDraft) {
    d.kind == RootCause && (d.cause == None || d.cause == Some(UnknownCause))
  }

  /** The finding model's own validation. */
  predicate FindingAccepts(d: SpecialistDraft) {
    && (d.kind != Gap ==> d.evidence != [])
    && (d.blocking ==> d.kind == Gap && d.hasGaps)
  }

  function FindingOf(id: nat, a: AgentName, d: SpecialistDraft, round: nat, revises: Option<nat>): Finding {
    Finding(id, a, d.kind, d.cause, d.confidence, d.evidence, d.blocking, round, revises)
  }

  function TakeSpecialistDraft(x: Intake, c: CapturedDraft, a: AgentName, p: Phase): Intake {
    var y := x.(returned := x.returned + {a});
    if c.round != p.round || c.draft.None? then
      y.(invalid := y.invalid + {a})
    else
      var d := c.draft.value;
      if exists e :: e in d.evidence && e !in p.allowed(a) then
        y.(invalid := y.invalid + {a}, invalidReference := y.invalidReference + {a})
      else if NamesNoCause(d) then
        y.(invalid := y.invalid + {a})
      else
        var earlier := FirstFinding(y.state.findings, a, 1);
        if (p.round == 2 && earlier.None?) || !FindingAccepts(d) then
          y.(invalid := y.invalid + {a})
        else
          var revises := if p.round == 2 then Some(earlier.value.id) else None;
          var f := FindingOf(y.state.next, a, d, p.round, revises);
          y.(captured := y.captured + {a},
             state := y.state.(findings := y.state.findings + [f], next := y.state.next + 1))
  }

  function TakeDraft(x: Intake, c: CapturedDraft, p: Phase): Intake {
    match ParseAgent(c.agentName)
    case None =>
      if RecordsReject(c.agentName) then x.(raised := true)
      else x.(state := AddFailure(x.state, c.agentName, p, InvalidOutput), invalidCaptured := true)
    case Some(a) =>
      if a !in p.requested || a in x.captured then
        x.(state := AddFailure(x.state, Label(a), p, InvalidOutput), invalidCaptured := true)
      else
        TakeSpecialistDraft(x, c, a, p)
  }

  function TakeDrafts(x: Intake, drafts: seq<CapturedDraft>, p: Phase): Intake
    decreases |drafts|
  {
    if drafts == [] || x.raised then x else TakeDrafts(TakeDraft(x, drafts[0], p), drafts[1..], p)
  }

  function SpecialistCategory(x: Intake, a: AgentName): FailureCategory {
    if a in x.invalidReference then InvalidReference
    else if a in x.returned || a in x.invalid then InvalidOutput
    else MissingSpecialist
  }

  function CloseSpecialist(s: RunState, x: Intake, a: AgentName, p: Phase): RunState {
    var finding := LastFinding(s.findings, a, p.round);
    var completed := finding.Some? && a !in x.invalid;
    AddRecord(s, Label(a), p.round, if completed then Completed else Failed, p.specialistStep, p.attempt,
              if completed then NoFailure else SpecialistCategory(x, a),
              if finding.Some? then finding.value.evidence else [])
  }

  function CloseSpecialists(s: RunState, x: Intake, names: seq<AgentName>, p: Phase): RunState
    decreases |names|
  {
    if names == [] then s else CloseSpecialists(CloseSpecialist(s, x, names[0], p), x, names[1..], p)
  }

  predicate CoordinatorSucceeds(t: Turn) {
    t.proposal && t.error.None?
  }

  function CoordinatorCategory(t: Turn): FailureCategory {
    if CoordinatorSucceeds(t) then NoFailure
    else if t.category != NoFailure then t.category
    else if t.error.None? then InvalidOutput
    else UnknownFailure
  }

  function RecordCoordinator(s: RunState, t: Turn, p: Phase): RunState {
    if p.recordCoordinator then
      AddRecord(s, COORDINATOR, p.round, if CoordinatorSucceeds(t) then Completed else Failed,
                p.coordinatorStep, p.attempt, CoordinatorCategory(t), [])
    else s
  }

  function StartIntake(s: RunState, t: Turn, p: Phase): Intake {
    Intake(RecordCoordinator(s, t, p), {}, {}, {}, {}, false, false)
  }

  datatype Consumption = Consumption(state: RunState, partial: bool, raised: bool)

  function Consumed(s: RunState, t: Turn, p: Phase): Consumption {
    var x := TakeDrafts(StartIntake(s, t, p), t.drafts, p);
    if x.raised then Consumption(x.state, false, true)
    else
      Consumption(
        CloseSpecialists(x.state, x, p.requested, p),
        !CoordinatorSucceeds(t) || x.invalid != {} || x.invalidCaptured
          || (set a | a in p.requested) != x.captured,
        false)
  }

  // ---------------------------------------------------------------- the whole run, as a function

  /** Everything the driver does not decide: what each model turn gives back, which evidence
      each specialist may cite, what the conflict search answers (None when it raises) and
      whether building the review raises. */
  datatype RunInput = RunInput(
    first: TurnOutcome, recollected: TurnOutcome, synthesis: TurnOutcome,
    firstAllowed: AgentName -> set<EvidenceId>, reviewAllowed: AgentName -> set<EvidenceId>,
    conflicting: seq<Finding> -> Option<set<AgentName>>, reviewRaises: bool)

  datatype RunOutcome = CancelledRun | Finished(state: RunState)

  function RecordFailure(s: RunState, category: FailureCategory, step: StepKind, attempt: nat, round: nat): RunState {
    AddRecord(s, COORDINATOR, round, Failed, step, attempt, category, []).(review := false, status := RunFailed)
  }

  function FinishFailed(s: RunState): RunState {
    s.(review := false, status := RunFailed)
  }

  predicate Truthy(error: Option<string>) {
    error.Some? && error.value != ""
  }

  /** Some captured name is unknown, or the same specialist answered twice. */
  predicate NonrecoverableOutput(drafts: seq<CapturedDraft>) {
    || (exists i :: 0 <= i < |drafts| && ParseAgent(drafts[i].agentName).None?)
    || (exists i, j :: 0 <= i < j < |drafts| && ParseAgent(drafts[i].agentName) == ParseAgent(drafts[j].agentName))
  }

  function Missing(fs: seq<Finding>, names: seq<AgentName>): (r: seq<AgentName>)
    ensures forall a :: a in r <==> a in names && FirstFinding(fs, a, 1).None?
  {
    if names == [] then []
    else (if FirstFinding(fs, names[0], 1).None? then [names[0]] else []) + Missing(fs, names[1..])
  }

  function Selected(conflicting: set<AgentName>, names: seq<AgentName>): (r: seq<AgentName>)
    ensures forall a :: a in r <==> a in names && a in conflicting
  {
    if names == [] then []
    else (if names[0] in conflicting then [names[0]] else []) + Selected(conflicting, names[1..])
  }

  function FirstPhase(i: RunInput, cancelled: bool): Phase {
    Phase(ALL_AGENTS, i.firstAllowed, 1, InitialCoordination, SpecialistCollection, 1, !cancelled)
  }

  function RecollectPhase(i: RunInput, missing: seq<AgentName>, cancelled: bool): Phase {
    Phase(missing, i.firstAllowed, 1, SpecialistRecollection, SpecialistRecollection, 2, !cancelled)
  }

  function SynthesisPhase(i: RunInput, selected: seq<AgentName>, cancelled: bool): Phase {
    Phase(selected, i.reviewAllowed, 2, FinalSynthesis, SpecialistCollection, 1, !cancelled)
  }

  predicate DriverRecovered(xs: seq<Execution>, agent: string) {
    exists e :: e in xs && e.round == 1 && e.attempt == 2 && e.step == SpecialistRecollection
             && e.status == Completed && e.agent == agent
  }

  predicate DriverResolves(xs: seq<Execution>, e: Execution) {
    e.attempt == 1 && e.category == MissingSpecialist && DriverRecovered(xs, e.agent)
  }

  predicate UnresolvedFirstRound(xs: seq<Execution>) {
    exists e :: e in xs && e.round == 1 && e.status == Failed && !DriverResolves(xs, e)
  }

  function RunConfigured(i: RunInput): RunOutcome {
    match i.first
    case CancelledTurn => CancelledRun
    case TimedOut => Finished(RecordFailure(EMPTY_RUN, Timeout, InitialCoordination, 1, 1))
    case Errored(c) => Finished(RecordFailure(EMPTY_RUN, c, InitialCoordination, 1, 1))
    case Returned(t) => AfterFirst(i, t, Consumed(EMPTY_RUN, t, FirstPhase(i, t.cancelled)))
  }

  function AfterFirst(i: RunInput, t: Turn, c: Consumption): RunOutcome {
    if c.raised then Finished(RecordFailure(c.state, UnknownFailure, InitialCoordination, 1, 1))
    else if t.cancelled then CancelledRun
    else if Truthy(t.error) && c.state.findings == [] then Finished(FinishFailed(c.state))
    else
      var missing := Missing(c.state.findings, ALL_AGENTS);
      if missing != [] && t.error.None? then Recollect(i, c.state, missing, NonrecoverableOutput(t.drafts))
      else Synthesize(i, c.state, c.partial || NonrecoverableOutput(t.drafts), InitialCoordination, 1)
  }

  function Recollect(i: RunInput, s: RunState, missing: seq<AgentName>, nonrecoverable: bool): RunOutcome {
    match i.recollected
    case CancelledTurn => CancelledRun
    case TimedOut => Finished(RecordFailure(s, Timeout, SpecialistRecollection, 2, 1))
    case Errored(c) => Finished(RecordFailure(s, c, SpecialistRecollection, 2, 1))
    case Returned(t) =>
      AfterRecollection(i, t, Consumed(s, t, RecollectPhase(i, missing, t.cancelled)), nonrecoverable)
  }

  function AfterRecollection(i: RunInput, t: Turn, c: Consumption, nonrecoverable: bool): RunOutcome {
    if c.raised then Finished(RecordFailure(c.state, UnknownFailure, SpecialistRecollection, 2, 1))
    else if t.cancelled then CancelledRun
    else Synthesize(i, c.state, UnresolvedFirstRound(c.state.executions) || nonrecoverable, SpecialistRecollection, 2)
  }

  /** `step` and `attempt` are the progress marks a failure before the last turn is filed under. */
  function Synthesize(i: RunInput, s: RunState, partial: bool, step: StepKind, attempt: nat): RunOutcome {
    var conflicting := i.conflicting(s.findings);
    if conflicting.None? then Finished(RecordFailure(s, UnknownFailure, step, attempt, 1))
    else
      match i.synthesis
      case CancelledTurn => CancelledRun
      case TimedOut => Finished(RecordFailure(s, Timeout, FinalSynthesis, 1, 2))
      case Errored(c) => Finished(RecordFailure(s, c, FinalSynthesis, 1, 2))
      case Returned(t) =>
        var p := SynthesisPhase(i, Selected(conflicting.value, ALL_AGENTS), t.cancelled);
        AfterSynthesis(i, t, Consumed(s, t, p), partial)
  }

  function AfterSynthesis(i: RunInput, t: Turn, c: Consumption, partial: bool): RunOutcome {
    if c.raised then Finished(RecordFailure(c.state, UnknownFailure, FinalSynthesis, 1, 2))
    else if t.cancelled then CancelledRun
    else if Truthy(t.error) || !t.proposal then Finished(FinishFailed(c.state))
    else if i.reviewRaises then Finished(RecordFailure(c.state, UnknownFailure, FinalSynthesis, 1, 2))
    else Finished(c.state.(review := true, status := if partial || c.partial then RunPartial else RunCompleted))
  }
}
