/** The orchestrator's mechanical check of a finished run, and why the driver's own records
    always pass the part of it that is not about the label.
    Tasks and executions mirror each other, ids are unique, evidence was supplied, and a
    revision targets the same agent's first-round finding.
    The status table at the end is what RunAgreement compares with the driver's label. */
module RunValidation {
  import opened AgentRun
  import opened Options
  import opened Vocabulary

  // ---------------------------------------------------------------- the validator

  /** What the checks of the review itself can object to. */
  datatype ReviewFault = ReviewContract | ReviewAttribution | SemanticReference

  datatype Violation =
    | TaskContract | ExecutionContract | FindingContract | RevisionContract
    | ReviewViolation(fault: ReviewFault) | RunStatusContract

  ghost predicate DistinctTaskIds(ts: seq<Task>) {
    forall i, j :: 0 <= i < j < |ts| ==> ts[i].id != ts[j].id
  }

  ghost predicate DistinctExecutions(xs: seq<Execution>) {
    forall i, j :: 0 <= i < j < |xs| ==> xs[i].id != xs[j].id && xs[i].taskId != xs[j].taskId
  }

  ghost predicate Cites(ids: seq<EvidenceId>, evidence: set<EvidenceId>) {
    forall id :: id in ids ==> id in evidence
  }

  ghost predicate TasksAccepted(s: RunState) {
    s.tasks != [] && DistinctTaskIds(s.tasks)
  }

  ghost predicate Mirrors(e: Execution, t: Task) {
    e.agent == t.agent && e.round == t.round && e.status == t.status
  }

  ghost predicate ExecutionsAccepted(s: RunState, evidence: set<EvidenceId>) {
    && s.executions != []
    && DistinctExecutions(s.executions)
    && (set e | e in s.executions :: e.taskId) == (set t | t in s.tasks :: t.id)
    && (forall e, t :: e in s.executions && t in s.tasks && t.id == e.taskId ==> Mirrors(e, t))
    && (forall e :: e in s.executions ==> Cites(e.evidence, evidence))
  }

  ghost predicate FindingsAccepted(s: RunState, evidence: set<EvidenceId>) {
    && (forall i, j :: 0 <= i < j < |s.findings| ==> s.findings[i].id != s.findings[j].id)
    && (forall f :: f in s.findings ==> Cites(f.evidence, evidence))
  }

  ghost predicate RevisesFirstRound(s: RunState, f: Finding) {
    f.revises.Some? && exists g :: g in s.findings && g.id == f.revises.value && g.round == 1 && g.agent == f.agent
  }

  ghost predicate RevisionsAccepted(s: RunState) {
    forall f :: f in s.findings && f.round == 2 ==> RevisesFirstRound(s, f)
  }

  /** A specialist that delivered on the second attempt; unlike the driver, no round is asked for. */
  ghost predicate Recovered(xs: seq<Execution>, agent: string) {
    exists e :: e in xs && e.attempt == 2 && e.step == SpecialistRecollection && e.status == Completed && e.agent == agent
  }

  ghost predicate ValidatorResolves(xs: seq<Execution>, e: Execution) {
    && e.status == Failed && e.step == SpecialistCollection && e.attempt == 1
    && e.category == MissingSpecialist && Recovered(xs, e.agent)
  }

  ghost predicate ResolvedTask(s: RunState, t: Task) {
    t.status == Failed && exists e :: e in s.executions && e.taskId == t.id && ValidatorResolves(s.executions, e)
  }

  ghost function UnresolvedStatuses(s: RunState): set<Status> {
    set t | t in s.tasks && !ResolvedTask(s, t) :: t.status
  }

  ghost predicate StatusTable(s: RunState) {
    var statuses := UnresolvedStatuses(s);
    match s.status
    case RunCompleted => s.review && statuses == {Completed} && s.findings != []
    case RunPartial => s.review && statuses == {Completed, Failed} && s.findings != []
    case RunFailed => !s.review && statuses <= {Completed, Failed} && Failed in statuses
    case RunSkipped => !s.review && statuses == {Skipped} && s.findings == []
  }

  /** The checks in the validator's order; the first one that fails names the violation.
      `fault` is what the checks of the review object to, which are made only if there is one. */
  ghost function Validate(s: RunState, evidence: set<EvidenceId>, fault: Option<ReviewFault>): Option<Violation> {
    if !TasksAccepted(s) then Some(TaskContract)
    else if !ExecutionsAccepted(s, evidence) then Some(ExecutionContract)
    else if !FindingsAccepted(s, evidence) then Some(FindingContract)
    else if !RevisionsAccepted(s) then Some(RevisionContract)
    else if s.review && fault.Some? then Some(ReviewViolation(fault.value))
    else if !StatusTable(s) then Some(RunStatusContract)
    else None
  }

  // ---------------------------------------------------------------- what every append keeps

  ghost predicate Aligned(s: RunState) {
    && |s.tasks| == |s.executions|
    && (forall k :: 0 <= k < |s.tasks| ==>
          var t, e := s.tasks[k], s.executions[k];
          e.taskId == t.id && e.id == t.id + 1 && e.id < s.next && Mirrors(e, t))
    && (forall i, j :: 0 <= i < j < |s.tasks| ==> s.tasks[i].id + 1 < s.tasks[j].id)
  }

  ghost predicate Linked(s: RunState, evidence: set<EvidenceId>) {
    && (forall k :: 0 <= k < |s.findings| ==> s.findings[k].id < s.next)
    && (forall i, j :: 0 <= i < j < |s.findings| ==> s.findings[i].id < s.findings[j].id)
    && (forall f :: f in s.findings ==> Cites(f.evidence, evidence))
    && (forall e :: e in s.executions ==> Cites(e.evidence, evidence))
    && RevisionsAccepted(s)
  }

  ghost predicate WellFormed(s: RunState, evidence: set<EvidenceId>) {
    Aligned(s) && Linked(s, evidence)
  }

  ghost predicate Supplied(p: Phase, evidence: set<EvidenceId>) {
    forall a :: p.allowed(a) <= evidence
  }

  lemma RevisionsCarryOver(s: RunState, r: RunState)
    requires RevisionsAccepted(s) && s.findings <= r.findings
    ensures forall f :: f in s.findings && f.round == 2 ==> RevisesFirstRound(r, f)
  {
    forall f | f in s.findings && f.round == 2 ensures RevisesFirstRound(r, f) {
      var g :| g in s.findings && g.id == f.revises.value && g.round == 1 && g.agent == f.agent;
      assert g in r.findings;
    }
  }

  lemma AddRecordKeeps(s: RunState, agent: string, round: nat, status: Status, step: StepKind, attempt: nat,
                       category: FailureCategory, cited: seq<EvidenceId>, evidence: set<EvidenceId>)
    requires WellFormed(s, evidence) && Cites(cited, evidence)
    ensures WellFormed(AddRecord(s, agent, round, status, step, attempt, category, cited), evidence)
  {
    var r := AddRecord(s, agent, round, status, step, attempt, category, cited);
    RevisionsCarryOver(s, r);
  }

  lemma TakeDraftKeeps(x: Intake, c: CapturedDraft, p: Phase, evidence: set<EvidenceId>)
    requires WellFormed(x.state, evidence) && Supplied(p, evidence)
    ensures WellFormed(TakeDraft(x, c, p).state, evidence)
  {
    var name := ParseAgent(c.agentName);
    if name.None? || name.value !in p.requested || name.value in x.captured {
      if TakeDraft(x, c, p).state != x.state {
        AddRecordKeeps(x.state, if name.None? then c.agentName else Label(name.value), p.round, Failed,
                       p.specialistStep, p.attempt, InvalidOutput, [], evidence);
      }
    } else {
      TakeSpecialistDraftKeeps(x, c, name.value, p, evidence);
    }
  }

  lemma TakeSpecialistDraftKeeps(x: Intake, c: CapturedDraft, a: AgentName, p: Phase, evidence: set<EvidenceId>)
    requires WellFormed(x.state, evidence) && Supplied(p, evidence)
    ensures WellFormed(TakeSpecialistDraft(x, c, a, p).state, evidence)
  {
    var y := TakeSpecialistDraft(x, c, a, p);
    if y.state != x.state {
      RevisionsCarryOver(x.state, y.state);
      var d := c.draft.value;
      var f := y.state.findings[|x.state.findings|];
      assert y.state.findings == x.state.findings + [f];
      assert Cites(f.evidence, evidence) by {
        forall id | id in d.evidence ensures id in evidence { assert id in p.allowed(a); }
      }
      if f.round == 2 {
        var g := FirstFinding(x.state.findings, a, 1).value;
        assert g in y.state.findings;
      }
    }
  }

  lemma {:induction false} TakeDraftsKeep(x: Intake, drafts: seq<CapturedDraft>, p: Phase, evidence: set<EvidenceId>)
    requires WellFormed(x.state, evidence) && Supplied(p, evidence)
    ensures WellFormed(TakeDrafts(x, drafts, p).state, evidence)
    decreases |drafts|
  {
    if drafts != [] && !x.raised {
      TakeDraftKeeps(x, drafts[0], p, evidence);
      TakeDraftsKeep(TakeDraft(x, drafts[0], p), drafts[1..], p, evidence);
    }
  }

  lemma {:induction false} CloseSpecialistsKeep(s: RunState, x: Intake, names: seq<AgentName>, p: Phase, evidence: set<EvidenceId>)
    requires WellFormed(s, evidence)
    ensures WellFormed(CloseSpecialists(s, x, names, p), evidence)
    decreases |names|
  {
    if names != [] {
      var f := LastFinding(s.findings, names[0], p.round);
      var done := f.Some? && names[0] !in x.invalid;
      AddRecordKeeps(s, Label(names[0]), p.round, if done then Completed else Failed, p.specialistStep, p.attempt,
                     if done then NoFailure else SpecialistCategory(x, names[0]),
                     if f.Some? then f.value.evidence else [], evidence);
      CloseSpecialistsKeep(CloseSpecialist(s, x, names[0], p), x, names[1..], p, evidence);
    }
  }

  /** Whatever a turn returns, its records stay one execution per task, uniquely identified,
      citing only supplied evidence, with every second-round finding revising a first-round one. */
  lemma ConsumedKeeps(s: RunState, t: Turn, p: Phase, evidence: set<EvidenceId>)
    requires WellFormed(s, evidence) && Supplied(p, evidence)
    ensures WellFormed(Consumed(s, t, p).state, evidence)
  {
    if p.recordCoordinator {
      AddRecordKeeps(s, COORDINATOR, p.round, if CoordinatorSucceeds(t) then Completed else Failed,
                     p.coordinatorStep, p.attempt, CoordinatorCategory(t), [], evidence);
    }
    TakeDraftsKeep(StartIntake(s, t, p), t.drafts, p, evidence);
    var x := TakeDrafts(StartIntake(s, t, p), t.drafts, p);
    CloseSpecialistsKeep(x.state, x, p.requested, p, evidence);
  }
}
