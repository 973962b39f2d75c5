/** The label the driver gives a run and the rule the orchestrator re-derives it by, compared on
    the run's records: they agree unless a failure is masked in one of two ways.
    RunMasks says which inputs lead there. */
module RunAgreement {
  import opened AgentRun
  import opened Options
  import opened RunLabels
  import opened RunValidation
  import opened Vocabulary

  ghost predicate Unresolved(xs: seq<Execution>) {
    exists e :: e in xs && e.status == Failed && !ValidatorResolves(xs, e)
  }

  ghost predicate SomethingCompleted(xs: seq<Execution>) {
    exists e :: e in xs && e.status == Completed
  }

  /** A second-round failure exists, yet every failure looks like a first-attempt miss that
      the second attempt repaired: the validator's rule does not look at the round. */
  ghost predicate RoundTwoMasked(xs: seq<Execution>) {
    && (exists e :: e in xs && e.status == Failed && e.round == 2)
    && (forall e :: e in xs && e.status == Failed ==> ValidatorResolves(xs, e))
  }

  /** The opening coordinator failed, yet the driver resolves every failure: its own rule does
      not look at the step. */
  ghost predicate CoordinatorMasked(xs: seq<Execution>) {
    && (exists e :: e in xs && e.status == Failed && e.agent == COORDINATOR && e.step == InitialCoordination)
    && (forall e :: e in xs && e.status == Failed ==> e.round == 1 && DriverResolves(xs, e))
  }

  // ---------------------------------------------------------------- the table

  lemma ResolvedTaskAt(s: RunState, k: nat)
    requires Aligned(s) && k < |s.tasks|
    ensures ResolvedTask(s, s.tasks[k]) <==> ValidatorResolves(s.executions, s.executions[k])
  {
    if ResolvedTask(s, s.tasks[k]) {
      var e :| e in s.executions && e.taskId == s.tasks[k].id && ValidatorResolves(s.executions, e);
      var j :| 0 <= j < |s.executions| && s.executions[j] == e;
      assert j == k;
    }
    assert s.executions[k] in s.executions;
  }

  lemma StatusesMean(s: RunState)
    requires Aligned(s)
    ensures Failed in UnresolvedStatuses(s) <==> Unresolved(s.executions)
    ensures Completed in UnresolvedStatuses(s) <==> SomethingCompleted(s.executions)
    ensures (forall e :: e in s.executions ==> e.status != Skipped) ==> Skipped !in UnresolvedStatuses(s)
  {
    forall k | 0 <= k < |s.tasks|
      ensures ResolvedTask(s, s.tasks[k]) <==> ValidatorResolves(s.executions, s.executions[k])
    {
      ResolvedTaskAt(s, k);
    }
    var xs := s.executions;
    if Unresolved(xs) {
      var k :| 0 <= k < |xs| && xs[k].status == Failed && !ValidatorResolves(xs, xs[k]);
      assert s.tasks[k] in s.tasks && s.tasks[k].status == Failed;
    }
    if SomethingCompleted(xs) {
      var k :| 0 <= k < |xs| && xs[k].status == Completed;
      assert s.tasks[k] in s.tasks && s.tasks[k].status == Completed;
    }
    forall t | t in s.tasks && !ResolvedTask(s, t)
      ensures t.status == Failed ==> Unresolved(xs)
      ensures t.status == Completed ==> SomethingCompleted(xs)
      ensures exists e :: e in xs && e.status == t.status
    {
      var k :| 0 <= k < |s.tasks| && s.tasks[k] == t;
      assert xs[k] in xs;
    }
  }

  /** A reviewed result passes the table iff it has findings, something completed, and its
      PARTIAL label says whether an unresolved failure exists. */
  lemma TableMeans(s: RunState, partial: bool)
    requires Aligned(s) && s.review && s.status == (if partial then RunPartial else RunCompleted)
    requires forall e :: e in s.executions ==> e.status != Skipped
    ensures StatusTable(s) <==> s.findings != [] && SomethingCompleted(s.executions) && (partial <==> Unresolved(s.executions))
  {
    StatusesMean(s);
    var statuses := UnresolvedStatuses(s);
    assert statuses <= {Completed, Failed} by {
      forall x | x in statuses ensures x in {Completed, Failed} {
        match x case Completed => case Failed => case Skipped =>
      }
    }
    assert statuses == {Completed} <==> Completed in statuses && Failed !in statuses;
    assert statuses == {Completed, Failed} <==> Completed in statuses && Failed in statuses;
  }

  lemma FailedTable(s: RunState)
    requires Aligned(s) && !s.review && s.status == RunFailed
    requires forall e :: e in s.executions ==> e.status != Skipped
    requires exists e :: e in s.executions && e.status == Failed && e.step != SpecialistCollection
    ensures StatusTable(s)
  {
    StatusesMean(s);
    var e :| e in s.executions && e.status == Failed && e.step != SpecialistCollection;
    assert Unresolved(s.executions);
    forall x | x in UnresolvedStatuses(s) ensures x in {Completed, Failed} {
      match x case Completed => case Failed => case Skipped =>
    }
  }

  // ---------------------------------------------------------------- the label

  ghost predicate OpeningRecord(e: Execution) {
    e.round == 1 && e.attempt == 1 && e.status != Skipped
    && (e.step == SpecialistCollection || (e.agent == COORDINATOR && e.step == InitialCoordination))
  }

  ghost predicate RecollectedRecord(e: Execution) {
    e.round == 1 && e.attempt == 2 && e.status != Skipped && e.step == SpecialistRecollection
  }

  ghost predicate SynthesisRecord(e: Execution) {
    e.round == 2 && e.attempt == 1 && e.status != Skipped
    && (e.step == SpecialistCollection || (e.agent == COORDINATOR && e.step == FinalSynthesis))
  }

  lemma DirectLabel(first: seq<Execution>, last: seq<Execution>)
    requires forall e :: e in first ==> OpeningRecord(e)
    requires forall e :: e in last ==> SynthesisRecord(e)
    ensures AnyFailed(first) || AnyFailed(last) <==> Unresolved(first + last)
    ensures !RoundTwoMasked(first + last) && !CoordinatorMasked(first + last)
  {
    var xs := first + last;
    assert forall e :: e in xs <==> e in first || e in last;
  }

  lemma RecollectedLabel(first: seq<Execution>, second: seq<Execution>, last: seq<Execution>)
    requires forall e :: e in first ==> OpeningRecord(e)
    requires forall e :: e in second ==> RecollectedRecord(e)
    requires forall e :: e in last ==> SynthesisRecord(e)
    ensures var xs := first + second + last;
            ((UnresolvedFirstRound(first + second) || AnyFailed(last)) <==> Unresolved(xs))
            <==> !RoundTwoMasked(xs) && !CoordinatorMasked(xs)
  {
    var early, xs := first + second, first + second + last;
    assert forall e :: e in xs <==> e in early || e in last;
    assert forall e :: e in early <==> e in first || e in second;
    forall agent ensures DriverRecovered(early, agent) <==> Recovered(xs, agent)
                 ensures DriverRecovered(xs, agent) <==> Recovered(xs, agent)
    {
      if Recovered(xs, agent) {
        var e :| e in xs && e.attempt == 2 && e.step == SpecialistRecollection && e.status == Completed && e.agent == agent;
        assert e in early;
      }
    }
  }

  // ---------------------------------------------------------------- every run

  ghost predicate InputSupplied(i: RunInput, evidence: set<EvidenceId>) {
    forall a :: i.firstAllowed(a) <= evidence && i.reviewAllowed(a) <= evidence
  }

  ghost predicate NothingSkipped(s: RunState) {
    forall e :: e in s.executions ==> e.status != Skipped
  }

  ghost predicate FirstRoundFindings(s: RunState) {
    forall f :: f in s.findings ==> f.round == 1
  }

  ghost predicate HasHardStop(s: RunState) {
    exists e :: e in s.executions && e.status == Failed && e.step != SpecialistCollection
  }

  /** A run that ended without a review is labelled FAILED and keeps the record that says why. */
  ghost predicate EndedFailed(s: RunState, evidence: set<EvidenceId>) {
    WellFormed(s, evidence) && NothingSkipped(s) && !s.review && s.status == RunFailed && HasHardStop(s)
  }

  lemma RecordFailureEnds(s: RunState, c: FailureCategory, step: StepKind, attempt: nat, round: nat, evidence: set<EvidenceId>)
    requires WellFormed(s, evidence) && NothingSkipped(s) && step != SpecialistCollection
    ensures EndedFailed(RecordFailure(s, c, step, attempt, round), evidence)
  {
    AddRecordKeeps(s, COORDINATOR, round, Failed, step, attempt, c, [], evidence);
    var r := RecordFailure(s, c, step, attempt, round);
    assert r.executions[|s.executions|] in r.executions;
  }

  /** What a consumed turn leaves behind, whether or not it raised. */
  lemma TurnKeeps(s: RunState, t: Turn, p: Phase, evidence: set<EvidenceId>)
    requires WellFormed(s, evidence) && NothingSkipped(s) && Supplied(p, evidence)
    ensures var c := Consumed(s, t, p);
            WellFormed(c.state, evidence) && NothingSkipped(c.state)
  {
    ConsumedKeeps(s, t, p, evidence);
    TakeDraftsSkipNothing(StartIntake(s, t, p), t.drafts, p);
    var x := TakeDrafts(StartIntake(s, t, p), t.drafts, p);
    CloseSkipsNothing(x.state, x, p.requested, p);
  }

  lemma {:induction false} TakeDraftsSkipNothing(x: Intake, drafts: seq<CapturedDraft>, p: Phase)
    requires NothingSkipped(x.state)
    ensures NothingSkipped(TakeDrafts(x, drafts, p).state)
    decreases |drafts|
  {
    if drafts != [] && !x.raised {
      TakeDraftsSkipNothing(TakeDraft(x, drafts[0], p), drafts[1..], p);
    }
  }

  lemma {:induction false} CloseSkipsNothing(s: RunState, x: Intake, names: seq<AgentName>, p: Phase)
    requires NothingSkipped(s)
    ensures NothingSkipped(CloseSpecialists(s, x, names, p))
    decreases |names|
  {
    if names != [] {
      CloseSkipsNothing(CloseSpecialist(s, x, names[0], p), x, names[1..], p);
    }
  }

  /** Everything later stages need to know about the turn that turned `s` into `c.state`. */
  ghost predicate TurnDone(s: RunState, t: Turn, p: Phase, c: Consumption, evidence: set<EvidenceId>) {
    && WellFormed(c.state, evidence) && NothingSkipped(c.state)
    && (!c.raised && p.recordCoordinator ==>
          && s.executions <= c.state.executions && Appended(s, c.state) != []
          && (forall e :: e in Appended(s, c.state) ==> FromTurn(e, p) && MissingMeansSilent(e, t, p))
          && (FreshRound(s, p) ==> (c.partial <==> AnyFailed(Appended(s, c.state))))
          && (forall f :: f in c.state.findings ==> f in s.findings || f.round == p.round)
          && (CoordinatorSucceeds(t) ==> SomethingCompleted(Appended(s, c.state)))
          && (!CoordinatorSucceeds(t) && p.coordinatorStep != SpecialistCollection ==> HasHardStop(c.state)))
  }

  lemma TurnIsDone(s: RunState, t: Turn, p: Phase, evidence: set<EvidenceId>)
    requires WellFormed(s, evidence) && NothingSkipped(s) && Supplied(p, evidence)
    ensures TurnDone(s, t, p, Consumed(s, t, p), evidence)
  {
    TurnKeeps(s, t, p, evidence);
    if !Consumed(s, t, p).raised && p.recordCoordinator {
      var x := ConsumedLayout(s, t, p);
      var r := Consumed(s, t, p).state;
      LayoutRecords(s, x, r, t, p);
      if FreshRound(s, p) {
        PartialMeansFailed(s, t, p);
      }
      assert r.executions[|s.executions|] in r.executions;
      assert r.executions[|s.executions|] in Appended(s, r);
    }
  }

  ghost predicate ReviewedWith(i: RunInput, r: RunState, s: RunState, last: seq<Execution>, partial: bool, evidence: set<EvidenceId>) {
    && i.synthesis.Returned?
    && (i.synthesis.turn.error != Some("") ==> SomethingCompleted(last))
    && WellFormed(r, evidence) && NothingSkipped(r)
    && last != [] && r.executions == s.executions + last && (forall e :: e in last ==> SynthesisRecord(e))
    && r.status == (if partial || AnyFailed(last) then RunPartial else RunCompleted)
  }

  lemma AfterSynthesisEnds(i: RunInput, s: RunState, t: Turn, p: Phase, c: Consumption, partial: bool, evidence: set<EvidenceId>) returns (last: seq<Execution>)
    requires TurnDone(s, t, p, c, evidence) && FreshRound(s, p)
    requires p.round == 2 && p.attempt == 1 && p.coordinatorStep == FinalSynthesis && p.specialistStep == SpecialistCollection
    requires p.recordCoordinator == !t.cancelled
    requires i.synthesis == Returned(t)
    requires AfterSynthesis(i, t, c, partial).Finished?
    ensures var r := AfterSynthesis(i, t, c, partial).state;
            if r.review then ReviewedWith(i, r, s, last, partial, evidence) else EndedFailed(r, evidence)
  {
    last := [];
    if c.raised || (!(Truthy(t.error) || !t.proposal) && i.reviewRaises) {
      RecordFailureEnds(c.state, UnknownFailure, FinalSynthesis, 1, 2, evidence);
    } else if Truthy(t.error) || !t.proposal {
      assert HasHardStop(c.state);
    } else {
      last := Appended(s, c.state);
    }
  }

  /** The last stage: either it stops with a failure on record, or it appends second-round
      records `last` and labels the run by `partial` and by whether `last` holds a failure. */
  lemma SynthesizeEnds(i: RunInput, s: RunState, partial: bool, step: StepKind, attempt: nat, evidence: set<EvidenceId>) returns (last: seq<Execution>)
    requires WellFormed(s, evidence) && NothingSkipped(s) && FirstRoundFindings(s)
    requires InputSupplied(i, evidence) && step != SpecialistCollection
    requires Synthesize(i, s, partial, step, attempt).Finished?
    ensures var r := Synthesize(i, s, partial, step, attempt).state;
            if r.review then ReviewedWith(i, r, s, last, partial, evidence) else EndedFailed(r, evidence)
  {
    last := [];
    var conflicting := i.conflicting(s.findings);
    if conflicting.None? {
      RecordFailureEnds(s, UnknownFailure, step, attempt, 1, evidence);
    } else {
      match i.synthesis
      case TimedOut => RecordFailureEnds(s, Timeout, FinalSynthesis, 1, 2, evidence);
      case Errored(category) => RecordFailureEnds(s, category, FinalSynthesis, 1, 2, evidence);
      case Returned(t) =>
        var p := SynthesisPhase(i, Selected(conflicting.value, ALL_AGENTS), t.cancelled);
        TurnIsDone(s, t, p, evidence);
        last := AfterSynthesisEnds(i, s, t, p, Consumed(s, t, p), partial, evidence);
    }
  }

  /** The condition under which the two rules disagree on a reviewed run, in terms of its records. */
  ghost predicate Masked(xs: seq<Execution>) {
    RoundTwoMasked(xs) || CoordinatorMasked(xs)
  }

  ghost predicate LabelledBy(i: RunInput, r: RunState, evidence: set<EvidenceId>) {
    && i.synthesis.Returned?
    && (i.synthesis.turn.error != Some("") ==> SomethingCompleted(r.executions))
    && WellFormed(r, evidence) && NothingSkipped(r) && r.executions != []
    && r.status in {RunPartial, RunCompleted}
    && ((r.status == RunPartial <==> Unresolved(r.executions)) <==> !Masked(r.executions))
  }

  ghost predicate Ends(i: RunInput, o: RunOutcome, evidence: set<EvidenceId>) {
    o.Finished? ==> if o.state.review then LabelledBy(i, o.state, evidence) else EndedFailed(o.state, evidence)
  }

  ghost predicate HardOpening(xs: seq<Execution>) {
    exists e :: e in xs && e.status == Failed && e.category != MissingSpecialist && e.round == 1
  }

  lemma AfterRecollectionEnds(i: RunInput, s: RunState, t: Turn, p: Phase, c: Consumption, nonrecoverable: bool, evidence: set<EvidenceId>)
    requires TurnDone(s, t, p, c, evidence) && FirstRoundFindings(s) && InputSupplied(i, evidence)
    requires p.round == 1 && p.attempt == 2 && p.coordinatorStep == p.specialistStep == SpecialistRecollection
    requires p.recordCoordinator == !t.cancelled
    requires forall e :: e in s.executions ==> OpeningRecord(e)
    requires nonrecoverable ==> HardOpening(s.executions)
    ensures Ends(i, AfterRecollection(i, t, c, nonrecoverable), evidence)
  {
    if c.raised {
      RecordFailureEnds(c.state, UnknownFailure, SpecialistRecollection, 2, 1, evidence);
    } else if !t.cancelled {
      var xs := c.state.executions;
      assert xs == s.executions + Appended(s, c.state);
      var partial := UnresolvedFirstRound(xs) || nonrecoverable;
      assert partial == UnresolvedFirstRound(xs) by {
        if nonrecoverable {
          var e :| e in s.executions && e.status == Failed && e.category != MissingSpecialist && e.round == 1;
          assert e in xs && !DriverResolves(xs, e);
        }
      }
      if Synthesize(i, c.state, partial, SpecialistRecollection, 2).Finished? {
        var last := SynthesizeEnds(i, c.state, partial, SpecialistRecollection, 2, evidence);
        if Synthesize(i, c.state, partial, SpecialistRecollection, 2).state.review {
          RecollectedLabel(s.executions, Appended(s, c.state), last);
        }
      }
    }
  }

  lemma RecollectEnds(i: RunInput, s: RunState, missing: seq<AgentName>, nonrecoverable: bool, evidence: set<EvidenceId>)
    requires WellFormed(s, evidence) && NothingSkipped(s) && FirstRoundFindings(s) && InputSupplied(i, evidence)
    requires forall e :: e in s.executions ==> OpeningRecord(e)
    requires nonrecoverable ==> HardOpening(s.executions)
    ensures Ends(i, Recollect(i, s, missing, nonrecoverable), evidence)
  {
    match i.recollected
    case CancelledTurn =>
    case TimedOut => RecordFailureEnds(s, Timeout, SpecialistRecollection, 2, 1, evidence);
    case Errored(c) => RecordFailureEnds(s, c, SpecialistRecollection, 2, 1, evidence);
    case Returned(t) =>
      var p := RecollectPhase(i, missing, t.cancelled);
      TurnIsDone(s, t, p, evidence);
      AfterRecollectionEnds(i, s, t, p, Consumed(s, t, p), nonrecoverable, evidence);
  }

  lemma DirectEnds(i: RunInput, s: RunState, partial: bool, evidence: set<EvidenceId>)
    requires WellFormed(s, evidence) && NothingSkipped(s) && FirstRoundFindings(s) && InputSupplied(i, evidence)
    requires forall e :: e in s.executions ==> OpeningRecord(e)
    requires partial <==> AnyFailed(s.executions)
    ensures Ends(i, Synthesize(i, s, partial, InitialCoordination, 1), evidence)
  {
    if Synthesize(i, s, partial, InitialCoordination, 1).Finished? {
      var last := SynthesizeEnds(i, s, partial, InitialCoordination, 1, evidence);
      var r := Synthesize(i, s, partial, InitialCoordination, 1).state;
      if r.review {
        assert forall e :: e in r.executions <==> e in s.executions || e in last;
        DirectLabel(s.executions, last);
      }
    }
  }

  lemma AfterFirstEnds(i: RunInput, t: Turn, p: Phase, c: Consumption, evidence: set<EvidenceId>)
    requires i.first == Returned(t) && p == FirstPhase(i, t.cancelled) && InputSupplied(i, evidence)
    requires TurnDone(EMPTY_RUN, t, p, c, evidence)
    requires !c.raised && !t.cancelled && NonrecoverableOutput(t.drafts) ==> HardOpening(c.state.executions)
    ensures Ends(i, AfterFirst(i, t, c), evidence)
  {
    if c.raised {
      RecordFailureEnds(c.state, UnknownFailure, InitialCoordination, 1, 1, evidence);
    } else if !t.cancelled {
      var xs := c.state.executions;
      assert Appended(EMPTY_RUN, c.state) == xs;
      if !(Truthy(t.error) && c.state.findings == []) {
        var missing := Missing(c.state.findings, ALL_AGENTS);
        if missing != [] && t.error.None? {
          RecollectEnds(i, c.state, missing, NonrecoverableOutput(t.drafts), evidence);
        } else {
          var partial := c.partial || NonrecoverableOutput(t.drafts);
          DirectEnds(i, c.state, partial, evidence);
        }
      }
    }
  }

  lemma AllAgentsListed(a: AgentName)
    ensures a in ALL_AGENTS
  {
    match a case LOG => case METRIC => case DEPLOYMENT =>
  }

  /** Every finished run: a failed one carries a failure the table demands; a reviewed one is
      mechanically sound, and its label matches the validator's rule iff it is not masked. */
  lemma RunEnds(i: RunInput, evidence: set<EvidenceId>)
    requires InputSupplied(i, evidence)
    ensures Ends(i, RunConfigured(i), evidence)
  {
    match i.first
    case CancelledTurn =>
    case TimedOut => RecordFailureEnds(EMPTY_RUN, Timeout, InitialCoordination, 1, 1, evidence);
    case Errored(c) => RecordFailureEnds(EMPTY_RUN, c, InitialCoordination, 1, 1, evidence);
    case Returned(t) =>
      var p := FirstPhase(i, t.cancelled);
      TurnIsDone(EMPTY_RUN, t, p, evidence);
      var c := Consumed(EMPTY_RUN, t, p);
      if !c.raised && !t.cancelled && NonrecoverableOutput(t.drafts) {
        forall a ensures a in ALL_AGENTS { AllAgentsListed(a); }
        var e := NonrecoverableLeavesFailure(EMPTY_RUN, t, p);
        assert e in c.state.executions;
      }
      AfterFirstEnds(i, t, p, c, evidence);
  }

  // ---------------------------------------------------------------- the main results

  lemma WellFormedIsValid(s: RunState, evidence: set<EvidenceId>)
    requires WellFormed(s, evidence) && s.executions != []
    ensures TasksAccepted(s) && ExecutionsAccepted(s, evidence) && FindingsAccepted(s, evidence) && RevisionsAccepted(s)
  {
    var taskIds, ownIds := set e | e in s.executions :: e.taskId, set t | t in s.tasks :: t.id;
    forall id | id in taskIds ensures id in ownIds {
      var k :| 0 <= k < |s.executions| && s.executions[k].taskId == id;
      assert s.tasks[k] in s.tasks;
    }
    forall id | id in ownIds ensures id in taskIds {
      var k :| 0 <= k < |s.tasks| && s.tasks[k].id == id;
      assert s.executions[k] in s.executions;
    }
    forall e, t | e in s.executions && t in s.tasks && t.id == e.taskId ensures Mirrors(e, t) {
      var k :| 0 <= k < |s.executions| && s.executions[k] == e;
      var j :| 0 <= j < |s.tasks| && s.tasks[j] == t;
      assert j == k;
    }
  }

  /** A run that ends without a review is always accepted; there are no review checks to fail. */
  lemma FailedRunAccepted(i: RunInput, evidence: set<EvidenceId>, fault: Option<ReviewFault>)
    requires InputSupplied(i, evidence) && RunConfigured(i).Finished? && !RunConfigured(i).state.review
    ensures Validate(RunConfigured(i).state, evidence, fault) == None
  {
    RunEnds(i, evidence);
    var s := RunConfigured(i).state;
    WellFormedIsValid(s, evidence);
    FailedTable(s);
  }
}
