/** The main results about a run: when the orchestrator accepts it, said of its inputs alone. */
module RunAcceptance {
  import opened AgentRun
  import opened CleanTurns
  import opened Options
  import opened RunAgreement
  import opened RunLabels
  import opened RunMasks
  import opened RunValidation
  import opened Vocabulary

  // ---------------------------------------------------------------- runs with findings

  ghost predicate SomeUsable(drafts: seq<CapturedDraft>, p: Phase) {
    exists c :: c in drafts && Usable(c, p)
  }

  /** Some specialist's draft is usable in the opening turn or, failing that, on the second attempt. */
  ghost predicate FindsSomething(i: RunInput) {
    && i.first.Returned?
    && (|| SomeUsable(i.first.turn.drafts, Opening(i))
        || (i.first.turn.error.None? && i.recollected.Returned?
            && SomeUsable(i.recollected.turn.drafts, RecollectPhase(i, ALL_AGENTS, false))))
  }

  lemma {:induction false} TakenFindings(x: Intake, drafts: seq<CapturedDraft>, p: Phase)
    requires p.round == 1 && (x.captured != {} ==> x.state.findings != [])
    requires !x.raised && !TakeDrafts(x, drafts, p).raised
    ensures TakeDrafts(x, drafts, p).state.findings == [] <==> x.state.findings == [] && !SomeUsable(drafts, p)
    decreases |drafts|
  {
    if drafts != [] {
      var c, y := drafts[0], TakeDraft(x, drafts[0], p);
      NotRaisedYet(x, drafts, p);
      TakenFindings(y, drafts[1..], p);
      assert SomeUsable(drafts, p) <==> Usable(c, p) || SomeUsable(drafts[1..], p) by {
        assert forall d :: d in drafts <==> d == c || d in drafts[1..];
      }
      assert y.state.findings == [] <==> x.state.findings == [] && !Usable(c, p);
    }
  }

  lemma NotRaisedYet(x: Intake, drafts: seq<CapturedDraft>, p: Phase)
    requires drafts != [] && !x.raised && !TakeDrafts(x, drafts, p).raised
    ensures !TakeDraft(x, drafts[0], p).raised
  {
  }

  lemma {:induction false} SynthesisAddsNone(x: Intake, drafts: seq<CapturedDraft>, p: Phase)
    requires p.round == 2
    ensures TakeDrafts(x, drafts, p).state.findings == [] <==> x.state.findings == []
    decreases |drafts|
  {
    if drafts != [] && !x.raised {
      SynthesisAddsNone(TakeDraft(x, drafts[0], p), drafts[1..], p);
    }
  }

  lemma TurnFindings(s: RunState, t: Turn, p: Phase)
    requires p.recordCoordinator && !Consumed(s, t, p).raised
    ensures p.round == 1 ==> (Consumed(s, t, p).state.findings == [] <==> s.findings == [] && !SomeUsable(t.drafts, p))
    ensures p.round == 2 ==> (Consumed(s, t, p).state.findings == [] <==> s.findings == [])
  {
    var x := ConsumedLayout(s, t, p);
    if p.round == 1 {
      TakenFindings(StartIntake(s, t, p), t.drafts, p);
    } else if p.round == 2 {
      SynthesisAddsNone(StartIntake(s, t, p), t.drafts, p);
    }
  }

  lemma {:induction false} AllMissing(names: seq<AgentName>)
    ensures Missing([], names) == names
  {
    if names != [] {
      AllMissing(names[1..]);
    }
  }

  lemma FindingsMean(i: RunInput)
    requires RunConfigured(i).Finished? && RunConfigured(i).state.review
    ensures RunConfigured(i).state.findings != [] <==> FindsSomething(i)
  {
    ReviewedPath(i);
    var s, r := AfterOpening(i).state, RunConfigured(i).state;
    TurnFindings(EMPTY_RUN, i.first.turn, Opening(i));
    AllMissing(ALL_AGENTS);
    if Direct(i, r) {
      LastFindings(i, s, r);
    } else {
      var missing := Missing(s.findings, ALL_AGENTS);
      TurnFindings(s, i.recollected.turn, RecollectPhase(i, missing, false));
      LastFindings(i, AfterRecollected(i, missing).state, r);
    }
  }

  lemma LastFindings(i: RunInput, s: RunState, r: RunState)
    requires ReviewedFrom(i, s, r)
    ensures r.findings == [] <==> s.findings == []
  {
    TurnFindings(s, i.synthesis.turn, SynthesisPhase(i, Selected(i.conflicting(s.findings).value, ALL_AGENTS), false));
  }

  // ---------------------------------------------------------------- acceptance

  /** A reviewed run whose review passes its own checks can only be rejected for its status, and
      is accepted exactly when it found something, something completed, and its inputs are of
      neither masking kind. Something always completed unless the last turn carries an empty error. */
  lemma ReviewedRunAccepted(i: RunInput, evidence: set<EvidenceId>, fault: Option<ReviewFault>)
    requires InputSupplied(i, evidence) && RunConfigured(i).Finished? && RunConfigured(i).state.review
    ensures var s := RunConfigured(i).state;
            Validate(s, evidence, fault) ==
              if fault.Some? then Some(ReviewViolation(fault.value))
              else if FindsSomething(i) && SomethingCompleted(s.executions) && !SecondSilence(i) && !OpeningMiss(i) then None
              else Some(RunStatusContract)
    ensures i.synthesis.Returned? && (i.synthesis.turn.error != Some("") ==> SomethingCompleted(RunConfigured(i).state.executions))
  {
    RunEnds(i, evidence);
    var s := RunConfigured(i).state;
    WellFormedIsValid(s, evidence);
    TableMeans(s, s.status == RunPartial);
    FindingsMean(i);
    SecondSilenceIsMasked(i);
    OpeningMissIsMasked(i);
  }

  /** The label of a masked run: PARTIAL after a second silence, COMPLETED after an opening miss. */
  lemma MaskedLabel(i: RunInput, evidence: set<EvidenceId>)
    requires InputSupplied(i, evidence)
    ensures SecondSilence(i) ==> RunConfigured(i).Finished? && RunConfigured(i).state.status == RunPartial
    ensures OpeningMiss(i) ==> RunConfigured(i).Finished? && RunConfigured(i).state.status == RunCompleted
  {
    SecondSilenceIsMasked(i);
    OpeningMissIsMasked(i);
    if SecondSilence(i) || OpeningMiss(i) {
      RunEnds(i, evidence);
      var xs := RunConfigured(i).state.executions;
      if OpeningMiss(i) {
        var e :| e in xs && e.status == Failed && e.agent == COORDINATOR && e.step == InitialCoordination;
        assert Unresolved(xs);
      }
    }
  }

  /** The opening turn does not call itself a missing specialist; an error of the last turn has a text. */
  ghost predicate TurnsReportHonestly(i: RunInput) {
    && (i.first.Returned? ==> i.first.turn.category != MissingSpecialist)
    && (i.synthesis.Returned? ==> i.synthesis.turn.error != Some(""))
  }

  lemma HonestIsNotMasked(i: RunInput)
    requires TurnsReportHonestly(i) && RunConfigured(i).Finished? && RunConfigured(i).state.review
    ensures Masked(RunConfigured(i).state.executions) <==> SecondSilence(i)
  {
    SecondSilenceIsMasked(i);
    OpeningMissIsMasked(i);
  }

  /** Then a second silence is the only way a run with findings is rejected for its status. */
  lemma HonestRunAccepted(i: RunInput, evidence: set<EvidenceId>, fault: Option<ReviewFault>)
    requires InputSupplied(i, evidence) && RunConfigured(i).Finished? && RunConfigured(i).state.review
    requires TurnsReportHonestly(i)
    ensures Validate(RunConfigured(i).state, evidence, fault) ==
            if fault.Some? then Some(ReviewViolation(fault.value))
            else if FindsSomething(i) && !SecondSilence(i) then None
            else Some(RunStatusContract)
  {
    ReviewedRunAccepted(i, evidence, fault);
  }

  /** What the program's own turn functions return: without an error no failure category, with
      one a text, no proposal and a category of the failed call, never a missing specialist. */
  ghost predicate BuiltIn(t: Turn) {
    if t.error.None? then t.category == NoFailure
    else t.error.value != "" && !t.proposal && t.category != MissingSpecialist
  }

  ghost predicate BuiltInTurns(i: RunInput) {
    && (i.first.Returned? ==> BuiltIn(i.first.turn))
    && (i.recollected.Returned? ==> BuiltIn(i.recollected.turn))
    && (i.synthesis.Returned? ==> BuiltIn(i.synthesis.turn))
  }

  /** With the program's own turn functions, a second silence is the only masking kind, and a
      reviewed run is accepted exactly when its review passes, it found something and nobody
      repaired is silent again. */
  lemma BuiltInRunAccepted(i: RunInput, evidence: set<EvidenceId>, fault: Option<ReviewFault>)
    requires InputSupplied(i, evidence) && RunConfigured(i).Finished? && RunConfigured(i).state.review
    requires BuiltInTurns(i)
    ensures Masked(RunConfigured(i).state.executions) <==> SecondSilence(i)
    ensures Validate(RunConfigured(i).state, evidence, fault) == None <==> fault.None? && FindsSomething(i) && !SecondSilence(i)
  {
    HonestIsNotMasked(i);
    HonestRunAccepted(i, evidence, fault);
  }
}
