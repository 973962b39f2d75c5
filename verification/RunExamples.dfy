/** Two concrete runs whose label the orchestrator rejects, one for each masking kind.
    In both, two specialists answer at first, the third one on the second attempt, and the last
    turn proposes without any draft. Conflicts are found by the program's own rule, every finding
    cites supplied evidence, and the review passes its own checks.
    They differ in who failed: the recovered specialist, asked again because a gap blocks it, or
    the opening coordinator. */
module RunExamples {
  import opened AgentRun
  import opened CleanTurns
  import opened Options
  import opened ReviewChecks
  import opened RunAcceptance
  import opened RunAgreement
  import opened RunLabels
  import opened RunMasks
  import opened RunReview
  import opened RunValidation
  import opened Vocabulary
  import H = HybridArbitration
  import R = HybridReview

  const BASELINE := H.Hypothesis(KnownCause(1), 0.9, [1], [])

  const EVIDENCE: set<EvidenceId> := {1}

  const INVESTIGATION := 1

  /** A gap the specialist can live with, and one that blocks it. */
  function GapDraft(blocking: bool): SpecialistDraft {
    SpecialistDraft(Gap, None, 0.6, [1], true, blocking)
  }

  function DraftBy(agentName: string, blocking: bool): CapturedDraft {
    CapturedDraft(agentName, 1, Some(GapDraft(blocking)))
  }

  const EARLY: seq<CapturedDraft> := [DraftBy("MetricAgent", false), DraftBy("DeploymentAgent", false)]

  function LateReply(blocking: bool): seq<CapturedDraft> {
    [DraftBy("LogAgent", blocking)]
  }

  function Reply(drafts: seq<CapturedDraft>, proposal: bool, category: FailureCategory): Turn {
    Turn(drafts, proposal, None, false, category)
  }

  /** LOG is late; `proposal` and `category` are those of the opening turn. */
  function LateLog(proposal: bool, category: FailureCategory, blocking: bool): RunInput {
    RunInput(Returned(Reply(EARLY, proposal, category)), Returned(Reply(LateReply(blocking), true, NoFailure)),
             Returned(Reply([], true, NoFailure)), a => EVIDENCE, a => EVIDENCE,
             fs => ConflictRule(Some(BASELINE), INVESTIGATION, fs), false)
  }

  function HeardFindings(blocking: bool): seq<Finding> {
    [FindingOf(2, METRIC, GapDraft(false), 1, None), FindingOf(3, DEPLOYMENT, GapDraft(false), 1, None),
     FindingOf(12, LOG, GapDraft(blocking), 1, None)]
  }

  lemma EarlyAnswers(a: AgentName)
    ensures Answered(EARLY, a) <==> a != LOG
    ensures Answered(LateReply(true), a) <==> a == LOG
    ensures Answered(LateReply(false), a) <==> a == LOG
  {
    assert Named(EARLY[0], METRIC) && Named(EARLY[1], DEPLOYMENT);
    assert Named(LateReply(true)[0], LOG) && Named(LateReply(false)[0], LOG);
  }

  lemma OnlyLogIsLate(i: RunInput)
    requires i.first.Returned? && i.first.turn.drafts == EARLY
    ensures Late(i) == [LOG]
  {
    EarlyAnswers(LOG);
    EarlyAnswers(METRIC);
    EarlyAnswers(DEPLOYMENT);
    var two, one := [METRIC, DEPLOYMENT], [DEPLOYMENT];
    assert ALL_AGENTS[1..] == two && two[1..] == one && one[1..] == [];
    assert Silent(EARLY, one) == [] && Silent(EARLY, two) == [];
  }

  lemma UsableDraft(agentName: string, a: AgentName, blocking: bool, p: Phase)
    requires ParseAgent(agentName) == Some(a) && a in p.requested && p.round == 1 && 1 in p.allowed(a)
    ensures Usable(DraftBy(agentName, blocking), p)
  {
  }

  lemma NobodyRepeats(blocking: bool)
    ensures !NonrecoverableOutput(EARLY) && !NonrecoverableOutput(LateReply(blocking)) && !NonrecoverableOutput([])
  {
    assert ParseAgent(EARLY[0].agentName) == Some(METRIC) && ParseAgent(EARLY[1].agentName) == Some(DEPLOYMENT);
  }

  lemma EarlyIsClean(p: Phase)
    requires p.requested == ALL_AGENTS && p.round == 1 && forall a :: 1 in p.allowed(a)
    ensures Clean(EARLY, p)
  {
    NobodyRepeats(true);
    AllAgentsListed(METRIC);
    AllAgentsListed(DEPLOYMENT);
    UsableDraft("MetricAgent", METRIC, false, p);
    UsableDraft("DeploymentAgent", DEPLOYMENT, false, p);
  }

  lemma LateIsClean(p: Phase, blocking: bool)
    requires p.requested == [LOG] && p.round == 1 && forall a :: 1 in p.allowed(a)
    ensures Clean(LateReply(blocking), p)
  {
    NobodyRepeats(blocking);
    UsableDraft("LogAgent", LOG, blocking, p);
  }

  lemma AttemptsAreClean(proposal: bool, category: FailureCategory, blocking: bool)
    ensures var i := LateLog(proposal, category, blocking);
            TurnsReturned(i) && Repaired(i) && Heard(i) == HeardFindings(blocking)
  {
    var i := LateLog(proposal, category, blocking);
    OnlyLogIsLate(i);
    EarlyAnswers(LOG);
    EarlyIsClean(Opening(i));
    LateIsClean(Recollection(i), blocking);
    HeardIs(blocking);
  }

  lemma HeardIs(blocking: bool)
    ensures Admitted(EARLY, 2) + Admitted(LateReply(blocking), 12) == HeardFindings(blocking)
  {
    var rest := [DraftBy("DeploymentAgent", false)];
    assert EARLY[1..] == rest && rest[1..] == [] && LateReply(blocking)[1..] == [];
    assert Admitted(rest, 3) == [FindingOf(3, DEPLOYMENT, GapDraft(false), 1, None)];
    assert Admitted(LateReply(blocking), 12) == [FindingOf(12, LOG, GapDraft(blocking), 1, None)];
  }

  ghost predicate SeenAs(active: seq<H.Finding>, blocking: bool) {
    && |active| == 3 && FirstRoundOnly(active) && GapsOnly(active)
    && (forall k :: 0 <= k < 3 ==> active[k].investigation == INVESTIGATION && active[k].evidence == [1])
    && (forall k :: 0 <= k < 3 ==> (active[k].blocking <==> blocking && k == 2)) && active[2].agent == LOG
  }

  lemma HeardAreSeen(blocking: bool)
    ensures SeenAs(AllSeen(HeardFindings(blocking), INVESTIGATION), blocking)
  {
    var heard, active := HeardFindings(blocking), AllSeen(HeardFindings(blocking), INVESTIGATION);
    assert active[0] == Seen(heard[0], INVESTIGATION) && active[1] == Seen(heard[1], INVESTIGATION) && active[2] == Seen(heard[2], INVESTIGATION);
  }

  lemma OnlyLogIsBlocked(active: seq<H.Finding>, blocking: bool)
    requires SeenAs(active, blocking)
    ensures (set f | f in active && f.blocking :: f.agent) == if blocking then {LOG} else {}
  {
    if blocking {
      assert active[2] in active;
    }
  }

  /** The program's rule asks LOG again exactly when its gap blocks it. */
  lemma RuleAsksLog(blocking: bool)
    ensures ConflictRule(Some(BASELINE), INVESTIGATION, HeardFindings(blocking)) == Some(if blocking then {LOG} else {})
  {
    var active := AllSeen(HeardFindings(blocking), INVESTIGATION);
    HeardAreSeen(blocking);
    FirstRoundIsActive(active);
    GapsConflict(BASELINE, active);
    OnlyLogIsBlocked(active, blocking);
  }

  lemma SelectedLog(blocking: bool)
    ensures var asked := Selected(if blocking then {LOG} else {}, ALL_AGENTS);
            forall a :: a in asked <==> a == LOG && blocking
  {
    AllAgentsListed(LOG);
  }

  lemma AskedIs(proposal: bool, category: FailureCategory, blocking: bool)
    ensures var i := LateLog(proposal, category, blocking);
            TurnsReturned(i) && Concluded(i) && forall a :: Unnamed(i, a) <==> a == LOG && blocking
  {
    var i := LateLog(proposal, category, blocking);
    AttemptsAreClean(proposal, category, blocking);
    assert i.conflicting(Heard(i)) == ConflictRule(Some(BASELINE), INVESTIGATION, HeardFindings(blocking));
    RuleAsksLog(blocking);
    SelectedLog(blocking);
    NobodyRepeats(blocking);
  }

  /** The review that is built of these findings passes its own checks. */
  lemma ReviewHolds(blocking: bool, runCompleted: bool)
    ensures var findings := AllSeen(HeardFindings(blocking), INVESTIGATION);
            var built := R.BuildResult(INVESTIGATION, findings, EVIDENCE, [BASELINE], runCompleted);
            built.Ok? && ReviewChecked(built.value, EVIDENCE, {})
  {
    var findings := AllSeen(HeardFindings(blocking), INVESTIGATION);
    HeardAreSeen(blocking);
    SeenIsReviewed(findings, blocking, runCompleted);
  }

  lemma SeenIsReviewed(findings: seq<H.Finding>, blocking: bool, runCompleted: bool)
    requires SeenAs(findings, blocking)
    ensures var built := R.BuildResult(INVESTIGATION, findings, EVIDENCE, [BASELINE], runCompleted);
            built.Ok? && ReviewChecked(built.value, EVIDENCE, {})
  {
    FirstRoundIsActive(findings);
    GapsFallBack(findings, BASELINE, runCompleted);
    assert !R.RefersOutside(EVIDENCE, findings, [BASELINE]) && !R.Foreign(findings, INVESTIGATION);
    FallbackIsChecked();
  }

  lemma FallbackIsChecked()
    ensures ReviewChecked(R.Review(H.Fallback, Some(BASELINE.cause), Some(BASELINE.cause), [R.Seed(R.FromHypothesis(0), BASELINE)]), EVIDENCE, {})
  {
  }

  lemma LastTurnAddsNothing(s: RunState, t: Turn, p: Phase)
    requires t.drafts == [] && p.recordCoordinator
    ensures !Consumed(s, t, p).raised && Consumed(s, t, p).state.findings == s.findings
  {
    var x := ConsumedLayout(s, t, p);
  }

  lemma FindingsAreHeard(proposal: bool, category: FailureCategory, blocking: bool)
    ensures var o := RunConfigured(LateLog(proposal, category, blocking));
            o.Finished? && o.state.review && o.state.findings == HeardFindings(blocking)
    ensures FindsSomething(LateLog(proposal, category, blocking))
  {
    var i := LateLog(proposal, category, blocking);
    AttemptsAreClean(proposal, category, blocking);
    AskedIs(proposal, category, blocking);
    RepairedRuns(i);
    CleanRecollection(i);
    LastTurnAddsNothing(AfterRecollected(i, Late(i)).state, i.synthesis.turn, Synthesis(i));
    FindingsMean(i);
  }

  /** LOG is repaired on the second attempt with a gap that blocks it, is asked again for that and
      is then silent: the run is labelled PARTIAL, every failure counts as resolved, and the
      status check rejects it, although its review passes. */
  lemma SecondSilenceIsRejected()
    ensures var i := LateLog(true, NoFailure, true);
            && BuiltInTurns(i) && RunConfigured(i).Finished? && RunConfigured(i).state.review
            && RunConfigured(i).state.status == RunPartial
            && Validate(RunConfigured(i).state, EVIDENCE, None) == Some(RunStatusContract)
    ensures var findings := AllSeen(RunConfigured(LateLog(true, NoFailure, true)).state.findings, INVESTIGATION);
            var built := R.BuildResult(INVESTIGATION, findings, EVIDENCE, [BASELINE], false);
            built.Ok? && ReviewChecked(built.value, EVIDENCE, {})
  {
    var i := LateLog(true, NoFailure, true);
    ReviewHolds(true, false);
    FindingsAreHeard(true, NoFailure, true);
    AttemptsAreClean(true, NoFailure, true);
    AskedIs(true, NoFailure, true);
    OnlyLogIsLate(i);
    assert Unnamed(i, LOG);
    assert SecondSilence(i);
    MaskedLabel(i, EVIDENCE);
    ReviewedRunAccepted(i, EVIDENCE, None);
  }

  /** The opening coordinator calls its own failure a missing specialist and the next one succeeds:
      the driver takes the failure for repaired and the run for COMPLETED, the validator does not.
      The program's own turn functions never return such a turn (BuiltInRunAccepted); a turn
      function supplied from outside may. */
  lemma CoordinatorMissIsRejected()
    ensures var i := LateLog(false, MissingSpecialist, false);
            && RunConfigured(i).Finished? && RunConfigured(i).state.review
            && RunConfigured(i).state.status == RunCompleted
            && Validate(RunConfigured(i).state, EVIDENCE, None) == Some(RunStatusContract)
    ensures var findings := AllSeen(RunConfigured(LateLog(false, MissingSpecialist, false)).state.findings, INVESTIGATION);
            var built := R.BuildResult(INVESTIGATION, findings, EVIDENCE, [BASELINE], true);
            built.Ok? && ReviewChecked(built.value, EVIDENCE, {})
  {
    var i := LateLog(false, MissingSpecialist, false);
    ReviewHolds(false, true);
    FindingsAreHeard(false, MissingSpecialist, false);
    AttemptsAreClean(false, MissingSpecialist, false);
    AskedIs(false, MissingSpecialist, false);
    assert OpeningMiss(i);
    MaskedLabel(i, EVIDENCE);
    ReviewedRunAccepted(i, EVIDENCE, None);
  }
}
