/** Concrete submissions that pass all three publication validators.
    One candidate, one accepting assessment with its seven checks, one usable piece of evidence
    and the two executions of the final round are enough for a complete conclusion.
    The examples vary what the validators do not look at: how often a review lists a candidate,
    and what a report writes under a decided id. */
module PublicationExamples {
  import opened Options
  import opened PublicationGate
  import opened PublicationGuarantee

  const RUN: Id := 7

  function PassedCheck(name: CheckName): CausalCheck {
    CausalCheck(name, Pass, [1], None)
  }

  const CHECKS: seq<CausalCheck> := [
    PassedCheck(Temporal), PassedCheck(Topology), PassedCheck(Mechanism), PassedCheck(BlastRadius),
    PassedCheck(SymptomVsCause), PassedCheck(Counterevidence), PassedCheck(Alternatives)]

  const ACCEPTED: Assessment := Assessment(3, 5, Accept, CHECKS, [1], [], None, [], Some(RUN), 1)

  const ADMITTED: Candidate := Candidate(5, 1, [], [], [1], [], true, true)

  const DECISION: FinalDecision := FinalDecision(CriticActor, Decision(Conclude, [5], [1], "cause", None), None)

  const FINAL_RUN: Run := Run(RunCompleted, Some(Complete), Some(true), Some(true))

  function ReviewOf(candidates: seq<Candidate>): Review {
    Review(1, Some(RUN), true, 2, RunCompleted, Some(Complete), candidates, [ACCEPTED], Some(DECISION), None)
  }

  function SubmissionOf(candidates: seq<Candidate>): Submission {
    Submission(1, RUN, [PublicationGate.Evidence(1, true, Some(RUN))], [], [ADMITTED], Some(ReviewOf(candidates)),
               [Execution(true, true, false, Some(1), Some(RUN)), Execution(true, false, true, Some(1), Some(RUN))],
               [], Some(Complete), true, true, true)
  }

  function ReportOf(diagnoses: seq<Candidate>): Report {
    Report(1, Some(RUN), Some(Complete), diagnoses, [])
  }

  lemma UsableOne(candidates: seq<Candidate>)
    ensures Usable(SubmissionOf(candidates).evidence, RUN) == {1}
  {
    var e := PublicationGate.Evidence(1, true, Some(RUN));
    assert SubmissionOf(candidates).evidence == [e];
    assert e in [e];
  }

  lemma AcceptedFive()
    ensures Accepted([ACCEPTED]) == {5}
    ensures AssessedIds([ACCEPTED]) == [5] && AssessmentIds([ACCEPTED]) == [3]
  {
    assert ACCEPTED in [ACCEPTED];
  }

  lemma ChecksAreComplete()
    ensures |CHECKS| == 7 && ToSet(PublicationGate.CheckNames(CHECKS)) == ALL_CHECKS
    ensures !HasFailure(CHECKS) && !HasUnknownCause(CHECKS)
  {
    var names := PublicationGate.CheckNames(CHECKS);
    assert names == [Temporal, Topology, Mechanism, BlastRadius, SymptomVsCause, Counterevidence, Alternatives];
    forall name: CheckName ensures name in ToSet(names) <==> name in ALL_CHECKS {
      match name
      case Temporal => assert names[0] == name;
      case Topology => assert names[1] == name;
      case Mechanism => assert names[2] == name;
      case BlastRadius => assert names[3] == name;
      case SymptomVsCause => assert names[4] == name;
      case Counterevidence => assert names[5] == name;
      case Alternatives => assert names[6] == name;
    }
  }

  lemma ContractHolds(candidates: seq<Candidate>)
    requires ToSet(CandidateIds(candidates)) == {5} && forall i :: 0 <= i < |candidates| ==> candidates[i].onsetOrdered
    ensures ReviewContract(ReviewOf(candidates))
  {
    ChecksAreComplete();
    AcceptedFive();
    assert ToSet([5]) == {5};
  }

  lemma AssessmentsHold()
    ensures AssessmentsVerdict([ACCEPTED], {5}, {1}, RUN).Valid?
  {
    ChecksAreComplete();
    AcceptedFive();
    assert ToSet([3]) == {3} && ToSet([5]) == {5};
    assert ToSet([1]) == {1};
  }

  lemma DecisionHolds(candidates: seq<Candidate>)
    ensures DecisionVerdict(SubmissionOf(candidates), ReviewOf(candidates), DECISION.decision).Valid?
  {
    ChecksAreComplete();
    AcceptedFive();
    UsableOne(candidates);
    assert ToSet([1]) == {1} && ToSet([5]) == {5};
    assert CandidateIds([ADMITTED]) == [5];
    var a := SubmissionOf(candidates);
    assert FinalRound(a.tasks, [ACCEPTED], RUN) == 1;
    assert a.executions[0].criticReview && a.executions[1].leadAdjudication;
  }

  lemma TasksHold(candidates: seq<Candidate>)
    ensures TasksVerdict(ReviewOf(candidates), [], RUN).Valid?
  {
    var none: seq<Task> := [];
    assert LinkedTasks(none, RUN, ACCEPTED.id) == {};
    assert LinkVerdict(ACCEPTED, none, RUN) == Valid;
    assert EachLink([ACCEPTED], none, RUN) == EachLink([], none, RUN);
  }

  lemma ReviewHolds(candidates: seq<Candidate>)
    requires ToSet(CandidateIds(candidates)) == {5} && forall i :: 0 <= i < |candidates| ==> candidates[i].onsetOrdered
    ensures ReviewVerdict(SubmissionOf(candidates), ReviewOf(candidates)).Valid?
  {
    var a, review := SubmissionOf(candidates), ReviewOf(candidates);
    assert ToSet(CandidateIds(a.candidates)) == {5} by {
      assert CandidateIds(a.candidates) == [5] && ToSet([5]) == {5};
    }
    assert ReviewContract(review) by { ContractHolds(candidates); }
    assert AssessmentsVerdict(review.assessments, {5}, Usable(a.evidence, RUN), RUN).Valid? by {
      AssessmentsHold();
      UsableOne(candidates);
    }
    assert TasksVerdict(review, a.tasks, RUN).Valid? by { TasksHold(candidates); }
    assert DecisionVerdict(a, review, DECISION.decision).Valid? by { DecisionHolds(candidates); }
  }

  lemma CandidatesHold()
    ensures EachCandidate([ADMITTED], {}, {1}).Valid?
    ensures !Repeats(CandidateIds([ADMITTED])) && RanksAreOneToN(Ranks([ADMITTED]))
  {
    assert CandidateIds([ADMITTED]) == [5] && ToSet([5]) == {5};
    assert Ranks([ADMITTED]) == [1] && ToSet([1]) == {1};
    var none: seq<Id> := [];
    assert ToSet(none) == {};
    assert CandidateVerdict(ADMITTED, {}, {1}).Valid?;
  }

  lemma ResultHolds(candidates: seq<Candidate>)
    requires ToSet(CandidateIds(candidates)) == {5} && forall i :: 0 <= i < |candidates| ==> candidates[i].onsetOrdered
    ensures ResultVerdict(SubmissionOf(candidates)).Valid?
  {
    var a := SubmissionOf(candidates);
    assert !Repeats(EvidenceIds(a.evidence)) by {
      assert EvidenceIds(a.evidence) == [1] && ToSet([1]) == {1};
    }
    assert !Repeats(a.findings) && ToSet(a.findings) == {} by {
      assert ToSet(a.findings) == {};
    }
    UsableOne(candidates);
    CandidatesHold();
    assert ReviewVerdict(a, a.review.value).Valid? by { ReviewHolds(candidates); }
  }

  lemma StatusHolds(candidates: seq<Candidate>)
    ensures FinalStatusAccepts(ReviewOf(candidates), FINAL_RUN)
  {
  }

  lemma RepeatedIsProjected()
    ensures ProjectionAccepts(ReviewOf([ADMITTED, ADMITTED]), ReportOf([ADMITTED]))
  {
    var listed := [ADMITTED, ADMITTED];
    assert CandidateIds([ADMITTED]) == [5];
    assert Undecided([ADMITTED], [5]) == [];
    assert listed[1..] == [ADMITTED];
    assert Undecided(listed, [5]) == [];
    var none: seq<Candidate> := [];
    assert CandidateIds(none) == [];
  }

  lemma RepeatedIsListedTwice()
    ensures !ListedOnce([ADMITTED, ADMITTED], DECISION.decision.candidates)
  {
    assert CandidateIds([ADMITTED, ADMITTED]) == [5, 5];
    assert multiset([5, 5])[5] == 2;
    assert 5 in DECISION.decision.candidates;
  }

  /** A review that lists its decided candidate twice is published: the report has one entry for
      two listed candidates. */
  lemma RepeatedCandidateIsPublished()
    ensures Published(SubmissionOf([ADMITTED, ADMITTED]), ReviewOf([ADMITTED, ADMITTED]), FINAL_RUN, ReportOf([ADMITTED]))
    ensures !ListedOnce([ADMITTED, ADMITTED], DECISION.decision.candidates)
  {
    var listed := [ADMITTED, ADMITTED];
    assert ToSet(CandidateIds(listed)) == {5} by {
      assert CandidateIds(listed) == [5, 5];
    }
    ResultHolds(listed);
    StatusHolds(listed);
    RepeatedIsProjected();
    RepeatedIsListedTwice();
  }

  /** Only ids are compared, so a report may carry another text under a decided id: here its
      diagnosis cites evidence 99, which is not usable. */
  lemma ReportedContentIsNotCompared()
    ensures Published(SubmissionOf([ADMITTED]), ReviewOf([ADMITTED]), FINAL_RUN, ReportOf([ADMITTED.(supporting := [99])]))
    ensures 99 !in Usable(SubmissionOf([ADMITTED]).evidence, RUN)
  {
    var shown := ADMITTED.(supporting := [99]);
    assert CandidateIds([ADMITTED]) == [5] && CandidateIds([shown]) == [5];
    assert ResultVerdict(SubmissionOf([ADMITTED])).Valid? by {
      assert ToSet([5]) == {5};
      ResultHolds([ADMITTED]);
    }
    StatusHolds([ADMITTED]);
    UsableOne([ADMITTED]);
    assert ProjectionAccepts(ReviewOf([ADMITTED]), ReportOf([shown])) by {
      assert Undecided([ADMITTED], [5]) == [];
    }
  }
}
