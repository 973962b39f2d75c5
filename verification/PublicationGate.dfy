/** The three validators between a finished review and a published report: the result check, the
    final-status check and the report projection.
    Checks run in the program's order and report the first failure; the contract of the review's
    own types is one predicate, because the program reports all of it under one code.
    PublicationGuarantee proves what the three accept together. */
module PublicationGate {
  import opened Options
  import opened Sorting

  type Id = int

  datatype Status = Complete | Partial | Inconclusive

  datatype RunStatus = RunCompleted | RunPartial | RunFailed

  datatype CheckName = Temporal | Topology | Mechanism | BlastRadius | SymptomVsCause | Counterevidence | Alternatives

  datatype CheckStatus = Pass | Fail | Unknown

  datatype CausalCheck = CausalCheck(name: CheckName, status: CheckStatus, evidence: seq<Id>, gap: Option<string>)

  datatype CriticVerdict = Accept | Reject | NeedsEvidence | NoVerdict

  datatype Assessment = Assessment(
    id: Id, candidate: Id, verdict: CriticVerdict, checks: seq<CausalCheck>,
    supporting: seq<Id>, contradicting: seq<Id>,
    gap: Option<string>, supplementalTasks: seq<Id>, run: Option<Id>, round: nat)

  /** `scopeConsistent` is the verdict of the entity check, `onsetOrdered` that of the onset window. */
  datatype Candidate = Candidate(
    id: Id, rank: int, supportingFindings: seq<Id>, contradictingFindings: seq<Id>,
    supporting: seq<Id>, contradicting: seq<Id>, scopeConsistent: bool, onsetOrdered: bool)

  datatype Action = Investigate | Test | Conclude | Decline

  datatype Actor = CriticActor | LeadActor | SingleActor

  /** The part that a final and a lead decision share. */
  datatype Decision = Decision(
    action: Action, candidates: seq<Id>, evidence: seq<Id>, summary: string, stopReason: Option<string>)

  datatype FinalDecision = FinalDecision(actor: Actor, decision: Decision, uncertainty: Option<string>)

  datatype LeadDecision = LeadDecision(decision: Decision, tasks: seq<Id>, skills: seq<string>, skillsNamed: bool)

  datatype Review = Review(
    investigation: Id, run: Option<Id>, agentMode: bool, revision: nat, runStatus: RunStatus,
    diagnosticStatus: Option<Status>, candidates: seq<Candidate>, assessments: seq<Assessment>,
    final: Option<FinalDecision>, lead: Option<LeadDecision>)

  datatype Evidence = Evidence(id: Id, usable: bool, run: Option<Id>)

  datatype Task = Task(id: Id, run: Option<Id>, round: Option<nat>, assessment: Option<Id>)

  /** `criticReview` and `leadAdjudication`: the actor and step kind are those of that step. */
  datatype Execution = Execution(completed: bool, criticReview: bool, leadAdjudication: bool, round: Option<nat>, run: Option<Id>)

  /** `textsSafe`, `findingsOwned` and `callsOwned` are the verdicts of the text, finding and tool-call checks. */
  datatype Submission = Submission(
    investigation: Id, run: Id, evidence: seq<Evidence>, findings: seq<Id>, candidates: seq<Candidate>,
    review: Option<Review>, executions: seq<Execution>, tasks: seq<Task>, status: Option<Status>,
    textsSafe: bool, findingsOwned: bool, callsOwned: bool)

  datatype Code =
    | DuplicateEvidence | UnsafeText | DuplicateFinding | FindingContract
    | DuplicateCandidate | CandidateRank | CandidateEvidence | CandidateFinding | ScopeMismatch
    | ExecutionOwner | ToolCall
    | ReviewRequired | ReviewInvestigation | ReviewAuthority | ReviewOwner | ReviewCandidates | DecisionContract
    | DuplicateAssessment | AssessmentCardinality | AssessmentCoverage | AssessmentOwner | AssessmentCandidate
    | AssessmentEvidence | CheckCount | WrongCheckNames | ReconciliationRequestedEvidence | MissingSupplementalTask | UnexpectedSupplementalTask
    | OrphanTask | TaskLinkage
    | LeadRequired | DecisionActor | TentativeRequiresPartial | DecisionEvidence | DecisionCandidates
    | UnknownMechanism | NotAccepted | InconclusiveCandidates | CriticRequired | ConclusionRequired
    | CriticExecution | LeadExecution | UsableEvidenceRequired | FailedCheck | PartialEvidence

  datatype Verdict = Valid | Invalid(code: Code)

  // ---------------------------------------------------------------- small vocabulary

  function ToSet<T>(s: seq<T>): set<T> {
    set x | x in s
  }

  predicate Truthy(o: Option<string>) {
    o.Some? && o.value != ""
  }

  function CandidateIds(candidates: seq<Candidate>): (r: seq<Id>)
    ensures |r| == |candidates|
  {
    seq(|candidates|, i requires 0 <= i < |candidates| => candidates[i].id)
  }

  function Ranks(candidates: seq<Candidate>): (r: seq<int>)
    ensures |r| == |candidates|
  {
    seq(|candidates|, i requires 0 <= i < |candidates| => candidates[i].rank)
  }

  function AssessedIds(assessments: seq<Assessment>): (r: seq<Id>)
    ensures |r| == |assessments|
  {
    seq(|assessments|, i requires 0 <= i < |assessments| => assessments[i].candidate)
  }

  function AssessmentIds(assessments: seq<Assessment>): (r: seq<Id>)
    ensures |r| == |assessments|
  {
    seq(|assessments|, i requires 0 <= i < |assessments| => assessments[i].id)
  }

  function EvidenceIds(evidence: seq<Evidence>): (r: seq<Id>)
    ensures |r| == |evidence|
  {
    seq(|evidence|, i requires 0 <= i < |evidence| => evidence[i].id)
  }

  function CheckNames(checks: seq<CausalCheck>): (r: seq<CheckName>)
    ensures |r| == |checks|
  {
    seq(|checks|, i requires 0 <= i < |checks| => checks[i].name)
  }

  const ALL_CHECKS: set<CheckName> := {Temporal, Topology, Mechanism, BlastRadius, SymptomVsCause, Counterevidence, Alternatives}

  predicate Repeats<T(==)>(s: seq<T>) {
    |ToSet(s)| != |s|
  }

  /** Evidence that a conclusion may rest on: usable, and produced by this run. */
  function Usable(evidence: seq<Evidence>, run: Id): set<Id> {
    set e | e in evidence && e.usable && e.run == Some(run) :: e.id
  }

  function Accepted(assessments: seq<Assessment>): set<Id> {
    set x | x in assessments && x.verdict == Accept :: x.candidate
  }

  function DecisionOf(review: Review): Option<Decision> {
    if review.final.Some? then Some(review.final.value.decision)
    else if review.lead.Some? then Some(review.lead.value.decision)
    else None
  }

  function UncertaintyOf(review: Review): Option<string> {
    if review.final.Some? then review.final.value.uncertainty else None
  }

  predicate HasFailure(checks: seq<CausalCheck>) {
    exists i :: 0 <= i < |checks| && checks[i].status == Fail
  }

  predicate PublishedFailure(assessments: seq<Assessment>, decided: seq<Id>) {
    exists i :: 0 <= i < |assessments| && assessments[i].candidate in decided && HasFailure(assessments[i].checks)
  }

  predicate UnknownCause(check: CausalCheck) {
    check.status == Unknown && (check.name == Mechanism || check.name == SymptomVsCause)
  }

  predicate HasUnknownCause(checks: seq<CausalCheck>) {
    exists i :: 0 <= i < |checks| && UnknownCause(checks[i])
  }

  predicate PublishedUnknownCause(assessments: seq<Assessment>, decided: seq<Id>) {
    exists i :: 0 <= i < |assessments| && assessments[i].candidate in decided && HasUnknownCause(assessments[i].checks)
  }

  // ---------------------------------------------------------------- the review's own contract

  predicate CheckContract(c: CausalCheck) {
    if c.status == Unknown then Truthy(c.gap) else c.evidence != [] && c.gap.None?
  }

  predicate AssessmentContract(a: Assessment) {
    && |a.checks| == 7
    && (forall i :: 0 <= i < |a.checks| ==> CheckContract(a.checks[i]))
    && ToSet(CheckNames(a.checks)) == ALL_CHECKS
    && (if a.verdict == NeedsEvidence then Truthy(a.gap) && a.supplementalTasks != [] && a.round != 2
        else !Truthy(a.gap) && a.supplementalTasks == [])
  }

  predicate FinalContract(f: FinalDecision) {
    && !Repeats(f.decision.candidates)
    && (f.decision.action == Conclude || f.decision.action == Decline)
    && (f.decision.action == Conclude ==> f.decision.candidates != [] && f.decision.evidence != [])
    && (f.decision.action == Decline ==> f.decision.candidates == [] && Truthy(f.decision.stopReason))
  }

  predicate LeadContract(l: LeadDecision) {
    && !Repeats(l.tasks) && !Repeats(l.decision.candidates) && l.skillsNamed
    && (l.decision.action == Investigate || l.decision.action == Test ==> l.tasks != [])
    && (l.decision.action == Conclude ==> l.decision.candidates != [])
    && (l.decision.action == Decline ==> l.tasks == [] && l.decision.candidates == [] && Truthy(l.decision.stopReason))
  }

  predicate AgentContract(r: Review) {
    var ids := ToSet(CandidateIds(r.candidates));
    && (r.revision == 2 ==>
          && (r.diagnosticStatus.Some? ==> r.final.Some?)
          && (r.final.Some? && r.lead.Some? ==>
                r.final.value.decision == r.lead.value.decision && r.lead.value.tasks == [] && r.lead.value.skills == []))
    && r.run.Some?
    && (r.lead.None? && r.final.None? ==> r.diagnosticStatus.None?)
    && (forall i :: 0 <= i < |r.assessments| ==> r.assessments[i].run == r.run)
    && ToSet(AssessedIds(r.assessments)) <= ids
    && (DecisionOf(r).Some? ==>
          var d := DecisionOf(r).value;
          && ToSet(d.candidates) <= ids
          && (d.action == Conclude ==>
                ToSet(d.candidates) <= Accepted(r.assessments) || (r.final.Some? && r.final.value.actor == SingleActor))
          && (r.final.Some? ==> !PublishedFailure(r.assessments, d.candidates)))
  }

  predicate ReviewContract(r: Review) {
    && (forall i :: 0 <= i < |r.assessments| ==> AssessmentContract(r.assessments[i]))
    && (forall i :: 0 <= i < |r.candidates| ==> r.candidates[i].onsetOrdered)
    && (r.final.Some? ==> FinalContract(r.final.value))
    && (r.lead.Some? ==> LeadContract(r.lead.value))
    && (r.agentMode ==> AgentContract(r))
  }

  // ---------------------------------------------------------------- assessments and tasks

  function AssessmentVerdict(a: Assessment, candidateIds: set<Id>, usable: set<Id>, run: Id): Verdict {
    if a.run != Some(run) then Invalid(AssessmentOwner)
    else if a.candidate !in candidateIds then Invalid(AssessmentCandidate)
    else if !(ToSet(a.supporting) + ToSet(a.contradicting) <= usable) then Invalid(AssessmentEvidence)
    else if |a.checks| != 7 then Invalid(CheckCount)
    else if ToSet(CheckNames(a.checks)) != ALL_CHECKS then Invalid(WrongCheckNames)
    else if exists i :: 0 <= i < |a.checks| && !(ToSet(a.checks[i].evidence) <= usable) then Invalid(AssessmentEvidence)
    else if a.verdict == NeedsEvidence then
      if a.round == 2 then Invalid(ReconciliationRequestedEvidence)
      else if a.supplementalTasks == [] then Invalid(MissingSupplementalTask)
      else Valid
    else if a.supplementalTasks != [] then Invalid(UnexpectedSupplementalTask)
    else Valid
  }

  function EachAssessment(assessments: seq<Assessment>, candidateIds: set<Id>, usable: set<Id>, run: Id): (r: Verdict)
    ensures r.Valid? <==> forall i :: 0 <= i < |assessments| ==> AssessmentVerdict(assessments[i], candidateIds, usable, run).Valid?
  {
    if assessments == [] then Valid
    else
      var first := AssessmentVerdict(assessments[0], candidateIds, usable, run);
      var rest := EachAssessment(assessments[1..], candidateIds, usable, run);
      if first.Invalid? then first else rest
  }

  function AssessmentsVerdict(assessments: seq<Assessment>, candidateIds: set<Id>, usable: set<Id>, run: Id): Verdict {
    if Repeats(AssessmentIds(assessments)) then Invalid(DuplicateAssessment)
    else if |assessments| != |candidateIds| then Invalid(AssessmentCardinality)
    else if ToSet(AssessedIds(assessments)) != candidateIds then Invalid(AssessmentCoverage)
    else EachAssessment(assessments, candidateIds, usable, run)
  }

  predicate RoundTwoTask(t: Task, run: Id) {
    t.run == Some(run) && t.round == Some(2)
  }

  predicate Orphan(t: Task, run: Id, assessments: seq<Assessment>) {
    RoundTwoTask(t, run) && (t.assessment.None? || t.assessment.value !in AssessmentIds(assessments))
  }

  /** The round-two tasks stored for an assessment. */
  function LinkedTasks(tasks: seq<Task>, run: Id, assessment: Id): set<Id> {
    set t | t in tasks && RoundTwoTask(t, run) && t.assessment == Some(assessment) :: t.id
  }

  function LinkVerdict(a: Assessment, tasks: seq<Task>, run: Id): Verdict {
    var stored := LinkedTasks(tasks, run, a.id);
    if a.verdict == NeedsEvidence then
      if ToSet(a.supplementalTasks) != stored then Invalid(TaskLinkage) else Valid
    else if stored != {} && a.round != 2 then Invalid(UnexpectedSupplementalTask)
    else Valid
  }

  function EachLink(assessments: seq<Assessment>, tasks: seq<Task>, run: Id): (r: Verdict)
  {
    if assessments == [] then Valid
    else if LinkVerdict(assessments[0], tasks, run).Invalid? then LinkVerdict(assessments[0], tasks, run)
    else EachLink(assessments[1..], tasks, run)
  }

  function TasksVerdict(review: Review, tasks: seq<Task>, run: Id): Verdict {
    if review.runStatus == RunFailed then Valid
    else if exists i :: 0 <= i < |tasks| && Orphan(tasks[i], run, review.assessments) then Invalid(OrphanTask)
    else EachLink(review.assessments, tasks, run)
  }

  /** The loop that links tasks to assessments. */
  method ValidateSupplementalTasks(review: Review, tasks: seq<Task>, run: Id) returns (r: Verdict)
    ensures r == TasksVerdict(review, tasks, run)
  {
    if review.runStatus == RunFailed {
      return Valid;
    }
    var orphan, linked := LinkTasks(review.assessments, tasks, run);
    if orphan {
      return Invalid(OrphanTask);
    }
    r := CheckLinks(review.assessments, tasks, run, linked);
  }

  method LinkTasks(assessments: seq<Assessment>, tasks: seq<Task>, run: Id) returns (orphan: bool, linked: map<Id, set<Id>>)
    ensures orphan <==> exists i :: 0 <= i < |tasks| && Orphan(tasks[i], run, assessments)
    ensures !orphan ==> forall x :: x in AssessmentIds(assessments) ==> x in linked && linked[x] == LinkedTasks(tasks, run, x)
  {
    var ids := ToSet(AssessmentIds(assessments));
    linked := map x | x in ids :: {};
    for i := 0 to |tasks|
      invariant linked.Keys == ids
      invariant forall j :: 0 <= j < i ==> !Orphan(tasks[j], run, assessments)
      invariant forall x :: x in ids ==> linked[x] == LinkedTasks(tasks[..i], run, x)
    {
      var t := tasks[i];
      if !RoundTwoTask(t, run) {
        LinkSkip(tasks, i, run);
        continue;
      }
      if t.assessment.None? || t.assessment.value !in ids {
        return true, linked;
      }
      LinkOne(tasks, i, run);
      linked := linked[t.assessment.value := linked[t.assessment.value] + {t.id}];
    }
    assert tasks[..|tasks|] == tasks;
    orphan := false;
  }

  method CheckLinks(assessments: seq<Assessment>, tasks: seq<Task>, run: Id, linked: map<Id, set<Id>>) returns (r: Verdict)
    requires forall x :: x in AssessmentIds(assessments) ==> x in linked && linked[x] == LinkedTasks(tasks, run, x)
    ensures r == EachLink(assessments, tasks, run)
  {
    for k := 0 to |assessments|
      invariant EachLink(assessments, tasks, run) == EachLink(assessments[k..], tasks, run)
    {
      var a := assessments[k];
      assert a.id == AssessmentIds(assessments)[k];
      assert assessments[k..][1..] == assessments[k + 1..];
      var stored := linked[a.id];
      if a.verdict == NeedsEvidence {
        if ToSet(a.supplementalTasks) != stored {
          return Invalid(TaskLinkage);
        }
      } else if stored != {} && a.round != 2 {
        return Invalid(UnexpectedSupplementalTask);
      }
    }
    return Valid;
  }

  lemma LinkSkip(tasks: seq<Task>, i: nat, run: Id)
    requires i < |tasks| && !RoundTwoTask(tasks[i], run)
    ensures forall x :: LinkedTasks(tasks[..i + 1], run, x) == LinkedTasks(tasks[..i], run, x)
  {
    assert tasks[..i + 1] == tasks[..i] + [tasks[i]];
  }

  lemma LinkOne(tasks: seq<Task>, i: nat, run: Id)
    requires i < |tasks| && RoundTwoTask(tasks[i], run) && tasks[i].assessment.Some?
    ensures forall x :: LinkedTasks(tasks[..i + 1], run, x)
                        == LinkedTasks(tasks[..i], run, x) + (if x == tasks[i].assessment.value then {tasks[i].id} else {})
  {
    assert tasks[..i + 1] == tasks[..i] + [tasks[i]];
    forall x ensures LinkedTasks(tasks[..i + 1], run, x)
                     == LinkedTasks(tasks[..i], run, x) + (if x == tasks[i].assessment.value then {tasks[i].id} else {})
    {
      assert forall u :: u in tasks[..i + 1] <==> u in tasks[..i] || u == tasks[i];
    }
  }

  // ---------------------------------------------------------------- the result check

  function CandidateVerdict(c: Candidate, findings: set<Id>, usable: set<Id>): Verdict {
    if !(ToSet(c.supporting) + ToSet(c.contradicting) <= usable) then Invalid(CandidateEvidence)
    else if !(ToSet(c.supportingFindings) <= findings) then Invalid(CandidateFinding)
    else if !(ToSet(c.contradictingFindings) <= findings) then Invalid(CandidateFinding)
    else if !c.scopeConsistent then Invalid(ScopeMismatch)
    else Valid
  }

  function EachCandidate(candidates: seq<Candidate>, findings: set<Id>, usable: set<Id>): (r: Verdict)
    ensures r.Valid? <==> forall i :: 0 <= i < |candidates| ==> CandidateVerdict(candidates[i], findings, usable).Valid?
  {
    if candidates == [] then Valid
    else
      var first := CandidateVerdict(candidates[0], findings, usable);
      var rest := EachCandidate(candidates[1..], findings, usable);
      if first.Invalid? then first else rest
  }

  /** Different ranks, none outside 1..n: sorted, they are 1..n. */
  predicate RanksAreOneToN(ranks: seq<int>) {
    !Repeats(ranks) && forall i :: 0 <= i < |ranks| ==> 1 <= ranks[i] <= |ranks|
  }

  predicate Concluding(status: Option<Status>) {
    status == Some(Complete) || status == Some(Partial)
  }

  predicate IsFinalRound(round: Option<nat>, finalRound: nat) {
    round == Some(finalRound) || (finalRound == 1 && round.None?)
  }

  predicate CriticRan(executions: seq<Execution>, finalRound: nat) {
    exists i :: 0 <= i < |executions| && executions[i].completed && executions[i].criticReview && IsFinalRound(executions[i].round, finalRound)
  }

  predicate LeadRan(executions: seq<Execution>, finalRound: nat) {
    exists i :: 0 <= i < |executions| && executions[i].completed && executions[i].leadAdjudication && IsFinalRound(executions[i].round, finalRound)
  }

  function FinalRound(tasks: seq<Task>, assessments: seq<Assessment>, run: Id): nat {
    if (exists i :: 0 <= i < |tasks| && RoundTwoTask(tasks[i], run))
       || (exists i :: 0 <= i < |assessments| && assessments[i].round == 2) then 2 else 1
  }

  /** The entry a dictionary keyed by candidate holds: the last one. */
  function AssessmentFor(assessments: seq<Assessment>, candidate: Id): (r: Assessment)
    requires candidate in AssessedIds(assessments)
    ensures r in assessments && r.candidate == candidate
  {
    var n := |assessments| - 1;
    if assessments[n].candidate == candidate then assessments[n]
    else
      assert AssessedIds(assessments) == AssessedIds(assessments[..n]) + [assessments[n].candidate];
      AssessmentFor(assessments[..n], candidate)
  }

  function CandidateFor(candidates: seq<Candidate>, id: Id): (r: Candidate)
    requires id in CandidateIds(candidates)
    ensures r in candidates && r.id == id
  {
    var n := |candidates| - 1;
    if candidates[n].id == id then candidates[n]
    else
      assert CandidateIds(candidates) == CandidateIds(candidates[..n]) + [candidates[n].id];
      CandidateFor(candidates[..n], id)
  }

  /** What a partial result must show for each decided candidate. */
  function PartialVerdict(decided: seq<Id>, assessments: seq<Assessment>, candidates: seq<Candidate>, usable: set<Id>): (r: Verdict)
    requires forall i :: 0 <= i < |decided| ==> decided[i] in AssessedIds(assessments) && decided[i] in CandidateIds(candidates)
    ensures r.Valid? ==> forall i :: 0 <= i < |decided| ==> |ToSet(CandidateFor(candidates, decided[i]).supporting)| >= 2
  {
    if decided == [] then Valid
    else
      var c := CandidateFor(candidates, decided[0]);
      var rest := PartialVerdict(decided[1..], assessments, candidates, usable);
      if HasFailure(AssessmentFor(assessments, decided[0]).checks) then Invalid(FailedCheck)
      else if |ToSet(c.supporting)| < 2 then Invalid(PartialEvidence)
      else if !(ToSet(c.supporting) <= usable) then Invalid(CandidateEvidence)
      else rest
  }

  function StatusVerdict(a: Submission, review: Review, d: Decision): Verdict
    requires d.action == Conclude ==> ToSet(d.candidates) <= Accepted(review.assessments)
    requires ToSet(d.candidates) <= ToSet(CandidateIds(a.candidates))
  {
    var usable := Usable(a.evidence, a.run);
    var round := FinalRound(a.tasks, review.assessments, a.run);
    if Concluding(a.status) && review.assessments == [] then Invalid(CriticRequired)
    else if Concluding(a.status) && (d.action != Conclude || d.candidates == []) then Invalid(ConclusionRequired)
    else if Concluding(a.status) && !CriticRan(a.executions, round) then Invalid(CriticExecution)
    else if Concluding(a.status) && !LeadRan(a.executions, round) then Invalid(LeadExecution)
    else if a.status == Some(Partial) then
      if usable == {} then Invalid(UsableEvidenceRequired)
      else
        DecidedAreKnown(d.candidates, review.assessments, a.candidates);
        PartialVerdict(d.candidates, review.assessments, a.candidates, usable)
    else if a.status == Some(Inconclusive) && d.candidates != [] then Invalid(InconclusiveCandidates)
    else Valid
  }

  lemma AcceptedAreAssessed(assessments: seq<Assessment>)
    ensures Accepted(assessments) <= ToSet(AssessedIds(assessments))
  {
    forall x | x in Accepted(assessments) ensures x in ToSet(AssessedIds(assessments)) {
      var i :| 0 <= i < |assessments| && assessments[i].candidate == x;
      assert AssessedIds(assessments)[i] == x;
    }
  }

  lemma DecidedAreKnown(decided: seq<Id>, assessments: seq<Assessment>, candidates: seq<Candidate>)
    requires ToSet(decided) <= Accepted(assessments) && ToSet(decided) <= ToSet(CandidateIds(candidates))
    ensures forall i :: 0 <= i < |decided| ==> decided[i] in AssessedIds(assessments) && decided[i] in CandidateIds(candidates)
  {
    AcceptedAreAssessed(assessments);
    forall i | 0 <= i < |decided| ensures decided[i] in AssessedIds(assessments) && decided[i] in CandidateIds(candidates) {
      assert decided[i] in ToSet(decided);
      assert decided[i] in ToSet(AssessedIds(assessments));
      assert decided[i] in ToSet(CandidateIds(candidates));
    }
  }

  predicate ActorMayDecide(review: Review) {
    review.final.Some? ==>
      var f := review.final.value;
      f.actor == CriticActor || (f.actor == LeadActor && f.decision.action == Decline && review.candidates == [] && review.assessments == [])
  }

  function DecisionVerdict(a: Submission, review: Review, d: Decision): Verdict {
    var uncertain := Truthy(UncertaintyOf(review));
    if !ActorMayDecide(review) then Invalid(DecisionActor)
    else if uncertain && d.action == Conclude && a.status != Some(Partial) then Invalid(TentativeRequiresPartial)
    else if !(ToSet(d.evidence) <= Usable(a.evidence, a.run)) then Invalid(DecisionEvidence)
    else if !(ToSet(d.candidates) <= ToSet(CandidateIds(a.candidates))) then Invalid(DecisionCandidates)
    else if review.final.Some? && d.action == Conclude && !uncertain && PublishedUnknownCause(review.assessments, d.candidates) then
      Invalid(UnknownMechanism)
    else if d.action == Conclude && !(ToSet(d.candidates) <= Accepted(review.assessments)) then Invalid(NotAccepted)
    else if d.action == Decline && d.candidates != [] then Invalid(InconclusiveCandidates)
    else StatusVerdict(a, review, d)
  }

  function ReviewVerdict(a: Submission, review: Review): Verdict {
    var ids := ToSet(CandidateIds(a.candidates));
    if review.investigation != a.investigation then Invalid(ReviewInvestigation)
    else if !review.agentMode then Invalid(ReviewAuthority)
    else if review.run != Some(a.run) then Invalid(ReviewOwner)
    else if ToSet(CandidateIds(review.candidates)) != ids then Invalid(ReviewCandidates)
    else if review.runStatus == RunFailed && review.assessments == [] then Valid
    else if !ReviewContract(review) then Invalid(DecisionContract)
    else if AssessmentsVerdict(review.assessments, ids, Usable(a.evidence, a.run), a.run).Invalid? then
      AssessmentsVerdict(review.assessments, ids, Usable(a.evidence, a.run), a.run)
    else if TasksVerdict(review, a.tasks, a.run).Invalid? then TasksVerdict(review, a.tasks, a.run)
    else if DecisionOf(review).None? then (if Concluding(a.status) then Invalid(LeadRequired) else Valid)
    else DecisionVerdict(a, review, DecisionOf(review).value)
  }

  function ResultVerdict(a: Submission): Verdict {
    var usable := Usable(a.evidence, a.run);
    if Repeats(EvidenceIds(a.evidence)) then Invalid(DuplicateEvidence)
    else if !a.textsSafe then Invalid(UnsafeText)
    else if Repeats(a.findings) then Invalid(DuplicateFinding)
    else if !a.findingsOwned then Invalid(FindingContract)
    else if Repeats(CandidateIds(a.candidates)) then Invalid(DuplicateCandidate)
    else if !RanksAreOneToN(Ranks(a.candidates)) then Invalid(CandidateRank)
    else if EachCandidate(a.candidates, ToSet(a.findings), usable).Invalid? then EachCandidate(a.candidates, ToSet(a.findings), usable)
    else if exists i :: 0 <= i < |a.executions| && a.executions[i].run != Some(a.run) then Invalid(ExecutionOwner)
    else if !a.callsOwned then Invalid(ToolCall)
    else if a.review.None? then (if Concluding(a.status) then Invalid(ReviewRequired) else Valid)
    else ReviewVerdict(a, a.review.value)
  }

  // ---------------------------------------------------------------- the final-status check

  /** `durableCompleted` and `investigationCompleted` are None when the caller does not pass them. */
  datatype Run = Run(status: RunStatus, diagnosticStatus: Option<Status>, durableCompleted: Option<bool>, investigationCompleted: Option<bool>)

  function ExpectedRunStatus(s: Status): RunStatus {
    match s
    case Complete => RunCompleted
    case Partial => RunPartial
    case Inconclusive => RunCompleted
  }

  function DecisionTasks(review: Review): seq<Id> {
    if review.final.None? && review.lead.Some? then review.lead.value.tasks else []
  }

  predicate FinalStatusAccepts(review: Review, run: Run) {
    && run.investigationCompleted != Some(false)
    && review.runStatus == run.status
    && run.status != RunFailed
    && review.diagnosticStatus.Some? && review.diagnosticStatus == run.diagnosticStatus
    && run.status == ExpectedRunStatus(review.diagnosticStatus.value)
    && run.durableCompleted != Some(false)
    && DecisionOf(review).Some?
    && var d := DecisionOf(review).value;
       && !(Truthy(UncertaintyOf(review)) && d.action == Conclude && review.diagnosticStatus != Some(Partial))
       && (if Concluding(review.diagnosticStatus) then d.action == Conclude && d.candidates != []
           else d.action == Decline && DecisionTasks(review) == [] && d.candidates == [])
  }

  // ---------------------------------------------------------------- the report projection

  datatype Report = Report(
    investigation: Id, run: Option<Id>, diagnosticStatus: Option<Status>, diagnoses: seq<Candidate>, alternatives: seq<Candidate>)

  function AuthoritativeIds(review: Review): seq<Id> {
    if !review.agentMode || DecisionOf(review).None? then [] else DecisionOf(review).value.candidates
  }

  /** The review's candidates that were not decided, in the review's order. */
  function Undecided(candidates: seq<Candidate>, decided: seq<Id>): seq<Id> {
    if candidates == [] then []
    else (if candidates[0].id in decided then [] else [candidates[0].id]) + Undecided(candidates[1..], decided)
  }

  predicate ProjectionAccepts(review: Review, report: Report) {
    && report.investigation == review.investigation
    && report.run == review.run
    && report.diagnosticStatus == review.diagnosticStatus
    && if review.diagnosticStatus == Some(Inconclusive) then report.diagnoses == [] && report.alternatives == []
       else CandidateIds(report.diagnoses) == AuthoritativeIds(review)
            && CandidateIds(report.alternatives) == Undecided(review.candidates, AuthoritativeIds(review))
  }
}
