/** What the three publication validators guarantee together about a published conclusion. */
module PublicationGuarantee {
  import opened Options
  import opened PublicationGate
  import opened Sorting

  // ---------------------------------------------------------------- counting

  lemma {:induction false} SetIsNoLarger<T>(s: seq<T>)
    ensures |ToSet(s)| <= |s|
    ensures |ToSet(s)| == |s| ==> Distinct(s)
  {
    if s != [] {
      var n := |s| - 1;
      SetIsNoLarger(s[..n]);
      assert s == s[..n] + [s[n]];
      assert ToSet(s) == ToSet(s[..n]) + {s[n]};
      if s[n] in ToSet(s[..n]) {
        assert ToSet(s) == ToSet(s[..n]);
      }
    }
  }

  /** `x` is in `s` at exactly one place. */
  ghost predicate ExactlyOnce<T(!new)>(s: seq<T>, x: T) {
    exists i :: 0 <= i < |s| && s[i] == x && forall j :: 0 <= j < |s| && s[j] == x ==> j == i
  }

  lemma CoverMeansOnce<T(!new)>(s: seq<T>, all: set<T>, x: T)
    requires ToSet(s) == all && |s| == |all| && x in all
    ensures ExactlyOnce(s, x)
  {
    SetIsNoLarger(s);
    assert x in ToSet(s);
    var i :| 0 <= i < |s| && s[i] == x;
    assert forall j :: 0 <= j < |s| && s[j] == x ==> j == i;
  }

  lemma SevenChecks()
    ensures |ALL_CHECKS| == 7
    ensures forall name: CheckName :: name in ALL_CHECKS
  {
    forall name: CheckName ensures name in ALL_CHECKS {
      match name
      case Temporal => case Topology => case Mechanism => case BlastRadius =>
      case SymptomVsCause => case Counterevidence => case Alternatives =>
    }
    assert |{Temporal, Topology, Mechanism, BlastRadius, SymptomVsCause, Counterevidence}| == 6;
    assert ALL_CHECKS == {Temporal, Topology, Mechanism, BlastRadius, SymptomVsCause, Counterevidence} + {Alternatives};
  }

  lemma {:induction false} UndecidedMeans(candidates: seq<Candidate>, decided: seq<Id>, x: Id)
    ensures x in Undecided(candidates, decided) <==> x in CandidateIds(candidates) && x !in decided
  {
    if candidates != [] {
      UndecidedMeans(candidates[1..], decided, x);
      assert CandidateIds(candidates) == [candidates[0].id] + CandidateIds(candidates[1..]);
    }
  }

  // ---------------------------------------------------------------- the guarantee

  /** Each check of the list appears once under its name, none failed, and its evidence is usable. */
  ghost predicate SoundChecks(checks: seq<CausalCheck>, usable: set<Id>) {
    && |checks| == 7
    && (forall name: CheckName :: ExactlyOnce(CheckNames(checks), name))
    && (forall i :: 0 <= i < |checks| ==> checks[i].status != Fail && ToSet(checks[i].evidence) <= usable)
  }

  ghost predicate CausePassed(checks: seq<CausalCheck>) {
    forall i :: 0 <= i < |checks| && (checks[i].name == Mechanism || checks[i].name == SymptomVsCause) ==> checks[i].status == Pass
  }

  /** Exactly one assessment is about `id`, and it accepts it on sound checks and usable evidence. */
  ghost predicate SoundlyAssessed(assessments: seq<Assessment>, id: Id, usable: set<Id>, firm: bool) {
    && ExactlyOnce(AssessedIds(assessments), id)
    && forall i :: 0 <= i < |assessments| && assessments[i].candidate == id ==>
         && assessments[i].verdict == Accept
         && SoundChecks(assessments[i].checks, usable)
         && ToSet(assessments[i].supporting) + ToSet(assessments[i].contradicting) <= usable
         && (firm ==> CausePassed(assessments[i].checks))
  }

  /** The admitted candidate `id` rests on usable evidence, on two items or more when partial. */
  ghost predicate SoundlyAdmitted(candidates: seq<Candidate>, id: Id, usable: set<Id>, partial: bool) {
    && ExactlyOnce(CandidateIds(candidates), id)
    && forall i :: 0 <= i < |candidates| && candidates[i].id == id ==>
         && ToSet(candidates[i].supporting) + ToSet(candidates[i].contradicting) <= usable
         && (partial ==> |ToSet(candidates[i].supporting)| >= 2)
  }

  ghost predicate Published(a: Submission, review: Review, run: Run, report: Report) {
    && ResultVerdict(a).Valid? && a.review == Some(review) && a.status == review.diagnosticStatus
    && FinalStatusAccepts(review, run) && ProjectionAccepts(review, report)
    && review.final.Some? && Concluding(review.diagnosticStatus)
  }

  predicate Firm(review: Review) {
    !Truthy(UncertaintyOf(review))
  }

  lemma PublishedPassedAll(a: Submission, review: Review, run: Run, report: Report)
    requires Published(a, review, run, report)
    ensures review.runStatus != RunFailed && review.agentMode && ReviewContract(review)
    ensures AssessmentsVerdict(review.assessments, ToSet(CandidateIds(a.candidates)), Usable(a.evidence, a.run), a.run).Valid?
    ensures DecisionVerdict(a, review, review.final.value.decision).Valid?
    ensures review.final.value.decision.action == Conclude && review.final.value.decision.candidates != []
    ensures !Repeats(CandidateIds(a.candidates)) && EachCandidate(a.candidates, ToSet(a.findings), Usable(a.evidence, a.run)).Valid?
    ensures ToSet(CandidateIds(review.candidates)) == ToSet(CandidateIds(a.candidates))
  {
  }

  /** The diagnoses are the decided candidates in decided order, each once; together with the
      alternatives they name every candidate of the review, and no candidate is both. */
  lemma PublishedCandidatesPartition(a: Submission, review: Review, run: Run, report: Report)
    requires Published(a, review, run, report)
    ensures CandidateIds(report.diagnoses) == review.final.value.decision.candidates != []
    ensures Distinct(CandidateIds(report.diagnoses))
    ensures ToSet(CandidateIds(report.diagnoses)) !! ToSet(CandidateIds(report.alternatives))
    ensures ToSet(CandidateIds(report.diagnoses)) + ToSet(CandidateIds(report.alternatives)) == ToSet(CandidateIds(review.candidates))
  {
    PublishedPassedAll(a, review, run, report);
    var decided := review.final.value.decision.candidates;
    SetIsNoLarger(decided);
    forall x: Id ensures x in CandidateIds(report.alternatives) <==> x in CandidateIds(review.candidates) && x !in decided {
      UndecidedMeans(review.candidates, decided, x);
    }
  }

  lemma OneAssessmentEach(assessments: seq<Assessment>, ids: set<Id>, usable: set<Id>, run: Id, id: Id)
    requires AssessmentsVerdict(assessments, ids, usable, run).Valid? && id in ids
    ensures ExactlyOnce(AssessedIds(assessments), id)
    ensures forall i :: 0 <= i < |assessments| ==> AssessmentVerdict(assessments[i], ids, usable, run).Valid?
  {
    CoverMeansOnce(AssessedIds(assessments), ids, id);
  }

  lemma ValidAssessmentChecks(x: Assessment, ids: set<Id>, usable: set<Id>, run: Id, firm: bool)
    requires AssessmentVerdict(x, ids, usable, run).Valid? && !HasFailure(x.checks) && (firm ==> !HasUnknownCause(x.checks))
    ensures SoundChecks(x.checks, usable)
    ensures ToSet(x.supporting) + ToSet(x.contradicting) <= usable
    ensures firm ==> CausePassed(x.checks)
  {
    SevenChecks();
    forall name: CheckName ensures ExactlyOnce(CheckNames(x.checks), name) {
      assert name in ALL_CHECKS;
      CoverMeansOnce(CheckNames(x.checks), ALL_CHECKS, name);
    }
    forall i | 0 <= i < |x.checks| && firm && (x.checks[i].name == Mechanism || x.checks[i].name == SymptomVsCause)
      ensures x.checks[i].status == Pass
    {
      assert !UnknownCause(x.checks[i]);
    }
  }

  lemma DecidedAssessmentIsSound(assessments: seq<Assessment>, ids: set<Id>, usable: set<Id>, run: Id, decided: seq<Id>, id: Id, firm: bool)
    requires AssessmentsVerdict(assessments, ids, usable, run).Valid? && id in ids
    requires id in decided && id in Accepted(assessments)
    requires !PublishedFailure(assessments, decided) && (firm ==> !PublishedUnknownCause(assessments, decided))
    ensures SoundlyAssessed(assessments, id, usable, firm)
  {
    OneAssessmentEach(assessments, ids, usable, run, id);
    var accepted :| accepted in assessments && accepted.verdict == Accept && accepted.candidate == id;
    var k :| 0 <= k < |assessments| && assessments[k] == accepted;
    assert AssessedIds(assessments)[k] == id;
    forall i | 0 <= i < |assessments| && assessments[i].candidate == id
      ensures assessments[i].verdict == Accept
      ensures SoundChecks(assessments[i].checks, usable)
      ensures ToSet(assessments[i].supporting) + ToSet(assessments[i].contradicting) <= usable
      ensures firm ==> CausePassed(assessments[i].checks)
    {
      assert AssessedIds(assessments)[i] == id;
      assert i == k;
      ValidAssessmentChecks(assessments[i], ids, usable, run, firm);
    }
  }

  lemma DecidedCandidateIsSound(a: Submission, id: Id, partial: bool)
    requires !Repeats(CandidateIds(a.candidates)) && id in CandidateIds(a.candidates)
    requires EachCandidate(a.candidates, ToSet(a.findings), Usable(a.evidence, a.run)).Valid?
    requires partial ==> |ToSet(CandidateFor(a.candidates, id).supporting)| >= 2
    ensures SoundlyAdmitted(a.candidates, id, Usable(a.evidence, a.run), partial)
  {
    var ids := CandidateIds(a.candidates);
    CoverMeansOnce(ids, ToSet(ids), id);
    var c := CandidateFor(a.candidates, id);
    var k :| 0 <= k < |a.candidates| && a.candidates[k] == c;
    assert ids[k] == id;
    forall i | 0 <= i < |a.candidates| && a.candidates[i].id == id
      ensures ToSet(a.candidates[i].supporting) + ToSet(a.candidates[i].contradicting) <= Usable(a.evidence, a.run)
      ensures partial ==> |ToSet(a.candidates[i].supporting)| >= 2
    {
      assert ids[i] == id;
      assert CandidateVerdict(a.candidates[i], ToSet(a.findings), Usable(a.evidence, a.run)).Valid?;
    }
  }

  lemma DecisionPassed(a: Submission, review: Review, d: Decision)
    requires DecisionVerdict(a, review, d).Valid? && review.final.Some? && d == review.final.value.decision
    requires d.action == Conclude && Concluding(a.status)
    ensures review.final.value.actor == CriticActor
    ensures ToSet(d.candidates) <= Accepted(review.assessments) && ToSet(d.candidates) <= ToSet(CandidateIds(a.candidates))
    ensures ToSet(d.evidence) <= Usable(a.evidence, a.run)
    ensures Firm(review) ==> !PublishedUnknownCause(review.assessments, d.candidates)
    ensures !Firm(review) ==> a.status == Some(Partial)
    ensures var round := FinalRound(a.tasks, review.assessments, a.run); CriticRan(a.executions, round) && LeadRan(a.executions, round)
    ensures a.status == Some(Partial) ==>
              forall i :: 0 <= i < |d.candidates| ==>
                d.candidates[i] in CandidateIds(a.candidates) && |ToSet(CandidateFor(a.candidates, d.candidates[i]).supporting)| >= 2
  {
    DecidedAreKnown(d.candidates, review.assessments, a.candidates);
  }

  /** Every diagnosis has exactly one assessment: the critic accepted it, each of the seven checks
      appears once and none failed, mechanism and symptom checks passed unless the conclusion is
      tentative, and all evidence is usable and from this run. The admitted candidate of that id
      rests on such evidence too. */
  lemma PublishedDiagnosisIsSound(a: Submission, review: Review, run: Run, report: Report, id: Id)
    requires Published(a, review, run, report) && id in CandidateIds(report.diagnoses)
    ensures SoundlyAssessed(review.assessments, id, Usable(a.evidence, a.run), Firm(review))
    ensures SoundlyAdmitted(a.candidates, id, Usable(a.evidence, a.run), review.diagnosticStatus == Some(Partial))
  {
    PublishedPassedAll(a, review, run, report);
    var d := review.final.value.decision;
    DecisionPassed(a, review, d);
    DecidedAreKnown(d.candidates, review.assessments, a.candidates);
    assert id in ToSet(d.candidates);
    var k :| 0 <= k < |d.candidates| && d.candidates[k] == id;
    DecidedAssessmentIsSound(review.assessments, ToSet(CandidateIds(a.candidates)), Usable(a.evidence, a.run), a.run, d.candidates, id, Firm(review));
    DecidedCandidateIsSound(a, id, review.diagnosticStatus == Some(Partial));
  }

  /** A published conclusion was decided by the critic on usable evidence, after a critic review
      and a lead adjudication completed in the final round; a tentative one is partial. */
  lemma PublishedDecisionIsSound(a: Submission, review: Review, run: Run, report: Report)
    requires Published(a, review, run, report)
    ensures review.final.value.actor == CriticActor
    ensures ToSet(review.final.value.decision.evidence) <= Usable(a.evidence, a.run)
    ensures var round := FinalRound(a.tasks, review.assessments, a.run); CriticRan(a.executions, round) && LeadRan(a.executions, round)
    ensures !Firm(review) ==> review.diagnosticStatus == Some(Partial) && run.status == RunPartial
  {
    PublishedPassedAll(a, review, run, report);
    DecisionPassed(a, review, review.final.value.decision);
  }

  // ---------------------------------------------------------------- where the guarantee ends

  lemma {:induction false} UndecidedBag(candidates: seq<Candidate>, decided: seq<Id>, x: Id)
    ensures multiset(Undecided(candidates, decided))[x] == if x in decided then 0 else multiset(CandidateIds(candidates))[x]
  {
    if candidates != [] {
      UndecidedBag(candidates[1..], decided, x);
      assert CandidateIds(candidates) == [candidates[0].id] + CandidateIds(candidates[1..]);
    }
  }

  lemma {:induction false} DistinctBag(s: seq<Id>, x: Id)
    requires Distinct(s)
    ensures multiset(s)[x] == if x in s then 1 else 0
  {
    if s != [] {
      DistinctBag(s[1..], x);
      assert s == [s[0]] + s[1..];
      assert s[0] !in s[1..];
    }
  }

  ghost predicate ListedOnce(candidates: seq<Candidate>, decided: seq<Id>) {
    forall x :: x in decided ==> multiset(CandidateIds(candidates))[x] == 1
  }

  /** The validators compare candidate ids as sets, so a review may list a candidate twice. The
      report then has as many entries as the review exactly when no decided one is repeated. */
  lemma PublishedCountsPartition(a: Submission, review: Review, run: Run, report: Report)
    requires Published(a, review, run, report)
    ensures multiset(CandidateIds(report.diagnoses)) + multiset(CandidateIds(report.alternatives)) == multiset(CandidateIds(review.candidates))
            <==> ListedOnce(review.candidates, review.final.value.decision.candidates)
  {
    var decided := review.final.value.decision.candidates;
    PublishedCandidatesPartition(a, review, run, report);
    var all, split := multiset(CandidateIds(review.candidates)), multiset(CandidateIds(report.diagnoses)) + multiset(CandidateIds(report.alternatives));
    forall x: Id ensures split[x] == if x in decided then 1 else all[x] {
      UndecidedBag(review.candidates, decided, x);
      DistinctBag(decided, x);
    }
    if split == all {
      forall x | x in decided ensures all[x] == 1 {
        assert split[x] == 1;
      }
    }
  }

  // ---------------------------------------------------------------- what a report may show

  /** Every reported diagnosis is, content and all, a candidate that the submission admitted. */
  ghost predicate ReportsAdmitted(a: Submission, report: Report) {
    forall d :: d in report.diagnoses ==> d in a.candidates
  }

  ghost predicate RestsOn(c: Candidate, usable: set<Id>, partial: bool) {
    ToSet(c.supporting) + ToSet(c.contradicting) <= usable && (partial ==> |ToSet(c.supporting)| >= 2)
  }

  /** Such a report's diagnoses rest on usable evidence of the run, on two items when it is partial. */
  lemma ReportedEvidenceIsSound(a: Submission, review: Review, run: Run, report: Report, d: Candidate)
    requires Published(a, review, run, report) && ReportsAdmitted(a, report) && d in report.diagnoses
    ensures RestsOn(d, Usable(a.evidence, a.run), review.diagnosticStatus == Some(Partial))
  {
    var k :| 0 <= k < |report.diagnoses| && report.diagnoses[k] == d;
    assert CandidateIds(report.diagnoses)[k] == d.id;
    PublishedDiagnosisIsSound(a, review, run, report, d.id);
    var i :| 0 <= i < |a.candidates| && a.candidates[i] == d;
  }

  /** The validators never look at the content: a published report can be shown with any diagnoses
      and alternatives of the same ids, and with no others. */
  lemma ReportContentIsFree(a: Submission, review: Review, run: Run, report: Report, shown: seq<Candidate>, others: seq<Candidate>)
    requires Published(a, review, run, report)
    ensures Published(a, review, run, report.(diagnoses := shown, alternatives := others)) <==>
            CandidateIds(shown) == CandidateIds(report.diagnoses) && CandidateIds(others) == CandidateIds(report.alternatives)
  {
  }

  lemma {:induction false} IdBeyond(evidence: seq<Evidence>) returns (x: Id)
    ensures forall e :: e in evidence ==> e.id < x
  {
    x := 0;
    if evidence != [] {
      x := IdBeyond(evidence[1..]);
      x := if x <= evidence[0].id then evidence[0].id + 1 else x;
      assert forall e :: e in evidence ==> e == evidence[0] || e in evidence[1..];
    }
  }

  /** So the condition cannot be dropped: whatever is published, each of its diagnoses can be shown
      with another content, citing unusable evidence, and is published all the same. */
  lemma UnadmittedCanMiscite(a: Submission, review: Review, run: Run, report: Report, k: nat) returns (c: Candidate)
    requires Published(a, review, run, report) && k < |report.diagnoses|
    ensures c.id == report.diagnoses[k].id && !RestsOn(c, Usable(a.evidence, a.run), false)
    ensures Published(a, review, run, report.(diagnoses := report.diagnoses[k := c]))
    ensures !ReportsAdmitted(a, report.(diagnoses := report.diagnoses[k := c]))
  {
    var usable := Usable(a.evidence, a.run);
    var x := IdBeyond(a.evidence);
    c := report.diagnoses[k].(supporting := [x]);
    var shown := report.diagnoses[k := c];
    assert x in [x] && x in ToSet(c.supporting);
    assert CandidateIds(shown) == CandidateIds(report.diagnoses);
    ReportContentIsFree(a, review, run, report, shown, report.alternatives);
    if c in a.candidates {
      AdmittedRests(a, review, run, report, c);
    }
    assert shown[k] == c;
  }

  lemma AdmittedRests(a: Submission, review: Review, run: Run, report: Report, c: Candidate)
    requires Published(a, review, run, report) && c in a.candidates
    ensures RestsOn(c, Usable(a.evidence, a.run), false)
  {
    PublishedPassedAll(a, review, run, report);
    var i :| 0 <= i < |a.candidates| && a.candidates[i] == c;
    assert CandidateVerdict(a.candidates[i], ToSet(a.findings), Usable(a.evidence, a.run)).Valid?;
  }

  function Entries(candidates: seq<Candidate>, decided: seq<Id>): (r: seq<Candidate>)
    requires forall x :: x in decided ==> x in CandidateIds(candidates)
    ensures |r| == |decided|
  {
    seq(|decided|, k requires 0 <= k < |decided| => CandidateFor(candidates, decided[k]))
  }

  lemma PublishedDecidesAdmitted(a: Submission, review: Review, run: Run, report: Report)
    requires Published(a, review, run, report)
    ensures forall x :: x in review.final.value.decision.candidates ==> x in CandidateIds(a.candidates)
  {
    PublishedPassedAll(a, review, run, report);
    var d := review.final.value.decision;
    forall x | x in d.candidates ensures x in CandidateIds(a.candidates) {
      assert x in ToSet(d.candidates);
      assert x in ToSet(CandidateIds(a.candidates));
    }
  }

  /** Exactly one list of diagnoses meets the condition: the admitted entries of the decided ids,
      in decided order. */
  lemma AdmittedReportIsUnique(a: Submission, review: Review, run: Run, report: Report)
    requires Published(a, review, run, report)
    ensures forall x :: x in review.final.value.decision.candidates ==> x in CandidateIds(a.candidates)
    ensures ReportsAdmitted(a, report) <==> report.diagnoses == Entries(a.candidates, review.final.value.decision.candidates)
  {
    var decided := review.final.value.decision.candidates;
    PublishedDecidesAdmitted(a, review, run, report);
    PublishedPassedAll(a, review, run, report);
    var entries := Entries(a.candidates, decided);
    assert CandidateIds(report.diagnoses) == decided;
    forall k | 0 <= k < |decided| ensures report.diagnoses[k].id == decided[k] && entries[k].id == decided[k] && entries[k] in a.candidates {
      assert CandidateIds(report.diagnoses)[k] == decided[k];
      assert decided[k] in decided;
    }
    if ReportsAdmitted(a, report) {
      forall k | 0 <= k < |decided| ensures report.diagnoses[k] == entries[k] {
        assert report.diagnoses[k] in report.diagnoses;
        OneCandidatePerId(a.candidates, report.diagnoses[k], entries[k]);
      }
    }
    if report.diagnoses == entries {
      forall d | d in report.diagnoses ensures d in a.candidates {
        var k :| 0 <= k < |decided| && entries[k] == d;
      }
    }
  }

  lemma OneCandidatePerId(candidates: seq<Candidate>, c: Candidate, d: Candidate)
    requires !Repeats(CandidateIds(candidates)) && c in candidates && d in candidates && c.id == d.id
    ensures c == d
  {
    var ids := CandidateIds(candidates);
    SetIsNoLarger(ids);
    var i :| 0 <= i < |candidates| && candidates[i] == c;
    var j :| 0 <= j < |candidates| && candidates[j] == d;
    assert ids[i] == ids[j];
  }

  // ---------------------------------------------------------------- what a review may list

  lemma {:induction false} UndecidedByIds(candidates: seq<Candidate>, listed: seq<Candidate>, decided: seq<Id>)
    requires CandidateIds(candidates) == CandidateIds(listed)
    ensures Undecided(candidates, decided) == Undecided(listed, decided)
  {
    assert |CandidateIds(candidates)| == |candidates| && |CandidateIds(listed)| == |listed|;
    if candidates != [] {
      assert candidates[0].id == CandidateIds(candidates)[0] == listed[0].id;
      assert CandidateIds(candidates[1..]) == CandidateIds(candidates)[1..] && CandidateIds(listed[1..]) == CandidateIds(listed)[1..];
      UndecidedByIds(candidates[1..], listed[1..], decided);
    }
  }

  ghost predicate SameListed(review: Review, other: Review) {
    && CandidateIds(other.candidates) == CandidateIds(review.candidates)
    && other == review.(candidates := other.candidates)
    && forall i :: 0 <= i < |other.candidates| ==> other.candidates[i].onsetOrdered
  }

  lemma ContractByIds(review: Review, other: Review)
    requires ReviewContract(review) && SameListed(review, other)
    ensures ReviewContract(other)
  {
    assert review.agentMode ==> AgentContract(other);
  }

  lemma DecisionByIds(a: Submission, review: Review, other: Review, d: Decision)
    requires SameListed(review, other)
    ensures DecisionVerdict(a.(review := Some(other)), other, d) == DecisionVerdict(a, review, d)
  {
    assert |other.candidates| == |CandidateIds(other.candidates)| == |review.candidates|;
    assert ActorMayDecide(other) == ActorMayDecide(review);
  }

  lemma TasksByIds(review: Review, other: Review, tasks: seq<Task>, run: Id)
    requires SameListed(review, other)
    ensures TasksVerdict(other, tasks, run) == TasksVerdict(review, tasks, run)
  {
  }

  lemma ResultByIds(a: Submission, review: Review, other: Review)
    requires ResultVerdict(a).Valid? && a.review == Some(review) && SameListed(review, other) && review.runStatus != RunFailed
    ensures ResultVerdict(a.(review := Some(other))).Valid?
  {
    assert ReviewVerdict(a, review).Valid?;
    ReviewByIds(a, review, other);
  }

  lemma ReviewByIds(a: Submission, review: Review, other: Review)
    requires ReviewVerdict(a, review).Valid? && SameListed(review, other) && review.runStatus != RunFailed
    ensures ReviewVerdict(a.(review := Some(other)), other).Valid?
  {
    ContractByIds(review, other);
    TasksByIds(review, other, a.tasks, a.run);
    if DecisionOf(review).Some? {
      DecisionByIds(a, review, other, DecisionOf(review).value);
    }
  }

  lemma ProjectionByIds(review: Review, other: Review, run: Run, report: Report)
    requires FinalStatusAccepts(review, run) && ProjectionAccepts(review, report) && SameListed(review, other)
    ensures FinalStatusAccepts(other, run) && ProjectionAccepts(other, report)
  {
    UndecidedByIds(review.candidates, other.candidates, AuthoritativeIds(review));
  }

  /** Nor is the content of the review's own candidates compared with the submission's: any list
      of the same ids whose onsets are in order is published as well. */
  lemma ReviewContentIsFree(a: Submission, review: Review, run: Run, report: Report, listed: seq<Candidate>)
    requires Published(a, review, run, report) && CandidateIds(listed) == CandidateIds(review.candidates)
    requires forall i :: 0 <= i < |listed| ==> listed[i].onsetOrdered
    ensures var other := review.(candidates := listed);
            Published(a.(review := Some(other)), other, run, report)
  {
    var other := review.(candidates := listed);
    assert SameListed(review, other);
    ResultByIds(a, review, other);
    ProjectionByIds(review, other, run, report);
  }
}
