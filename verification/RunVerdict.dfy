/** The whole verdict on a run: the review that is built of its findings included. */
module RunVerdict {
  import opened AgentRun
  import opened Options
  import opened RunAcceptance
  import opened RunAgreement
  import opened RunLabels
  import opened RunMasks
  import opened RunReview
  import opened RunValidation
  import opened Vocabulary
  import C = ReviewChecks
  import H = HybridArbitration
  import R = HybridReview

  // ---------------------------------------------------------------- findings cite evidence

  /** The finding model admits nothing but gaps without evidence. */
  ghost predicate Evidenced(fs: seq<Finding>) {
    forall f :: f in fs && f.kind != Gap ==> f.evidence != []
  }

  lemma TakeDraftEvidenced(x: Intake, c: CapturedDraft, p: Phase)
    requires Evidenced(x.state.findings)
    ensures Evidenced(TakeDraft(x, c, p).state.findings)
  {
  }

  lemma {:induction false} TakeDraftsEvidenced(x: Intake, drafts: seq<CapturedDraft>, p: Phase)
    requires Evidenced(x.state.findings)
    ensures Evidenced(TakeDrafts(x, drafts, p).state.findings)
    decreases |drafts|
  {
    if drafts != [] && !x.raised {
      TakeDraftEvidenced(x, drafts[0], p);
      TakeDraftsEvidenced(TakeDraft(x, drafts[0], p), drafts[1..], p);
    }
  }

  lemma TurnEvidenced(s: RunState, t: Turn, p: Phase)
    requires Evidenced(s.findings) && p.recordCoordinator && !Consumed(s, t, p).raised
    ensures Evidenced(Consumed(s, t, p).state.findings)
  {
    TakeDraftsEvidenced(StartIntake(s, t, p), t.drafts, p);
    var x := ConsumedLayout(s, t, p);
  }

  lemma LastEvidenced(i: RunInput, s: RunState, r: RunState)
    requires ReviewedFrom(i, s, r) && Evidenced(s.findings)
    ensures Evidenced(r.findings)
  {
    TurnEvidenced(s, i.synthesis.turn, SynthesisPhase(i, Selected(i.conflicting(s.findings).value, ALL_AGENTS), false));
  }

  lemma RunEvidenced(i: RunInput)
    requires RunConfigured(i).Finished? && RunConfigured(i).state.review
    ensures Evidenced(RunConfigured(i).state.findings)
  {
    ReviewedPath(i);
    var s, r := AfterOpening(i).state, RunConfigured(i).state;
    TurnEvidenced(EMPTY_RUN, i.first.turn, FirstPhase(i, false));
    if Direct(i, r) {
      LastEvidenced(i, s, r);
    } else {
      var missing := Missing(s.findings, ALL_AGENTS);
      TurnEvidenced(s, i.recollected.turn, RecollectPhase(i, missing, false));
      LastEvidenced(i, AfterRecollected(i, missing).state, r);
    }
  }

  // ---------------------------------------------------------------- its findings are in order

  lemma {:induction false} ByIdFinds(findings: seq<H.Finding>, k: nat)
    requires k < |findings| && forall i, j :: 0 <= i < j < |findings| ==> findings[i].id != findings[j].id
    ensures H.ById(findings, findings[k].id) == Some(findings[k])
  {
    var n := |findings| - 1;
    if k < n {
      ByIdFinds(findings[..n], k);
    }
  }

  lemma RevisionHolds(s: RunState, evidence: set<EvidenceId>, investigation: int, k: nat)
    requires Linked(s, evidence) && k < |s.findings|
    ensures var seen := AllSeen(s.findings, investigation); H.RevisionError(seen, seen, seen[k]).None?
  {
    var seen, f := AllSeen(s.findings, investigation), s.findings[k];
    if f.round == 2 {
      assert f in s.findings && RevisesFirstRound(s, f);
      var g :| g in s.findings && g.id == f.revises.value && g.round == 1 && g.agent == f.agent;
      var j :| 0 <= j < |s.findings| && s.findings[j] == g;
      ByIdFinds(seen, j);
      assert seen[j] == Seen(g, investigation) && seen[k] == Seen(f, investigation);
    }
  }

  lemma {:induction false} NoErrorUpTo(s: RunState, evidence: set<EvidenceId>, investigation: int, n: nat)
    requires Linked(s, evidence) && n <= |s.findings|
    ensures var seen := AllSeen(s.findings, investigation); H.FirstRevisionError(seen, seen, n).None?
  {
    if n > 0 {
      NoErrorUpTo(s, evidence, investigation, n - 1);
      RevisionHolds(s, evidence, investigation, n - 1);
    }
  }

  /** The run's revisions never make the arbitration raise. */
  lemma FindingsAreInOrder(s: RunState, evidence: set<EvidenceId>, investigation: int)
    requires Linked(s, evidence)
    ensures H.ActiveFindings(AllSeen(s.findings, investigation)).Ok?
  {
    var seen := AllSeen(s.findings, investigation);
    AllAreSdk(seen);
    NoErrorUpTo(s, evidence, investigation, |seen|);
  }

  /** The run's findings that no revision replaced, as the arbitration sees them. */
  function ActiveOf(s: RunState, investigation: int): seq<H.Finding> {
    match H.ActiveFindings(AllSeen(s.findings, investigation))
    case Ok(active) => active
    case Err(_) => []
  }

  function FindingIds(s: RunState): set<int> {
    set f | f in s.findings :: f.id
  }

  lemma ActiveIsSourced(s: RunState, evidence: set<EvidenceId>, investigation: int)
    requires Linked(s, evidence) && Evidenced(s.findings)
    ensures C.FindingsSourced(ActiveOf(s, investigation), evidence, FindingIds(s))
  {
    var seen := AllSeen(s.findings, investigation);
    FindingsAreInOrder(s, evidence, investigation);
    forall f | f in ActiveOf(s, investigation)
      ensures f.id in FindingIds(s) && (forall e :: e in f.evidence ==> e in evidence)
      ensures f.kind == RootCause || f.kind == Contradiction ==> f.evidence != []
    {
      H.ActiveMeans(seen, f);
      var k :| 0 <= k < |seen| && seen[k] == f;
      assert s.findings[k] in s.findings && seen[k] == Seen(s.findings[k], investigation);
    }
  }

  // ---------------------------------------------------------------- the review of a run

  function BuiltReview(s: RunState, investigation: int, evidence: set<EvidenceId>, hypotheses: seq<H.Hypothesis>): H.Result<R.Review> {
    R.BuildResult(investigation, AllSeen(s.findings, investigation), evidence, hypotheses, s.status == RunCompleted)
  }

  lemma ReviewIsBuilt(s: RunState, evidence: set<EvidenceId>, investigation: int, hypotheses: seq<H.Hypothesis>)
    requires Linked(s, evidence) && C.HypothesesSourced(hypotheses, evidence)
    ensures BuiltReview(s, investigation, evidence, hypotheses)
            == H.Ok(R.ReviewOf(ActiveOf(s, investigation), hypotheses, s.status == RunCompleted))
  {
    var seen := AllSeen(s.findings, investigation);
    FindingsAreInOrder(s, evidence, investigation);
    forall k | 0 <= k < |seen| ensures seen[k].investigation == investigation && forall e :: e in seen[k].evidence ==> e in evidence {
      assert s.findings[k] in s.findings && seen[k] == Seen(s.findings[k], investigation);
    }
    assert !R.Foreign(seen, investigation) && !R.RefersOutside(evidence, seen, hypotheses);
  }

  /** For every reviewed run the review is built without raising, and it passes the validator's
      rebuild exactly when the run's active findings and the hypotheses carry it. */
  lemma RunReviewPasses(i: RunInput, evidence: set<EvidenceId>, investigation: int, hypotheses: seq<H.Hypothesis>)
    requires InputSupplied(i, evidence) && RunConfigured(i).Finished? && RunConfigured(i).state.review
    requires C.HypothesesSourced(hypotheses, evidence)
    ensures var s := RunConfigured(i).state;
            var built := BuiltReview(s, investigation, evidence, hypotheses);
            && built.Ok?
            && (C.ReviewChecked(built.value, evidence, FindingIds(s)) <==>
                  C.ReviewPasses(ActiveOf(s, investigation), hypotheses, s.status == RunCompleted))
  {
    var s := RunConfigured(i).state;
    RunEnds(i, evidence);
    RunEvidenced(i);
    ReviewIsBuilt(s, evidence, investigation, hypotheses);
    ActiveIsSourced(s, evidence, investigation);
    C.ReviewPassesExactly(ActiveOf(s, investigation), hypotheses, s.status == RunCompleted, evidence, FindingIds(s));
  }

  /** What the validator finds wrong with a driver's review, which always names its provider;
      `semantic` is the verdict of the evidence semantics. */
  ghost function FaultOf(review: R.Review, evidence: set<EvidenceId>, findings: set<int>, semantic: bool): Option<ReviewFault> {
    if !C.ReviewChecked(review, evidence, findings) then Some(ReviewContract)
    else if !semantic then Some(SemanticReference)
    else None
  }

  /** The whole verdict on a reviewed run of the program's own turns: it is accepted exactly when its
      findings and the hypotheses carry the review, its evidence semantics hold, some draft was usable,
      and no repaired specialist is silent when asked again. */
  lemma RunAcceptedExactly(i: RunInput, evidence: set<EvidenceId>, investigation: int, hypotheses: seq<H.Hypothesis>, semantic: bool)
    requires InputSupplied(i, evidence) && RunConfigured(i).Finished? && RunConfigured(i).state.review
    requires BuiltInTurns(i) && C.HypothesesSourced(hypotheses, evidence)
    ensures var s := RunConfigured(i).state;
            var built := BuiltReview(s, investigation, evidence, hypotheses);
            && built.Ok?
            && (Validate(s, evidence, FaultOf(built.value, evidence, FindingIds(s), semantic)) == None <==>
                  && C.ReviewPasses(ActiveOf(s, investigation), hypotheses, s.status == RunCompleted) && semantic
                  && FindsSomething(i) && !SecondSilence(i))
  {
    var s := RunConfigured(i).state;
    RunReviewPasses(i, evidence, investigation, hypotheses);
    var built := BuiltReview(s, investigation, evidence, hypotheses).value;
    BuiltInRunAccepted(i, evidence, FaultOf(built, evidence, FindingIds(s), semantic));
  }
}
