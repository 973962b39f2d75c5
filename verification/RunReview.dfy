/** How a run meets the hybrid arbitration: which specialists its findings put in conflict, the
    review that is built of them, and what the orchestrator asks of that review. */
module RunReview {
  import opened AgentRun
  import opened Options
  import opened Vocabulary
  import H = HybridArbitration
  import R = HybridReview

  /** A finding as the arbitration sees it; identifiers are handed out in order of creation. */
  function Seen(f: Finding, investigation: int): H.Finding {
    H.Finding(f.id, investigation, f.agent, f.kind, f.cause, f.confidence, f.evidence, f.blocking, f.id, true, f.round, f.revises)
  }

  function AllSeen(fs: seq<Finding>, investigation: int): (r: seq<H.Finding>)
    ensures |r| == |fs|
  {
    seq(|fs|, k requires 0 <= k < |fs| => Seen(fs[k], investigation))
  }

  /** The conflict search of a run: without a baseline nobody is asked, and bad revisions raise. */
  function ConflictRule(baseline: Option<H.Hypothesis>, investigation: int, fs: seq<Finding>): Option<set<AgentName>> {
    if baseline.None? then Some({})
    else
      match H.ActiveFindings(AllSeen(fs, investigation))
      case Err(_) => None
      case Ok(active) => Some(H.ConflictingAgents(baseline.value, active))
  }

  // ---------------------------------------------------------------- first-round findings

  ghost predicate FirstRoundOnly(findings: seq<H.Finding>) {
    && (forall k :: 0 <= k < |findings| ==> findings[k].sdk && findings[k].round == 1)
    && (forall j, k :: 0 <= j < k < |findings| ==> findings[j].id != findings[k].id)
  }

  lemma {:induction false} AllAreSdk(findings: seq<H.Finding>)
    requires forall k :: 0 <= k < |findings| ==> findings[k].sdk
    ensures H.SdkFindings(findings) == findings
  {
    if findings != [] {
      AllAreSdk(findings[1..]);
    }
  }

  lemma {:induction false} NoneRevised(sdk: seq<H.Finding>, among: seq<H.Finding>)
    requires forall k :: 0 <= k < |sdk| ==> sdk[k].round == 1
    ensures H.Unrevised(sdk, among) == among
  {
    if among != [] {
      NoneRevised(sdk, among[1..]);
    }
  }

  lemma {:induction false} NothingToRevise(findings: seq<H.Finding>, sdk: seq<H.Finding>, n: nat)
    requires n <= |sdk| && forall k :: 0 <= k < |sdk| ==> sdk[k].round == 1
    ensures H.FirstRevisionError(findings, sdk, n).None?
  {
    if n > 0 {
      NothingToRevise(findings, sdk, n - 1);
    }
  }

  /** Before the second round every finding is active. */
  lemma FirstRoundIsActive(findings: seq<H.Finding>)
    requires FirstRoundOnly(findings)
    ensures H.ActiveFindings(findings) == H.Ok(findings)
  {
    AllAreSdk(findings);
    NothingToRevise(findings, findings, |findings|);
    NoneRevised(findings, findings);
  }

  // ---------------------------------------------------------------- gaps

  ghost predicate GapsOnly(active: seq<H.Finding>) {
    forall k :: 0 <= k < |active| ==> active[k].kind == Gap
  }

  lemma {:induction false} GapsConcludeNothing(active: seq<H.Finding>)
    requires GapsOnly(active)
    ensures H.Conclusions(active) == []
  {
    if active != [] {
      GapsConcludeNothing(active[..|active| - 1]);
    }
  }

  lemma {:induction false} GapsImplicate(targets: set<Cause>, active: seq<H.Finding>)
    requires GapsOnly(active)
    ensures H.ImplicatedBy([], targets, active) == set f | f in active && f.blocking :: f.agent
  {
    if active != [] {
      var front, last := active[..|active| - 1], active[|active| - 1];
      GapsImplicate(targets, front);
      assert active == front + [last];
      assert H.Implicates([], targets, last) == if last.blocking then {last.agent} else {};
    }
  }

  /** Specialists that only report gaps are in conflict exactly when a gap blocks them. */
  lemma GapsConflict(baseline: H.Hypothesis, active: seq<H.Finding>)
    requires GapsOnly(active)
    ensures H.ConflictingAgents(baseline, active) == set f | f in active && f.blocking :: f.agent
  {
    GapsConcludeNothing(active);
    GapsImplicate(H.Targets(baseline, H.Causes([])), active);
  }

  lemma {:induction false} GapsSupportNothing(active: seq<H.Finding>)
    requires GapsOnly(active)
    ensures R.Supporting(active) == []
  {
    if active != [] {
      GapsSupportNothing(active[1..]);
    }
  }

  lemma {:induction false} GapsRecordNothing(candidates: seq<R.Candidate>, active: seq<H.Finding>)
    requires GapsOnly(active)
    ensures R.Recorded(candidates, active) == candidates
  {
    if active != [] {
      GapsRecordNothing(candidates, active[..|active| - 1]);
    }
  }

  lemma GapsDecideNothing(baseline: H.Hypothesis, active: seq<H.Finding>, runCompleted: bool)
    requires GapsOnly(active)
    ensures H.Decide(baseline, active, runCompleted) == H.Fallback
  {
    GapsConcludeNothing(active);
    assert H.Ballots([]) == [];
  }

  /** With gaps only, the review falls back on its hypothesis, however the run ended. */
  lemma GapsFallBack(active: seq<H.Finding>, h: H.Hypothesis, runCompleted: bool)
    requires GapsOnly(active)
    ensures R.ReviewOf(active, [h], runCompleted)
            == R.Review(H.Fallback, Some(h.cause), Some(h.cause), [R.Seed(R.FromHypothesis(0), h)])
  {
    GapsDecideNothing(h, active, runCompleted);
    GapsSupportNothing(active);
    assert R.Drafted(active) == [];
    var c := R.Seed(R.FromHypothesis(0), h);
    assert R.Built(active, [h]) == [c];
    assert R.WithContradicted([c], active, [h], 0) == [c];
    assert !H.Contradicted(active, Some(h.cause));
    assert R.WithContradicted([c], active, [h], 1) == [c];
    GapsRecordNothing([c], active);
    assert R.PlaceOfCause([c], h.cause) == 0;
    assert R.ToFront([c], 0) == [c];
  }
}
