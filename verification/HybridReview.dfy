/** Building the hybrid coordination review: candidates from active findings, contradictions
    recorded on them, the selected cause promoted, ranks assigned. */
module HybridReview {
  import opened Grouping
  import opened HybridArbitration
  import opened Options
  import opened Sorting
  import opened Vocabulary

  /** What makes two candidates different objects: where they came from. */
  datatype Origin = FromFindings(cause: Cause) | FromHypothesis(position: nat) | ForContradiction(position: nat) | ForSelection

  datatype Candidate = Candidate(
    origin: Origin, cause: Cause, rank: nat, confidence: real,
    supportingFindings: seq<int>, contradictingFindings: seq<int>,
    supportingEvidence: seq<int>, contradictingEvidence: seq<int>)

  datatype Review = Review(status: Status, baseline: Option<Cause>, selected: Option<Cause>, candidates: seq<Candidate>)

  // ---------------------------------------------------------------- candidates

  function Unique(s: seq<int>): (r: seq<int>)
    ensures forall x :: x in r <==> x in s
  {
    if s == [] then []
    else
      var rest := Unique(s[..|s| - 1]);
      assert s == s[..|s| - 1] + [s[|s| - 1]];
      if s[|s| - 1] in rest then rest else rest + [s[|s| - 1]]
  }

  function Supporting(active: seq<Finding>): seq<Finding> {
    if active == [] then []
    else (if active[0].cause.Some? && active[0].kind == RootCause then [active[0]] else []) + Supporting(active[1..])
  }

  function Contradicting(active: seq<Finding>, c: Cause): seq<Finding> {
    if active == [] then []
    else (if IsContradiction(active[0], Some(c)) then [active[0]] else []) + Contradicting(active[1..], c)
  }

  function Ids(findings: seq<Finding>): seq<int> {
    if findings == [] then [] else [findings[0].id] + Ids(findings[1..])
  }

  function EvidenceOf(findings: seq<Finding>): seq<int> {
    if findings == [] then [] else findings[0].evidence + EvidenceOf(findings[1..])
  }

  function ConfidenceSum(findings: seq<Finding>): real {
    if findings == [] then 0.0 else findings[0].confidence + ConfidenceSum(findings[1..])
  }

  function Clamp(x: real): real {
    if x > 1.0 then 1.0 else if x < 0.0 then 0.0 else x
  }

  function CandidateOf(g: Votes, active: seq<Finding>): Candidate
    requires g.items != []
  {
    var against := Contradicting(active, g.key);
    Candidate(FromFindings(g.key), g.key, 1,
              Clamp(ConfidenceSum(g.items) / |g.items| as real + 0.1 * (|g.items| - 1) as real - 0.1 * |against| as real),
              Ids(g.items), Ids(against), Unique(EvidenceOf(g.items)), Unique(EvidenceOf(against)))
  }

  function Seed(origin: Origin, h: Hypothesis): Candidate {
    Candidate(origin, h.cause, 1, h.confidence, [], [], h.supporting, h.contradicting)
  }

  predicate MoreConfident(a: Candidate, b: Candidate) {
    a.confidence >= b.confidence
  }

  function Rerank(candidates: seq<Candidate>): (r: seq<Candidate>)
    ensures |r| == |candidates|
  {
    seq(|candidates|, i requires 0 <= i < |candidates| => candidates[i].(rank := i + 1))
  }

  function Drafted(active: seq<Finding>): (r: seq<Candidate>)
  {
    GroupsKeepItems(CauseOf, Supporting(active));
    var groups := GroupsOf(CauseOf, Supporting(active));
    seq(|groups|, i requires 0 <= i < |groups| =>
      assert HoldsKey(CauseOf, groups[i]);
      CandidateOf(groups[i], active))
  }

  /** Candidates from the findings, best first; without any, one from every hypothesis. */
  function Built(active: seq<Finding>, hypotheses: seq<Hypothesis>): seq<Candidate> {
    var drafted := Drafted(active);
    if drafted != [] then Rerank(Sort(MoreConfident, drafted))
    else Rerank(seq(|hypotheses|, i requires 0 <= i < |hypotheses| => Seed(FromHypothesis(i), hypotheses[i])))
  }

  /** The entry a dictionary keyed by cause holds: the last candidate of that cause. */
  function PlaceOfCause(candidates: seq<Candidate>, c: Cause): (r: nat)
    ensures r <= |candidates| && (r < |candidates| ==> candidates[r].cause == c)
    ensures r == |candidates| ==> forall i :: 0 <= i < |candidates| ==> candidates[i].cause != c
  {
    if candidates == [] then 0
    else
      var n := |candidates| - 1;
      if candidates[n].cause == c then n
      else
        var r := PlaceOfCause(candidates[..n], c);
        if r == n then n + 1 else r
  }

  predicate HasCause(candidates: seq<Candidate>, c: Cause) {
    exists i :: 0 <= i < |candidates| && candidates[i].cause == c
  }

  // ---------------------------------------------------------------- contradictions

  /** The first `n` hypotheses that are contradicted and have no candidate get one. */
  function WithContradicted(candidates: seq<Candidate>, active: seq<Finding>, hypotheses: seq<Hypothesis>, n: nat): seq<Candidate>
    requires n <= |hypotheses|
  {
    if n == 0 then candidates
    else
      var before := WithContradicted(candidates, active, hypotheses, n - 1);
      var h := hypotheses[n - 1];
      if Contradicted(active, Some(h.cause)) && !HasCause(before, h.cause) then before + [Seed(ForContradiction(n - 1), h)] else before
  }

  function Against(c: Candidate, f: Finding): Candidate {
    c.(contradictingFindings := Unique(c.contradictingFindings + [f.id]),
       contradictingEvidence := Unique(c.contradictingEvidence + f.evidence))
  }

  function RecordOne(candidates: seq<Candidate>, f: Finding): (r: seq<Candidate>)
    ensures |r| == |candidates|
  {
    if f.kind != Contradiction || f.cause.None? then candidates
    else
      var k := PlaceOfCause(candidates, f.cause.value);
      if k == |candidates| then candidates else candidates[k := Against(candidates[k], f)]
  }

  function Recorded(candidates: seq<Candidate>, active: seq<Finding>): (r: seq<Candidate>)
    ensures |r| == |candidates|
  {
    if active == [] then candidates else RecordOne(Recorded(candidates, active[..|active| - 1]), active[|active| - 1])
  }

  // ---------------------------------------------------------------- promotion

  function FirstHypothesis(hypotheses: seq<Hypothesis>, c: Cause): (r: nat)
    ensures r <= |hypotheses| && (r < |hypotheses| ==> hypotheses[r].cause == c)
    ensures r == |hypotheses| ==> forall i :: 0 <= i < |hypotheses| ==> hypotheses[i].cause != c
  {
    if hypotheses == [] || hypotheses[0].cause == c then 0 else 1 + FirstHypothesis(hypotheses[1..], c)
  }

  function ToFront(candidates: seq<Candidate>, k: nat): seq<Candidate>
    requires k < |candidates|
  {
    [candidates[k]] + candidates[..k] + candidates[k + 1..]
  }

  function Promoted(candidates: seq<Candidate>, hypotheses: seq<Hypothesis>, selected: Option<Cause>): seq<Candidate> {
    if selected.None? then candidates
    else
      var k := PlaceOfCause(candidates, selected.value);
      if k < |candidates| then ToFront(candidates, k)
      else
        var h := FirstHypothesis(hypotheses, selected.value);
        if h < |hypotheses| then [Seed(ForSelection, hypotheses[h])] + candidates else candidates
  }

  // ---------------------------------------------------------------- the review

  function SelectedBy(status: Status, baseline: Option<Hypothesis>, conclusions: seq<Finding>): Option<Cause> {
    if status == Conflict || baseline.None? then None
    else if status == AgentLeads then Selected(baseline.value, conclusions)
    else Some(baseline.value.cause)
  }

  function BaselineOf(hypotheses: seq<Hypothesis>): Option<Hypothesis> {
    if hypotheses == [] then None else Some(hypotheses[0])
  }

  function ReviewOf(active: seq<Finding>, hypotheses: seq<Hypothesis>, runCompleted: bool): Review {
    var baseline := BaselineOf(hypotheses);
    var status := if baseline.Some? then Decide(baseline.value, active, runCompleted) else Fallback;
    var selected := SelectedBy(status, baseline, Conclusions(active));
    var listed := WithContradicted(Built(active, hypotheses), active, hypotheses, |hypotheses|);
    Review(status, if baseline.Some? then Some(baseline.value.cause) else None, selected,
           Rerank(Promoted(Recorded(listed, active), hypotheses, selected)))
  }

  predicate RefersOutside(evidence: set<int>, findings: seq<Finding>, hypotheses: seq<Hypothesis>) {
    || (exists i, e :: 0 <= i < |findings| && e in findings[i].evidence && e !in evidence)
    || (exists i, e :: 0 <= i < |hypotheses| && e in hypotheses[i].supporting + hypotheses[i].contradicting && e !in evidence)
  }

  predicate Foreign(findings: seq<Finding>, investigation: int) {
    exists i :: 0 <= i < |findings| && findings[i].investigation != investigation
  }

  function BuildResult(investigation: int, findings: seq<Finding>, evidence: set<int>, hypotheses: seq<Hypothesis>, runCompleted: bool): Result<Review> {
    if Foreign(findings, investigation) then Err(WrongInvestigation)
    else if RefersOutside(evidence, findings, hypotheses) then Err(Error.UnknownEvidence)
    else
      match ActiveFindings(findings)
      case Err(error) => Err(error)
      case Ok(active) => Ok(ReviewOf(active, hypotheses, runCompleted))
  }

  method BuildReview(investigation: int, findings: seq<Finding>, evidence: set<int>, hypotheses: seq<Hypothesis>, runCompleted: bool) returns (r: Result<Review>)
    ensures r == BuildResult(investigation, findings, evidence, hypotheses, runCompleted)
  {
    if Foreign(findings, investigation) {
      return Err(WrongInvestigation);
    }
    if RefersOutside(evidence, findings, hypotheses) {
      return Err(Error.UnknownEvidence);
    }
    var result := ActiveFindings(findings);
    if result.Err? {
      return Err(result.error);
    }
    var active := result.value;
    var candidates := Built(active, hypotheses);
    var baseline := BaselineOf(hypotheses);
    var conclusions := CollectConclusions(active);
    var status := if baseline.Some? then DecideHybrid(baseline.value, findings, runCompleted).value else Fallback;
    var selected := SelectedBy(status, baseline, conclusions);
    ghost var built := candidates;
    for n := 0 to |hypotheses|
      invariant candidates == WithContradicted(built, active, hypotheses, n)
    {
      var h := hypotheses[n];
      if Contradicted(active, Some(h.cause)) && !HasCause(candidates, h.cause) {
        candidates := candidates + [Seed(ForContradiction(n), h)];
      }
    }
    candidates := RecordAll(candidates, active);
    if selected.Some? {
      var k := PlaceOfCause(candidates, selected.value);
      if k < |candidates| {
        candidates := ToFront(candidates, k);
      } else {
        var h := FirstHypothesis(hypotheses, selected.value);
        if h < |hypotheses| {
          candidates := [Seed(ForSelection, hypotheses[h])] + candidates;
        }
      }
    }
    candidates := AssignRanks(candidates);
    return Ok(Review(status, if baseline.Some? then Some(baseline.value.cause) else None, selected, candidates));
  }

  method RecordAll(candidates: seq<Candidate>, active: seq<Finding>) returns (r: seq<Candidate>)
    ensures r == Recorded(candidates, active)
  {
    r := candidates;
    for i := 0 to |active|
      invariant r == Recorded(candidates, active[..i])
    {
      assert active[..i + 1][..i] == active[..i];
      var f := active[i];
      if f.kind != Contradiction || f.cause.None? {
        continue;
      }
      var k := PlaceOfCause(r, f.cause.value);
      if k < |r| {
        r := r[k := Against(r[k], f)];
      }
    }
    assert active[..|active|] == active;
  }

  method AssignRanks(candidates: seq<Candidate>) returns (r: seq<Candidate>)
    ensures r == Rerank(candidates)
  {
    r := candidates;
    for i := 0 to |candidates|
      invariant |r| == |candidates|
      invariant forall j :: 0 <= j < i ==> r[j] == candidates[j].(rank := j + 1)
      invariant forall j :: i <= j < |r| ==> r[j] == candidates[j]
    {
      r := r[i := r[i].(rank := i + 1)];
    }
  }

  // ---------------------------------------------------------------- the selected cause comes first

  lemma {:induction false} SupportingMembers(active: seq<Finding>, f: Finding)
    ensures f in Supporting(active) <==> f in active && f.cause.Some? && f.kind == RootCause
  {
    if active != [] {
      SupportingMembers(active[1..], f);
      assert f in active <==> f == active[0] || f in active[1..];
    }
  }

  lemma {:induction false} GroupOfMember(groups: seq<Votes>, f: Finding)
    requires f in GroupBag(groups)
    ensures exists i :: 0 <= i < |groups| && f in groups[i].items
  {
    if f !in groups[0].items {
      GroupOfMember(groups[1..], f);
      var i :| 0 <= i < |groups[1..]| && f in groups[1..][i].items;
      assert groups[i + 1] == groups[1..][i];
    }
  }

  /** A concluded cause has a candidate. */
  lemma ConcludedIsBuilt(active: seq<Finding>, hypotheses: seq<Hypothesis>, f: Finding)
    requires f in active && Concludes(f)
    ensures HasCause(Built(active, hypotheses), CauseOf(f))
  {
    var groups, drafted := GroupsOf(CauseOf, Supporting(active)), Drafted(active);
    GroupsKeepItems(CauseOf, Supporting(active));
    SupportingMembers(active, f);
    assert f in multiset(Supporting(active));
    GroupOfMember(groups, f);
    var i :| 0 <= i < |groups| && f in groups[i].items;
    assert HoldsKey(CauseOf, groups[i]);
    assert drafted[i].cause == CauseOf(f);
    SortMembers(MoreConfident, drafted, drafted[i]);
    var sorted := Sort(MoreConfident, drafted);
    var k :| 0 <= k < |sorted| && sorted[k] == drafted[i];
    assert Built(active, hypotheses)[k].cause == CauseOf(f);
  }

  lemma {:induction false} IdsMean(findings: seq<Finding>, f: Finding)
    requires f in findings
    ensures f.id in Ids(findings) && forall e :: e in f.evidence ==> e in EvidenceOf(findings)
  {
    if f != findings[0] {
      IdsMean(findings[1..], f);
    }
  }

  ghost predicate SupportedBy(c: Candidate, f: Finding) {
    f.cause == Some(c.cause) && f.id in c.supportingFindings && forall e :: e in f.evidence ==> e in c.supportingEvidence
  }

  lemma GroupSupports(g: Votes, active: seq<Finding>, f: Finding)
    requires f in g.items && HoldsKey(CauseOf, g) && f.cause.Some?
    ensures SupportedBy(CandidateOf(g, active), f)
  {
    IdsMean(g.items, f);
  }

  lemma DraftSupports(active: seq<Finding>, f: Finding) returns (i: nat)
    requires f in active && f.kind == RootCause && f.cause.Some?
    ensures i < |Drafted(active)| && SupportedBy(Drafted(active)[i], f)
  {
    var groups := GroupsOf(CauseOf, Supporting(active));
    GroupsKeepItems(CauseOf, Supporting(active));
    SupportingMembers(active, f);
    assert f in multiset(Supporting(active));
    GroupOfMember(groups, f);
    i :| 0 <= i < |groups| && f in groups[i].items;
    assert HoldsKey(CauseOf, groups[i]);
    GroupSupports(groups[i], active, f);
  }

  /** Every active root-cause finding supports a candidate of its cause, which lists the finding and
      its evidence. */
  lemma SupportIsListed(active: seq<Finding>, hypotheses: seq<Hypothesis>, f: Finding) returns (k: nat)
    requires f in active && f.kind == RootCause && f.cause.Some?
    ensures k < |Built(active, hypotheses)| && SupportedBy(Built(active, hypotheses)[k], f)
  {
    var i := DraftSupports(active, f);
    var drafted := Drafted(active);
    k := RankKeeps(drafted, i);
  }

  lemma RankKeeps(drafted: seq<Candidate>, i: nat) returns (k: nat)
    requires i < |drafted|
    ensures k < |drafted| && k < |Rerank(Sort(MoreConfident, drafted))|
    ensures Rerank(Sort(MoreConfident, drafted))[k] == drafted[i].(rank := k + 1)
  {
    var sorted := Sort(MoreConfident, drafted);
    SortMembers(MoreConfident, drafted, drafted[i]);
    k :| 0 <= k < |sorted| && sorted[k] == drafted[i];
  }

  /** Candidates drafted from findings are ranked by falling confidence. */
  lemma BuiltFalls(active: seq<Finding>, hypotheses: seq<Hypothesis>, i: nat, j: nat)
    requires Drafted(active) != [] && i < j < |Built(active, hypotheses)|
    ensures Built(active, hypotheses)[i].confidence >= Built(active, hypotheses)[j].confidence
  {
    var drafted := Drafted(active);
    assert TotalPreorder(MoreConfident);
    SortIsSorted(MoreConfident, drafted);
    var sorted := Sort(MoreConfident, drafted);
    assert MoreConfident(sorted[i], sorted[j]);
  }

  lemma {:induction false} ContradictedKeepsCauses(candidates: seq<Candidate>, active: seq<Finding>, hypotheses: seq<Hypothesis>, n: nat, c: Cause)
    requires n <= |hypotheses|
    ensures HasCause(candidates, c) ==> HasCause(WithContradicted(candidates, active, hypotheses, n), c)
    ensures (exists i :: 0 <= i < n && hypotheses[i].cause == c) && Contradicted(active, Some(c)) ==>
              HasCause(WithContradicted(candidates, active, hypotheses, n), c)
  {
    if n > 0 {
      ContradictedKeepsCauses(candidates, active, hypotheses, n - 1, c);
      var before := WithContradicted(candidates, active, hypotheses, n - 1);
      var after := WithContradicted(candidates, active, hypotheses, n);
      if HasCause(before, c) {
        var i :| 0 <= i < |before| && before[i].cause == c;
        assert after[i].cause == c;
      } else if hypotheses[n - 1].cause == c && Contradicted(active, Some(c)) {
        assert after[|before|].cause == c;
      }
    }
  }

  lemma {:induction false} RecordingKeepsCauses(candidates: seq<Candidate>, active: seq<Finding>)
    ensures forall i :: 0 <= i < |candidates| ==>
              Recorded(candidates, active)[i].cause == candidates[i].cause && Recorded(candidates, active)[i].origin == candidates[i].origin
  {
    if active != [] {
      RecordingKeepsCauses(candidates, active[..|active| - 1]);
    }
  }

  /** Ranks are 1..n, and whenever a cause is selected its candidate has rank 1. */
  lemma SelectedRanksFirst(active: seq<Finding>, hypotheses: seq<Hypothesis>, runCompleted: bool)
    ensures var review := ReviewOf(active, hypotheses, runCompleted);
            && (forall i :: 0 <= i < |review.candidates| ==> review.candidates[i].rank == i + 1)
            && (review.selected.Some? ==> review.candidates != [] && review.candidates[0].cause == review.selected.value)
  {
    var review := ReviewOf(active, hypotheses, runCompleted);
    if review.selected.Some? {
      var c := review.selected.value;
      var built := Built(active, hypotheses);
      var listed := WithContradicted(built, active, hypotheses, |hypotheses|);
      if review.status == AgentLeads && !ValidBaseline(hypotheses[0]) {
        var conclusions := Conclusions(active);
        SelectedWins(hypotheses[0], conclusions, c);
        SupportIsConcluded(conclusions, c);
        var f :| f in conclusions && CauseOf(f) == c;
        ConclusionsMean(active);
        ConcludedIsBuilt(active, hypotheses, f);
        ContradictedKeepsCauses(built, active, hypotheses, |hypotheses|, c);
        RecordingKeepsCauses(listed, active);
        var i :| 0 <= i < |listed| && listed[i].cause == c;
        assert Recorded(listed, active)[i].cause == c;
      } else {
        assert hypotheses[0].cause == c;
      }
    }
  }

  // ---------------------------------------------------------------- nothing is lost by reordering

  function Unranked(candidates: seq<Candidate>): (r: seq<Candidate>)
    ensures |r| == |candidates|
  {
    seq(|candidates|, i requires 0 <= i < |candidates| => candidates[i].(rank := 0))
  }

  lemma UnrankedSplits(a: seq<Candidate>, b: seq<Candidate>)
    ensures Unranked(a + b) == Unranked(a) + Unranked(b)
  {
  }

  /** Promotion reorders the candidates, and adds at most one for a selected cause that had none. */
  lemma PromotionPermutes(candidates: seq<Candidate>, hypotheses: seq<Hypothesis>, selected: Option<Cause>)
    ensures var after := Rerank(Promoted(candidates, hypotheses, selected));
            && |candidates| <= |after| <= |candidates| + 1
            && multiset(Unranked(candidates)) <= multiset(Unranked(after))
            && (|after| == |candidates| + 1 ==> selected.Some? && !HasCause(candidates, selected.value))
  {
    var promoted := Promoted(candidates, hypotheses, selected);
    assert Unranked(Rerank(promoted)) == Unranked(promoted);
    if selected.Some? {
      var k := PlaceOfCause(candidates, selected.value);
      if k < |candidates| {
        var x, before, rest := [candidates[k]], candidates[..k], candidates[k + 1..];
        assert candidates == before + x + rest;
        UnrankedSplits(before + x, rest);
        UnrankedSplits(before, x);
        UnrankedSplits(x + before, rest);
        UnrankedSplits(x, before);
        assert multiset(Unranked(promoted)) == multiset(Unranked(candidates));
      } else {
        var h := FirstHypothesis(hypotheses, selected.value);
        if h < |hypotheses| {
          UnrankedSplits([Seed(ForSelection, hypotheses[h])], candidates);
        }
      }
    }
  }

  // ---------------------------------------------------------------- contradictions are kept

  /** A candidate of the cause lists the finding and its evidence against itself. */
  ghost predicate HeldAgainst(candidates: seq<Candidate>, f: Finding) {
    exists i :: 0 <= i < |candidates| && Lists(candidates[i], f)
  }

  ghost predicate Lists(c: Candidate, f: Finding) {
    && f.cause == Some(c.cause) && f.id in c.contradictingFindings
    && forall e :: e in f.evidence ==> e in c.contradictingEvidence
  }

  lemma RecordOneKeeps(candidates: seq<Candidate>, f: Finding, g: Finding)
    ensures HeldAgainst(candidates, g) ==> HeldAgainst(RecordOne(candidates, f), g)
    ensures IsContradiction(f, f.cause) && f.cause.Some? && HasCause(candidates, f.cause.value) ==> HeldAgainst(RecordOne(candidates, f), f)
  {
    var after := RecordOne(candidates, f);
    if HeldAgainst(candidates, g) {
      var i :| 0 <= i < |candidates| && Lists(candidates[i], g);
      assert Lists(after[i], g);
    }
    if IsContradiction(f, f.cause) && f.cause.Some? && HasCause(candidates, f.cause.value) {
      var k := PlaceOfCause(candidates, f.cause.value);
      assert Lists(after[k], f);
    }
  }

  lemma {:induction false} RecordedKeeps(candidates: seq<Candidate>, active: seq<Finding>, f: Finding)
    requires f in active && f.kind == Contradiction && f.cause.Some? && HasCause(candidates, f.cause.value)
    ensures HeldAgainst(Recorded(candidates, active), f)
  {
    var n := |active| - 1;
    var before := Recorded(candidates, active[..n]);
    RecordingKeepsCauses(candidates, active[..n]);
    RecordOneKeeps(before, active[n], f);
    if f in active[..n] {
      RecordedKeeps(candidates, active[..n], f);
    } else {
      assert f == active[n];
      var i :| 0 <= i < |candidates| && candidates[i].cause == f.cause.value;
      assert before[i].cause == f.cause.value;
    }
  }

  lemma ToFrontKeeps(candidates: seq<Candidate>, k: nat, i: nat) returns (j: nat)
    requires k < |candidates| && i < |candidates|
    ensures j < |ToFront(candidates, k)| && ToFront(candidates, k)[j] == candidates[i]
  {
    j := if i < k then i + 1 else if i == k then 0 else i;
  }

  lemma PromotedKeeps(candidates: seq<Candidate>, hypotheses: seq<Hypothesis>, selected: Option<Cause>, i: nat) returns (j: nat)
    requires i < |candidates|
    ensures j < |Promoted(candidates, hypotheses, selected)| && Promoted(candidates, hypotheses, selected)[j] == candidates[i]
  {
    j := i;
    if selected.Some? {
      var k := PlaceOfCause(candidates, selected.value);
      if k < |candidates| {
        j := ToFrontKeeps(candidates, k, i);
      } else if FirstHypothesis(hypotheses, selected.value) < |hypotheses| {
        j := i + 1;
      }
    }
  }

  lemma PromotionKeepsLists(candidates: seq<Candidate>, hypotheses: seq<Hypothesis>, selected: Option<Cause>, f: Finding)
    requires HeldAgainst(candidates, f)
    ensures HeldAgainst(Rerank(Promoted(candidates, hypotheses, selected)), f)
  {
    var i :| 0 <= i < |candidates| && Lists(candidates[i], f);
    var j := PromotedKeeps(candidates, hypotheses, selected, i);
    assert Lists(Rerank(Promoted(candidates, hypotheses, selected))[j], f);
  }

  /** No contradiction is dropped: if a candidate or a hypothesis has its cause, the review has a
      candidate of that cause that lists it and its evidence. */
  lemma ContradictionsAreKept(active: seq<Finding>, hypotheses: seq<Hypothesis>, runCompleted: bool, f: Finding)
    requires f in active && f.kind == Contradiction && f.cause.Some?
    requires HasCause(Built(active, hypotheses), f.cause.value) || exists i :: 0 <= i < |hypotheses| && hypotheses[i].cause == f.cause.value
    ensures HeldAgainst(ReviewOf(active, hypotheses, runCompleted).candidates, f)
  {
    var built := Built(active, hypotheses);
    var listed := WithContradicted(built, active, hypotheses, |hypotheses|);
    var k :| 0 <= k < |active| && active[k] == f;
    assert IsContradiction(active[k], f.cause);
    ContradictedKeepsCauses(built, active, hypotheses, |hypotheses|, f.cause.value);
    RecordedKeeps(listed, active, f);
    PromotionKeepsLists(Recorded(listed, active), hypotheses, ReviewOf(active, hypotheses, runCompleted).selected, f);
  }
}
