/** What the orchestrator's validator asks of the candidates of a review it rebuilds, and exactly
    when the built review meets it. */
module ReviewChecks {
  import opened Grouping
  import opened HybridArbitration
  import opened HybridReview
  import opened Options
  import opened Sorting
  import opened Vocabulary

  predicate Cites(c: Candidate) {
    c.supportingEvidence + c.contradictingEvidence != []
  }

  predicate Speaks(c: Candidate) {
    c.supportingFindings + c.contradictingFindings != []
  }

  /** Evidence and findings that exist. */
  predicate Within(c: Candidate, evidence: set<EvidenceId>, findings: set<int>) {
    && (forall e :: e in c.supportingEvidence + c.contradictingEvidence ==> e in evidence)
    && (forall f :: f in c.supportingFindings + c.contradictingFindings ==> f in findings)
  }

  ghost predicate AllCite(candidates: seq<Candidate>) {
    forall k :: 0 <= k < |candidates| ==> Cites(candidates[k])
  }

  ghost predicate SomeSpeaks(candidates: seq<Candidate>) {
    exists k :: 0 <= k < |candidates| && Speaks(candidates[k])
  }

  ghost predicate AllWithin(candidates: seq<Candidate>, evidence: set<EvidenceId>, findings: set<int>) {
    forall k :: 0 <= k < |candidates| ==> Within(candidates[k], evidence, findings)
  }

  /** There are candidates, findings or the fallback speak for them, and they cite what exists. */
  ghost predicate ReviewChecked(review: Review, evidence: set<EvidenceId>, findings: set<int>) {
    && review.candidates != []
    && (review.status == Fallback || SomeSpeaks(review.candidates))
    && AllCite(review.candidates) && AllWithin(review.candidates, evidence, findings)
  }

  // ---------------------------------------------------------------- what the inputs are

  /** Findings with an identity, citing existing evidence, and some of it unless they are gaps or signals. */
  ghost predicate FindingsSourced(active: seq<Finding>, evidence: set<EvidenceId>, findings: set<int>) {
    forall f :: f in active ==>
      f.id in findings && (forall e :: e in f.evidence ==> e in evidence)
      && (f.kind == RootCause || f.kind == Contradiction ==> f.evidence != [])
  }

  predicate HypothesisCites(h: Hypothesis) {
    h.supporting + h.contradicting != []
  }

  ghost predicate HypothesesSourced(hypotheses: seq<Hypothesis>, evidence: set<EvidenceId>) {
    forall k, e :: 0 <= k < |hypotheses| && e in hypotheses[k].supporting + hypotheses[k].contradicting ==> e in evidence
  }

  // ---------------------------------------------------------------- when the review passes

  ghost predicate NoRootCause(active: seq<Finding>) {
    forall f :: f in active ==> !(f.kind == RootCause && f.cause.Some?)
  }

  ghost predicate RootCauseFor(active: seq<Finding>, c: Cause) {
    exists f :: f in active && f.kind == RootCause && f.cause == Some(c)
  }

  predicate LastOfCause(hypotheses: seq<Hypothesis>, k: nat)
    requires k < |hypotheses|
  {
    forall j :: k < j < |hypotheses| ==> hypotheses[j].cause != hypotheses[k].cause
  }

  /** Without a root-cause finding every hypothesis is a candidate: there must be one, a conflict must
      have a contradiction against one of them, and each must cite evidence itself or be the last of
      its cause and contradicted. */
  ghost predicate HypothesesCarry(active: seq<Finding>, hypotheses: seq<Hypothesis>, runCompleted: bool) {
    && hypotheses != []
    && (Decide(hypotheses[0], active, runCompleted) == Fallback
        || exists k :: 0 <= k < |hypotheses| && Contradicted(active, Some(hypotheses[k].cause)))
    && (forall k :: 0 <= k < |hypotheses| ==>
          HypothesisCites(hypotheses[k]) || (LastOfCause(hypotheses, k) && Contradicted(active, Some(hypotheses[k].cause))))
  }

  /** With one, only a baseline that is promoted on its own, in a fallback, must cite evidence. */
  ghost predicate BaselineCarries(active: seq<Finding>, hypotheses: seq<Hypothesis>, runCompleted: bool) {
    hypotheses != [] && Decide(hypotheses[0], active, runCompleted) == Fallback
    && !RootCauseFor(active, hypotheses[0].cause) && !Contradicted(active, Some(hypotheses[0].cause))
    ==> HypothesisCites(hypotheses[0])
  }

  ghost predicate ReviewPasses(active: seq<Finding>, hypotheses: seq<Hypothesis>, runCompleted: bool) {
    if NoRootCause(active) then HypothesesCarry(active, hypotheses, runCompleted)
    else BaselineCarries(active, hypotheses, runCompleted)
  }

  // ---------------------------------------------------------------- recording contradictions

  lemma {:induction false} PlaceByCauses(a: seq<Candidate>, b: seq<Candidate>, c: Cause)
    requires |a| == |b| && forall k :: 0 <= k < |a| ==> a[k].cause == b[k].cause
    ensures PlaceOfCause(a, c) == PlaceOfCause(b, c)
  {
    if a != [] {
      PlaceByCauses(a[..|a| - 1], b[..|b| - 1], c);
    }
  }

  /** The candidate at `k` is the one contradictions of its cause are recorded on. */
  predicate Receives(candidates: seq<Candidate>, k: nat)
    requires k < |candidates|
  {
    PlaceOfCause(candidates, candidates[k].cause) == k
  }

  /** What recording leaves at `k`: the same candidate, or one that also cites and lists contradictions. */
  ghost predicate RecordedAs(c: Candidate, r: Candidate, hit: bool) {
    && r.cause == c.cause && r.origin == c.origin
    && (if hit then Cites(r) && Speaks(r) else r == c)
  }

  lemma AgainstCites(c: Candidate, f: Finding)
    requires f.evidence != []
    ensures Cites(Against(c, f)) && Speaks(Against(c, f))
  {
    assert f.evidence[0] in c.contradictingEvidence + f.evidence;
    assert f.id in c.contradictingFindings + [f.id];
    UniqueGrows(c.contradictingEvidence + f.evidence, []);
    UniqueGrows(c.contradictingFindings + [f.id], []);
    assert c.contradictingEvidence + f.evidence + [] == c.contradictingEvidence + f.evidence;
    assert c.contradictingFindings + [f.id] + [] == c.contradictingFindings + [f.id];
  }

  lemma RecordOneAt(candidates: seq<Candidate>, f: Finding, k: nat)
    requires k < |candidates| && (f.kind == Contradiction ==> f.evidence != [])
    ensures RecordedAs(candidates[k], RecordOne(candidates, f)[k], Receives(candidates, k) && IsContradiction(f, Some(candidates[k].cause)))
    ensures Cites(candidates[k]) ==> Cites(RecordOne(candidates, f)[k])
    ensures Speaks(candidates[k]) ==> Speaks(RecordOne(candidates, f)[k])
  {
    if f.kind == Contradiction && f.cause.Some? && PlaceOfCause(candidates, f.cause.value) == k {
      AgainstCites(candidates[k], f);
    }
  }

  lemma UniqueGrows(a: seq<int>, b: seq<int>)
    requires a != []
    ensures Unique(a + b) != []
  {
    assert a[0] in a + b;
  }

  lemma ContradictedNext(front: seq<Finding>, f: Finding, c: Option<Cause>)
    ensures Contradicted(front + [f], c) <==> Contradicted(front, c) || IsContradiction(f, c)
  {
    if Contradicted(front, c) {
      var i :| 0 <= i < |front| && IsContradiction(front[i], c);
      assert IsContradiction((front + [f])[i], c);
    }
    if IsContradiction(f, c) {
      assert IsContradiction((front + [f])[|front|], c);
    }
  }

  lemma {:induction false} RecordedAt(candidates: seq<Candidate>, active: seq<Finding>, k: nat)
    requires k < |candidates| && forall f :: f in active && f.kind == Contradiction ==> f.evidence != []
    ensures RecordedAs(candidates[k], Recorded(candidates, active)[k],
                       Receives(candidates, k) && Contradicted(active, Some(candidates[k].cause)))
    ensures Cites(candidates[k]) ==> Cites(Recorded(candidates, active)[k])
    ensures Speaks(candidates[k]) ==> Speaks(Recorded(candidates, active)[k])
  {
    if active != [] {
      var front, f := active[..|active| - 1], active[|active| - 1];
      assert active == front + [f];
      var before := Recorded(candidates, front);
      RecordedAt(candidates, front, k);
      RecordingKeepsCauses(candidates, front);
      PlaceByCauses(before, candidates, candidates[k].cause);
      RecordOneAt(before, f, k);
      ContradictedNext(front, f, Some(candidates[k].cause));
    }
  }

  // ---------------------------------------------------------------- within what exists

  lemma AgainstWithin(c: Candidate, f: Finding, evidence: set<EvidenceId>, findings: set<int>)
    requires Within(c, evidence, findings) && f.id in findings && forall e :: e in f.evidence ==> e in evidence
    ensures Within(Against(c, f), evidence, findings)
  {
  }

  lemma {:induction false} RecordedWithin(candidates: seq<Candidate>, active: seq<Finding>, evidence: set<EvidenceId>, findings: set<int>)
    requires AllWithin(candidates, evidence, findings) && FindingsSourced(active, evidence, findings)
    ensures AllWithin(Recorded(candidates, active), evidence, findings)
  {
    if active != [] {
      var front, f := active[..|active| - 1], active[|active| - 1];
      assert f in active && forall g :: g in front ==> g in active;
      RecordedWithin(candidates, front, evidence, findings);
      if f.kind == Contradiction && f.cause.Some? {
        var before := Recorded(candidates, front);
        var k := PlaceOfCause(before, f.cause.value);
        if k < |before| {
          AgainstWithin(before[k], f, evidence, findings);
        }
      }
    }
  }

  // ---------------------------------------------------------------- candidates from findings

  lemma {:induction false} EvidenceOfOne(items: seq<Finding>, f: Finding)
    requires f in items && f.evidence != []
    ensures EvidenceOf(items) != [] && Ids(items) != []
  {
    if f != items[0] {
      EvidenceOfOne(items[1..], f);
    }
  }

  lemma {:induction false} SourcesWithin(items: seq<Finding>, evidence: set<EvidenceId>, findings: set<int>)
    requires forall f :: f in items ==> f.id in findings && forall e :: e in f.evidence ==> e in evidence
    ensures forall e :: e in EvidenceOf(items) ==> e in evidence
    ensures forall x :: x in Ids(items) ==> x in findings
  {
    if items != [] {
      assert items[0] in items && forall f :: f in items[1..] ==> f in items;
      SourcesWithin(items[1..], evidence, findings);
    }
  }

  lemma {:induction false} ContradictingMembers(active: seq<Finding>, c: Cause, f: Finding)
    requires f in Contradicting(active, c)
    ensures f in active
  {
    if !(IsContradiction(active[0], Some(c)) && f == active[0]) {
      ContradictingMembers(active[1..], c, f);
    }
  }

  lemma CandidateIsSourced(g: Votes, active: seq<Finding>, evidence: set<EvidenceId>, findings: set<int>)
    requires g.items != [] && FindingsSourced(active, evidence, findings)
    requires forall f :: f in g.items ==> f in active && f.kind == RootCause
    ensures var c := CandidateOf(g, active); Cites(c) && Speaks(c) && Within(c, evidence, findings)
  {
    assert g.items[0] in g.items;
    EvidenceOfOne(g.items, g.items[0]);
    SourcesWithin(g.items, evidence, findings);
    forall f | f in Contradicting(active, g.key) ensures f in active {
      ContradictingMembers(active, g.key, f);
    }
    SourcesWithin(Contradicting(active, g.key), evidence, findings);
    assert EvidenceOf(g.items)[0] in EvidenceOf(g.items);
  }

  lemma {:induction false} MemberOfGroup(groups: seq<Votes>, i: nat, f: Finding)
    requires i < |groups| && f in groups[i].items
    ensures f in GroupBag(groups)
  {
    if i > 0 {
      MemberOfGroup(groups[1..], i - 1, f);
    }
  }

  lemma DraftedAreSourced(active: seq<Finding>, evidence: set<EvidenceId>, findings: set<int>, i: nat)
    requires FindingsSourced(active, evidence, findings) && i < |Drafted(active)|
    ensures var c := Drafted(active)[i]; Cites(c) && Speaks(c) && Within(c, evidence, findings)
  {
    var groups := GroupsOf(CauseOf, Supporting(active));
    GroupsKeepItems(CauseOf, Supporting(active));
    assert HoldsKey(CauseOf, groups[i]);
    forall f | f in groups[i].items ensures f in active && f.kind == RootCause {
      MemberOfGroup(groups, i, f);
      assert f in multiset(Supporting(active));
      SupportingMembers(active, f);
    }
    CandidateIsSourced(groups[i], active, evidence, findings);
  }

  lemma NothingDrafted(active: seq<Finding>)
    ensures Drafted(active) == [] <==> NoRootCause(active)
  {
    GroupsKeepItems(CauseOf, Supporting(active));
    if NoRootCause(active) {
      if Supporting(active) != [] {
        SupportingMembers(active, Supporting(active)[0]);
      }
    } else {
      var f :| f in active && f.kind == RootCause && f.cause.Some?;
      SupportingMembers(active, f);
      assert f in multiset(Supporting(active));
      GroupOfMember(GroupsOf(CauseOf, Supporting(active)), f);
    }
  }

  lemma BuiltAreSourced(active: seq<Finding>, hypotheses: seq<Hypothesis>, evidence: set<EvidenceId>, findings: set<int>)
    requires FindingsSourced(active, evidence, findings) && Drafted(active) != []
    ensures var built := Built(active, hypotheses);
            built != [] && AllCite(built) && AllWithin(built, evidence, findings) && forall k :: 0 <= k < |built| ==> Speaks(built[k])
  {
    var drafted := Drafted(active);
    var sorted := Sort(MoreConfident, drafted);
    forall k | 0 <= k < |sorted| ensures Cites(sorted[k]) && Speaks(sorted[k]) && Within(sorted[k], evidence, findings) {
      SortMembers(MoreConfident, drafted, sorted[k]);
      var i :| 0 <= i < |drafted| && drafted[i] == sorted[k];
      DraftedAreSourced(active, evidence, findings, i);
    }
  }

  // ---------------------------------------------------------------- candidates from hypotheses

  lemma {:induction false} PlaceIsLast(candidates: seq<Candidate>, c: Cause, k: nat)
    requires k < |candidates|
    ensures PlaceOfCause(candidates, c) == k <==> candidates[k].cause == c && forall j :: k < j < |candidates| ==> candidates[j].cause != c
  {
    var n := |candidates| - 1;
    if candidates[n].cause != c && k < n {
      PlaceIsLast(candidates[..n], c, k);
      assert forall j :: k < j < n ==> candidates[..n][j] == candidates[j];
    }
  }

  /** A candidate appended for a contradicted hypothesis receives the contradictions of its cause. */
  ghost predicate Appended(listed: seq<Candidate>, k: nat, active: seq<Finding>, hypotheses: seq<Hypothesis>)
    requires k < |listed|
  {
    && Contradicted(active, Some(listed[k].cause)) && Receives(listed, k)
    && exists n :: 0 <= n < |hypotheses| && listed[k] == Seed(ForContradiction(n), hypotheses[n])
  }

  lemma AppendKeeps(listed: seq<Candidate>, x: Candidate, k: nat, active: seq<Finding>, hypotheses: seq<Hypothesis>)
    requires k < |listed| && Appended(listed, k, active, hypotheses) && listed[k].cause != x.cause
    ensures Appended(listed + [x], k, active, hypotheses)
  {
    assert (listed + [x])[..|listed|] == listed;
  }

  lemma {:induction false} ListedAre(candidates: seq<Candidate>, active: seq<Finding>, hypotheses: seq<Hypothesis>, n: nat)
    requires n <= |hypotheses|
    ensures var listed := WithContradicted(candidates, active, hypotheses, n);
            candidates <= listed && forall k :: |candidates| <= k < |listed| ==> Appended(listed, k, active, hypotheses)
  {
    if n > 0 {
      ListedAre(candidates, active, hypotheses, n - 1);
      var before := WithContradicted(candidates, active, hypotheses, n - 1);
      var h := hypotheses[n - 1];
      if Contradicted(active, Some(h.cause)) && !HasCause(before, h.cause) {
        var x := Seed(ForContradiction(n - 1), h);
        forall k | |candidates| <= k < |before| ensures Appended(before + [x], k, active, hypotheses) {
          AppendKeeps(before, x, k, active, hypotheses);
        }
        assert (before + [x])[|before|] == x;
      }
    }
  }

  lemma {:induction false} NothingListed(candidates: seq<Candidate>, active: seq<Finding>, hypotheses: seq<Hypothesis>, n: nat)
    requires n <= |hypotheses| && forall k :: 0 <= k < n ==> HasCause(candidates, hypotheses[k].cause)
    ensures WithContradicted(candidates, active, hypotheses, n) == candidates
  {
    if n > 0 {
      NothingListed(candidates, active, hypotheses, n - 1);
    }
  }

  // ---------------------------------------------------------------- promotion

  /** A candidate is added for the selected cause. */
  predicate Adds(candidates: seq<Candidate>, hypotheses: seq<Hypothesis>, selected: Option<Cause>) {
    selected.Some? && PlaceOfCause(candidates, selected.value) == |candidates| && FirstHypothesis(hypotheses, selected.value) < |hypotheses|
  }

  lemma ToFrontMembers(candidates: seq<Candidate>, k: nat, c: Candidate)
    requires k < |candidates|
    ensures c in ToFront(candidates, k) <==> c in candidates
  {
    assert candidates == candidates[..k] + [candidates[k]] + candidates[k + 1..];
  }

  lemma PromotedMembers(candidates: seq<Candidate>, hypotheses: seq<Hypothesis>, selected: Option<Cause>, c: Candidate)
    ensures c in Promoted(candidates, hypotheses, selected) <==>
            c in candidates || (Adds(candidates, hypotheses, selected) && c == Seed(ForSelection, hypotheses[FirstHypothesis(hypotheses, selected.value)]))
  {
    if selected.Some? && PlaceOfCause(candidates, selected.value) < |candidates| {
      ToFrontMembers(candidates, PlaceOfCause(candidates, selected.value), c);
    }
  }

  lemma ByMembers(candidates: seq<Candidate>, evidence: set<EvidenceId>, findings: set<int>)
    ensures AllCite(candidates) <==> forall c :: c in candidates ==> Cites(c)
    ensures AllWithin(candidates, evidence, findings) <==> forall c :: c in candidates ==> Within(c, evidence, findings)
    ensures SomeSpeaks(candidates) <==> exists c :: c in candidates && Speaks(c)
  {
    if exists c :: c in candidates && Speaks(c) {
      var c :| c in candidates && Speaks(c);
      var k :| 0 <= k < |candidates| && candidates[k] == c;
      assert Speaks(candidates[k]);
    }
    if SomeSpeaks(candidates) {
      var k :| 0 <= k < |candidates| && Speaks(candidates[k]);
      assert candidates[k] in candidates;
    }
  }

  /** The checks do not look at ranks, and promotion matters to them only if it adds a candidate. */
  lemma PromotedChecks(candidates: seq<Candidate>, hypotheses: seq<Hypothesis>, selected: Option<Cause>,
                       evidence: set<EvidenceId>, findings: set<int>)
    requires HypothesesSourced(hypotheses, evidence)
    ensures var after, adds := Rerank(Promoted(candidates, hypotheses, selected)), Adds(candidates, hypotheses, selected);
            && (after != [] <==> candidates != [] || adds)
            && (AllCite(after) <==> AllCite(candidates) && (adds ==> HypothesisCites(hypotheses[FirstHypothesis(hypotheses, selected.value)])))
            && (SomeSpeaks(after) <==> SomeSpeaks(candidates))
            && (AllWithin(candidates, evidence, findings) ==> AllWithin(after, evidence, findings))
  {
    var promoted := Promoted(candidates, hypotheses, selected);
    RankedChecks(promoted, evidence, findings);
    ByMembers(candidates, evidence, findings);
    ByMembers(promoted, evidence, findings);
    forall c ensures c in promoted <==>
      c in candidates || (Adds(candidates, hypotheses, selected) && c == Seed(ForSelection, hypotheses[FirstHypothesis(hypotheses, selected.value)]))
    {
      PromotedMembers(candidates, hypotheses, selected, c);
    }
    if Adds(candidates, hypotheses, selected) {
      AddedChecks(candidates, promoted, hypotheses[FirstHypothesis(hypotheses, selected.value)], evidence, findings);
    }
  }

  lemma AddedChecks(candidates: seq<Candidate>, promoted: seq<Candidate>, h: Hypothesis, evidence: set<EvidenceId>, findings: set<int>)
    requires forall c :: c in promoted <==> c in candidates || c == Seed(ForSelection, h)
    requires forall e :: e in h.supporting + h.contradicting ==> e in evidence
    ensures (forall c :: c in promoted ==> Cites(c)) <==> (forall c :: c in candidates ==> Cites(c)) && HypothesisCites(h)
    ensures (exists c :: c in promoted && Speaks(c)) <==> (exists c :: c in candidates && Speaks(c))
    ensures (forall c :: c in candidates ==> Within(c, evidence, findings)) ==> forall c :: c in promoted ==> Within(c, evidence, findings)
  {
    assert Seed(ForSelection, h) in promoted;
    assert !Speaks(Seed(ForSelection, h)) && Within(Seed(ForSelection, h), evidence, findings);
  }

  lemma RankedChecks(candidates: seq<Candidate>, evidence: set<EvidenceId>, findings: set<int>)
    ensures var ranked := Rerank(candidates);
            && (AllCite(ranked) <==> AllCite(candidates)) && (SomeSpeaks(ranked) <==> SomeSpeaks(candidates))
            && (AllWithin(ranked, evidence, findings) <==> AllWithin(candidates, evidence, findings))
  {
    var ranked := Rerank(candidates);
    forall k | 0 <= k < |candidates|
      ensures Cites(ranked[k]) == Cites(candidates[k]) && Speaks(ranked[k]) == Speaks(candidates[k])
      ensures Within(ranked[k], evidence, findings) == Within(candidates[k], evidence, findings)
    {
    }
  }

  // ---------------------------------------------------------------- with a root-cause finding

  function Listed(active: seq<Finding>, hypotheses: seq<Hypothesis>): seq<Candidate> {
    WithContradicted(Built(active, hypotheses), active, hypotheses, |hypotheses|)
  }

  lemma AppendedIsWithin(listed: seq<Candidate>, k: nat, active: seq<Finding>, hypotheses: seq<Hypothesis>,
                         evidence: set<EvidenceId>, findings: set<int>)
    requires k < |listed| && Appended(listed, k, active, hypotheses) && HypothesesSourced(hypotheses, evidence)
    ensures Within(listed[k], evidence, findings)
  {
    var n :| 0 <= n < |hypotheses| && listed[k] == Seed(ForContradiction(n), hypotheses[n]);
    assert forall e :: e in hypotheses[n].supporting + hypotheses[n].contradicting ==> e in evidence;
  }

  lemma FindingsRecord(active: seq<Finding>, hypotheses: seq<Hypothesis>, evidence: set<EvidenceId>, findings: set<int>)
    requires FindingsSourced(active, evidence, findings) && HypothesesSourced(hypotheses, evidence) && !NoRootCause(active)
    ensures var recorded := Recorded(Listed(active, hypotheses), active);
            recorded != [] && AllCite(recorded) && SomeSpeaks(recorded) && AllWithin(recorded, evidence, findings)
  {
    var built, listed := Built(active, hypotheses), Listed(active, hypotheses);
    NothingDrafted(active);
    BuiltAreSourced(active, hypotheses, evidence, findings);
    ListedAre(built, active, hypotheses, |hypotheses|);
    forall k | 0 <= k < |listed|
      ensures Within(listed[k], evidence, findings) && Cites(Recorded(listed, active)[k])
    {
      RecordedAt(listed, active, k);
      if k < |built| {
        assert listed[k] == built[k];
      } else {
        AppendedIsWithin(listed, k, active, hypotheses, evidence, findings);
      }
    }
    RecordedWithin(listed, active, evidence, findings);
    RecordedAt(listed, active, 0);
    assert listed[0] == built[0];
  }

  lemma BuiltCauses(active: seq<Finding>, hypotheses: seq<Hypothesis>, c: Cause)
    requires !NoRootCause(active)
    ensures HasCause(Built(active, hypotheses), c) <==> RootCauseFor(active, c)
  {
    NothingDrafted(active);
    if RootCauseFor(active, c) {
      var f :| f in active && f.kind == RootCause && f.cause == Some(c);
      var k := SupportIsListed(active, hypotheses, f);
    }
    if HasCause(Built(active, hypotheses), c) {
      var drafted, sorted := Drafted(active), Sort(MoreConfident, Drafted(active));
      var k :| 0 <= k < |Built(active, hypotheses)| && Built(active, hypotheses)[k].cause == c;
      SortMembers(MoreConfident, drafted, sorted[k]);
      var i :| 0 <= i < |drafted| && drafted[i] == sorted[k];
      DraftHasFinding(active, i);
    }
  }

  lemma DraftHasFinding(active: seq<Finding>, i: nat)
    requires i < |Drafted(active)|
    ensures RootCauseFor(active, Drafted(active)[i].cause)
  {
    var groups := GroupsOf(CauseOf, Supporting(active));
    GroupsKeepItems(CauseOf, Supporting(active));
    assert HoldsKey(CauseOf, groups[i]);
    var f := groups[i].items[0];
    MemberOfGroup(groups, i, f);
    assert f in multiset(Supporting(active));
    SupportingMembers(active, f);
    assert CauseOf(f) == groups[i].key;
  }

  lemma RecordedCauses(active: seq<Finding>, hypotheses: seq<Hypothesis>, c: Cause)
    requires !NoRootCause(active)
    ensures HasCause(Recorded(Listed(active, hypotheses), active), c) <==>
            RootCauseFor(active, c) || (Contradicted(active, Some(c)) && exists n :: 0 <= n < |hypotheses| && hypotheses[n].cause == c)
  {
    var built, listed := Built(active, hypotheses), Listed(active, hypotheses);
    BuiltCauses(active, hypotheses, c);
    ContradictedKeepsCauses(built, active, hypotheses, |hypotheses|, c);
    ListedAre(built, active, hypotheses, |hypotheses|);
    RecordingKeepsCauses(listed, active);
    SameCauses(listed, Recorded(listed, active), c);
    forall k | 0 <= k < |listed| && listed[k].cause == c
      ensures HasCause(built, c) || (Contradicted(active, Some(c)) && exists n :: 0 <= n < |hypotheses| && hypotheses[n].cause == c)
    {
      if k < |built| {
        assert built[k].cause == c;
      } else {
        assert Appended(listed, k, active, hypotheses);
      }
    }
  }

  lemma SameCauses(a: seq<Candidate>, b: seq<Candidate>, c: Cause)
    requires |a| == |b| && forall k :: 0 <= k < |a| ==> a[k].cause == b[k].cause
    ensures HasCause(a, c) <==> HasCause(b, c)
  {
    if HasCause(a, c) {
      var k :| 0 <= k < |a| && a[k].cause == c;
      assert b[k].cause == c;
    }
    if HasCause(b, c) {
      var k :| 0 <= k < |b| && b[k].cause == c;
      assert a[k].cause == c;
    }
  }

  /** A concluded cause has a root-cause finding. */
  lemma ConcludedHasRootCause(active: seq<Finding>, c: Cause)
    requires c in Causes(Conclusions(active))
    ensures RootCauseFor(active, c)
  {
    ConclusionsMean(active);
    CauseIsConcluded(Conclusions(active), c);
    var i :| 0 <= i < |Conclusions(active)| && CauseOf(Conclusions(active)[i]) == c;
    assert Conclusions(active)[i] in Conclusions(active);
  }

  lemma LeadIsConcluded(baseline: Hypothesis, active: seq<Finding>, c: Cause)
    requires !ValidBaseline(baseline) && Selected(baseline, Conclusions(active)) == Some(c)
    ensures c in Causes(Conclusions(active))
  {
    SelectedWins(baseline, Conclusions(active), c);
    SupportIsConcluded(Conclusions(active), c);
    var f :| f in Conclusions(active) && CauseOf(f) == c;
    var i :| 0 <= i < |Conclusions(active)| && Conclusions(active)[i] == f;
    CauseIsConcluded(Conclusions(active), c);
  }

  /** Outside a conflict, the selected cause is the baseline's or a concluded one. */
  lemma SelectedIs(active: seq<Finding>, hypotheses: seq<Hypothesis>, runCompleted: bool)
    ensures var review := ReviewOf(active, hypotheses, runCompleted);
            review.selected.Some? ==>
              && hypotheses != [] && review.status == Decide(hypotheses[0], active, runCompleted)
              && (review.selected == Some(hypotheses[0].cause) || review.status == AgentLeads)
              && (review.status != Fallback ==> RootCauseFor(active, review.selected.value))
  {
    var review := ReviewOf(active, hypotheses, runCompleted);
    if review.selected.Some? {
      var conclusions := Conclusions(active);
      if review.status == AgentLeads {
        LeadIsConcluded(hypotheses[0], active, review.selected.value);
        ConcludedHasRootCause(active, review.selected.value);
      } else if review.status == Agreement {
        ConcludedHasRootCause(active, hypotheses[0].cause);
      }
    }
  }

  lemma FirstIsBaseline(hypotheses: seq<Hypothesis>)
    requires hypotheses != []
    ensures FirstHypothesis(hypotheses, hypotheses[0].cause) == 0
  {
  }

  lemma PlaceMeans(candidates: seq<Candidate>, c: Cause)
    ensures PlaceOfCause(candidates, c) == |candidates| <==> !HasCause(candidates, c)
  {
  }

  /** What promotion adds is a baseline nobody spoke about, in a fallback. */
  lemma AddsMeans(active: seq<Finding>, hypotheses: seq<Hypothesis>, runCompleted: bool)
    requires !NoRootCause(active)
    ensures var recorded, selected := Recorded(Listed(active, hypotheses), active), ReviewOf(active, hypotheses, runCompleted).selected;
            && (Adds(recorded, hypotheses, selected) <==>
                  hypotheses != [] && Decide(hypotheses[0], active, runCompleted) == Fallback
                  && !RootCauseFor(active, hypotheses[0].cause) && !Contradicted(active, Some(hypotheses[0].cause)))
            && (Adds(recorded, hypotheses, selected) ==> FirstHypothesis(hypotheses, selected.value) == 0)
  {
    var recorded, selected := Recorded(Listed(active, hypotheses), active), ReviewOf(active, hypotheses, runCompleted).selected;
    SelectedIs(active, hypotheses, runCompleted);
    if selected.Some? {
      RecordedCauses(active, hypotheses, selected.value);
      PlaceMeans(recorded, selected.value);
      FirstIsBaseline(hypotheses);
    }
  }

  lemma FindingsPass(active: seq<Finding>, hypotheses: seq<Hypothesis>, runCompleted: bool, evidence: set<EvidenceId>, findings: set<int>)
    requires FindingsSourced(active, evidence, findings) && HypothesesSourced(hypotheses, evidence) && !NoRootCause(active)
    ensures ReviewChecked(ReviewOf(active, hypotheses, runCompleted), evidence, findings) <==> BaselineCarries(active, hypotheses, runCompleted)
  {
    var recorded, selected := Recorded(Listed(active, hypotheses), active), ReviewOf(active, hypotheses, runCompleted).selected;
    FindingsRecord(active, hypotheses, evidence, findings);
    AddsMeans(active, hypotheses, runCompleted);
    PromotedChecks(recorded, hypotheses, selected, evidence, findings);
  }

  // ---------------------------------------------------------------- without one

  function Seeds(hypotheses: seq<Hypothesis>): (r: seq<Candidate>)
    ensures |r| == |hypotheses|
  {
    Rerank(seq(|hypotheses|, i requires 0 <= i < |hypotheses| => Seed(FromHypothesis(i), hypotheses[i])))
  }

  lemma SeedsAreListed(active: seq<Finding>, hypotheses: seq<Hypothesis>)
    requires NoRootCause(active)
    ensures Listed(active, hypotheses) == Seeds(hypotheses)
  {
    NothingDrafted(active);
    forall k | 0 <= k < |hypotheses| ensures HasCause(Seeds(hypotheses), hypotheses[k].cause) {
      assert Seeds(hypotheses)[k].cause == hypotheses[k].cause;
    }
    NothingListed(Seeds(hypotheses), active, hypotheses, |hypotheses|);
  }

  lemma SeedReceives(hypotheses: seq<Hypothesis>, k: nat)
    requires k < |hypotheses|
    ensures Receives(Seeds(hypotheses), k) <==> LastOfCause(hypotheses, k)
  {
    var seeds := Seeds(hypotheses);
    PlaceIsLast(seeds, seeds[k].cause, k);
    assert forall j :: 0 <= j < |hypotheses| ==> seeds[j].cause == hypotheses[j].cause;
  }

  lemma {:induction false} LastExists(hypotheses: seq<Hypothesis>, k: nat) returns (j: nat)
    requires k < |hypotheses|
    ensures j < |hypotheses| && hypotheses[j].cause == hypotheses[k].cause && LastOfCause(hypotheses, j)
    decreases |hypotheses| - k
  {
    j := k;
    if !LastOfCause(hypotheses, k) {
      var i :| k < i < |hypotheses| && hypotheses[i].cause == hypotheses[k].cause;
      j := LastExists(hypotheses, i);
    }
  }

  lemma SeedRecorded(active: seq<Finding>, hypotheses: seq<Hypothesis>, k: nat)
    requires k < |hypotheses| && forall f :: f in active && f.kind == Contradiction ==> f.evidence != []
    ensures var r := Recorded(Seeds(hypotheses), active)[k];
            var hit := LastOfCause(hypotheses, k) && Contradicted(active, Some(hypotheses[k].cause));
            (Cites(r) <==> HypothesisCites(hypotheses[k]) || hit) && (Speaks(r) <==> hit)
  {
    RecordedAt(Seeds(hypotheses), active, k);
    SeedReceives(hypotheses, k);
  }

  lemma SeedsRecord(active: seq<Finding>, hypotheses: seq<Hypothesis>, evidence: set<EvidenceId>, findings: set<int>)
    requires FindingsSourced(active, evidence, findings) && HypothesesSourced(hypotheses, evidence)
    ensures var recorded := Recorded(Seeds(hypotheses), active);
            && (AllCite(recorded) <==>
                  forall k :: 0 <= k < |hypotheses| ==>
                    HypothesisCites(hypotheses[k]) || (LastOfCause(hypotheses, k) && Contradicted(active, Some(hypotheses[k].cause))))
            && (SomeSpeaks(recorded) <==> exists k :: 0 <= k < |hypotheses| && Contradicted(active, Some(hypotheses[k].cause)))
            && AllWithin(recorded, evidence, findings)
  {
    var recorded := Recorded(Seeds(hypotheses), active);
    forall k | 0 <= k < |hypotheses|
      ensures var hit := LastOfCause(hypotheses, k) && Contradicted(active, Some(hypotheses[k].cause));
              (Cites(recorded[k]) <==> HypothesisCites(hypotheses[k]) || hit) && (Speaks(recorded[k]) <==> hit)
    {
      SeedRecorded(active, hypotheses, k);
    }
    if k :| 0 <= k < |hypotheses| && Contradicted(active, Some(hypotheses[k].cause)) {
      var j := LastExists(hypotheses, k);
      assert Speaks(recorded[j]);
    }
    SeedsWithin(hypotheses, evidence, findings);
    RecordedWithin(Seeds(hypotheses), active, evidence, findings);
  }

  lemma SeedsWithin(hypotheses: seq<Hypothesis>, evidence: set<EvidenceId>, findings: set<int>)
    requires HypothesesSourced(hypotheses, evidence)
    ensures AllWithin(Seeds(hypotheses), evidence, findings)
  {
    forall k | 0 <= k < |hypotheses| ensures Within(Seeds(hypotheses)[k], evidence, findings) {
      assert forall e :: e in hypotheses[k].supporting + hypotheses[k].contradicting ==> e in evidence;
    }
  }

  lemma NothingAdded(active: seq<Finding>, hypotheses: seq<Hypothesis>, runCompleted: bool)
    requires NoRootCause(active)
    ensures !Adds(Recorded(Seeds(hypotheses), active), hypotheses, ReviewOf(active, hypotheses, runCompleted).selected)
  {
    var seeds, selected := Seeds(hypotheses), ReviewOf(active, hypotheses, runCompleted).selected;
    SelectedIs(active, hypotheses, runCompleted);
    if selected.Some? {
      RecordingKeepsCauses(seeds, active);
      PlaceMeans(Recorded(seeds, active), selected.value);
      assert Recorded(seeds, active)[0].cause == hypotheses[0].cause;
    }
  }

  lemma HypothesesPass(active: seq<Finding>, hypotheses: seq<Hypothesis>, runCompleted: bool, evidence: set<EvidenceId>, findings: set<int>)
    requires FindingsSourced(active, evidence, findings) && HypothesesSourced(hypotheses, evidence) && NoRootCause(active)
    ensures ReviewChecked(ReviewOf(active, hypotheses, runCompleted), evidence, findings) <==> HypothesesCarry(active, hypotheses, runCompleted)
  {
    var recorded, selected := Recorded(Seeds(hypotheses), active), ReviewOf(active, hypotheses, runCompleted).selected;
    SeedsAreListed(active, hypotheses);
    SeedsRecord(active, hypotheses, evidence, findings);
    NothingAdded(active, hypotheses, runCompleted);
    PromotedChecks(recorded, hypotheses, selected, evidence, findings);
  }

  /** The built review passes the validator's candidate checks exactly when its inputs carry it. */
  lemma ReviewPassesExactly(active: seq<Finding>, hypotheses: seq<Hypothesis>, runCompleted: bool, evidence: set<EvidenceId>, findings: set<int>)
    requires FindingsSourced(active, evidence, findings) && HypothesesSourced(hypotheses, evidence)
    ensures ReviewChecked(ReviewOf(active, hypotheses, runCompleted), evidence, findings) <==> ReviewPasses(active, hypotheses, runCompleted)
  {
    if NoRootCause(active) {
      HypothesesPass(active, hypotheses, runCompleted, evidence, findings);
    } else {
      FindingsPass(active, hypotheses, runCompleted, evidence, findings);
    }
  }
}
