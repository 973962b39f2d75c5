/** Arbitration between the deterministic baseline and the agents' active conclusions. */
module HybridArbitration {
  import opened Grouping
  import opened Options
  import opened Sorting
  import opened Vocabulary

  datatype Finding = Finding(
    id: int, investigation: int, agent: AgentName, kind: FindingType, cause: Option<Cause>, confidence: real,
    evidence: seq<int>, blocking: bool, createdAt: int, sdk: bool, round: nat, revises: Option<int>)

  datatype Hypothesis = Hypothesis(cause: Cause, confidence: real, supporting: seq<int>, contradicting: seq<int>)

  datatype Error = DuplicateId | UnknownRevision | RevisionTarget | RevisionOwner | WrongInvestigation | UnknownEvidence

  datatype Result<+T> = Ok(value: T) | Err(error: Error)

  datatype Status = Agreement | Conflict | AgentLeads | Fallback

  const LOW_CONFIDENCE := 0.5

  // ---------------------------------------------------------------- active findings

  function SdkFindings(findings: seq<Finding>): seq<Finding> {
    if findings == [] then []
    else (if findings[0].sdk then [findings[0]] else []) + SdkFindings(findings[1..])
  }

  predicate HasId(findings: seq<Finding>, id: int) {
    exists i :: 0 <= i < |findings| && findings[i].id == id
  }

  predicate RepeatsId(findings: seq<Finding>) {
    exists i, j :: 0 <= i < j < |findings| && findings[i].id == findings[j].id
  }

  function ById(findings: seq<Finding>, id: int): (r: Option<Finding>)
    ensures r.Some? ==> r.value in findings && r.value.id == id
  {
    if findings == [] then None
    else if findings[|findings| - 1].id == id then Some(findings[|findings| - 1])
    else ById(findings[..|findings| - 1], id)
  }

  /** What is wrong with a round-two finding as a revision, if anything. */
  function RevisionError(findings: seq<Finding>, sdk: seq<Finding>, f: Finding): Option<Error> {
    if f.round != 2 then None
    else
      var revised := if f.revises.None? then None else ById(sdk, f.revises.value);
      if revised.None? then
        (if f.revises.Some? && HasId(findings, f.revises.value) then Some(RevisionTarget) else Some(UnknownRevision))
      else if revised.value.round != 1 then Some(RevisionTarget)
      else if revised.value.investigation != f.investigation || revised.value.agent != f.agent then Some(RevisionOwner)
      else None
  }

  function FirstRevisionError(findings: seq<Finding>, sdk: seq<Finding>, n: nat): Option<Error>
    requires n <= |sdk|
  {
    if n == 0 then None
    else
      var before := FirstRevisionError(findings, sdk, n - 1);
      if before.Some? then before else RevisionError(findings, sdk, sdk[n - 1])
  }

  predicate IsRevised(sdk: seq<Finding>, id: int) {
    exists i :: 0 <= i < |sdk| && sdk[i].round == 2 && sdk[i].revises == Some(id)
  }

  function Unrevised(sdk: seq<Finding>, among: seq<Finding>): seq<Finding> {
    if among == [] then []
    else (if IsRevised(sdk, among[0].id) then [] else [among[0]]) + Unrevised(sdk, among[1..])
  }

  function ActiveFindings(findings: seq<Finding>): Result<seq<Finding>> {
    var sdk := SdkFindings(findings);
    if RepeatsId(sdk) then Err(DuplicateId)
    else
      var error := FirstRevisionError(findings, sdk, |sdk|);
      if error.Some? then Err(error.value) else Ok(Unrevised(sdk, sdk))
  }

  lemma {:induction false} UnrevisedMembers(sdk: seq<Finding>, among: seq<Finding>, f: Finding)
    ensures f in Unrevised(sdk, among) <==> f in among && !IsRevised(sdk, f.id)
  {
    if among != [] {
      UnrevisedMembers(sdk, among[1..], f);
      assert f in among <==> f == among[0] || f in among[1..];
    }
  }

  lemma {:induction false} SdkMembers(findings: seq<Finding>, f: Finding)
    ensures f in SdkFindings(findings) <==> f in findings && f.sdk
  {
    if findings != [] {
      SdkMembers(findings[1..], f);
      assert f in findings <==> f == findings[0] || f in findings[1..];
    }
  }

  /** A finding is active when the SDK produced it and no accepted revision replaces it; a
      revision replaces a round-one finding of the same agent. */
  lemma ActiveMeans(findings: seq<Finding>, f: Finding)
    requires ActiveFindings(findings).Ok?
    ensures f in ActiveFindings(findings).value <==> f in findings && f.sdk && !IsRevised(SdkFindings(findings), f.id)
    ensures f in ActiveFindings(findings).value && f.round == 2 ==>
              exists g :: g in findings && g.sdk && f.revises == Some(g.id) && g.round == 1 && g.agent == f.agent
                          && g.investigation == f.investigation && g !in ActiveFindings(findings).value
  {
    var sdk := SdkFindings(findings);
    UnrevisedMembers(sdk, sdk, f);
    SdkMembers(findings, f);
    if f in ActiveFindings(findings).value && f.round == 2 {
      var i :| 0 <= i < |sdk| && sdk[i] == f;
      NoRevisionError(findings, sdk, |sdk|, i);
      var g := ById(sdk, f.revises.value).value;
      SdkMembers(findings, g);
      UnrevisedMembers(sdk, sdk, g);
      assert IsRevised(sdk, g.id);
    }
  }

  lemma {:induction false} NoRevisionError(findings: seq<Finding>, sdk: seq<Finding>, n: nat, i: nat)
    requires i < n <= |sdk| && FirstRevisionError(findings, sdk, n).None?
    ensures RevisionError(findings, sdk, sdk[i]).None?
    decreases n
  {
    if i < n - 1 {
      NoRevisionError(findings, sdk, n - 1, i);
    }
  }

  // ---------------------------------------------------------------- conclusions

  predicate Concludes(f: Finding) {
    f.kind == RootCause && f.cause.Some? && f.cause.value != UnknownCause && f.confidence >= LOW_CONFIDENCE && f.evidence != []
  }

  function PlaceOf(conclusions: seq<Finding>, agent: AgentName): (r: nat)
    ensures r <= |conclusions| && (r < |conclusions| ==> conclusions[r].agent == agent)
    ensures r == |conclusions| ==> forall i :: 0 <= i < |conclusions| ==> conclusions[i].agent != agent
  {
    if conclusions == [] || conclusions[0].agent == agent then 0 else 1 + PlaceOf(conclusions[1..], agent)
  }

  /** A later or equally late conclusion of an agent takes the earlier one's place. */
  function Conclude(conclusions: seq<Finding>, f: Finding): seq<Finding> {
    if !Concludes(f) then conclusions
    else
      var k := PlaceOf(conclusions, f.agent);
      if k == |conclusions| then conclusions + [f]
      else if f.createdAt >= conclusions[k].createdAt then conclusions[k := f]
      else conclusions
  }

  /** One conclusion for each agent, in the order in which the agents first concluded. */
  function Conclusions(active: seq<Finding>): seq<Finding> {
    if active == [] then [] else Conclude(Conclusions(active[..|active| - 1]), active[|active| - 1])
  }

  ghost predicate OnePerAgent(conclusions: seq<Finding>) {
    forall i, j :: 0 <= i < j < |conclusions| ==> conclusions[i].agent != conclusions[j].agent
  }

  ghost predicate LatestOf(conclusions: seq<Finding>, f: Finding) {
    exists i :: 0 <= i < |conclusions| && conclusions[i].agent == f.agent && conclusions[i].createdAt >= f.createdAt
  }

  /** Each agent with a conclusion is represented once, by its latest one. */
  lemma {:induction false} ConclusionsMean(active: seq<Finding>)
    ensures OnePerAgent(Conclusions(active))
    ensures forall c :: c in Conclusions(active) ==> c in active && Concludes(c)
    ensures forall f :: f in active && Concludes(f) ==> LatestOf(Conclusions(active), f)
  {
    if active != [] {
      var front, last := active[..|active| - 1], active[|active| - 1];
      ConclusionsMean(front);
      assert active == front + [last];
      ConcludeKeeps(Conclusions(front), last);
      forall f | f in active && Concludes(f) ensures LatestOf(Conclusions(active), f) {
        if f in front {
          LatestStays(Conclusions(front), last, f);
        }
      }
    }
  }

  lemma ConcludeKeeps(conclusions: seq<Finding>, f: Finding)
    requires OnePerAgent(conclusions)
    ensures OnePerAgent(Conclude(conclusions, f))
    ensures forall c :: c in Conclude(conclusions, f) ==> c in conclusions || (c == f && Concludes(f))
    ensures Concludes(f) ==> LatestOf(Conclude(conclusions, f), f)
  {
    if Concludes(f) {
      var k := PlaceOf(conclusions, f.agent);
      assert Conclude(conclusions, f)[k].agent == f.agent;
    }
  }

  lemma LatestStays(conclusions: seq<Finding>, next: Finding, f: Finding)
    requires LatestOf(conclusions, f)
    ensures LatestOf(Conclude(conclusions, next), f)
  {
    var i :| 0 <= i < |conclusions| && conclusions[i].agent == f.agent && conclusions[i].createdAt >= f.createdAt;
    assert Conclude(conclusions, next)[i].agent == f.agent;
  }

  /** No concluding finding of the same agent is later than the one at `k`, nor equally late and
      further on in the list. */
  ghost predicate LastWord(active: seq<Finding>, k: int) {
    && 0 <= k < |active| && Concludes(active[k])
    && forall j :: 0 <= j < |active| && Concludes(active[j]) && active[j].agent == active[k].agent ==>
         active[j].createdAt < active[k].createdAt || (active[j].createdAt == active[k].createdAt && j <= k)
  }

  lemma NewLastWord(front: seq<Finding>, f: Finding)
    requires Concludes(f)
    requires forall j :: 0 <= j < |front| && Concludes(front[j]) && front[j].agent == f.agent ==> front[j].createdAt <= f.createdAt
    ensures LastWord(front + [f], |front|)
  {
  }

  lemma LastWordStays(front: seq<Finding>, f: Finding, k: int)
    requires LastWord(front, k)
    requires Concludes(f) && f.agent == front[k].agent ==> f.createdAt < front[k].createdAt
    ensures LastWord(front + [f], k)
  {
  }

  /** An agent's conclusion is its latest one, and the last of these when several are equally late. */
  lemma {:induction false} ConclusionIsLast(active: seq<Finding>, i: nat) returns (k: int)
    requires i < |Conclusions(active)|
    ensures LastWord(active, k) && active[k] == Conclusions(active)[i]
  {
    var front, f := active[..|active| - 1], active[|active| - 1];
    var before := Conclusions(front);
    assert active == front + [f];
    k := -1;
    if i < |before| {
      k := ConclusionIsLast(front, i);
    }
    k := StepLastWord(front, before, f, i, k);
  }

  lemma StepLastWord(front: seq<Finding>, before: seq<Finding>, f: Finding, i: nat, k: int) returns (r: int)
    requires before == Conclusions(front) && i < |Conclude(before, f)|
    requires i < |before| ==> LastWord(front, k) && front[k] == before[i]
    ensures LastWord(front + [f], r) && (front + [f])[r] == Conclude(before, f)[i]
  {
    ConclusionsMean(front);
    var place := PlaceOf(before, f.agent);
    if i == |before| {
      NobodyConcluded(front, f.agent);
      NewLastWord(front, f);
      r := |front|;
    } else if Concludes(f) && i == place && f.createdAt >= before[i].createdAt {
      NewLastWord(front, f);
      r := |front|;
    } else {
      LastWordStays(front, f, k);
      r := k;
    }
  }

  lemma NobodyConcluded(active: seq<Finding>, agent: AgentName)
    requires PlaceOf(Conclusions(active), agent) == |Conclusions(active)|
    ensures forall j :: 0 <= j < |active| && Concludes(active[j]) ==> active[j].agent != agent
  {
    ConclusionsMean(active);
    forall j | 0 <= j < |active| && Concludes(active[j]) ensures active[j].agent != agent {
      assert active[j] in active;
      assert LatestOf(Conclusions(active), active[j]);
    }
  }

  method CollectConclusions(active: seq<Finding>) returns (conclusions: seq<Finding>)
    ensures conclusions == Conclusions(active)
  {
    conclusions := [];
    for i := 0 to |active|
      invariant conclusions == Conclusions(active[..i])
    {
      assert active[..i + 1][..i] == active[..i];
      var f := active[i];
      if !Concludes(f) {
        continue;
      }
      var k := PlaceOf(conclusions, f.agent);
      if k == |conclusions| {
        conclusions := conclusions + [f];
      } else if f.createdAt >= conclusions[k].createdAt {
        conclusions := conclusions[k := f];
      }
    }
    assert active[..|active|] == active;
  }

  // ---------------------------------------------------------------- the selected cause

  function CauseOf(f: Finding): Cause {
    if f.cause.Some? then f.cause.value else UnknownCause
  }

  function Causes(conclusions: seq<Finding>): set<Cause> {
    set f | f in conclusions :: CauseOf(f)
  }

  type Votes = Group<Cause, Finding>

  predicate MoreVotes(a: Votes, b: Votes) {
    |a.items| >= |b.items|
  }

  function Ballots(conclusions: seq<Finding>): seq<Votes> {
    Sort(MoreVotes, GroupsOf(CauseOf, conclusions))
  }

  predicate ValidBaseline(baseline: Hypothesis) {
    baseline.cause != UnknownCause && baseline.confidence >= LOW_CONFIDENCE
  }

  function Selected(baseline: Hypothesis, conclusions: seq<Finding>): Option<Cause> {
    if ValidBaseline(baseline) then Some(baseline.cause)
    else
      var ballots := Ballots(conclusions);
      if ballots == [] then None
      else if |ballots[0].items| < 2 || (|ballots| > 1 && |ballots[1].items| == |ballots[0].items|) then None
      else Some(ballots[0].key)
  }

  /** Number of agents that concluded `c`. */
  function Support(conclusions: seq<Finding>, c: Cause): nat {
    if conclusions == [] then 0
    else Support(conclusions[..|conclusions| - 1], c) + (if CauseOf(conclusions[|conclusions| - 1]) == c then 1 else 0)
  }

  lemma {:induction false} GroupsCountSupport(conclusions: seq<Finding>, c: Cause)
    ensures forall i :: 0 <= i < |GroupsOf(CauseOf, conclusions)| && GroupsOf(CauseOf, conclusions)[i].key == c ==>
              |GroupsOf(CauseOf, conclusions)[i].items| == Support(conclusions, c)
    ensures (forall i :: 0 <= i < |GroupsOf(CauseOf, conclusions)| ==> GroupsOf(CauseOf, conclusions)[i].key != c) <==> Support(conclusions, c) == 0
  {
    if conclusions != [] {
      var n := |conclusions| - 1;
      var front := GroupsOf(CauseOf, conclusions[..n]);
      GroupsCountSupport(conclusions[..n], c);
      GroupsKeepItems(CauseOf, conclusions[..n]);
      var k := AddToGroupAt(CauseOf, front, conclusions[n]);
      var after := GroupsOf(CauseOf, conclusions);
      if k < |front| {
        assert forall i :: 0 <= i < |front| && i != k ==> after[i] == front[i];
        assert after[k].key == front[k].key && |after[k].items| == |front[k].items| + 1;
        assert HoldsKey(CauseOf, front[k]);
      } else {
        assert forall i :: 0 <= i < |front| ==> after[i] == front[i];
      }
    }
  }

  lemma BallotsMean(conclusions: seq<Finding>)
    ensures var ballots := Ballots(conclusions);
            && (forall i :: 0 <= i < |ballots| ==> |ballots[i].items| == Support(conclusions, ballots[i].key) > 0)
            && (forall c :: Support(conclusions, c) > 0 ==> exists i :: 0 <= i < |ballots| && ballots[i].key == c)
            && (forall i, j :: 0 <= i < j < |ballots| ==> ballots[i].key != ballots[j].key && |ballots[i].items| >= |ballots[j].items|)
  {
    var groups, ballots := GroupsOf(CauseOf, conclusions), Ballots(conclusions);
    GroupsKeepItems(CauseOf, conclusions);
    assert Distinct(groups);
    SortKeepsDistinct(MoreVotes, groups);
    SortIsSorted(MoreVotes, groups);
    assert TotalPreorder(MoreVotes);
    forall i | 0 <= i < |ballots| ensures |ballots[i].items| == Support(conclusions, ballots[i].key) > 0 {
      assert ballots[i] in groups;
      GroupsCountSupport(conclusions, ballots[i].key);
    }
    forall c | Support(conclusions, c) > 0 ensures exists i :: 0 <= i < |ballots| && ballots[i].key == c {
      GroupsCountSupport(conclusions, c);
      var i :| 0 <= i < |groups| && groups[i].key == c;
      assert groups[i] in ballots;
    }
    forall i, j | 0 <= i < j < |ballots| ensures ballots[i].key != ballots[j].key && |ballots[i].items| >= |ballots[j].items| {
      assert ballots[i] in groups && ballots[j] in groups && ballots[i] != ballots[j];
      assert MoreVotes(ballots[i], ballots[j]);
    }
  }

  /** At least two agents concluded `c`, and every other cause has fewer. */
  ghost predicate Wins(conclusions: seq<Finding>, c: Cause) {
    Support(conclusions, c) >= 2 && forall d :: d != c ==> Support(conclusions, d) < Support(conclusions, c)
  }

  lemma WinnerIsSelected(baseline: Hypothesis, conclusions: seq<Finding>, c: Cause)
    requires !ValidBaseline(baseline) && Wins(conclusions, c)
    ensures Selected(baseline, conclusions) == Some(c)
  {
    var ballots := Ballots(conclusions);
    BallotsMean(conclusions);
    var i :| 0 <= i < |ballots| && ballots[i].key == c;
    assert ballots[0].key == c;
    assert |ballots| > 1 ==> Support(conclusions, ballots[1].key) < Support(conclusions, c);
  }

  lemma SelectedWins(baseline: Hypothesis, conclusions: seq<Finding>, c: Cause)
    requires !ValidBaseline(baseline) && Selected(baseline, conclusions) == Some(c)
    ensures Wins(conclusions, c)
  {
    var ballots := Ballots(conclusions);
    BallotsMean(conclusions);
    forall d | d != c ensures Support(conclusions, d) < Support(conclusions, c) {
      if Support(conclusions, d) > 0 {
        var i :| 0 <= i < |ballots| && ballots[i].key == d;
        assert |ballots[1].items| < |ballots[0].items|;
        assert i > 1 ==> |ballots[i].items| <= |ballots[1].items|;
      }
    }
  }

  /** Without a valid baseline, the selected cause is exactly the one that wins. */
  lemma SelectedMeans(baseline: Hypothesis, conclusions: seq<Finding>, c: Cause)
    requires !ValidBaseline(baseline)
    ensures Selected(baseline, conclusions) == Some(c) <==> Wins(conclusions, c)
  {
    if Selected(baseline, conclusions) == Some(c) {
      SelectedWins(baseline, conclusions, c);
    }
    if Wins(conclusions, c) {
      WinnerIsSelected(baseline, conclusions, c);
    }
  }

  // ---------------------------------------------------------------- the decision

  predicate IsContradiction(f: Finding, c: Option<Cause>) {
    f.kind == Contradiction && f.cause == c
  }

  predicate Contradicted(active: seq<Finding>, c: Option<Cause>) {
    exists i :: 0 <= i < |active| && IsContradiction(active[i], c)
  }

  function Decide(baseline: Hypothesis, active: seq<Finding>, runCompleted: bool): Status {
    var conclusions := Conclusions(active);
    var causes := Causes(conclusions);
    var selected := Selected(baseline, conclusions);
    var contradicted := Contradicted(active, selected);
    if !runCompleted then Fallback
    else if ValidBaseline(baseline) then
      if contradicted || exists c :: c in causes && c != baseline.cause then Conflict
      else if baseline.cause in causes then Agreement
      else Fallback
    else if |causes| > 1 || contradicted then Conflict
    else if selected.Some? then AgentLeads
    else Fallback
  }

  /** The decision on all findings, active or not. */
  function DecideHybrid(baseline: Hypothesis, findings: seq<Finding>, runCompleted: bool): Result<Status> {
    match ActiveFindings(findings)
    case Err(error) => Err(error)
    case Ok(active) => Ok(Decide(baseline, active, runCompleted))
  }

  // ---------------------------------------------------------------- who is in conflict

  function Targets(baseline: Hypothesis, causes: set<Cause>): set<Cause> {
    causes + if ValidBaseline(baseline) then {baseline.cause} else {}
  }

  predicate Opposes(f: Finding, targets: set<Cause>) {
    f.kind == Contradiction && f.cause.Some? && f.cause.value in targets
  }

  /** The agents that one active finding puts in conflict. */
  function Implicates(conclusions: seq<Finding>, targets: set<Cause>, f: Finding): set<AgentName> {
    (if f.kind == Gap && f.blocking then {f.agent} else {})
    + (if Opposes(f, targets) then {f.agent} + set c | c in conclusions && c.cause == f.cause :: c.agent else {})
  }

  function Disagreeing(baseline: Hypothesis, conclusions: seq<Finding>): set<AgentName> {
    (if ValidBaseline(baseline) then set c | c in conclusions && CauseOf(c) != baseline.cause :: c.agent else {})
    + (if |Causes(conclusions)| > 1 then set c | c in conclusions :: c.agent else {})
  }

  function ImplicatedBy(conclusions: seq<Finding>, targets: set<Cause>, active: seq<Finding>): set<AgentName> {
    if active == [] then {}
    else ImplicatedBy(conclusions, targets, active[..|active| - 1]) + Implicates(conclusions, targets, active[|active| - 1])
  }

  function ConflictingAgents(baseline: Hypothesis, active: seq<Finding>): set<AgentName> {
    var conclusions := Conclusions(active);
    Disagreeing(baseline, conclusions) + ImplicatedBy(conclusions, Targets(baseline, Causes(conclusions)), active)
  }

  method FindConflicting(baseline: Hypothesis, active: seq<Finding>) returns (conflicting: set<AgentName>)
    ensures conflicting == ConflictingAgents(baseline, active)
  {
    var conclusions := CollectConclusions(active);
    var causes := Causes(conclusions);
    conflicting := {};
    if ValidBaseline(baseline) {
      conflicting := conflicting + set c | c in conclusions && CauseOf(c) != baseline.cause :: c.agent;
    }
    if |causes| > 1 {
      conflicting := conflicting + set c | c in conclusions :: c.agent;
    }
    conflicting := AddImplicated(conclusions, Targets(baseline, causes), active, conflicting);
  }

  method AddImplicated(conclusions: seq<Finding>, targets: set<Cause>, active: seq<Finding>, start: set<AgentName>) returns (conflicting: set<AgentName>)
    ensures conflicting == start + ImplicatedBy(conclusions, targets, active)
  {
    conflicting := start;
    for i := 0 to |active|
      invariant conflicting == start + ImplicatedBy(conclusions, targets, active[..i])
    {
      assert active[..i + 1][..i] == active[..i];
      var f := active[i];
      ghost var before := conflicting;
      if f.kind == Gap && f.blocking {
        conflicting := conflicting + {f.agent};
      }
      if Opposes(f, targets) {
        conflicting := conflicting + {f.agent} + set c | c in conclusions && c.cause == f.cause :: c.agent;
      }
      assert conflicting == before + Implicates(conclusions, targets, f);
    }
    assert active[..|active|] == active;
  }

  // ---------------------------------------------------------------- coherence

  lemma CauseIsConcluded(conclusions: seq<Finding>, c: Cause)
    ensures c in Causes(conclusions) <==> exists i :: 0 <= i < |conclusions| && CauseOf(conclusions[i]) == c
  {
  }

  ghost predicate AllConclude(conclusions: seq<Finding>, c: Cause) {
    conclusions != [] && forall f :: f in conclusions ==> CauseOf(f) == c
  }

  /** Agreement means exactly this: the run completed, the baseline is valid, the agents that
      concluded all concluded the baseline's cause, and nothing active contradicts it. */
  lemma AgreementMeans(baseline: Hypothesis, active: seq<Finding>, runCompleted: bool)
    ensures Decide(baseline, active, runCompleted) == Agreement
            <==> runCompleted && ValidBaseline(baseline) && AllConclude(Conclusions(active), baseline.cause)
                 && !Contradicted(active, Some(baseline.cause))
  {
    var conclusions := Conclusions(active);
    CauseIsConcluded(conclusions, baseline.cause);
    if Decide(baseline, active, runCompleted) == Agreement {
      forall f | f in conclusions ensures CauseOf(f) == baseline.cause {
        assert CauseOf(f) in Causes(conclusions);
      }
    }
    if AllConclude(conclusions, baseline.cause) {
      assert CauseOf(conclusions[0]) == baseline.cause;
    }
  }

  lemma {:induction false} SupportOfAll(conclusions: seq<Finding>, c: Cause, d: Cause)
    requires forall f :: f in conclusions ==> CauseOf(f) == c
    ensures Support(conclusions, c) == |conclusions|
    ensures d != c ==> Support(conclusions, d) == 0
  {
    if conclusions != [] {
      SupportOfAll(conclusions[..|conclusions| - 1], c, d);
    }
  }

  lemma {:induction false} SupportIsConcluded(conclusions: seq<Finding>, c: Cause)
    requires Support(conclusions, c) > 0
    ensures c in Causes(conclusions)
  {
    var n := |conclusions| - 1;
    if CauseOf(conclusions[n]) != c {
      SupportIsConcluded(conclusions[..n], c);
      assert Causes(conclusions[..n]) <= Causes(conclusions);
    } else {
      assert conclusions[n] in conclusions;
    }
  }

  lemma OneCause(causes: set<Cause>, c: Cause, d: Cause)
    requires |causes| <= 1 && c in causes && d in causes
    ensures c == d
  {
    assert |causes - {c}| == |causes| - 1;
    assert d != c ==> d in causes - {c};
  }

  /** The agents lead exactly when the run completed, the baseline is not valid, at least two
      agents concluded, all of them one cause, and nothing active contradicts that cause. */
  lemma AgentLeadsMeans(baseline: Hypothesis, active: seq<Finding>, runCompleted: bool, c: Cause)
    ensures Decide(baseline, active, runCompleted) == AgentLeads && Selected(baseline, Conclusions(active)) == Some(c)
            <==> runCompleted && !ValidBaseline(baseline) && AllConclude(Conclusions(active), c)
                 && |Conclusions(active)| >= 2 && !Contradicted(active, Some(c))
  {
    if runCompleted && !ValidBaseline(baseline) {
      if Decide(baseline, active, true) == AgentLeads && Selected(baseline, Conclusions(active)) == Some(c) {
        LeadersAgree(baseline, active, c);
      }
      if AllConclude(Conclusions(active), c) && |Conclusions(active)| >= 2 && !Contradicted(active, Some(c)) {
        AgreedLead(baseline, active, c);
      }
    }
  }

  lemma LeadersAgree(baseline: Hypothesis, active: seq<Finding>, c: Cause)
    requires !ValidBaseline(baseline) && Decide(baseline, active, true) == AgentLeads && Selected(baseline, Conclusions(active)) == Some(c)
    ensures AllConclude(Conclusions(active), c) && |Conclusions(active)| >= 2 && !Contradicted(active, Some(c))
  {
    var conclusions := Conclusions(active);
    SelectedWins(baseline, conclusions, c);
    SupportIsConcluded(conclusions, c);
    forall f | f in conclusions ensures CauseOf(f) == c {
      OneCause(Causes(conclusions), c, CauseOf(f));
    }
    SupportOfAll(conclusions, c, c);
  }

  lemma AgreedLead(baseline: Hypothesis, active: seq<Finding>, c: Cause)
    requires !ValidBaseline(baseline) && AllConclude(Conclusions(active), c)
    requires |Conclusions(active)| >= 2 && !Contradicted(active, Some(c))
    ensures Decide(baseline, active, true) == AgentLeads && Selected(baseline, Conclusions(active)) == Some(c)
  {
    var conclusions := Conclusions(active);
    forall d | d != c ensures Support(conclusions, d) < |conclusions| {
      SupportOfAll(conclusions, c, d);
    }
    SupportOfAll(conclusions, c, c);
    WinnerIsSelected(baseline, conclusions, c);
    assert Causes(conclusions) == {c} by {
      assert conclusions[0] in conclusions;
    }
  }

  // ---------------------------------------------------------------- conflict and its parties

  predicate BlockingGap(f: Finding) {
    f.kind == Gap && f.blocking
  }

  /** No baseline to disagree with, at most one concluded cause, no contradiction that names it
      and no blocking gap: a conflict that rests only on contradictions naming no cause. */
  ghost predicate Partyless(baseline: Hypothesis, active: seq<Finding>) {
    var causes := Causes(Conclusions(active));
    && !ValidBaseline(baseline) && |causes| <= 1
    && (forall i :: 0 <= i < |active| ==> !BlockingGap(active[i]) && !Opposes(active[i], causes))
  }

  lemma {:induction false} ImplicatedMeans(conclusions: seq<Finding>, targets: set<Cause>, active: seq<Finding>)
    ensures ImplicatedBy(conclusions, targets, active) == {}
            <==> forall i :: 0 <= i < |active| ==> !BlockingGap(active[i]) && !Opposes(active[i], targets)
  {
    if active != [] {
      var n := |active| - 1;
      ImplicatedMeans(conclusions, targets, active[..n]);
      assert Implicates(conclusions, targets, active[n]) == {} <==> !BlockingGap(active[n]) && !Opposes(active[n], targets) by {
        if BlockingGap(active[n]) || Opposes(active[n], targets) {
          assert active[n].agent in Implicates(conclusions, targets, active[n]);
        }
      }
    }
  }

  lemma NoConclusionsNoCauses(conclusions: seq<Finding>)
    ensures conclusions == [] ==> Causes(conclusions) == {}
  {
  }

  lemma SplitDisagrees(baseline: Hypothesis, conclusions: seq<Finding>)
    requires |Causes(conclusions)| > 1 || (ValidBaseline(baseline) && exists c :: c in Causes(conclusions) && c != baseline.cause)
    ensures Disagreeing(baseline, conclusions) != {}
  {
    if |Causes(conclusions)| > 1 {
      NoConclusionsNoCauses(conclusions);
      assert conclusions[0] in conclusions;
      assert conclusions[0].agent in Disagreeing(baseline, conclusions);
    } else {
      var c :| c in Causes(conclusions) && c != baseline.cause;
      var f :| f in conclusions && CauseOf(f) == c;
      assert f.agent in Disagreeing(baseline, conclusions);
    }
  }

  lemma ContradictedOpposes(active: seq<Finding>, c: Cause, targets: set<Cause>)
    requires Contradicted(active, Some(c)) && c in targets
    ensures !forall i :: 0 <= i < |active| ==> !BlockingGap(active[i]) && !Opposes(active[i], targets)
  {
    var i :| 0 <= i < |active| && IsContradiction(active[i], Some(c));
    assert Opposes(active[i], targets);
  }

  /** In a conflict, no agent is named exactly when the conflict is partyless. */
  lemma ConflictNamesAgents(baseline: Hypothesis, active: seq<Finding>, runCompleted: bool)
    requires Decide(baseline, active, runCompleted) == Conflict
    ensures ConflictingAgents(baseline, active) == {} <==> Partyless(baseline, active)
  {
    var conclusions := Conclusions(active);
    var causes := Causes(conclusions);
    ImplicatedMeans(conclusions, Targets(baseline, causes), active);
    if |causes| > 1 || (ValidBaseline(baseline) && exists c :: c in causes && c != baseline.cause) {
      SplitDisagrees(baseline, conclusions);
    } else if ValidBaseline(baseline) {
      ContradictedOpposes(active, baseline.cause, Targets(baseline, causes));
    } else {
      assert Disagreeing(baseline, conclusions) == {};
      assert Targets(baseline, causes) == causes;
    }
  }

  /** When every active contradiction names a cause, a conflict names an agent. */
  lemma NamedContradictionsNameAgents(baseline: Hypothesis, active: seq<Finding>, runCompleted: bool)
    requires Decide(baseline, active, runCompleted) == Conflict
    requires forall i :: 0 <= i < |active| && active[i].kind == Contradiction ==> active[i].cause.Some?
    ensures ConflictingAgents(baseline, active) != {}
  {
    var conclusions := Conclusions(active);
    ConflictNamesAgents(baseline, active, runCompleted);
    if !ValidBaseline(baseline) && |Causes(conclusions)| <= 1 {
      var selected := Selected(baseline, conclusions);
      assert selected.Some? by {
        assert Contradicted(active, selected);
      }
      SelectedWins(baseline, conclusions, selected.value);
      SupportIsConcluded(conclusions, selected.value);
      ContradictedOpposes(active, selected.value, Causes(conclusions));
    }
  }

  /** One contradiction that names no cause, and no valid baseline: a conflict without parties. */
  lemma NamelessContradictionConflicts()
    ensures var baseline := Hypothesis(UnknownCause, 0.0, [], []);
            var active := [Finding(1, 1, LOG, Contradiction, None, 0.9, [1], false, 0, true, 1, None)];
            Decide(baseline, active, true) == Conflict && ConflictingAgents(baseline, active) == {}
  {
    var baseline := Hypothesis(UnknownCause, 0.0, [], []);
    var active := [Finding(1, 1, LOG, Contradiction, None, 0.9, [1], false, 0, true, 1, None)];
    var none: seq<Finding> := [];
    assert active[..0] == none;
    assert Conclusions(active) == none;
    assert Causes(none) == {};
    assert Ballots(none) == [];
    assert IsContradiction(active[0], Selected(baseline, none));
    ConflictNamesAgents(baseline, active, true);
  }
}
