/** What one turn leaves in a run's records.
    Taking drafts records only failures for unusable output; closing the specialists adds one
    execution for each of them. So a turn is partial exactly when one of its records failed,
    and output beyond recovery leaves a failure that no later attempt resolves.
    RunAgreement builds the label of whole runs from these facts. */
module RunLabels {
  import opened AgentRun
  import opened Options
  import opened RunValidation
  import opened Vocabulary

  ghost predicate Named(c: CapturedDraft, a: AgentName) {
    ParseAgent(c.agentName) == Some(a)
  }

  ghost predicate Answered(seen: seq<CapturedDraft>, a: AgentName) {
    exists c :: c in seen && Named(c, a)
  }

  // ---------------------------------------------------------------- taking drafts

  /** Only failures for unusable output are recorded while drafts are taken. */
  ghost predicate IntakeRecords(base: RunState, x: Intake, p: Phase) {
    && base.executions <= x.state.executions
    && (forall k :: |base.executions| <= k < |x.state.executions| ==>
          var e := x.state.executions[k];
          e.status == Failed && e.category == InvalidOutput && e.round == p.round
          && e.attempt == p.attempt && e.step == p.specialistStep)
    && (x.invalidCaptured <==> |x.state.executions| > |base.executions|)
  }

  ghost predicate HasFinding(s: RunState, a: AgentName, round: nat) {
    exists f :: f in s.findings && f.agent == a && f.round == round
  }

  ghost predicate IntakeFindings(base: RunState, x: Intake, p: Phase) {
    && base.findings <= x.state.findings
    && (forall k :: |base.findings| <= k < |x.state.findings| ==>
          x.state.findings[k].round == p.round && x.state.findings[k].agent in x.captured)
    && (forall a :: a in x.captured ==> HasFinding(x.state, a, p.round))
  }

  ghost predicate IntakeNames(x: Intake, p: Phase, seen: seq<CapturedDraft>) {
    && x.returned == x.captured + x.invalid
    && x.invalidReference <= x.invalid
    && (forall a :: a in x.returned ==> a in p.requested && Answered(seen, a))
    && (forall a :: a in p.requested && Answered(seen, a) ==> a in x.returned)
  }

  ghost predicate IntakeInvariant(base: RunState, x: Intake, p: Phase, seen: seq<CapturedDraft>) {
    && IntakeRecords(base, x, p)
    && IntakeFindings(base, x, p)
    && IntakeNames(x, p, seen)
    && IntakeShows(x, p, seen)
  }

  /** When every specialist is requested, output beyond recovery leaves a mark on the intake. */
  ghost predicate IntakeShows(x: Intake, p: Phase, seen: seq<CapturedDraft>) {
    (forall a :: a in p.requested) && NonrecoverableOutput(seen) ==> x.invalidCaptured || x.invalid != {}
  }

  lemma AnsweredNext(seen: seq<CapturedDraft>, c: CapturedDraft, a: AgentName)
    ensures Answered(seen + [c], a) <==> Answered(seen, a) || Named(c, a)
  {
    if Answered(seen, a) {
      var d :| d in seen && Named(d, a);
      assert d in seen + [c];
    }
    if Named(c, a) {
      assert c in seen + [c];
    }
  }

  lemma NonrecoverableNext(seen: seq<CapturedDraft>, c: CapturedDraft)
    requires NonrecoverableOutput(seen + [c]) && !NonrecoverableOutput(seen)
    ensures ParseAgent(c.agentName).None? || Answered(seen, ParseAgent(c.agentName).value)
  {
    var all := seen + [c];
    assert forall i :: 0 <= i < |seen| ==> all[i] == seen[i];
    if ParseAgent(c.agentName).Some? {
      var i, j :| 0 <= i < j < |all| && ParseAgent(all[i].agentName) == ParseAgent(all[j].agentName);
      assert j == |seen|;
      assert Named(seen[i], ParseAgent(c.agentName).value);
    }
  }

  lemma TakeDraftRecords(base: RunState, x: Intake, c: CapturedDraft, p: Phase)
    requires IntakeRecords(base, x, p) && !TakeDraft(x, c, p).raised
    ensures IntakeRecords(base, TakeDraft(x, c, p), p)
  {
  }

  lemma TakeDraftFindings(base: RunState, x: Intake, c: CapturedDraft, p: Phase)
    requires IntakeFindings(base, x, p)
    ensures IntakeFindings(base, TakeDraft(x, c, p), p)
  {
    var y := TakeDraft(x, c, p);
    assert x.state.findings <= y.state.findings;
    forall a | a in y.captured ensures HasFinding(y.state, a, p.round) {
      if a in x.captured {
        var f :| f in x.state.findings && f.agent == a && f.round == p.round;
        assert f in y.state.findings;
      } else {
        assert y.state.findings[|x.state.findings|] in y.state.findings;
      }
    }
  }

  lemma SpecialistNames(x: Intake, c: CapturedDraft, a: AgentName, p: Phase)
    ensures var y := TakeSpecialistDraft(x, c, a, p);
            && y.returned == x.returned + {a}
            && ((y.captured == x.captured + {a} && y.invalid == x.invalid) || (y.captured == x.captured && y.invalid == x.invalid + {a}))
            && (y.invalidReference == x.invalidReference || (y.invalidReference == x.invalidReference + {a} && a in y.invalid))
            && y.invalidCaptured == x.invalidCaptured
  {
  }

  lemma TakeDraftNames(x: Intake, c: CapturedDraft, p: Phase, seen: seq<CapturedDraft>)
    requires IntakeNames(x, p, seen) && !TakeDraft(x, c, p).raised
    ensures IntakeNames(TakeDraft(x, c, p), p, seen + [c])
  {
    forall a ensures Answered(seen + [c], a) <==> Answered(seen, a) || Named(c, a) {
      AnsweredNext(seen, c, a);
    }
    var name := ParseAgent(c.agentName);
    if name.Some? && name.value in p.requested && name.value !in x.captured {
      SpecialistNames(x, c, name.value, p);
    }
  }

  lemma TakeDraftShows(x: Intake, c: CapturedDraft, p: Phase, seen: seq<CapturedDraft>)
    requires IntakeNames(x, p, seen) && IntakeShows(x, p, seen) && !TakeDraft(x, c, p).raised
    ensures IntakeShows(TakeDraft(x, c, p), p, seen + [c])
  {
    var name := ParseAgent(c.agentName);
    if NonrecoverableOutput(seen + [c]) && !NonrecoverableOutput(seen) {
      NonrecoverableNext(seen, c);
    }
    if name.Some? {
      SpecialistNames(x, c, name.value, p);
    }
  }

  lemma TakeDraftStep(base: RunState, x: Intake, c: CapturedDraft, p: Phase, seen: seq<CapturedDraft>)
    requires IntakeInvariant(base, x, p, seen)
    requires !TakeDraft(x, c, p).raised
    ensures IntakeInvariant(base, TakeDraft(x, c, p), p, seen + [c])
  {
    TakeDraftRecords(base, x, c, p);
    TakeDraftFindings(base, x, c, p);
    TakeDraftNames(x, c, p, seen);
    TakeDraftShows(x, c, p, seen);
  }

  lemma RaisedStays(x: Intake, drafts: seq<CapturedDraft>, p: Phase)
    requires x.raised
    ensures TakeDrafts(x, drafts, p) == x
  {
  }

  lemma {:induction false} TakeDraftsFacts(base: RunState, x: Intake, seen: seq<CapturedDraft>, drafts: seq<CapturedDraft>, p: Phase)
    requires !x.raised && IntakeInvariant(base, x, p, seen)
    ensures !TakeDrafts(x, drafts, p).raised ==> IntakeInvariant(base, TakeDrafts(x, drafts, p), p, seen + drafts)
    decreases |drafts|
  {
    if drafts == [] {
      assert seen + drafts == seen;
    } else {
      var y := TakeDraft(x, drafts[0], p);
      if y.raised {
        RaisedStays(y, drafts[1..], p);
      } else {
        TakeDraftStep(base, x, drafts[0], p, seen);
        assert (seen + [drafts[0]]) + drafts[1..] == seen + drafts;
        assert TakeDrafts(x, drafts, p) == TakeDrafts(y, drafts[1..], p);
        TakeDraftsFacts(base, y, seen + [drafts[0]], drafts[1..], p);
      }
    }
  }

  // ---------------------------------------------------------------- closing specialists

  ghost predicate ClosesAs(e: Execution, x: Intake, a: AgentName, p: Phase) {
    && e.agent == Label(a) && e.round == p.round && e.step == p.specialistStep && e.attempt == p.attempt
    && (e.status == Completed <==> HasFinding(x.state, a, p.round) && a !in x.invalid)
    && e.status != Skipped
    && e.category == (if e.status == Completed then NoFailure else SpecialistCategory(x, a))
  }

  lemma CloseOne(s: RunState, x: Intake, a: AgentName, p: Phase)
    requires s.findings == x.state.findings
    ensures var m := CloseSpecialist(s, x, a, p);
            && s.executions <= m.executions && m.findings == s.findings
            && |m.executions| == |s.executions| + 1 && ClosesAs(m.executions[|s.executions|], x, a, p)
  {
  }

  lemma {:induction false} CloseFacts(s: RunState, x: Intake, names: seq<AgentName>, p: Phase)
    requires s.findings == x.state.findings
    ensures var r := CloseSpecialists(s, x, names, p);
            && s.executions <= r.executions && r.findings == s.findings
            && |r.executions| == |s.executions| + |names|
            && forall k :: 0 <= k < |names| ==> ClosesAs(r.executions[|s.executions| + k], x, names[k], p)
    decreases |names|
  {
    if names != [] {
      var m := CloseSpecialist(s, x, names[0], p);
      CloseOne(s, x, names[0], p);
      CloseFacts(m, x, names[1..], p);
      var r := CloseSpecialists(s, x, names, p);
      assert r == CloseSpecialists(m, x, names[1..], p);
      forall k | 0 <= k < |names| ensures ClosesAs(r.executions[|s.executions| + k], x, names[k], p) {
        if k == 0 {
          assert r.executions[|s.executions|] == m.executions[|s.executions|];
        } else {
          assert names[1..][k - 1] == names[k];
          assert ClosesAs(r.executions[|m.executions| + (k - 1)], x, names[1..][k - 1], p);
        }
      }
    }
  }

  // ---------------------------------------------------------------- one turn

  /** The records one turn appended. */
  ghost function Appended(s: RunState, r: RunState): seq<Execution>
    requires s.executions <= r.executions
  {
    r.executions[|s.executions|..]
  }

  ghost predicate AnyFailed(xs: seq<Execution>) {
    exists e :: e in xs && e.status == Failed
  }

  ghost predicate FreshRound(s: RunState, p: Phase) {
    forall f :: f in s.findings ==> !(f.agent in p.requested && f.round == p.round)
  }

  ghost predicate FromTurn(e: Execution, p: Phase) {
    && e.round == p.round && e.attempt == p.attempt && e.status != Skipped
    && (e.step == p.specialistStep || (e.agent == COORDINATOR && e.step == p.coordinatorStep))
  }

  /** A failure put down to a missing specialist is either the coordinator's own reported
      category or a requested specialist that never answered. */
  ghost predicate MissingMeansSilent(e: Execution, t: Turn, p: Phase) {
    e.status == Failed && e.category == MissingSpecialist ==>
      || (e.agent == COORDINATOR && e.step == p.coordinatorStep && t.category == MissingSpecialist)
      || (exists a :: a in p.requested && e.agent == Label(a) && !Answered(t.drafts, a))
  }

  /** How the records of one turn are laid out: the coordinator's, one failure for every
      unusable draft, one for every requested specialist. */
  ghost predicate TurnLayout(s: RunState, x: Intake, r: RunState, t: Turn, p: Phase) {
    && |s.executions| < |x.state.executions|
    && |r.executions| == |x.state.executions| + |p.requested|
    && s.executions <= r.executions
    && r.findings == x.state.findings
    && IntakeFindings(s, x, p)
    && IntakeNames(x, p, t.drafts)
    && (x.invalidCaptured <==> |x.state.executions| > |s.executions| + 1)
    && (var c := r.executions[|s.executions|];
        c.agent == COORDINATOR && c.step == p.coordinatorStep && c.category == CoordinatorCategory(t)
        && c.round == p.round && c.attempt == p.attempt
        && c.status == (if CoordinatorSucceeds(t) then Completed else Failed))
    && (forall k :: |s.executions| < k < |x.state.executions| ==>
          var e := r.executions[k];
          e.status == Failed && e.category == InvalidOutput && e.round == p.round
          && e.attempt == p.attempt && e.step == p.specialistStep)
    && (forall k :: 0 <= k < |p.requested| ==> ClosesAs(r.executions[|x.state.executions| + k], x, p.requested[k], p))
    && ((forall a :: a in p.requested) && NonrecoverableOutput(t.drafts) ==> x.invalidCaptured || x.invalid != {})
  }

  lemma BuildLayout(s: RunState, base: RunState, x: Intake, r: RunState, t: Turn, p: Phase)
    requires p.recordCoordinator && base == RecordCoordinator(s, t, p)
    requires IntakeInvariant(base, x, p, t.drafts)
    requires x.state.executions <= r.executions && r.findings == x.state.findings
    requires |r.executions| == |x.state.executions| + |p.requested|
    requires forall k :: 0 <= k < |p.requested| ==> ClosesAs(r.executions[|x.state.executions| + k], x, p.requested[k], p)
    ensures TurnLayout(s, x, r, t, p)
  {
    assert r.executions[|s.executions|] == x.state.executions[|s.executions|] == base.executions[|s.executions|];
    assert forall k :: |s.executions| < k < |x.state.executions| ==> r.executions[k] == x.state.executions[k];
  }

  lemma IntakeIsRecorded(s: RunState, t: Turn, p: Phase, x: Intake)
    requires p.recordCoordinator && x == TakeDrafts(StartIntake(s, t, p), t.drafts, p) && !x.raised
    ensures IntakeInvariant(RecordCoordinator(s, t, p), x, p, t.drafts)
  {
    var x0 := StartIntake(s, t, p);
    TakeDraftsFacts(x0.state, x0, [], t.drafts, p);
    assert [] + t.drafts == t.drafts;
  }

  lemma ClosedLayout(s: RunState, t: Turn, p: Phase, x: Intake, r: RunState)
    requires p.recordCoordinator && IntakeInvariant(RecordCoordinator(s, t, p), x, p, t.drafts)
    requires r == CloseSpecialists(x.state, x, p.requested, p)
    ensures TurnLayout(s, x, r, t, p)
  {
    CloseFacts(x.state, x, p.requested, p);
    BuildLayout(s, RecordCoordinator(s, t, p), x, r, t, p);
  }

  lemma ConsumedParts(s: RunState, t: Turn, p: Phase, x: Intake)
    requires x == TakeDrafts(StartIntake(s, t, p), t.drafts, p) && !x.raised
    ensures Consumed(s, t, p).state == CloseSpecialists(x.state, x, p.requested, p)
    ensures Consumed(s, t, p).partial <==>
            !CoordinatorSucceeds(t) || x.invalid != {} || x.invalidCaptured || (set a | a in p.requested) != x.captured
  {
  }

  lemma ConsumedLayout(s: RunState, t: Turn, p: Phase) returns (x: Intake)
    requires p.recordCoordinator && !Consumed(s, t, p).raised
    ensures x == TakeDrafts(StartIntake(s, t, p), t.drafts, p)
    ensures TurnLayout(s, x, Consumed(s, t, p).state, t, p)
    ensures Consumed(s, t, p).partial <==>
            !CoordinatorSucceeds(t) || x.invalid != {} || x.invalidCaptured || (set a | a in p.requested) != x.captured
  {
    x := TakeDrafts(StartIntake(s, t, p), t.drafts, p);
    IntakeIsRecorded(s, t, p, x);
    ConsumedParts(s, t, p, x);
    ClosedLayout(s, t, p, x, Consumed(s, t, p).state);
  }

  lemma LayoutRecords(s: RunState, x: Intake, r: RunState, t: Turn, p: Phase)
    requires TurnLayout(s, x, r, t, p)
    ensures forall e :: e in Appended(s, r) ==> FromTurn(e, p) && MissingMeansSilent(e, t, p)
    ensures forall f :: f in r.findings ==> f in s.findings || f.round == p.round
  {
    forall e | e in Appended(s, r) ensures FromTurn(e, p) && MissingMeansSilent(e, t, p) {
      var k :| |s.executions| <= k < |r.executions| && r.executions[k] == e;
      if k >= |x.state.executions| {
        assert ClosesAs(e, x, p.requested[k - |x.state.executions|], p);
      }
    }
  }

  lemma CapturedHasFinding(s: RunState, x: Intake, r: RunState, t: Turn, p: Phase, a: AgentName)
    requires TurnLayout(s, x, r, t, p) && FreshRound(s, p) && a in p.requested
    ensures a in x.captured <==> HasFinding(x.state, a, p.round)
  {
    if HasFinding(x.state, a, p.round) {
      var k :| 0 <= k < |x.state.findings| && x.state.findings[k].agent == a && x.state.findings[k].round == p.round;
      assert forall j :: 0 <= j < |s.findings| ==> s.findings[j] in s.findings && x.state.findings[j] == s.findings[j];
    }
  }

  lemma LayoutFailure(s: RunState, x: Intake, r: RunState, t: Turn, p: Phase)
    requires TurnLayout(s, x, r, t, p) && FreshRound(s, p)
    requires !CoordinatorSucceeds(t) || x.invalid != {} || x.invalidCaptured || (set a | a in p.requested) != x.captured
    ensures AnyFailed(Appended(s, r))
  {
    var n := |s.executions|;
    var at := n;
    if CoordinatorSucceeds(t) {
      if x.invalidCaptured {
        at := n + 1;
      } else {
        at := SpecialistFailure(s, x, r, t, p);
      }
    }
    assert r.executions[at].status == Failed;
    assert r.executions[at] == Appended(s, r)[at - n];
  }

  lemma SpecialistFailure(s: RunState, x: Intake, r: RunState, t: Turn, p: Phase) returns (at: nat)
    requires TurnLayout(s, x, r, t, p) && FreshRound(s, p)
    requires x.invalid != {} || (set a | a in p.requested) != x.captured
    ensures |s.executions| <= at < |r.executions| && r.executions[at].status == Failed
  {
    var k := UnansweredPlace(x, p);
    at := |x.state.executions| + k;
    UnansweredFails(s, x, r, t, p, k);
  }

  /** A requested specialist that is invalid or not captured. */
  lemma UnansweredPlace(x: Intake, p: Phase) returns (k: nat)
    requires x.captured + x.invalid <= set a | a in p.requested
    requires x.invalid != {} || (set a | a in p.requested) != x.captured
    ensures k < |p.requested| && (p.requested[k] in x.invalid || p.requested[k] !in x.captured)
  {
    var requested := set a | a in p.requested;
    var a :| a in requested && (a in x.invalid || a !in x.captured);
    k :| 0 <= k < |p.requested| && p.requested[k] == a;
  }

  lemma UnansweredFails(s: RunState, x: Intake, r: RunState, t: Turn, p: Phase, k: nat)
    requires TurnLayout(s, x, r, t, p) && FreshRound(s, p)
    requires k < |p.requested| && (p.requested[k] in x.invalid || p.requested[k] !in x.captured)
    ensures |s.executions| <= |x.state.executions| + k < |r.executions| && r.executions[|x.state.executions| + k].status == Failed
  {
    CapturedHasFinding(s, x, r, t, p, p.requested[k]);
    assert ClosesAs(r.executions[|x.state.executions| + k], x, p.requested[k], p);
  }

  lemma LayoutSuccess(s: RunState, x: Intake, r: RunState, t: Turn, p: Phase)
    requires TurnLayout(s, x, r, t, p) && FreshRound(s, p)
    requires CoordinatorSucceeds(t) && x.invalid == {} && !x.invalidCaptured && (set a | a in p.requested) == x.captured
    ensures !AnyFailed(Appended(s, r))
  {
    forall e | e in Appended(s, r) ensures e.status != Failed {
      var k :| |s.executions| <= k < |r.executions| && r.executions[k] == e;
      if k > |s.executions| {
        var a := p.requested[k - |x.state.executions|];
        CapturedHasFinding(s, x, r, t, p, a);
        assert ClosesAs(e, x, a, p);
      }
    }
  }

  /** The flag a turn returns is exactly "this turn recorded a failure". */
  lemma PartialMeansFailed(s: RunState, t: Turn, p: Phase)
    requires p.recordCoordinator && !Consumed(s, t, p).raised && FreshRound(s, p)
    ensures s.executions <= Consumed(s, t, p).state.executions
    ensures Consumed(s, t, p).partial <==> AnyFailed(Appended(s, Consumed(s, t, p).state))
  {
    var x := ConsumedLayout(s, t, p);
    var r := Consumed(s, t, p).state;
    if Consumed(s, t, p).partial {
      LayoutFailure(s, x, r, t, p);
    } else {
      LayoutSuccess(s, x, r, t, p);
    }
  }

  ghost predicate HardFailure(e: Execution, p: Phase) {
    e.status == Failed && e.category != MissingSpecialist && e.round == p.round && e.attempt == p.attempt
  }

  lemma InvalidIsHard(e: Execution, x: Intake, a: AgentName, p: Phase)
    requires ClosesAs(e, x, a, p) && a in x.invalid
    ensures HardFailure(e, p)
  {
  }

  lemma LayoutHardFailure(s: RunState, x: Intake, r: RunState, t: Turn, p: Phase) returns (e: Execution)
    requires TurnLayout(s, x, r, t, p)
    requires x.invalidCaptured || x.invalid != {}
    ensures e in Appended(s, r) && HardFailure(e, p)
  {
    if x.invalidCaptured {
      e := r.executions[|s.executions| + 1];
      assert e == Appended(s, r)[1];
    } else {
      var a :| a in x.invalid;
      assert a in x.returned;
      var k :| 0 <= k < |p.requested| && p.requested[k] == a;
      e := r.executions[|x.state.executions| + k];
      InvalidIsHard(e, x, p.requested[k], p);
      assert e == Appended(s, r)[|x.state.executions| + k - |s.executions|];
    }
  }

  /** Output that recollection cannot repair always leaves a failure of another category. */
  lemma NonrecoverableLeavesFailure(s: RunState, t: Turn, p: Phase) returns (e: Execution)
    requires p.recordCoordinator && !Consumed(s, t, p).raised
    requires NonrecoverableOutput(t.drafts) && forall a :: a in p.requested
    ensures s.executions <= Consumed(s, t, p).state.executions
    ensures e in Appended(s, Consumed(s, t, p).state) && HardFailure(e, p)
  {
    var x := ConsumedLayout(s, t, p);
    e := LayoutHardFailure(s, x, Consumed(s, t, p).state, t, p);
  }
}
