/** Turns in which nothing goes wrong except that a specialist may stay silent.
    Whether a turn is clean can be read off its drafts. A turn leaves no failures but missing
    specialists (and perhaps its coordinator) exactly when it is clean, and a clean turn's
    records are known one by one.
    RunMasks uses this to say which inputs lead to a masked run. */
module CleanTurns {
  import opened AgentRun
  import opened Options
  import opened RunLabels
  import opened Vocabulary

  /** The draft of a requested specialist that the turn can admit. */
  ghost predicate Usable(c: CapturedDraft, p: Phase) {
    var name := ParseAgent(c.agentName);
    && name.Some? && name.value in p.requested
    && c.round == p.round && c.draft.Some?
    && (forall e :: e in c.draft.value.evidence ==> e in p.allowed(name.value))
    && !NamesNoCause(c.draft.value) && FindingAccepts(c.draft.value)
  }

  /** Every draft is usable and no specialist answers twice. */
  ghost predicate Clean(drafts: seq<CapturedDraft>, p: Phase) {
    !NonrecoverableOutput(drafts) && forall k :: 0 <= k < |drafts| ==> Usable(drafts[k], p)
  }

  ghost predicate Unmarked(x: Intake) {
    x.invalid == {} && !x.invalidCaptured && !x.raised
  }

  ghost predicate NotYet(x: Intake, drafts: seq<CapturedDraft>) {
    forall a :: a in x.captured ==> !Answered(drafts, a)
  }

  /** A second-round draft revises a first-round finding, so there must be one. */
  ghost predicate Ready(s: RunState, p: Phase) {
    p.round == 2 ==> forall a :: a in p.requested ==> FirstFinding(s.findings, a, 1).Some?
  }

  // ---------------------------------------------------------------- drafts one by one

  lemma AnsweredFront(drafts: seq<CapturedDraft>, a: AgentName)
    requires drafts != []
    ensures Answered(drafts, a) <==> Named(drafts[0], a) || Answered(drafts[1..], a)
  {
    if Answered(drafts, a) {
      var c :| c in drafts && Named(c, a);
      assert c == drafts[0] || c in drafts[1..];
    }
  }

  lemma RecoverableFront(drafts: seq<CapturedDraft>)
    requires drafts != []
    ensures !NonrecoverableOutput(drafts) <==>
            !NonrecoverableOutput(drafts[1..]) && ParseAgent(drafts[0].agentName).Some?
            && !Answered(drafts[1..], ParseAgent(drafts[0].agentName).value)
  {
    var rest, name := drafts[1..], ParseAgent(drafts[0].agentName);
    assert forall k :: 0 <= k < |rest| ==> rest[k] == drafts[k + 1];
    if NonrecoverableOutput(rest) {
      if i :| 0 <= i < |rest| && ParseAgent(rest[i].agentName).None? {
        assert drafts[i + 1] == rest[i];
      } else {
        var i, j :| 0 <= i < j < |rest| && ParseAgent(rest[i].agentName) == ParseAgent(rest[j].agentName);
        assert ParseAgent(drafts[i + 1].agentName) == ParseAgent(drafts[j + 1].agentName);
      }
    }
    if name.Some? && Answered(rest, name.value) {
      var c :| c in rest && Named(c, name.value);
      var k :| 0 <= k < |rest| && rest[k] == c;
      assert ParseAgent(drafts[0].agentName) == ParseAgent(drafts[k + 1].agentName);
    }
    if NonrecoverableOutput(drafts) && name.Some? && !Answered(rest, name.value) {
      if i :| 0 <= i < |drafts| && ParseAgent(drafts[i].agentName).None? {
        assert rest[i - 1] == drafts[i];
      } else {
        var i, j :| 0 <= i < j < |drafts| && ParseAgent(drafts[i].agentName) == ParseAgent(drafts[j].agentName);
        assert Named(rest[j - 1], ParseAgent(drafts[j].agentName).value);
        assert i > 0 && ParseAgent(rest[i - 1].agentName) == ParseAgent(rest[j - 1].agentName);
      }
    }
  }

  /** What the findings of a clean first-round turn are, given the next fresh identifier. */
  ghost function Admitted(drafts: seq<CapturedDraft>, id: nat): seq<Finding> {
    if drafts == [] then []
    else
      var name := ParseAgent(drafts[0].agentName);
      (if name.Some? && drafts[0].draft.Some? then [FindingOf(id, name.value, drafts[0].draft.value, 1, None)] else [])
      + Admitted(drafts[1..], id + 1)
  }

  lemma TakeUsable(x: Intake, c: CapturedDraft, p: Phase)
    requires Unmarked(x) && Ready(x.state, p) && Usable(c, p) && ParseAgent(c.agentName).value !in x.captured
    ensures var a, y := ParseAgent(c.agentName).value, TakeDraft(x, c, p);
            && Unmarked(y) && y.captured == x.captured + {a}
            && y.state.executions == x.state.executions && y.state.next == x.state.next + 1
            && (p.round == 1 ==> y.state.findings == x.state.findings + [FindingOf(x.state.next, a, c.draft.value, 1, None)])
            && Ready(y.state, p)
  {
    var y := TakeDraft(x, c, p);
    assert x.state.findings <= y.state.findings;
    if p.round == 2 {
      forall a | a in p.requested ensures FirstFinding(y.state.findings, a, 1).Some? {
        FirstFindingStays(x.state.findings, y.state.findings, a, 1);
      }
    }
  }

  lemma FirstFindingStays(fs: seq<Finding>, gs: seq<Finding>, a: AgentName, round: nat)
    requires fs <= gs && FirstFinding(fs, a, round).Some?
    ensures FirstFinding(gs, a, round).Some?
  {
    assert FirstFinding(fs, a, round).value in gs;
  }

  ghost predicate TookClean(x: Intake, y: Intake, drafts: seq<CapturedDraft>, p: Phase) {
    && Unmarked(y)
    && y.state.executions == x.state.executions && y.state.next == x.state.next + |drafts|
    && (p.round == 1 ==> y.state.findings == x.state.findings + Admitted(drafts, x.state.next))
  }

  lemma NotYetNext(x: Intake, y: Intake, drafts: seq<CapturedDraft>)
    requires drafts != [] && !NonrecoverableOutput(drafts) && NotYet(x, drafts)
    requires ParseAgent(drafts[0].agentName).Some? && y.captured == x.captured + {ParseAgent(drafts[0].agentName).value}
    ensures NotYet(y, drafts[1..]) && ParseAgent(drafts[0].agentName).value !in x.captured
  {
    RecoverableFront(drafts);
    assert Named(drafts[0], ParseAgent(drafts[0].agentName).value);
    forall b ensures Answered(drafts, b) <==> Named(drafts[0], b) || Answered(drafts[1..], b) {
      AnsweredFront(drafts, b);
    }
  }

  lemma TookOneMore(x: Intake, y: Intake, z: Intake, drafts: seq<CapturedDraft>, p: Phase)
    requires drafts != [] && ParseAgent(drafts[0].agentName).Some? && drafts[0].draft.Some?
    requires y.state.executions == x.state.executions && y.state.next == x.state.next + 1
    requires var f := FindingOf(x.state.next, ParseAgent(drafts[0].agentName).value, drafts[0].draft.value, 1, None);
             p.round == 1 ==> y.state.findings == x.state.findings + [f]
    requires TookClean(y, z, drafts[1..], p)
    ensures TookClean(x, z, drafts, p)
  {
  }

  lemma {:induction false} TakeClean(x: Intake, drafts: seq<CapturedDraft>, p: Phase)
    requires Unmarked(x) && Ready(x.state, p) && Clean(drafts, p) && NotYet(x, drafts)
    ensures TookClean(x, TakeDrafts(x, drafts, p), drafts, p)
    decreases |drafts|
  {
    if drafts != [] {
      var a, y := ParseAgent(drafts[0].agentName).value, TakeDraft(x, drafts[0], p);
      assert Usable(drafts[0], p);
      NotYetNext(x, x.(captured := x.captured + {a}), drafts);
      TakeUsable(x, drafts[0], p);
      NotYetNext(x, y, drafts);
      RecoverableFront(drafts);
      TakeClean(y, drafts[1..], p);
      TookOneMore(x, y, TakeDrafts(y, drafts[1..], p), drafts, p);
    }
  }

  /** A mark left on the intake stays. */
  lemma {:induction false} MarksStay(x: Intake, drafts: seq<CapturedDraft>, p: Phase)
    requires Unmarked(TakeDrafts(x, drafts, p))
    ensures Unmarked(x)
    decreases |drafts|
  {
    if drafts != [] && !x.raised {
      MarksStay(TakeDraft(x, drafts[0], p), drafts[1..], p);
      TakeDraftMarks(x, drafts[0], p);
    }
  }

  lemma TakeDraftMarks(x: Intake, c: CapturedDraft, p: Phase)
    requires Unmarked(TakeDraft(x, c, p))
    ensures x.raised || (Unmarked(x) && Usable(c, p) && ParseAgent(c.agentName).value !in x.captured
            && TakeDraft(x, c, p).captured == x.captured + {ParseAgent(c.agentName).value})
  {
  }

  /** An intake without marks took clean drafts only. */
  lemma {:induction false} UnmarkedTookClean(x: Intake, drafts: seq<CapturedDraft>, p: Phase)
    requires Unmarked(TakeDrafts(x, drafts, p))
    ensures Clean(drafts, p) && NotYet(x, drafts)
    decreases |drafts|
  {
    if drafts != [] {
      MarksStay(x, drafts, p);
      var y := TakeDraft(x, drafts[0], p);
      MarksStay(y, drafts[1..], p);
      TakeDraftMarks(x, drafts[0], p);
      UnmarkedTookClean(y, drafts[1..], p);
      RecoverableFront(drafts);
      forall b ensures Answered(drafts, b) <==> Named(drafts[0], b) || Answered(drafts[1..], b) {
        AnsweredFront(drafts, b);
      }
    }
  }

  // ---------------------------------------------------------------- the records of a clean turn

  /** The coordinator's record, then one for every requested specialist, missing if silent. */
  ghost predicate Orderly(added: seq<Execution>, t: Turn, p: Phase) {
    && |added| == 1 + |p.requested|
    && (var c := added[0];
        c.agent == COORDINATOR && c.step == p.coordinatorStep && c.round == p.round && c.attempt == p.attempt
        && c.status == (if CoordinatorSucceeds(t) then Completed else Failed) && c.category == CoordinatorCategory(t))
    && (forall k :: 0 <= k < |p.requested| ==> AnsweredAs(added[1 + k], t, p, p.requested[k]))
  }

  ghost predicate AnsweredAs(e: Execution, t: Turn, p: Phase, a: AgentName) {
    && e.agent == Label(a) && e.step == p.specialistStep && e.round == p.round && e.attempt == p.attempt
    && e.status == (if Answered(t.drafts, a) then Completed else Failed)
    && e.category == (if Answered(t.drafts, a) then NoFailure else MissingSpecialist)
  }

  lemma UnmarkedLayout(s: RunState, x: Intake, r: RunState, t: Turn, p: Phase)
    requires TurnLayout(s, x, r, t, p) && FreshRound(s, p) && Unmarked(x)
    ensures Orderly(Appended(s, r), t, p)
    ensures forall a :: a in p.requested ==> (HasFinding(r, a, p.round) <==> Answered(t.drafts, a))
  {
    var added := Appended(s, r);
    forall k | 0 <= k < |p.requested| ensures AnsweredAs(added[1 + k], t, p, p.requested[k]) {
      assert added[1 + k] == r.executions[|x.state.executions| + k];
      CapturedHasFinding(s, x, r, t, p, p.requested[k]);
      assert ClosesAs(added[1 + k], x, p.requested[k], p);
    }
    forall a | a in p.requested ensures HasFinding(r, a, p.round) <==> Answered(t.drafts, a) {
      CapturedHasFinding(s, x, r, t, p, a);
    }
  }

  lemma {:induction false} CloseCounts(s: RunState, x: Intake, names: seq<AgentName>, p: Phase)
    ensures CloseSpecialists(s, x, names, p).next == s.next + 2 * |names|
    decreases |names|
  {
    if names != [] {
      CloseCounts(CloseSpecialist(s, x, names[0], p), x, names[1..], p);
    }
  }

  /** What a clean turn leaves behind: its records and, in the first round, its findings. */
  ghost predicate LeftOrderly(s: RunState, c: Consumption, t: Turn, p: Phase) {
    && !c.raised && s.executions <= c.state.executions && Orderly(Appended(s, c.state), t, p)
    && (forall a :: a in p.requested ==> (HasFinding(c.state, a, p.round) <==> Answered(t.drafts, a)))
    && (p.round == 1 ==>
          c.state.findings == s.findings + Admitted(t.drafts, s.next + 2)
          && c.state.next == s.next + 2 + |t.drafts| + 2 * |p.requested|)
  }

  lemma CleanIntake(s: RunState, t: Turn, p: Phase, x: Intake)
    requires p.recordCoordinator && Clean(t.drafts, p) && Ready(s, p)
    requires x == TakeDrafts(StartIntake(s, t, p), t.drafts, p)
    ensures Unmarked(x) && x.state.next == s.next + 2 + |t.drafts|
    ensures p.round == 1 ==> x.state.findings == s.findings + Admitted(t.drafts, s.next + 2)
  {
    var x0 := StartIntake(s, t, p);
    assert NotYet(x0, t.drafts) && Unmarked(x0) && Ready(x0.state, p);
    TakeClean(x0, t.drafts, p);
  }

  lemma CleanIsOrderly(s: RunState, t: Turn, p: Phase)
    requires p.recordCoordinator && Clean(t.drafts, p) && Ready(s, p) && FreshRound(s, p)
    ensures LeftOrderly(s, Consumed(s, t, p), t, p)
  {
    var x := TakeDrafts(StartIntake(s, t, p), t.drafts, p);
    CleanIntake(s, t, p, x);
    ConsumedParts(s, t, p, x);
    IntakeIsRecorded(s, t, p, x);
    UnmarkedIsOrderly(s, t, p, x, Consumed(s, t, p));
  }

  lemma UnmarkedIsOrderly(s: RunState, t: Turn, p: Phase, x: Intake, c: Consumption)
    requires p.recordCoordinator && FreshRound(s, p) && IntakeInvariant(RecordCoordinator(s, t, p), x, p, t.drafts)
    requires !c.raised && c.state == CloseSpecialists(x.state, x, p.requested, p)
    requires Unmarked(x) && x.state.next == s.next + 2 + |t.drafts|
    requires p.round == 1 ==> x.state.findings == s.findings + Admitted(t.drafts, s.next + 2)
    ensures LeftOrderly(s, c, t, p)
  {
    ClosedLayout(s, t, p, x, c.state);
    UnmarkedLayout(s, x, c.state, t, p);
    CloseCounts(x.state, x, p.requested, p);
  }

  ghost predicate OnlyMissing(xs: seq<Execution>) {
    forall e :: e in xs && e.status == Failed ==> e.category == MissingSpecialist
  }

  /** A turn whose failures are all put down to missing specialists was clean. */
  lemma OnlyMissingIsClean(s: RunState, t: Turn, p: Phase)
    requires p.recordCoordinator && !Consumed(s, t, p).raised
    requires s.executions <= Consumed(s, t, p).state.executions && OnlyMissing(Appended(s, Consumed(s, t, p).state))
    ensures Clean(t.drafts, p)
  {
    var x := ConsumedLayout(s, t, p);
    if x.invalidCaptured || x.invalid != {} {
      MarkedLeavesFault(s, x, Consumed(s, t, p).state, t, p);
    }
    UnmarkedTookClean(StartIntake(s, t, p), t.drafts, p);
  }

  lemma MarkedLeavesFault(s: RunState, x: Intake, r: RunState, t: Turn, p: Phase)
    requires TurnLayout(s, x, r, t, p) && (x.invalidCaptured || x.invalid != {})
    ensures !OnlyMissing(Appended(s, r))
  {
    if x.invalidCaptured {
      FaultAt(s, r, |s.executions| + 1);
    } else {
      var k := InvalidPlace(x, p);
      InvalidCloses(r.executions[|x.state.executions| + k], x, p.requested[k], p);
      FaultAt(s, r, |x.state.executions| + k);
    }
  }

  lemma InvalidPlace(x: Intake, p: Phase) returns (k: nat)
    requires x.invalid != {} && x.invalid <= set a | a in p.requested
    ensures k < |p.requested| && p.requested[k] in x.invalid
  {
    var a :| a in x.invalid;
    assert a in (set b | b in p.requested);
    k :| 0 <= k < |p.requested| && p.requested[k] == a;
  }

  lemma InvalidCloses(e: Execution, x: Intake, a: AgentName, p: Phase)
    requires ClosesAs(e, x, a, p) && a in x.invalid
    ensures e.status == Failed && e.category != MissingSpecialist
  {
  }

  lemma FaultAt(s: RunState, r: RunState, at: nat)
    requires s.executions <= r.executions && |s.executions| <= at < |r.executions|
    requires r.executions[at].status == Failed && r.executions[at].category != MissingSpecialist
    ensures !OnlyMissing(Appended(s, r))
  {
    assert r.executions[at] == Appended(s, r)[at - |s.executions|];
  }
}
