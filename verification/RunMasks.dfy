/** When the label of a run and the orchestrator's table disagree, said of the run's inputs. */
module RunMasks {
  import opened AgentRun
  import opened CleanTurns
  import opened Options
  import opened RunAgreement
  import opened RunLabels
  import opened RunValidation
  import opened Vocabulary

  // ---------------------------------------------------------------- what the turns say

  ghost function Silent(drafts: seq<CapturedDraft>, names: seq<AgentName>): (r: seq<AgentName>)
    ensures forall a :: a in r <==> a in names && !Answered(drafts, a)
  {
    if names == [] then []
    else (if Answered(drafts, names[0]) then [] else [names[0]]) + Silent(drafts, names[1..])
  }

  ghost predicate TurnsReturned(i: RunInput) {
    && i.first.Returned? && i.recollected.Returned? && i.synthesis.Returned?
    && !i.first.turn.cancelled && !i.recollected.turn.cancelled && !i.synthesis.turn.cancelled
  }

  /** The specialists the opening turn does not name. */
  ghost function Late(i: RunInput): seq<AgentName>
    requires i.first.Returned?
  {
    Silent(i.first.turn.drafts, ALL_AGENTS)
  }

  ghost function Opening(i: RunInput): Phase {
    FirstPhase(i, false)
  }

  ghost function Recollection(i: RunInput): Phase
    requires i.first.Returned?
  {
    RecollectPhase(i, Late(i), false)
  }

  /** The findings of two clean attempts; identifiers count coordinators, findings and specialists. */
  ghost function Heard(i: RunInput): seq<Finding>
    requires TurnsReturned(i)
  {
    var drafts := i.first.turn.drafts;
    Admitted(drafts, 2) + Admitted(i.recollected.turn.drafts, 10 + |drafts|)
  }

  /** The specialists the last turn asks again. */
  ghost function Asked(i: RunInput): seq<AgentName>
    requires TurnsReturned(i)
  {
    var names := i.conflicting(Heard(i));
    if names.None? then [] else Selected(names.value, ALL_AGENTS)
  }

  ghost function Synthesis(i: RunInput): Phase
    requires TurnsReturned(i)
  {
    SynthesisPhase(i, Asked(i), false)
  }

  /** The opening turn is clean but for silence, and the second attempt reaches every late specialist. */
  ghost predicate Repaired(i: RunInput)
    requires TurnsReturned(i)
  {
    && i.first.turn.error.None? && Clean(i.first.turn.drafts, Opening(i)) && Late(i) != []
    && CoordinatorSucceeds(i.recollected.turn) && Clean(i.recollected.turn.drafts, Recollection(i))
    && forall a :: a in Late(i) ==> Answered(i.recollected.turn.drafts, a)
  }

  /** The last turn proposes, nothing it says is unusable, and the review is built. */
  ghost predicate Concluded(i: RunInput)
    requires TurnsReturned(i)
  {
    && i.conflicting(Heard(i)).Some? && CoordinatorSucceeds(i.synthesis.turn)
    && Clean(i.synthesis.turn.drafts, Synthesis(i)) && !i.reviewRaises
  }

  ghost predicate Unnamed(i: RunInput, a: AgentName)
    requires TurnsReturned(i)
  {
    a in Asked(i) && !Answered(i.synthesis.turn.drafts, a)
  }

  /** Some specialist asked in the second round is silent, and only repaired ones are. */
  ghost predicate SecondSilence(i: RunInput) {
    && TurnsReturned(i) && Repaired(i) && Concluded(i)
    && i.first.turn.proposal
    && (exists a :: Unnamed(i, a))
    && (forall a :: Unnamed(i, a) ==> a in Late(i))
  }

  /** The opening coordinator files its own failure as a missing specialist; all else goes well. */
  ghost predicate OpeningMiss(i: RunInput) {
    && TurnsReturned(i) && Repaired(i) && Concluded(i)
    && !i.first.turn.proposal && i.first.turn.category == MissingSpecialist
    && (forall a :: !Unnamed(i, a))
  }

  // ---------------------------------------------------------------- three orderly turns

  ghost predicate OrderlyRun(i: RunInput, first: seq<Execution>, second: seq<Execution>, last: seq<Execution>)
    requires TurnsReturned(i)
  {
    && Orderly(first, i.first.turn, Opening(i))
    && Orderly(second, i.recollected.turn, Recollection(i))
    && Orderly(last, i.synthesis.turn, Synthesis(i))
  }

  /** A failure of an orderly turn is the coordinator's or that of a silent specialist. */
  ghost predicate FailsAs(e: Execution, added: seq<Execution>, t: Turn, p: Phase)
    requires added != []
  {
    || (e == added[0] && !CoordinatorSucceeds(t))
    || (exists a :: a in p.requested && !Answered(t.drafts, a) && AnsweredAs(e, t, p, a))
  }

  lemma OrderlyFailures(added: seq<Execution>, t: Turn, p: Phase)
    requires Orderly(added, t, p)
    ensures added[0] in added
    ensures forall e :: e in added && e.status == Failed ==> FailsAs(e, added, t, p)
    ensures forall a :: a in p.requested ==> exists e :: e in added && AnsweredAs(e, t, p, a)
  {
    forall e | e in added && e.status == Failed ensures FailsAs(e, added, t, p) {
      var k :| 0 <= k < |added| && added[k] == e;
      if k > 0 {
        assert AnsweredAs(added[1 + (k - 1)], t, p, p.requested[k - 1]);
      }
    }
    forall a | a in p.requested ensures exists e :: e in added && AnsweredAs(e, t, p, a) {
      var k :| 0 <= k < |p.requested| && p.requested[k] == a;
      assert added[1 + k] in added;
    }
  }

  lemma LabelsDiffer(a: AgentName, b: AgentName)
    ensures Label(a) == Label(b) ==> a == b
    ensures Label(a) != COORDINATOR
  {
    assert Label(a)[0] != COORDINATOR[0];
    assert Label(a)[0] == Label(b)[0] ==> a == b;
  }

  /** Who counts as recovered: the specialists the second attempt reached, and its coordinator. */
  lemma RecoveredMeans(i: RunInput, first: seq<Execution>, second: seq<Execution>, last: seq<Execution>)
    requires TurnsReturned(i) && OrderlyRun(i, first, second, last)
    ensures forall agent :: DriverRecovered(first + second + last, agent) <==> Recovered(first + second + last, agent)
    ensures forall a :: Recovered(first + second + last, Label(a)) <==> a in Late(i) && Answered(i.recollected.turn.drafts, a)
    ensures Recovered(first + second + last, COORDINATOR) <==> CoordinatorSucceeds(i.recollected.turn)
  {
    var xs, t := first + second + last, i.recollected.turn;
    OrderlyFailures(second, t, Recollection(i));
    forall e | e in xs && e.attempt == 2
      ensures e in second && e.round == 1
    {
      AttemptTwo(i, first, second, last, e);
    }
    assert second[0] in xs;
    forall a ensures Recovered(xs, Label(a)) <==> a in Late(i) && Answered(t.drafts, a) {
      if Recovered(xs, Label(a)) {
        var e :| e in xs && e.attempt == 2 && e.step == SpecialistRecollection && e.status == Completed && e.agent == Label(a);
        RecoveredSpecialist(second, t, Recollection(i), e, a);
      } else if a in Late(i) {
        var e :| e in second && AnsweredAs(e, t, Recollection(i), a);
        assert e in xs;
      }
    }
    if Recovered(xs, COORDINATOR) {
      var e :| e in xs && e.attempt == 2 && e.step == SpecialistRecollection && e.status == Completed && e.agent == COORDINATOR;
      RecoveredCoordinator(second, t, Recollection(i), e);
    }
  }

  lemma AttemptTwo(i: RunInput, first: seq<Execution>, second: seq<Execution>, last: seq<Execution>, e: Execution)
    requires TurnsReturned(i) && OrderlyRun(i, first, second, last)
    requires e in first + second + last && e.attempt == 2
    ensures e in second && e.round == 1
  {
    AllOfTurn(first, i.first.turn, Opening(i));
    AllOfTurn(second, i.recollected.turn, Recollection(i));
    AllOfTurn(last, i.synthesis.turn, Synthesis(i));
  }

  lemma AllOfTurn(added: seq<Execution>, t: Turn, p: Phase)
    requires Orderly(added, t, p)
    ensures forall e :: e in added ==> e.round == p.round && e.attempt == p.attempt
  {
    forall e | e in added ensures e.round == p.round && e.attempt == p.attempt {
      var k :| 0 <= k < |added| && added[k] == e;
      if k > 0 {
        assert AnsweredAs(added[1 + (k - 1)], t, p, p.requested[k - 1]);
      }
    }
  }

  lemma RecoveredSpecialist(added: seq<Execution>, t: Turn, p: Phase, e: Execution, a: AgentName)
    requires Orderly(added, t, p) && e in added && e.status == Completed && e.agent == Label(a)
    ensures a in p.requested && Answered(t.drafts, a)
  {
    var k :| 0 <= k < |added| && added[k] == e;
    LabelsDiffer(a, a);
    assert AnsweredAs(added[1 + (k - 1)], t, p, p.requested[k - 1]);
    LabelsDiffer(a, p.requested[k - 1]);
  }

  lemma RecoveredCoordinator(added: seq<Execution>, t: Turn, p: Phase, e: Execution)
    requires Orderly(added, t, p) && e in added && e.status == Completed && e.agent == COORDINATOR
    ensures CoordinatorSucceeds(t)
  {
    var k :| 0 <= k < |added| && added[k] == e;
    if k > 0 {
      assert AnsweredAs(added[1 + (k - 1)], t, p, p.requested[k - 1]);
      LabelsDiffer(p.requested[k - 1], LOG);
    }
  }

  /** No failed record in an orderly turn: the coordinator succeeded and everybody answered. */
  lemma NothingFailed(added: seq<Execution>, t: Turn, p: Phase)
    requires Orderly(added, t, p)
    ensures !AnyFailed(added) <==> CoordinatorSucceeds(t) && forall a :: a in p.requested ==> Answered(t.drafts, a)
  {
    OrderlyFailures(added, t, p);
    if AnyFailed(added) {
      var e :| e in added && e.status == Failed;
      assert FailsAs(e, added, t, p);
    } else {
      forall a | a in p.requested ensures Answered(t.drafts, a) {
        var e :| e in added && AnsweredAs(e, t, p, a);
      }
    }
  }

  /** If the coordinator succeeded and every silent specialist is recovered, the validator counts
      each failure of the turn as resolved. */
  lemma SilenceIsResolved(xs: seq<Execution>, added: seq<Execution>, t: Turn, p: Phase)
    requires Orderly(added, t, p) && CoordinatorSucceeds(t)
    requires p.specialistStep == SpecialistCollection && p.attempt == 1
    requires forall a :: a in p.requested && !Answered(t.drafts, a) ==> Recovered(xs, Label(a))
    ensures forall e :: e in added && e.status == Failed ==> ValidatorResolves(xs, e)
  {
    OrderlyFailures(added, t, p);
    forall e | e in added && e.status == Failed ensures ValidatorResolves(xs, e) {
      assert FailsAs(e, added, t, p);
    }
  }

  lemma ResolvedIsSilence(xs: seq<Execution>, added: seq<Execution>, t: Turn, p: Phase)
    requires Orderly(added, t, p) && p.coordinatorStep != SpecialistCollection
    requires forall e :: e in added && e.status == Failed ==> ValidatorResolves(xs, e)
    ensures CoordinatorSucceeds(t)
    ensures forall a :: a in p.requested && !Answered(t.drafts, a) ==> Recovered(xs, Label(a))
  {
    OrderlyFailures(added, t, p);
    forall a | a in p.requested && !Answered(t.drafts, a) ensures Recovered(xs, Label(a)) {
      var e :| e in added && AnsweredAs(e, t, p, a);
    }
  }

  lemma SecondSilenceMasks(i: RunInput, first: seq<Execution>, second: seq<Execution>, last: seq<Execution>)
    requires TurnsReturned(i) && OrderlyRun(i, first, second, last)
    requires !AnyFailed(second) && CoordinatorSucceeds(i.first.turn) && CoordinatorSucceeds(i.synthesis.turn)
    requires (exists a :: Unnamed(i, a)) && forall a :: Unnamed(i, a) ==> a in Late(i)
    ensures RoundTwoMasked(first + second + last)
  {
    var xs := first + second + last;
    RecoveredMeans(i, first, second, last);
    NothingFailed(second, i.recollected.turn, Recollection(i));
    assert forall a :: a in Asked(i) && !Answered(i.synthesis.turn.drafts, a) ==> Unnamed(i, a);
    SilenceIsResolved(xs, first, i.first.turn, Opening(i));
    SilenceIsResolved(xs, last, i.synthesis.turn, Synthesis(i));
    NothingFailed(last, i.synthesis.turn, Synthesis(i));
    AllOfTurn(last, i.synthesis.turn, Synthesis(i));
    FailedLast(first, second, last);
  }

  lemma FailedLast(first: seq<Execution>, second: seq<Execution>, last: seq<Execution>)
    requires forall e :: (e in first || e in last) && e.status == Failed ==> ValidatorResolves(first + second + last, e)
    requires !AnyFailed(second) && AnyFailed(last) && forall e :: e in last ==> e.round == 2
    ensures RoundTwoMasked(first + second + last)
  {
    var e :| e in last && e.status == Failed;
    assert e in first + second + last;
  }

  lemma SecondSilenceIsNeeded(i: RunInput, first: seq<Execution>, second: seq<Execution>, last: seq<Execution>)
    requires TurnsReturned(i) && OrderlyRun(i, first, second, last)
    requires RoundTwoMasked(first + second + last)
    ensures !AnyFailed(second) && CoordinatorSucceeds(i.first.turn) && CoordinatorSucceeds(i.synthesis.turn)
    ensures (exists a :: Unnamed(i, a)) && forall a :: Unnamed(i, a) ==> a in Late(i)
  {
    var xs := first + second + last;
    AllOfTurn(first, i.first.turn, Opening(i));
    AllOfTurn(second, i.recollected.turn, Recollection(i));
    LastFailed(first, second, last);
    ResolvedIsSilence(xs, first, i.first.turn, Opening(i));
    ResolvedIsSilence(xs, last, i.synthesis.turn, Synthesis(i));
    NothingFailed(last, i.synthesis.turn, Synthesis(i));
    RecoveredMeans(i, first, second, last);
    var a :| a in Asked(i) && !Answered(i.synthesis.turn.drafts, a);
    assert Unnamed(i, a);
  }

  lemma LastFailed(first: seq<Execution>, second: seq<Execution>, last: seq<Execution>)
    requires RoundTwoMasked(first + second + last)
    requires forall e :: e in first ==> e.round == 1
    requires forall e :: e in second ==> e.round == 1 && e.attempt == 2
    ensures forall e :: (e in first || e in last) && e.status == Failed ==> ValidatorResolves(first + second + last, e)
    ensures !AnyFailed(second) && AnyFailed(last)
  {
    var xs := first + second + last;
    assert forall e :: e in first || e in second || e in last ==> e in xs;
    var e :| e in xs && e.status == Failed && e.round == 2;
    assert e in last;
  }

  lemma OpeningMissMasks(i: RunInput, first: seq<Execution>, second: seq<Execution>, last: seq<Execution>)
    requires TurnsReturned(i) && OrderlyRun(i, first, second, last)
    requires !AnyFailed(second) && !AnyFailed(last)
    requires !CoordinatorSucceeds(i.first.turn) && CoordinatorCategory(i.first.turn) == MissingSpecialist
    ensures CoordinatorMasked(first + second + last)
  {
    var xs := first + second + last;
    RecoveredMeans(i, first, second, last);
    NothingFailed(second, i.recollected.turn, Recollection(i));
    OrderlyFailures(first, i.first.turn, Opening(i));
    forall e | e in xs && e.status == Failed ensures e.round == 1 && DriverResolves(xs, e) {
      assert e in first && FailsAs(e, first, i.first.turn, Opening(i));
      if e == first[0] {
        assert Recovered(xs, COORDINATOR);
      } else {
        var a :| a in ALL_AGENTS && !Answered(i.first.turn.drafts, a) && AnsweredAs(e, i.first.turn, Opening(i), a);
        assert Recovered(xs, Label(a));
      }
    }
    assert first[0] in xs;
  }

  lemma OpeningMissIsNeeded(i: RunInput, first: seq<Execution>, second: seq<Execution>, last: seq<Execution>)
    requires TurnsReturned(i) && OrderlyRun(i, first, second, last)
    requires CoordinatorMasked(first + second + last)
    ensures !AnyFailed(second) && !AnyFailed(last)
    ensures !CoordinatorSucceeds(i.first.turn) && CoordinatorCategory(i.first.turn) == MissingSpecialist
  {
    var xs := first + second + last;
    AllOfTurn(second, i.recollected.turn, Recollection(i));
    AllOfTurn(last, i.synthesis.turn, Synthesis(i));
    assert forall e :: e in second || e in last ==> e in xs;
    var e :| e in xs && e.status == Failed && e.agent == COORDINATOR && e.step == InitialCoordination;
    assert e in first;
    OpeningRecordIs(first, i.first.turn, Opening(i), e);
    assert DriverResolves(xs, e);
  }

  lemma OpeningRecordIs(added: seq<Execution>, t: Turn, p: Phase, e: Execution)
    requires Orderly(added, t, p) && e in added && e.agent == COORDINATOR
    ensures e == added[0]
  {
    var k :| 0 <= k < |added| && added[k] == e;
    if k > 0 {
      assert AnsweredAs(added[1 + (k - 1)], t, p, p.requested[k - 1]);
      LabelsDiffer(p.requested[k - 1], LOG);
    }
  }

  // ---------------------------------------------------------------- the run behind the records

  function AfterOpening(i: RunInput): Consumption
    requires i.first.Returned?
  {
    Consumed(EMPTY_RUN, i.first.turn, FirstPhase(i, false))
  }

  /** What the second attempt leaves, whoever it asks. */
  function AfterRecollected(i: RunInput, missing: seq<AgentName>): Consumption
    requires i.first.Returned? && i.recollected.Returned?
  {
    Consumed(AfterOpening(i).state, i.recollected.turn, RecollectPhase(i, missing, false))
  }

  /** A reviewed run ends with the last turn on state `s`. */
  ghost predicate ReviewedFrom(i: RunInput, s: RunState, r: RunState) {
    && i.synthesis.Returned? && !i.synthesis.turn.cancelled && !i.reviewRaises
    && i.synthesis.turn.proposal && !Truthy(i.synthesis.turn.error)
    && i.conflicting(s.findings).Some?
    && (var c := Consumed(s, i.synthesis.turn, SynthesisPhase(i, Selected(i.conflicting(s.findings).value, ALL_AGENTS), false));
        !c.raised && r.review && r.executions == c.state.executions && r.findings == c.state.findings)
  }

  ghost predicate Direct(i: RunInput, r: RunState)
    requires i.first.Returned?
  {
    && (Missing(AfterOpening(i).state.findings, ALL_AGENTS) == [] || i.first.turn.error.Some?)
    && ReviewedFrom(i, AfterOpening(i).state, r)
  }

  ghost predicate Recollected(i: RunInput, r: RunState)
    requires i.first.Returned?
  {
    var missing := Missing(AfterOpening(i).state.findings, ALL_AGENTS);
    && missing != [] && i.first.turn.error.None?
    && i.recollected.Returned? && !i.recollected.turn.cancelled && !AfterRecollected(i, missing).raised
    && ReviewedFrom(i, AfterRecollected(i, missing).state, r)
  }

  lemma SynthesizeIs(i: RunInput, s: RunState, partial: bool, step: StepKind, attempt: nat)
    ensures var o := Synthesize(i, s, partial, step, attempt);
            o.Finished? && o.state.review ==> ReviewedFrom(i, s, o.state)
  {
  }

  lemma AfterFirstIs(i: RunInput, t: Turn, c: Consumption)
    requires i.first == Returned(t) && !t.cancelled && c == AfterOpening(i)
    ensures var o := AfterFirst(i, t, c);
            o.Finished? && o.state.review ==> !c.raised && (Direct(i, o.state) || Recollected(i, o.state))
  {
    var missing := Missing(c.state.findings, ALL_AGENTS);
    if !c.raised && missing != [] && t.error.None? {
      RecollectIs(i, c.state, missing, NonrecoverableOutput(t.drafts));
    } else {
      SynthesizeIs(i, c.state, c.partial || NonrecoverableOutput(t.drafts), InitialCoordination, 1);
    }
  }

  lemma RecollectIs(i: RunInput, s: RunState, missing: seq<AgentName>, nonrecoverable: bool)
    requires i.first.Returned? && s == AfterOpening(i).state
    ensures var o := Recollect(i, s, missing, nonrecoverable);
            o.Finished? && o.state.review ==>
              && i.recollected.Returned? && !i.recollected.turn.cancelled && !AfterRecollected(i, missing).raised
              && ReviewedFrom(i, AfterRecollected(i, missing).state, o.state)
  {
    if i.recollected.Returned? && !i.recollected.turn.cancelled {
      var c := AfterRecollected(i, missing);
      SynthesizeIs(i, c.state, UnresolvedFirstRound(c.state.executions) || nonrecoverable, SpecialistRecollection, 2);
    }
  }

  /** The two ways to a review. */
  lemma ReviewedPath(i: RunInput)
    requires RunConfigured(i).Finished? && RunConfigured(i).state.review
    ensures i.first.Returned? && !i.first.turn.cancelled && !AfterOpening(i).raised
    ensures Direct(i, RunConfigured(i).state) || Recollected(i, RunConfigured(i).state)
  {
    var t := i.first.turn;
    AfterFirstIs(i, t, Consumed(EMPTY_RUN, t, FirstPhase(i, t.cancelled)));
  }

  /** And nothing else is needed to get one. */
  lemma ReviewedWhen(i: RunInput)
    requires i.first.Returned? && !i.first.turn.cancelled && !AfterOpening(i).raised && i.first.turn.error.None?
    requires var missing := Missing(AfterOpening(i).state.findings, ALL_AGENTS);
             && missing != [] && i.recollected.Returned? && !i.recollected.turn.cancelled && !AfterRecollected(i, missing).raised
             && (exists r :: ReviewedFrom(i, AfterRecollected(i, missing).state, r))
    ensures RunConfigured(i).Finished? && RunConfigured(i).state.review
  {
    var missing := Missing(AfterOpening(i).state.findings, ALL_AGENTS);
    var nonrecoverable := NonrecoverableOutput(i.first.turn.drafts);
    assert RunConfigured(i) == Recollect(i, AfterOpening(i).state, missing, nonrecoverable);
    ReviewedRecollection(i, AfterOpening(i).state, missing, nonrecoverable);
  }

  lemma ReviewedRecollection(i: RunInput, s: RunState, missing: seq<AgentName>, nonrecoverable: bool)
    requires i.first.Returned? && s == AfterOpening(i).state
    requires i.recollected.Returned? && !i.recollected.turn.cancelled && !AfterRecollected(i, missing).raised
    requires exists r :: ReviewedFrom(i, AfterRecollected(i, missing).state, r)
    ensures Recollect(i, s, missing, nonrecoverable).Finished? && Recollect(i, s, missing, nonrecoverable).state.review
  {
  }

  // ---------------------------------------------------------------- clean attempts

  lemma {:induction false} MissingIsSilent(fs: seq<Finding>, drafts: seq<CapturedDraft>, names: seq<AgentName>)
    requires forall a :: FirstFinding(fs, a, 1).Some? <==> Answered(drafts, a)
    ensures Missing(fs, names) == Silent(drafts, names)
  {
    if names != [] {
      MissingIsSilent(fs, drafts, names[1..]);
    }
  }

  lemma FirstFindingMeans(s: RunState, a: AgentName)
    ensures FirstFinding(s.findings, a, 1).Some? <==> HasFinding(s, a, 1)
  {
  }

  lemma {:induction false} AdmittedFirstRound(drafts: seq<CapturedDraft>, id: nat)
    ensures forall f :: f in Admitted(drafts, id) ==> f.round == 1
  {
    if drafts != [] {
      AdmittedFirstRound(drafts[1..], id + 1);
    }
  }

  ghost predicate Opened(i: RunInput, c: Consumption)
    requires i.first.Returned?
  {
    && LeftOrderly(EMPTY_RUN, c, i.first.turn, Opening(i))
    && Missing(c.state.findings, ALL_AGENTS) == Late(i)
    && c.state.findings == Admitted(i.first.turn.drafts, 2) && c.state.next == 8 + |i.first.turn.drafts|
  }

  lemma CleanOpening(i: RunInput)
    requires i.first.Returned? && Clean(i.first.turn.drafts, Opening(i))
    ensures Opened(i, AfterOpening(i)) && FreshRound(AfterOpening(i).state, Recollection(i))
  {
    var c := AfterOpening(i);
    CleanIsOrderly(EMPTY_RUN, i.first.turn, Opening(i));
    forall a ensures FirstFinding(c.state.findings, a, 1).Some? <==> Answered(i.first.turn.drafts, a) {
      FirstFindingMeans(c.state, a);
      AllAgentsListed(a);
    }
    MissingIsSilent(c.state.findings, i.first.turn.drafts, ALL_AGENTS);
  }

  ghost predicate SecondOpened(i: RunInput, c: Consumption)
    requires TurnsReturned(i)
  {
    && LeftOrderly(AfterOpening(i).state, c, i.recollected.turn, Recollection(i))
    && c.state.findings == Heard(i) && FirstRoundFindings(c.state)
  }

  lemma CleanRecollection(i: RunInput)
    requires TurnsReturned(i) && Clean(i.first.turn.drafts, Opening(i)) && Clean(i.recollected.turn.drafts, Recollection(i))
    ensures SecondOpened(i, AfterRecollected(i, Late(i)))
  {
    CleanOpening(i);
    CleanIsOrderly(AfterOpening(i).state, i.recollected.turn, Recollection(i));
    AdmittedFirstRound(i.first.turn.drafts, 2);
    AdmittedFirstRound(i.recollected.turn.drafts, 10 + |i.first.turn.drafts|);
  }

  /** When both attempts are clean and nobody is left out, every specialist has a finding. */
  lemma EverybodyHeard(i: RunInput, p: Phase)
    requires TurnsReturned(i) && Repaired(i)
    ensures Ready(AfterRecollected(i, Late(i)).state, p)
  {
    CleanOpening(i);
    CleanRecollection(i);
    var s1, s2 := AfterOpening(i).state, AfterRecollected(i, Late(i)).state;
    forall a ensures FirstFinding(s2.findings, a, 1).Some? {
      AllAgentsListed(a);
      if a in Late(i) {
        FirstFindingMeans(s2, a);
      } else {
        FirstFindingMeans(s1, a);
        assert s1.findings <= s2.findings;
        FirstFindingStays(s1.findings, s2.findings, a, 1);
      }
    }
  }

  // ---------------------------------------------------------------- from a masked run to its inputs

  lemma MaskedFailures(xs: seq<Execution>)
    requires Masked(xs)
    ensures forall e :: e in xs && e.status == Failed ==> e.category == MissingSpecialist && e.attempt == 1
  {
  }

  lemma TurnRecords(s: RunState, t: Turn, p: Phase)
    requires p.recordCoordinator && !Consumed(s, t, p).raised
    ensures s.executions <= Consumed(s, t, p).state.executions
    ensures forall e :: e in Appended(s, Consumed(s, t, p).state) ==> FromTurn(e, p)
  {
    var x := ConsumedLayout(s, t, p);
    LayoutRecords(s, x, Consumed(s, t, p).state, t, p);
  }

  lemma DirectIsNotMasked(i: RunInput, r: RunState)
    requires i.first.Returned? && !AfterOpening(i).raised && Direct(i, r)
    ensures !Masked(r.executions)
  {
    var s := AfterOpening(i).state;
    var p := SynthesisPhase(i, Selected(i.conflicting(s.findings).value, ALL_AGENTS), false);
    TurnRecords(EMPTY_RUN, i.first.turn, Opening(i));
    TurnRecords(s, i.synthesis.turn, p);
    TwoTurnsNotMasked(s, Consumed(s, i.synthesis.turn, p).state, Opening(i), p);
  }

  lemma TwoTurnsNotMasked(s: RunState, r: RunState, p: Phase, q: Phase)
    requires s.executions <= r.executions
    requires p.round == 1 && p.attempt == 1 && p.coordinatorStep == InitialCoordination && p.specialistStep == SpecialistCollection
    requires q.round == 2 && q.attempt == 1 && q.coordinatorStep == FinalSynthesis && q.specialistStep == SpecialistCollection
    requires forall e :: e in Appended(EMPTY_RUN, s) ==> FromTurn(e, p)
    requires forall e :: e in Appended(s, r) ==> FromTurn(e, q)
    ensures !Masked(r.executions)
  {
    assert Appended(EMPTY_RUN, s) == s.executions;
    DirectLabel(s.executions, Appended(s, r));
    assert r.executions == s.executions + Appended(s, r);
  }

  /** The records of the three turns of a recollected run. */
  ghost predicate Appends(i: RunInput, missing: seq<AgentName>, asked: seq<AgentName>, r: RunState,
                          first: seq<Execution>, second: seq<Execution>, last: seq<Execution>)
    requires i.first.Returned? && i.recollected.Returned? && i.synthesis.Returned?
  {
    var s1, s2, s3 := AfterOpening(i).state, AfterRecollected(i, missing).state,
      Consumed(AfterRecollected(i, missing).state, i.synthesis.turn, SynthesisPhase(i, asked, false)).state;
    && s1.executions <= s2.executions <= s3.executions && r.executions == s3.executions
    && first == s1.executions && second == Appended(s1, s2) && last == Appended(s2, s3)
    && r.executions == first + second + last
  }

  lemma RecollectedAppends(i: RunInput, r: RunState, missing: seq<AgentName>, asked: seq<AgentName>)
    returns (first: seq<Execution>, second: seq<Execution>, last: seq<Execution>)
    requires i.first.Returned? && i.recollected.Returned?
    requires !AfterOpening(i).raised && !AfterRecollected(i, missing).raised
    requires ReviewedFrom(i, AfterRecollected(i, missing).state, r)
    requires asked == Selected(i.conflicting(AfterRecollected(i, missing).state.findings).value, ALL_AGENTS)
    ensures Appends(i, missing, asked, r, first, second, last)
  {
    var s1, s2 := AfterOpening(i).state, AfterRecollected(i, missing).state;
    var p := SynthesisPhase(i, asked, false);
    TurnRecords(s1, i.recollected.turn, RecollectPhase(i, missing, false));
    TurnRecords(s2, i.synthesis.turn, p);
    var s3 := Consumed(s2, i.synthesis.turn, p).state;
    first, second, last := s1.executions, Appended(s1, s2), Appended(s2, s3);
    assert s3.executions == first + second + last;
  }

  /** Both attempts of a masked run were clean, and the second reached everybody. */
  lemma MaskedIsRepaired(i: RunInput, r: RunState, missing: seq<AgentName>, asked: seq<AgentName>,
                         first: seq<Execution>, second: seq<Execution>, last: seq<Execution>)
    requires TurnsReturned(i) && missing == Missing(AfterOpening(i).state.findings, ALL_AGENTS) != []
    requires i.first.turn.error.None? && !AfterOpening(i).raised && !AfterRecollected(i, missing).raised
    requires Appends(i, missing, asked, r, first, second, last) && Masked(r.executions)
    ensures missing == Late(i) && Repaired(i)
    ensures Orderly(first, i.first.turn, Opening(i)) && Orderly(second, i.recollected.turn, Recollection(i)) && !AnyFailed(second)
  {
    MaskedFailures(r.executions);
    assert forall e :: e in first || e in second ==> e in r.executions;
    assert Appended(EMPTY_RUN, AfterOpening(i).state) == first;
    OnlyMissingIsClean(EMPTY_RUN, i.first.turn, Opening(i));
    CleanOpening(i);
    OnlyMissingIsClean(AfterOpening(i).state, i.recollected.turn, Recollection(i));
    CleanRecollection(i);
    AllOfTurn(second, i.recollected.turn, Recollection(i));
    NothingFailed(second, i.recollected.turn, Recollection(i));
  }

  lemma MaskedIsOrderly(i: RunInput, r: RunState, asked: seq<AgentName>, first: seq<Execution>, second: seq<Execution>, last: seq<Execution>)
    requires TurnsReturned(i) && Repaired(i) && Orderly(first, i.first.turn, Opening(i))
    requires Orderly(second, i.recollected.turn, Recollection(i))
    requires ReviewedFrom(i, AfterRecollected(i, Late(i)).state, r)
    requires asked == Selected(i.conflicting(AfterRecollected(i, Late(i)).state.findings).value, ALL_AGENTS)
    requires Appends(i, Late(i), asked, r, first, second, last) && Masked(r.executions)
    ensures asked == Asked(i) && Clean(i.synthesis.turn.drafts, Synthesis(i)) && OrderlyRun(i, first, second, last)
    ensures i.conflicting(Heard(i)).Some?
  {
    var s := AfterRecollected(i, Late(i)).state;
    CleanRecollection(i);
    MaskedFailures(r.executions);
    assert forall e :: e in last ==> e in r.executions;
    OnlyMissingIsClean(s, i.synthesis.turn, Synthesis(i));
    EverybodyHeard(i, Synthesis(i));
    CleanIsOrderly(s, i.synthesis.turn, Synthesis(i));
  }

  /** Every masked run comes from one of the two kinds of input. */
  lemma MaskedIsNeeded(i: RunInput)
    requires RunConfigured(i).Finished? && RunConfigured(i).state.review
    ensures RoundTwoMasked(RunConfigured(i).state.executions) ==> SecondSilence(i)
    ensures CoordinatorMasked(RunConfigured(i).state.executions) ==> OpeningMiss(i)
  {
    ReviewedPath(i);
    var r := RunConfigured(i).state;
    if Masked(r.executions) {
      if Direct(i, r) {
        DirectIsNotMasked(i, r);
      } else {
        RecollectedIsNeeded(i, r);
      }
    }
  }

  lemma RecollectedIsNeeded(i: RunInput, r: RunState)
    requires i.first.Returned? && !i.first.turn.cancelled && !AfterOpening(i).raised && Recollected(i, r)
    requires Masked(r.executions)
    ensures RoundTwoMasked(r.executions) ==> SecondSilence(i)
    ensures CoordinatorMasked(r.executions) ==> OpeningMiss(i)
  {
    var missing := Missing(AfterOpening(i).state.findings, ALL_AGENTS);
    var asked := Selected(i.conflicting(AfterRecollected(i, missing).state.findings).value, ALL_AGENTS);
    var first, second, last := RecollectedAppends(i, r, missing, asked);
    MaskedIsRepaired(i, r, missing, asked, first, second, last);
    MaskedIsOrderly(i, r, asked, first, second, last);
    OrderlyIsNeeded(i, first, second, last);
  }

  lemma OrderlyIsNeeded(i: RunInput, first: seq<Execution>, second: seq<Execution>, last: seq<Execution>)
    requires TurnsReturned(i) && OrderlyRun(i, first, second, last) && Repaired(i) && !i.reviewRaises
    requires i.conflicting(Heard(i)).Some? && Clean(i.synthesis.turn.drafts, Synthesis(i))
    ensures RoundTwoMasked(first + second + last) ==> SecondSilence(i)
    ensures CoordinatorMasked(first + second + last) ==> OpeningMiss(i)
  {
    if RoundTwoMasked(first + second + last) {
      SecondSilenceIsNeeded(i, first, second, last);
    }
    if CoordinatorMasked(first + second + last) {
      OpeningMissIsNeeded(i, first, second, last);
      NothingFailed(last, i.synthesis.turn, Synthesis(i));
    }
  }

  // ---------------------------------------------------------------- and back

  lemma RepairedRuns(i: RunInput)
    requires TurnsReturned(i) && Repaired(i) && Concluded(i)
    ensures RunConfigured(i).Finished? && RunConfigured(i).state.review
    ensures Recollected(i, RunConfigured(i).state) && Missing(AfterOpening(i).state.findings, ALL_AGENTS) == Late(i)
  {
    CleanOpening(i);
    CleanRecollection(i);
    EverybodyHeard(i, Synthesis(i));
    var s := AfterRecollected(i, Late(i)).state;
    CleanIsOrderly(s, i.synthesis.turn, Synthesis(i));
    var c := Consumed(s, i.synthesis.turn, Synthesis(i));
    assert ReviewedFrom(i, s, c.state.(review := true));
    ReviewedWhen(i);
    ReviewedPath(i);
    assert Asked(i) == Selected(i.conflicting(Heard(i)).value, ALL_AGENTS);
  }

  lemma RepairedIsOrderly(i: RunInput, r: RunState) returns (first: seq<Execution>, second: seq<Execution>, last: seq<Execution>)
    requires TurnsReturned(i) && Repaired(i) && Concluded(i)
    requires Recollected(i, r) && Missing(AfterOpening(i).state.findings, ALL_AGENTS) == Late(i)
    ensures OrderlyRun(i, first, second, last) && !AnyFailed(second) && r.executions == first + second + last
  {
    CleanOpening(i);
    CleanRecollection(i);
    EverybodyHeard(i, Synthesis(i));
    var s := AfterRecollected(i, Late(i)).state;
    CleanIsOrderly(s, i.synthesis.turn, Synthesis(i));
    first, second, last := RecollectedAppends(i, r, Late(i), Asked(i));
    assert Appended(EMPTY_RUN, AfterOpening(i).state) == first;
    NothingFailed(second, i.recollected.turn, Recollection(i));
  }

  /** A run is reviewed and masked in the second round exactly on inputs with a second silence. */
  lemma SecondSilenceIsMasked(i: RunInput)
    ensures SecondSilence(i) <==>
            RunConfigured(i).Finished? && RunConfigured(i).state.review && RoundTwoMasked(RunConfigured(i).state.executions)
  {
    if SecondSilence(i) {
      RepairedRuns(i);
      var first, second, last := RepairedIsOrderly(i, RunConfigured(i).state);
      SecondSilenceMasks(i, first, second, last);
    }
    if RunConfigured(i).Finished? && RunConfigured(i).state.review {
      MaskedIsNeeded(i);
    }
  }

  /** And masked by its coordinator exactly on inputs with an opening miss. */
  lemma OpeningMissIsMasked(i: RunInput)
    ensures OpeningMiss(i) <==>
            RunConfigured(i).Finished? && RunConfigured(i).state.review && CoordinatorMasked(RunConfigured(i).state.executions)
  {
    if OpeningMiss(i) {
      RepairedRuns(i);
      var first, second, last := RepairedIsOrderly(i, RunConfigured(i).state);
      assert forall a :: a in Asked(i) && !Answered(i.synthesis.turn.drafts, a) ==> Unnamed(i, a);
      NothingFailed(last, i.synthesis.turn, Synthesis(i));
      OpeningMissMasks(i, first, second, last);
    }
    if RunConfigured(i).Finished? && RunConfigured(i).state.review {
      MaskedIsNeeded(i);
    }
  }
}
