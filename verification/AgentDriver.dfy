/** The driver as the program runs it: one mutable result whose lists grow in loops.
    Every method is proved against the functions of AgentRun.
    The sets that a turn builds while it takes drafts (captured, invalid, returned, ...) are
    local variables here, as in the program; the records go to the result's own lists.
    A turn that was cancelled or raised leaves what it had appended so far. */
module AgentDriver {
  import opened AgentRun
  import opened Options
  import opened Vocabulary

  class RunResult {
    var tasks: seq<Task>
    var executions: seq<Execution>
    var findings: seq<Finding>
    var review: bool
    var status: RunStatus
    var next: nat

    function State(): RunState
      reads this
    {
      RunState(tasks, executions, findings, review, status, next)
    }

    constructor ()
      ensures State() == EMPTY_RUN
    {
      tasks, executions, findings, review, status, next := [], [], [], false, RunFailed, 0;
    }

    method Append(agent: string, round: nat, taskStatus: Status, step: StepKind, attempt: nat,
                  category: FailureCategory, evidence: seq<EvidenceId>)
      modifies this
      ensures State() == AddRecord(old(State()), agent, round, taskStatus, step, attempt, category, evidence)
    {
      tasks := tasks + [Task(next, agent, round, taskStatus)];
      executions := executions
        + [Execution(next + 1, next, agent, round, taskStatus, step, attempt, category, evidence)];
      next := next + 2;
    }

    method ConsumeTurn(t: Turn, p: Phase) returns (partial: bool, raised: bool)
      modifies this
      ensures Consumption(State(), partial, raised) == Consumed(old(State()), t, p)
    {
      if p.recordCoordinator {
        Append(COORDINATOR, p.round, if CoordinatorSucceeds(t) then Completed else Failed,
               p.coordinatorStep, p.attempt, CoordinatorCategory(t), []);
      }
      var captured: set<AgentName> := {};
      var invalid: set<AgentName> := {};
      var invalidReference: set<AgentName> := {};
      var returned: set<AgentName> := {};
      var invalidCaptured := false;
      raised := false;
      ghost var x0 := StartIntake(old(State()), t, p);
      for n := 0 to |t.drafts|
        invariant !raised
        invariant TakeDrafts(Intake(State(), captured, invalid, invalidReference, returned, invalidCaptured, false), t.drafts[n..], p)
                  == TakeDrafts(x0, t.drafts, p)
      {
        DraftStep(Intake(State(), captured, invalid, invalidReference, returned, invalidCaptured, false), t.drafts, n, p);
        captured, invalid, invalidReference, returned, invalidCaptured, raised :=
          AdmitDraft(t.drafts[n], p, captured, invalid, invalidReference, returned, invalidCaptured);
        if raised {
          return false, true;
        }
      }
      assert t.drafts[|t.drafts|..] == [];
      ghost var x := Intake(State(), captured, invalid, invalidReference, returned, invalidCaptured, false);
      CloseAll(x, invalid, invalidReference, returned, p);
      partial := !CoordinatorSucceeds(t) || invalid != {} || invalidCaptured || (set a | a in p.requested) != captured;
    }

    /** One captured draft: recorded as a failure, marked invalid, or admitted as a finding. */
    method AdmitDraft(c: CapturedDraft, p: Phase, captured0: set<AgentName>, invalid0: set<AgentName>,
                      invalidReference0: set<AgentName>, returned0: set<AgentName>, invalidCaptured0: bool)
      returns (captured: set<AgentName>, invalid: set<AgentName>, invalidReference: set<AgentName>,
               returned: set<AgentName>, invalidCaptured: bool, raised: bool)
      modifies this
      ensures Intake(State(), captured, invalid, invalidReference, returned, invalidCaptured, raised)
              == TakeDraft(Intake(old(State()), captured0, invalid0, invalidReference0, returned0, invalidCaptured0, false), c, p)
    {
      captured, invalid, invalidReference, returned, invalidCaptured, raised :=
        captured0, invalid0, invalidReference0, returned0, invalidCaptured0, false;
      var name := ParseAgent(c.agentName);
      if name.None? {
        if RecordsReject(c.agentName) {
          raised := true;
          return;
        }
        Append(c.agentName, p.round, Failed, p.specialistStep, p.attempt, InvalidOutput, []);
        invalidCaptured := true;
        return;
      }
      var a := name.value;
      if a !in p.requested || a in captured {
        Append(Label(a), p.round, Failed, p.specialistStep, p.attempt, InvalidOutput, []);
        invalidCaptured := true;
        return;
      }
      returned := returned + {a};
      if c.round != p.round || c.draft.None? {
        invalid := invalid + {a};
        return;
      }
      var d := c.draft.value;
      if exists e :: e in d.evidence && e !in p.allowed(a) {
        invalid := invalid + {a};
        invalidReference := invalidReference + {a};
        return;
      }
      var earlier := FirstFinding(findings, a, 1);
      if NamesNoCause(d) || (p.round == 2 && earlier.None?) || !FindingAccepts(d) {
        invalid := invalid + {a};
        return;
      }
      captured := captured + {a};
      findings := findings
        + [FindingOf(next, a, d, p.round, if p.round == 2 then Some(earlier.value.id) else None)];
      next := next + 1;
    }

    method CloseAll(ghost x: Intake, invalid: set<AgentName>, invalidReference: set<AgentName>,
                    returned: set<AgentName>, p: Phase)
      requires x.invalid == invalid && x.invalidReference == invalidReference && x.returned == returned
      modifies this
      ensures State() == CloseSpecialists(old(State()), x, p.requested, p)
    {
      for n := 0 to |p.requested|
        invariant CloseSpecialists(State(), x, p.requested[n..], p) == CloseSpecialists(old(State()), x, p.requested, p)
      {
        var a := p.requested[n];
        assert p.requested[n..][0] == a && p.requested[n..][1..] == p.requested[n + 1..];
        var finding := LastFinding(findings, a, p.round);
        var completed := finding.Some? && a !in invalid;
        var category :=
          if completed then NoFailure
          else if a in invalidReference then InvalidReference
          else if a in returned || a in invalid then InvalidOutput
          else MissingSpecialist;
        Append(Label(a), p.round, if completed then Completed else Failed, p.specialistStep, p.attempt, category,
               if finding.Some? then finding.value.evidence else []);
      }
      assert p.requested[|p.requested|..] == [];
    }

    method FileFailure(category: FailureCategory, step: StepKind, attempt: nat, round: nat)
      modifies this
      ensures State() == RecordFailure(old(State()), category, step, attempt, round)
    {
      Append(COORDINATOR, round, Failed, step, attempt, category, []);
      review, status := false, RunFailed;
    }

    /** The configured run; `cancelled` means the cancellation left through the caller. */
    method Run(i: RunInput) returns (cancelled: bool)
      requires State() == EMPTY_RUN
      modifies this
      ensures RunConfigured(i) == if cancelled then CancelledRun else Finished(State())
    {
      cancelled := false;
      match i.first
      case CancelledTurn => return true;
      case TimedOut => FileFailure(Timeout, InitialCoordination, 1, 1);
      case Errored(category) => FileFailure(category, InitialCoordination, 1, 1);
      case Returned(t) =>
        var partial, raised := ConsumeTurn(t, FirstPhase(i, t.cancelled));
        if raised {
          FileFailure(UnknownFailure, InitialCoordination, 1, 1);
          return;
        }
        if t.cancelled {
          return true;
        }
        if Truthy(t.error) && findings == [] {
          review, status := false, RunFailed;
          return;
        }
        var missing := Missing(findings, ALL_AGENTS);
        var nonrecoverable := NonrecoverableOutput(t.drafts);
        if missing != [] && t.error.None? {
          cancelled := RecollectMissing(i, missing, nonrecoverable);
        } else {
          cancelled := SynthesizeRun(i, partial || nonrecoverable, InitialCoordination, 1);
        }
    }

    method RecollectMissing(i: RunInput, missing: seq<AgentName>, nonrecoverable: bool) returns (cancelled: bool)
      modifies this
      ensures Recollect(i, old(State()), missing, nonrecoverable) == if cancelled then CancelledRun else Finished(State())
    {
      cancelled := false;
      match i.recollected
      case CancelledTurn => return true;
      case TimedOut => FileFailure(Timeout, SpecialistRecollection, 2, 1);
      case Errored(category) => FileFailure(category, SpecialistRecollection, 2, 1);
      case Returned(t) =>
        var _, raised := ConsumeTurn(t, RecollectPhase(i, missing, t.cancelled));
        if raised {
          FileFailure(UnknownFailure, SpecialistRecollection, 2, 1);
          return;
        }
        if t.cancelled {
          return true;
        }
        var partial := UnresolvedFirstRound(executions) || nonrecoverable;
        cancelled := SynthesizeRun(i, partial, SpecialistRecollection, 2);
    }

    method SynthesizeRun(i: RunInput, partial: bool, step: StepKind, attempt: nat) returns (cancelled: bool)
      modifies this
      ensures Synthesize(i, old(State()), partial, step, attempt) == if cancelled then CancelledRun else Finished(State())
    {
      cancelled := false;
      var conflicting := i.conflicting(findings);
      if conflicting.None? {
        FileFailure(UnknownFailure, step, attempt, 1);
        return;
      }
      var selected := Selected(conflicting.value, ALL_AGENTS);
      match i.synthesis
      case CancelledTurn => return true;
      case TimedOut => FileFailure(Timeout, FinalSynthesis, 1, 2);
      case Errored(category) => FileFailure(category, FinalSynthesis, 1, 2);
      case Returned(t) =>
        var late, raised := ConsumeTurn(t, SynthesisPhase(i, selected, t.cancelled));
        if raised {
          FileFailure(UnknownFailure, FinalSynthesis, 1, 2);
          return;
        }
        if t.cancelled {
          return true;
        }
        if Truthy(t.error) || !t.proposal {
          review, status := false, RunFailed;
          return;
        }
        if i.reviewRaises {
          FileFailure(UnknownFailure, FinalSynthesis, 1, 2);
          return;
        }
        review := true;
        status := if partial || late then RunPartial else RunCompleted;
    }
  }

  /** Taking the drafts from position `n` on is taking draft `n`, then the rest. */
  lemma DraftStep(x: Intake, drafts: seq<CapturedDraft>, n: nat, p: Phase)
    requires n < |drafts| && !x.raised
    ensures TakeDrafts(x, drafts[n..], p) == TakeDrafts(TakeDraft(x, drafts[n], p), drafts[n + 1..], p)
    ensures TakeDraft(x, drafts[n], p).raised ==> TakeDrafts(x, drafts[n..], p) == TakeDraft(x, drafts[n], p)
  {
    assert drafts[n..][1..] == drafts[n + 1..];
  }
}
