/** The diagnosis plan scheduler: repeated priority scans over the pending tasks of a possibly
    cyclic dependency graph, and the order-free meaning its final statuses have. */
module Scheduler {
  import opened Sorting

  datatype CallStatus = CallSucceeded | CallFailed | CallSkipped

  datatype TaskStatus = Completed | Failed | Skipped

  /** `calls` is what the task's tools give back if they are invoked. */
  datatype Task = Task(id: string, dependsOn: seq<string>, priority: nat, calls: seq<CallStatus>)

  /** `ran` tells an execution that invoked tools from one that records a skip. */
  datatype Execution = Execution(taskId: string, status: TaskStatus, ran: bool)

  function Outcome(t: Task): TaskStatus {
    if CallFailed in t.calls then Failed
    else if CallSkipped in t.calls then Skipped
    else Completed
  }

  // ---------------------------------------------------------------- the meaning

  ghost predicate DistinctIds(tasks: seq<Task>) {
    forall i, j :: 0 <= i < j < |tasks| ==> tasks[i].id != tasks[j].id
  }

  /** Completed within `n` layers of dependencies. */
  ghost predicate CompletesBy(tasks: seq<Task>, id: string, n: nat)
    decreases n, 1
  {
    n > 0 && exists t :: t in tasks && CompletesAs(tasks, t, id, n)
  }

  ghost predicate CompletesAs(tasks: seq<Task>, t: Task, id: string, n: nat)
    requires n > 0
    decreases n, 0
  {
    t.id == id && Outcome(t) == Completed && forall d :: d in t.dependsOn ==> CompletesBy(tasks, d, n - 1)
  }

  /** The least set closed under "the task exists, its tools succeed, its dependencies are in". */
  ghost predicate Completes(tasks: seq<Task>, id: string) {
    exists n :: CompletesBy(tasks, id, n)
  }

  ghost predicate DependenciesComplete(tasks: seq<Task>, t: Task) {
    forall d :: d in t.dependsOn ==> Completes(tasks, d)
  }

  ghost function FinalStatus(tasks: seq<Task>, t: Task): TaskStatus {
    if DependenciesComplete(tasks, t) then Outcome(t) else Skipped
  }

  lemma {:induction false} CompletesMore(tasks: seq<Task>, id: string, n: nat, m: nat)
    requires n <= m && CompletesBy(tasks, id, n)
    ensures CompletesBy(tasks, id, m)
    decreases n
  {
    var t :| t in tasks && CompletesAs(tasks, t, id, n);
    forall d | d in t.dependsOn ensures CompletesBy(tasks, d, m - 1) {
      CompletesMore(tasks, d, n - 1, m - 1);
    }
    assert CompletesAs(tasks, t, id, m);
  }

  lemma {:induction false} CommonLayer(tasks: seq<Task>, ids: seq<string>) returns (n: nat)
    requires forall d :: d in ids ==> Completes(tasks, d)
    ensures forall d :: d in ids ==> CompletesBy(tasks, d, n)
  {
    n := 0;
    if ids != [] {
      var rest := CommonLayer(tasks, ids[1..]);
      assert Completes(tasks, ids[0]);
      var own: nat :| CompletesBy(tasks, ids[0], own);
      n := if rest < own then own else rest;
      forall d | d in ids ensures CompletesBy(tasks, d, n) {
        if d == ids[0] {
          CompletesMore(tasks, d, own, n);
        } else {
          assert d in ids[1..];
          CompletesMore(tasks, d, rest, n);
        }
      }
    }
  }

  /** `Completes` is a fixpoint: a task completes iff its tools succeed and all it depends on completes. */
  lemma CompletesIsFixpoint(tasks: seq<Task>, t: Task)
    requires DistinctIds(tasks) && t in tasks
    ensures Completes(tasks, t.id) <==> Outcome(t) == Completed && DependenciesComplete(tasks, t)
  {
    if Outcome(t) == Completed && DependenciesComplete(tasks, t) {
      var n := CommonLayer(tasks, t.dependsOn);
      assert CompletesAs(tasks, t, t.id, n + 1);
      assert CompletesBy(tasks, t.id, n + 1);
    }
    if Completes(tasks, t.id) {
      var n: nat :| CompletesBy(tasks, t.id, n);
      var u :| u in tasks && CompletesAs(tasks, u, t.id, n);
      var i, j :| 0 <= i < |tasks| && 0 <= j < |tasks| && tasks[i] == t && tasks[j] == u;
      assert i == j;
      assert DependenciesComplete(tasks, t) by {
        forall d | d in t.dependsOn ensures Completes(tasks, d) {
          assert CompletesBy(tasks, d, n - 1);
        }
      }
    }
  }

  ghost predicate ClosedUnder(tasks: seq<Task>, done: set<string>) {
    forall t :: t in tasks && Outcome(t) == Completed && (forall d :: d in t.dependsOn ==> d in done) ==> t.id in done
  }

  /** ... and the least one. */
  lemma {:induction false} CompletesIsLeast(tasks: seq<Task>, done: set<string>, id: string, n: nat)
    requires ClosedUnder(tasks, done) && CompletesBy(tasks, id, n)
    ensures id in done
    decreases n
  {
    var t :| t in tasks && CompletesAs(tasks, t, id, n);
    forall d | d in t.dependsOn ensures d in done {
      CompletesIsLeast(tasks, done, d, n - 1);
    }
  }

  ghost predicate WaitsFor(tasks: seq<Task>, i: nat, j: nat) {
    i < |tasks| && j < |tasks| && tasks[j].id in tasks[i].dependsOn
  }

  ghost predicate Tied(tasks: seq<Task>, knot: set<nat>, i: nat) {
    exists j :: j in knot && WaitsFor(tasks, i, j)
  }

  /** A set of tasks each waiting for a member of the set: what is left when no scan progresses. */
  ghost predicate Knot(tasks: seq<Task>, knot: set<nat>) {
    knot != {} && (forall i :: i in knot ==> i < |tasks|)
    && forall i {:trigger Tied(tasks, knot, i)} :: i in knot ==> Tied(tasks, knot, i)
  }

  /** The graph is acyclic: some ranking falls strictly along every dependency on a known task. */
  ghost predicate Ranked(tasks: seq<Task>, rank: string -> nat) {
    forall t, u :: t in tasks && u in tasks && u.id in t.dependsOn ==> rank(u.id) < rank(t.id)
  }

  lemma {:induction false} LowestRank(tasks: seq<Task>, knot: set<nat>, rank: string -> nat) returns (i: nat)
    requires knot != {} && forall j :: j in knot ==> j < |tasks|
    ensures i in knot && forall j :: j in knot ==> rank(tasks[i].id) <= rank(tasks[j].id)
    decreases |knot|
  {
    var k :| k in knot;
    i := k;
    if knot != {k} {
      var rest := knot - {k};
      assert knot == rest + {k};
      var r := LowestRank(tasks, rest, rank);
      if rank(tasks[r].id) < rank(tasks[k].id) {
        i := r;
      }
    }
  }

  /** A knot contains a dependency cycle: no ranking falls along every dependency. */
  lemma KnotHasNoRank(tasks: seq<Task>, knot: set<nat>, rank: string -> nat)
    requires Knot(tasks, knot)
    ensures !Ranked(tasks, rank)
  {
    var i := LowestRank(tasks, knot, rank);
    assert Tied(tasks, knot, i);
    var j :| j in knot && WaitsFor(tasks, i, j);
    assert tasks[i] in tasks && tasks[j] in tasks;
  }

  // ---------------------------------------------------------------- scan order

  function Bit(b: bool): int {
    if b then 1 else 0
  }

  function OrderKey(t: Task): seq<int> {
    [t.priority, Bit(t.dependsOn != [])]
  }

  predicate TaskBefore(a: Task, b: Task) {
    LexLeq(OrderKey(a), OrderKey(b))
  }

  function Ascending(pending: set<nat>, n: nat): (r: seq<nat>)
    ensures forall i :: i in r <==> i in pending && i < n
    ensures forall j :: 0 <= j < |r| ==> r[j] < n
    ensures forall j, k :: 0 <= j < k < |r| ==> r[j] < r[k]
  {
    if n == 0 then [] else Ascending(pending, n - 1) + (if n - 1 in pending then [n - 1] else [])
  }

  function ScanOrder(tasks: seq<Task>, pending: set<nat>): seq<nat> {
    Sort((i: nat, j: nat) => i < |tasks| && j < |tasks| && TaskBefore(tasks[i], tasks[j]), Ascending(pending, |tasks|))
  }

  lemma ScanCoversPending(tasks: seq<Task>, pending: set<nat>)
    requires forall i :: i in pending ==> i < |tasks|
    ensures forall i :: i in ScanOrder(tasks, pending) <==> i in pending
    ensures Distinct(ScanOrder(tasks, pending))
  {
    SortKeepsDistinct((i: nat, j: nat) => i < |tasks| && j < |tasks| && TaskBefore(tasks[i], tasks[j]),
                      Ascending(pending, |tasks|));
  }

  // ---------------------------------------------------------------- the run

  predicate Blocked(t: Task, status: map<string, TaskStatus>, ids: set<string>) {
    exists d :: d in t.dependsOn && (d !in ids || (d in status && status[d] != Completed))
  }

  predicate Ready(t: Task, status: map<string, TaskStatus>) {
    forall d :: d in t.dependsOn ==> d in status && status[d] == Completed
  }

  /** Neither skipped nor run in this scan. */
  predicate Waits(t: Task, status: map<string, TaskStatus>, ids: set<string>) {
    !Blocked(t, status, ids) && !Ready(t, status)
  }

  function Indexes(n: nat): (r: set<nat>)
    ensures forall i: nat :: i in r <==> i < n
  {
    if n == 0 then {} else Indexes(n - 1) + {n - 1}
  }

  ghost predicate Settled(tasks: seq<Task>, pending: set<nat>, status: map<string, TaskStatus>) {
    && (forall i :: i in pending ==> i < |tasks|)
    && (forall i :: 0 <= i < |tasks| ==> (i in pending <==> tasks[i].id !in status))
    && (forall i :: 0 <= i < |tasks| && i !in pending ==> status[tasks[i].id] == FinalStatus(tasks, tasks[i]))
    && (forall id :: id in status ==> exists i :: 0 <= i < |tasks| && tasks[i].id == id)
  }

  ghost predicate CompletedBefore(executions: seq<Execution>, k: int, id: string) {
    exists j :: 0 <= j < k && j < |executions| && executions[j].taskId == id && executions[j].status == Completed
  }

  ghost predicate RanAfterDependencies(tasks: seq<Task>, executions: seq<Execution>, k: nat)
    requires k < |executions|
  {
    forall t, d :: t in tasks && t.id == executions[k].taskId && d in t.dependsOn ==> CompletedBefore(executions, k, d)
  }

  /** One execution for each settled task, and a task ran only after all it depends on had
      completed. */
  ghost predicate Recorded(tasks: seq<Task>, status: map<string, TaskStatus>, executions: seq<Execution>) {
    && (forall k :: 0 <= k < |executions| ==>
          executions[k].taskId in status && executions[k].status == status[executions[k].taskId])
    && (forall j, k :: 0 <= j < k < |executions| ==> executions[j].taskId != executions[k].taskId)
    && (forall id :: id in status ==> exists k :: 0 <= k < |executions| && executions[k].taskId == id)
    && (forall k :: 0 <= k < |executions| && executions[k].ran ==> RanAfterDependencies(tasks, executions, k))
  }

  lemma BlockedIsSkipped(tasks: seq<Task>, pending: set<nat>, status: map<string, TaskStatus>, t: Task, ids: set<string>)
    requires DistinctIds(tasks) && Settled(tasks, pending, status) && t in tasks
    requires ids == set u | u in tasks :: u.id
    requires Blocked(t, status, ids)
    ensures FinalStatus(tasks, t) == Skipped && !DependenciesComplete(tasks, t)
  {
    var d :| d in t.dependsOn && (d !in ids || (d in status && status[d] != Completed));
    assert !Completes(tasks, d) by {
      if d !in ids {
        forall n: nat ensures !CompletesBy(tasks, d, n) {
        }
      } else {
        var i :| 0 <= i < |tasks| && tasks[i].id == d;
        CompletesIsFixpoint(tasks, tasks[i]);
      }
    }
  }

  lemma ReadyCompletes(tasks: seq<Task>, pending: set<nat>, status: map<string, TaskStatus>, t: Task)
    requires DistinctIds(tasks) && Settled(tasks, pending, status) && Ready(t, status)
    ensures DependenciesComplete(tasks, t)
  {
    forall d | d in t.dependsOn ensures Completes(tasks, d) {
      var i :| 0 <= i < |tasks| && tasks[i].id == d;
      CompletesIsFixpoint(tasks, tasks[i]);
    }
  }

  /** When no pending task is blocked or ready, none of them will ever complete. */
  lemma StuckNeverCompletes(tasks: seq<Task>, pending: set<nat>, status: map<string, TaskStatus>)
    requires DistinctIds(tasks) && Settled(tasks, pending, status)
    requires forall i :: i in pending ==> !Ready(tasks[i], status)
    ensures forall i :: i in pending ==> FinalStatus(tasks, tasks[i]) == Skipped && !DependenciesComplete(tasks, tasks[i])
  {
    var done := set id | id in status && status[id] == Completed;
    forall t | t in tasks && Outcome(t) == Completed && (forall d :: d in t.dependsOn ==> d in done) ensures t.id in done {
      var i :| 0 <= i < |tasks| && tasks[i] == t;
      assert Ready(t, status);
      ReadyCompletes(tasks, pending, status, t);
    }
    assert ClosedUnder(tasks, done);
    forall i | i in pending ensures !DependenciesComplete(tasks, tasks[i]) {
      if DependenciesComplete(tasks, tasks[i]) {
        forall d | d in tasks[i].dependsOn ensures d in done {
          var n: nat :| CompletesBy(tasks, d, n);
          CompletesIsLeast(tasks, done, d, n);
        }
        assert Ready(tasks[i], status);
      }
    }
  }

  /** ... and they wait for each other. */
  lemma StuckIsKnot(tasks: seq<Task>, pending: set<nat>, status: map<string, TaskStatus>, ids: set<string>)
    requires Settled(tasks, pending, status) && pending != {} && ids == set u | u in tasks :: u.id
    requires forall i :: i in pending ==> Waits(tasks[i], status, ids)
    ensures Knot(tasks, pending)
  {
    forall i | i in pending ensures Tied(tasks, pending, i) {
      var d :| d in tasks[i].dependsOn && !(d in status && status[d] == Completed);
      assert d in ids && d !in status;
      var j: nat :| j < |tasks| && tasks[j].id == d;
      assert j in pending && WaitsFor(tasks, i, j);
    }
  }

  lemma SettleOne(tasks: seq<Task>, pending: set<nat>, status: map<string, TaskStatus>, executions: seq<Execution>,
                  i: nat, s: TaskStatus, ran: bool)
    requires DistinctIds(tasks) && Settled(tasks, pending, status) && Recorded(tasks, status, executions)
    requires i in pending && s == FinalStatus(tasks, tasks[i])
    requires ran ==> Ready(tasks[i], status)
    ensures Settled(tasks, pending - {i}, status[tasks[i].id := s])
    ensures Recorded(tasks, status[tasks[i].id := s], executions + [Execution(tasks[i].id, s, ran)])
  {
    var st, ex := status[tasks[i].id := s], executions + [Execution(tasks[i].id, s, ran)];
    assert Settled(tasks, pending - {i}, st);
    forall id | id in st ensures exists k :: 0 <= k < |ex| && ex[k].taskId == id {
      if id == tasks[i].id {
        assert ex[|executions|].taskId == id;
      } else {
        var k :| 0 <= k < |executions| && executions[k].taskId == id;
        assert ex[k].taskId == id;
      }
    }
    forall k | 0 <= k < |ex| && ex[k].ran ensures RanAfterDependencies(tasks, ex, k) {
      forall t, d | t in tasks && t.id == ex[k].taskId && d in t.dependsOn ensures CompletedBefore(ex, k, d) {
        if k < |executions| {
          assert RanAfterDependencies(tasks, executions, k) && CompletedBefore(executions, k, d);
          var j :| 0 <= j < k && j < |executions| && executions[j].taskId == d && executions[j].status == Completed;
          assert ex[j] == executions[j];
        } else {
          var m :| 0 <= m < |tasks| && tasks[m] == t;
          assert m == i;
          var j :| 0 <= j < |executions| && executions[j].taskId == d;
          assert ex[j] == executions[j];
        }
      }
    }
  }

  /** The scan's two ways of settling a task agree with the task's meaning. */
  lemma SettleNext(tasks: seq<Task>, pending: set<nat>, status: map<string, TaskStatus>, executions: seq<Execution>,
                   i: nat, ids: set<string>)
    requires DistinctIds(tasks) && Settled(tasks, pending, status) && Recorded(tasks, status, executions)
    requires ids == set u | u in tasks :: u.id
    requires i in pending && !Waits(tasks[i], status, ids)
    ensures var ran := !Blocked(tasks[i], status, ids);
            var s := if ran then Outcome(tasks[i]) else Skipped;
            && Settled(tasks, pending - {i}, status[tasks[i].id := s])
            && Recorded(tasks, status[tasks[i].id := s], executions + [Execution(tasks[i].id, s, ran)])
  {
    if Blocked(tasks[i], status, ids) {
      BlockedIsSkipped(tasks, pending, status, tasks[i], ids);
      SettleOne(tasks, pending, status, executions, i, Skipped, false);
    } else {
      ReadyCompletes(tasks, pending, status, tasks[i]);
      SettleOne(tasks, pending, status, executions, i, Outcome(tasks[i]), true);
    }
  }

  // ---------------------------------------------------------------- the plan order is immaterial

  lemma {:induction false} SameMembersComplete(a: seq<Task>, b: seq<Task>, id: string, n: nat)
    requires forall t :: t in a ==> t in b
    requires CompletesBy(a, id, n)
    ensures CompletesBy(b, id, n)
    decreases n
  {
    var t :| t in a && CompletesAs(a, t, id, n);
    forall d | d in t.dependsOn ensures CompletesBy(b, d, n - 1) {
      SameMembersComplete(a, b, d, n - 1);
    }
    assert CompletesAs(b, t, id, n);
  }

  lemma SameMembersStatus(a: seq<Task>, b: seq<Task>, t: Task)
    requires forall u :: u in a <==> u in b
    ensures FinalStatus(a, t) == FinalStatus(b, t)
  {
    forall d | d in t.dependsOn ensures Completes(a, d) <==> Completes(b, d) {
      if Completes(a, d) {
        var n: nat :| CompletesBy(a, d, n);
        SameMembersComplete(a, b, d, n);
      }
      if Completes(b, d) {
        var n: nat :| CompletesBy(b, d, n);
        SameMembersComplete(b, a, d, n);
      }
    }
  }

  lemma PlanKeepsTasks(tasks: seq<Task>)
    requires DistinctIds(tasks)
    ensures forall t :: t in Sort(TaskBefore, tasks) <==> t in tasks
    ensures DistinctIds(Sort(TaskBefore, tasks))
  {
    SortKeepsDistinct(TaskBefore, tasks);
    var plan := Sort(TaskBefore, tasks);
    forall i, j | 0 <= i < j < |plan| ensures plan[i].id != plan[j].id {
      assert plan[i] in plan && plan[j] in plan;
      var k :| 0 <= k < |tasks| && tasks[k] == plan[i];
      var m :| 0 <= m < |tasks| && tasks[m] == plan[j];
    }
  }

  // ---------------------------------------------------------------- the loops

  /** One scan over the pending tasks in priority order. */
  method Scan(plan: seq<Task>, ids: set<string>, pending0: set<nat>, status0: map<string, TaskStatus>, executions0: seq<Execution>)
    returns (pending: set<nat>, status: map<string, TaskStatus>, executions: seq<Execution>, progress: bool)
    requires DistinctIds(plan) && ids == set t | t in plan :: t.id
    requires Settled(plan, pending0, status0) && Recorded(plan, status0, executions0)
    ensures Settled(plan, pending, status) && Recorded(plan, status, executions)
    ensures pending <= pending0 && (progress ==> pending < pending0)
    ensures !progress ==> pending == pending0 && status == status0
    ensures !progress ==> forall i :: i in pending ==> i < |plan| && Waits(plan[i], status, ids)
  {
    pending, status, executions, progress := pending0, status0, executions0, false;
    var order := ScanOrder(plan, pending);
    ScanCoversPending(plan, pending);
    for n := 0 to |order|
      invariant Settled(plan, pending, status) && Recorded(plan, status, executions)
      invariant pending <= pending0 && (progress ==> pending < pending0)
      invariant forall m :: n <= m < |order| ==> order[m] in pending
      invariant !progress ==> pending == pending0 && status == status0
      invariant !progress ==> forall m :: 0 <= m < n ==> order[m] < |plan| && Waits(plan[order[m]], status, ids)
    {
      var i := order[n];
      var t := plan[i];
      if Waits(t, status, ids) {
        continue;
      }
      var ran := !Blocked(t, status, ids);
      var s := if ran then Outcome(t) else Skipped;
      SettleNext(plan, pending, status, executions, i, ids);
      status := status[t.id := s];
      executions := executions + [Execution(t.id, s, ran)];
      pending := pending - {i};
      progress := true;
    }
    if !progress {
      forall i | i in pending ensures Waits(plan[i], status, ids) {
        var m :| 0 <= m < |order| && order[m] == i;
      }
    }
  }

  /** The fallback: everything still pending is recorded as skipped. */
  method SkipPending(plan: seq<Task>, pending0: set<nat>, status0: map<string, TaskStatus>, executions0: seq<Execution>)
    returns (status: map<string, TaskStatus>, executions: seq<Execution>)
    requires DistinctIds(plan)
    requires Settled(plan, pending0, status0) && Recorded(plan, status0, executions0)
    requires forall i :: i in pending0 ==> FinalStatus(plan, plan[i]) == Skipped
    ensures Settled(plan, {}, status) && Recorded(plan, status, executions)
  {
    status, executions := status0, executions0;
    var order := ScanOrder(plan, pending0);
    ScanCoversPending(plan, pending0);
    ghost var pending := pending0;
    for n := 0 to |order|
      invariant Settled(plan, pending, status) && Recorded(plan, status, executions)
      invariant pending <= pending0
      invariant forall i :: i in pending <==> exists m :: n <= m < |order| && order[m] == i
    {
      var i := order[n];
      SettleOne(plan, pending, status, executions, i, Skipped, false);
      status := status[plan[i].id := Skipped];
      executions := executions + [Execution(plan[i].id, Skipped, false)];
      pending := pending - {i};
    }
    assert pending == {};
  }

  /** What a finished run promises: every task has its order-free status and one execution. */
  ghost predicate RunMeans(tasks: seq<Task>, status: map<string, TaskStatus>, executions: seq<Execution>) {
    && (forall t :: t in tasks ==> t.id in status && status[t.id] == FinalStatus(tasks, t))
    && (forall id :: id in status ==> exists t :: t in tasks && t.id == id)
    && Recorded(tasks, status, executions)
  }

  /** The scheduler; `fallback` says that the cycle branch was reached. */
  method Run(tasks: seq<Task>) returns (status: map<string, TaskStatus>, executions: seq<Execution>, fallback: bool)
    requires DistinctIds(tasks)
    ensures RunMeans(Sort(TaskBefore, tasks), status, executions)
    ensures forall t :: t in tasks ==> t.id in status && status[t.id] == FinalStatus(tasks, t)
    ensures fallback ==> exists knot :: Knot(Sort(TaskBefore, tasks), knot)
    ensures forall rank :: Ranked(tasks, rank) ==> !fallback
  {
    var plan := Sort(TaskBefore, tasks);
    PlanKeepsTasks(tasks);
    fallback, executions, status := false, [], map[];
    var pending := Indexes(|plan|);
    var ids := set t | t in plan :: t.id;
    while pending != {}
      invariant Settled(plan, pending, status) && Recorded(plan, status, executions)
      invariant fallback ==> exists knot :: Knot(plan, knot)
      decreases pending
    {
      var progress;
      pending, status, executions, progress := Scan(plan, ids, pending, status, executions);
      if progress {
        continue;
      }
      StuckNeverCompletes(plan, pending, status);
      StuckIsKnot(plan, pending, status, ids);
      fallback := true;
      status, executions := SkipPending(plan, pending, status, executions);
      pending := {};
    }
    SettledMeans(plan, status, executions);
    forall rank | Ranked(tasks, rank) ensures !fallback {
      RankedPlanHasNoKnot(tasks, rank);
    }
    forall t | t in tasks ensures t.id in status && status[t.id] == FinalStatus(tasks, t) {
      SameMembersStatus(plan, tasks, t);
    }
  }

  /** On an acyclic graph, one whose dependencies fall in some ranking, no tasks wait for each other. */
  lemma RankedPlanHasNoKnot(tasks: seq<Task>, rank: string -> nat)
    requires DistinctIds(tasks) && Ranked(tasks, rank)
    ensures forall knot :: !Knot(Sort(TaskBefore, tasks), knot)
  {
    var plan := Sort(TaskBefore, tasks);
    PlanKeepsTasks(tasks);
    assert Ranked(plan, rank);
    forall knot ensures !Knot(plan, knot) {
      if Knot(plan, knot) {
        KnotHasNoRank(plan, knot, rank);
      }
    }
  }

  lemma SettledMeans(tasks: seq<Task>, status: map<string, TaskStatus>, executions: seq<Execution>)
    requires Settled(tasks, {}, status) && Recorded(tasks, status, executions)
    ensures RunMeans(tasks, status, executions)
  {
    forall id | id in status ensures exists t :: t in tasks && t.id == id {
      var i :| 0 <= i < |tasks| && tasks[i].id == id;
      assert tasks[i] in tasks;
    }
  }
}
