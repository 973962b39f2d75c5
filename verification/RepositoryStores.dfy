/** The two stores as the program has them: objects whose dictionaries, or tables, the saves
    update in place. Every method is proved against one `Operation` of Repositories.
    The dictionary store checks first and then replaces entries of its maps.
    The table store deletes and inserts rows; an insert under a stored id, or for an investigation
    without a record, breaks a constraint and undoes the whole save. */
module RepositoryStores {
  import opened Options
  import opened Repositories

  class InMemoryRepository {
    var records: map<Investigation, Record>
    var plans: map<Investigation, Plan>
    var tasks: map<Investigation, seq<Task>>
    var executions: map<Investigation, map<string, Execution>>
    var findings: map<Investigation, map<string, Finding>>
    var reviews: map<Investigation, Review>

    function State(): Memory
      reads this
    {
      Memory(records, plans, tasks, executions, findings, reviews)
    }

    constructor ()
      ensures State() == NO_MEMORY
    {
      records, plans, tasks, executions, findings, reviews := map[], map[], map[], map[], map[], map[];
    }

    static method PutItems<P>(bucket: map<string, Item<P>>, xs: seq<Item<P>>) returns (r: map<string, Item<P>>)
      ensures r == PutAll(bucket, xs)
    {
      r := bucket;
      for i := 0 to |xs|
        invariant PutAll(r, xs[i..]) == PutAll(bucket, xs)
      {
        assert xs[i..][0] == xs[i] && xs[i..][1..] == xs[i + 1..];
        r := r[xs[i].id := xs[i]];
      }
      assert xs[|xs|..] == [];
    }

    method SavePlanAndTasks(plan: Plan) returns (o: Outcome)
      modifies this
      ensures (State(), o) == MemoryApply(old(State()), SavePlan(plan))
    {
      if !TasksValid(plan.tasks, plan.run) {
        return Rejected;
      }
      plans := plans[plan.investigation := plan];
      tasks := tasks[plan.investigation := plan.tasks];
      o := Saved;
    }

    method SaveTaskList(inv: Investigation, ts: seq<Task>) returns (o: Outcome)
      modifies this
      ensures (State(), o) == MemoryApply(old(State()), SaveTasks(inv, ts))
    {
      if !TasksValid(ts, None) {
        return Rejected;
      }
      tasks := tasks[inv := ts];
      o := Saved;
    }

    method SaveExecutionList(inv: Investigation, xs: seq<Execution>) returns (o: Outcome)
      modifies this
      ensures (State(), o) == MemoryApply(old(State()), SaveExecutions(inv, xs))
    {
      var bucket := PutItems(Bucket(executions, inv), xs);
      executions := executions[inv := bucket];
      o := Saved;
    }

    method SaveFindingList(inv: Investigation, fs: seq<Finding>) returns (o: Outcome)
      modifies this
      ensures (State(), o) == MemoryApply(old(State()), SaveFindings(inv, fs))
    {
      if !OwnedBy(inv, fs) {
        return Rejected;
      }
      var bucket := Bucket(findings, inv);
      findings := findings[inv := bucket];
      if !FindingsValid(fs, bucket, ById(TaskList(tasks, inv)), ReviewOf(reviews, inv)) {
        return Rejected;
      }
      bucket := PutItems(bucket, fs);
      findings := findings[inv := bucket];
      assert old(findings)[inv := Bucket(old(findings), inv)][inv := bucket] == old(findings)[inv := bucket];
      o := Saved;
    }

    method SaveMultiAgentResult(inv: Investigation, fs: seq<Finding>, xs: seq<Execution>, review: Option<Review>) returns (o: Outcome)
      modifies this
      ensures (State(), o) == MemoryApply(old(State()), SaveResult(inv, fs, xs, review))
    {
      if !ResultValid(inv, fs, xs, review) {
        return Rejected;
      }
      var findingBucket := PutItems(KeepCustom(Bucket(findings, inv)), fs);
      var executionBucket := PutItems(KeepCustom(Bucket(executions, inv)), xs);
      findings := findings[inv := findingBucket];
      executions := executions[inv := executionBucket];
      if review.Some? {
        reviews := reviews[inv := review.value];
      } else if inv in reviews && reviews[inv].layer == Sdk {
        reviews := reviews - {inv};
      }
      o := Saved;
    }

    method SaveCoordinationReview(review: Review) returns (o: Outcome)
      modifies this
      ensures (State(), o) == MemoryApply(old(State()), SaveReview(review))
    {
      reviews := reviews[review.investigation := review];
      o := Saved;
    }

    method ActivateProjection(inv: Investigation, run: RunOwner) returns (o: Outcome)
      modifies this
      ensures (State(), o) == MemoryApply(old(State()), Activate(inv, run))
    {
      if inv !in records || !MayActivate(records[inv], run) {
        return Rejected;
      }
      records := records[inv := records[inv].(active := Some(run), projection := 0)];
      plans := plans - {inv};
      tasks := tasks - {inv};
      findings := findings - {inv};
      executions := executions - {inv};
      reviews := reviews - {inv};
      o := Saved;
    }
  }

  class SqliteRepository {
    var records: map<Investigation, Record>
    var plans: map<string, Row<Plan>>
    var tasks: map<string, TaskRow>
    var executions: map<string, Row<Execution>>
    var findings: map<string, Row<Finding>>
    var reviews: map<string, Row<Review>>

    ghost function State(): Tables
      reads this
    {
      Tables(records, plans, tasks, executions, findings, reviews)
    }

    constructor ()
      ensures State() == NO_TABLES
    {
      records, plans, tasks, executions, findings, reviews := map[], map[], map[], map[], map[], map[];
    }

    /** DELETE by id, then INSERT row by row; a repeated key aborts. */
    static method UpsertRows<P(==)>(t: map<string, Row<Item<P>>>, inv: Investigation, xs: seq<Item<P>>)
      returns (r: map<string, Row<Item<P>>>, conflict: bool)
      ensures Upsert(t, inv, xs) == if conflict then None else Some(r)
    {
      r, conflict := t - Ids(xs), false;
      for i := 0 to |xs|
        invariant !conflict && InsertItems(r, inv, xs[i..]) == Upsert(t, inv, xs)
      {
        assert xs[i..][0] == xs[i] && xs[i..][1..] == xs[i + 1..];
        if xs[i].id in r {
          conflict := true;
          return;
        }
        r := r[xs[i].id := Row(inv, xs[i])];
      }
      assert xs[|xs|..] == [];
    }

    static method ReplaceTaskRows(t: map<string, TaskRow>, inv: Investigation, ts: seq<Task>)
      returns (r: map<string, TaskRow>, conflict: bool)
      ensures ReplaceTasks(t, inv, ts) == if conflict then None else Some(r)
    {
      r, conflict := DeleteTasks(t, inv), false;
      for position := 0 to |ts|
        invariant !conflict && InsertTasks(r, inv, ts, position) == ReplaceTasks(t, inv, ts)
      {
        if ts[position].id in r {
          conflict := true;
          return;
        }
        r := r[ts[position].id := TaskRow(inv, position, ts[position])];
      }
    }

    method FetchReview(inv: Investigation) returns (review: Option<Review>)
      requires exists m :: SameReviews(m, reviews)
      ensures review == ReviewRow(reviews, inv)
    {
      ghost var m :| SameReviews(m, reviews);
      ReviewRowIsReview(m, reviews, inv);
      if id :| id in reviews && reviews[id].investigation == inv {
        review := Some(reviews[id].item);
      } else {
        review := None;
      }
    }

    method SavePlanAndTasks(plan: Plan) returns (o: Outcome)
      modifies this
      ensures (State(), o) == TablesApply(old(State()), SavePlan(plan))
    {
      if !TasksValid(plan.tasks, plan.run) {
        return Rejected;
      }
      var left := DeleteFor(plans, plan.investigation);
      var taskRows, conflict := ReplaceTaskRows(tasks, plan.investigation, plan.tasks);
      if plan.id in left || conflict || plan.investigation !in records {
        return Stopped;
      }
      plans := left[plan.id := Row(plan.investigation, plan)];
      tasks := taskRows;
      o := Saved;
    }

    method SaveTaskList(inv: Investigation, ts: seq<Task>) returns (o: Outcome)
      modifies this
      ensures (State(), o) == TablesApply(old(State()), SaveTasks(inv, ts))
    {
      if !TasksValid(ts, None) {
        return Rejected;
      }
      var taskRows, conflict := ReplaceTaskRows(tasks, inv, ts);
      if conflict || (ts != [] && inv !in records) {
        return Stopped;
      }
      tasks := taskRows;
      o := Saved;
    }

    method SaveExecutionList(inv: Investigation, xs: seq<Execution>) returns (o: Outcome)
      modifies this
      ensures (State(), o) == TablesApply(old(State()), SaveExecutions(inv, xs))
    {
      var rows, conflict := UpsertRows(executions, inv, xs);
      if conflict || (xs != [] && inv !in records) {
        return Stopped;
      }
      executions := rows;
      o := Saved;
    }

    method SaveFindingList(inv: Investigation, fs: seq<Finding>) returns (o: Outcome)
      requires exists m :: SameReviews(m, reviews)
      modifies this
      ensures (State(), o) == TablesApply(old(State()), SaveFindings(inv, fs))
    {
      if !OwnedBy(inv, fs) {
        return Rejected;
      }
      var review := FetchReview(inv);
      if !FindingsValid(fs, ItemsOf(findings, inv), TasksOf(tasks, inv), review) {
        return Rejected;
      }
      var rows, conflict := UpsertRows(findings, inv, fs);
      if conflict || (fs != [] && inv !in records) {
        return Stopped;
      }
      findings := rows;
      o := Saved;
    }

    /** The review rows after the result's review, or the removal of an SDK review, is applied. */
    method MergeReviewRows(inv: Investigation, review: Option<Review>) returns (rows: map<string, Row<Review>>, conflict: bool)
      requires exists m :: SameReviews(m, reviews)
      ensures MergeReview(reviews, inv, review) == if conflict then None else Some(rows)
    {
      var existing := FetchReview(inv);
      rows, conflict := reviews, false;
      if review.Some? {
        rows := DeleteFor(reviews, inv);
        conflict := review.value.id in rows;
        rows := rows[review.value.id := Row(inv, review.value)];
      } else if existing.Some? && existing.value.layer == Sdk {
        rows := DeleteFor(reviews, inv);
      }
    }

    method SaveMultiAgentResult(inv: Investigation, fs: seq<Finding>, xs: seq<Execution>, review: Option<Review>) returns (o: Outcome)
      requires exists m :: SameReviews(m, reviews)
      modifies this
      ensures (State(), o) == TablesApply(old(State()), SaveResult(inv, fs, xs, review))
    {
      if !ResultValid(inv, fs, xs, review) {
        return Rejected;
      }
      var findingRows, findingConflict := UpsertRows(DeleteSdk(findings, inv), inv, fs);
      var executionRows, executionConflict := UpsertRows(DeleteSdk(executions, inv), inv, xs);
      var reviewRows, reviewConflict := MergeReviewRows(inv, review);
      var inserts := fs != [] || xs != [] || review.Some?;
      if findingConflict || executionConflict || reviewConflict || (inserts && inv !in records) {
        return Stopped;
      }
      findings, executions, reviews := findingRows, executionRows, reviewRows;
      o := Saved;
    }

    method SaveCoordinationReview(review: Review) returns (o: Outcome)
      modifies this
      ensures (State(), o) == TablesApply(old(State()), SaveReview(review))
    {
      var left := DeleteFor(reviews, review.investigation);
      if review.id in left || review.investigation !in records {
        return Stopped;
      }
      reviews := left[review.id := Row(review.investigation, review)];
      o := Saved;
    }

    method ActivateProjection(inv: Investigation, run: RunOwner) returns (o: Outcome)
      modifies this
      ensures (State(), o) == TablesApply(old(State()), Activate(inv, run))
    {
      if inv !in records || !MayActivate(records[inv], run) {
        return Rejected;
      }
      records := records[inv := records[inv].(active := Some(run), projection := 0)];
      plans := DeleteFor(plans, inv);
      tasks := DeleteTasks(tasks, inv);
      executions := DeleteFor(executions, inv);
      findings := DeleteFor(findings, inv);
      reviews := DeleteFor(reviews, inv);
      o := Saved;
    }
  }
}
