/** Two stores with one meaning: nested dictionaries, and flat tables keyed by row id that every
    save deletes from and inserts into. */
module Repositories {
  import opened Options

  type Investigation = string
  type RunOwner = string

  datatype Layer = Custom | Sdk

  /** A stored execution or finding: its id, its execution layer, and the rest. */
  datatype Item<+P> = Item(id: string, layer: Layer, body: P)

  datatype ExecutionBody = ExecutionBody(run: Option<RunOwner>, payload: nat)

  datatype FindingBody = FindingBody(
    investigation: Investigation, actor: string, round: nat, revises: string, taskId: string,
    run: Option<RunOwner>, assessmentId: Option<string>, payload: nat)

  type Execution = Item<ExecutionBody>
  type Finding = Item<FindingBody>

  datatype Task = Task(id: string, run: Option<RunOwner>, round: Option<nat>, assessmentId: Option<string>, payload: nat)

  datatype Assessment = Assessment(id: string, run: Option<RunOwner>, taskIds: seq<string>)

  datatype Review = Review(
    id: string, investigation: Investigation, layer: Layer, agentMode: bool, run: Option<RunOwner>,
    assessments: seq<Assessment>, payload: nat)

  datatype Plan = Plan(id: string, investigation: Investigation, run: Option<RunOwner>, tasks: seq<Task>, payload: nat)

  /** `projection` stands for the evidence, report and other latest outputs; 0 is none of them. */
  datatype Record = Record(active: Option<RunOwner>, finished: bool, projection: nat)

  const INVESTIGATOR := "InvestigatorAgent"

  datatype Operation =
    | SaveRecord(investigation: Investigation, record: Record)
    | SavePlan(plan: Plan)
    | SaveTasks(investigation: Investigation, tasks: seq<Task>)
    | SaveExecutions(investigation: Investigation, executions: seq<Execution>)
    | SaveFindings(investigation: Investigation, findings: seq<Finding>)
    | SaveReview(review: Review)
    | SaveResult(investigation: Investigation, findings: seq<Finding>, executions: seq<Execution>, newReview: Option<Review>)
    | Activate(investigation: Investigation, run: RunOwner)

  /** Saved, refused by validation, or stopped by a constraint of the tables, which undoes the save:
      a duplicate primary key, or a row for an investigation without a record. */
  datatype Outcome = Saved | Rejected | Stopped

  // ---------------------------------------------------------------- shared validation

  function Owners(runs: seq<Option<RunOwner>>): set<RunOwner> {
    set r | r in runs && r.Some? :: r.value
  }

  function TaskRuns(ts: seq<Task>): seq<Option<RunOwner>> {
    seq(|ts|, k requires 0 <= k < |ts| => ts[k].run)
  }

  predicate TasksValid(ts: seq<Task>, planRun: Option<RunOwner>) {
    |Owners(TaskRuns(ts) + [planRun])| <= 1
  }

  /** The same actor's finding that a second-round finding claims to revise. */
  predicate RevisesSameActor(f: Finding, all: map<string, Finding>) {
    f.body.round == 2 && f.body.actor != INVESTIGATOR ==>
      f.body.revises in all && all[f.body.revises].body.actor == f.body.actor
  }

  function FindAssessment(xs: seq<Assessment>, id: Option<string>): Option<Assessment> {
    if xs == [] then None
    else if id == Some(xs[0].id) then Some(xs[0])
    else FindAssessment(xs[1..], id)
  }

  /** An investigator finding belongs to a task of its own run and round and, in round two, to
      the assessment that asked for it. */
  predicate Linked(f: Finding, tasks: map<string, Task>, review: Option<Review>) {
    f.body.actor == INVESTIGATOR ==>
      && f.body.taskId in tasks
      && tasks[f.body.taskId].run == f.body.run
      && tasks[f.body.taskId].round == Some(f.body.round)
      && (f.body.round == 2 ==>
            var a := FindAssessment(if review.Some? then review.value.assessments else [], f.body.assessmentId);
            && a.Some? && a.value.run == f.body.run
            && tasks[f.body.taskId].assessmentId == Some(a.value.id)
            && f.body.taskId in a.value.taskIds)
      && (review.Some? ==> review.value.run == f.body.run)
  }

  predicate OwnedBy(inv: Investigation, fs: seq<Finding>) {
    forall f :: f in fs ==> f.body.investigation == inv
  }

  predicate FindingsValid(fs: seq<Finding>, stored: map<string, Finding>, tasks: map<string, Task>, review: Option<Review>) {
    var all := PutAll(stored, fs);
    forall f :: f in fs ==> RevisesSameActor(f, all) && Linked(f, tasks, review)
  }

  function AssessmentRuns(r: Option<Review>): seq<Option<RunOwner>> {
    if r.None? then []
    else seq(|r.value.assessments|, k requires 0 <= k < |r.value.assessments| => r.value.assessments[k].run) + [r.value.run]
  }

  predicate ResultValid(inv: Investigation, fs: seq<Finding>, xs: seq<Execution>, r: Option<Review>) {
    && OwnedBy(inv, fs)
    && (r.Some? ==> r.value.investigation == inv)
    && |Owners(seq(|fs|, k requires 0 <= k < |fs| => fs[k].body.run)
               + seq(|xs|, k requires 0 <= k < |xs| => xs[k].body.run) + AssessmentRuns(r))| <= 1
    && (forall f :: f in fs ==> RevisesSameActor(f, PutAll(map[], fs)))
    && (r.Some? && r.value.agentMode ==>
          && r.value.run.Some?
          && (forall f :: f in fs ==> f.body.run == r.value.run)
          && (forall x :: x in xs ==> x.body.run == r.value.run)
          && (forall a :: a in r.value.assessments ==> a.run == r.value.run))
  }

  predicate MayActivate(r: Record, run: RunOwner) {
    r.active.None? || r.active == Some(run) || r.finished
  }

  // ---------------------------------------------------------------- dictionaries

  datatype Memory = Memory(
    records: map<Investigation, Record>,
    plans: map<Investigation, Plan>,
    tasks: map<Investigation, seq<Task>>,
    executions: map<Investigation, map<string, Execution>>,
    findings: map<Investigation, map<string, Finding>>,
    reviews: map<Investigation, Review>)

  function Bucket<P>(buckets: map<Investigation, map<string, Item<P>>>, inv: Investigation): map<string, Item<P>> {
    if inv in buckets then buckets[inv] else map[]
  }

  function PutAll<P>(bucket: map<string, Item<P>>, xs: seq<Item<P>>): map<string, Item<P>>
    decreases |xs|
  {
    if xs == [] then bucket else PutAll(bucket[xs[0].id := xs[0]], xs[1..])
  }

  function TaskList(tasks: map<Investigation, seq<Task>>, inv: Investigation): seq<Task> {
    if inv in tasks then tasks[inv] else []
  }

  function ById(ts: seq<Task>): map<string, Task> {
    if ts == [] then map[] else ById(ts[..|ts| - 1])[ts[|ts| - 1].id := ts[|ts| - 1]]
  }

  function KeepCustom<P>(bucket: map<string, Item<P>>): map<string, Item<P>> {
    map id | id in bucket && bucket[id].layer != Sdk :: bucket[id]
  }

  function ReviewOf(reviews: map<Investigation, Review>, inv: Investigation): Option<Review> {
    if inv in reviews then Some(reviews[inv]) else None
  }

  function ReplaceReview(reviews: map<Investigation, Review>, inv: Investigation, review: Option<Review>): map<Investigation, Review> {
    if review.Some? then reviews[inv := review.value]
    else if inv in reviews && reviews[inv].layer == Sdk then reviews - {inv}
    else reviews
  }

  function MemoryApply(m: Memory, op: Operation): (Memory, Outcome) {
    match op
    case SaveRecord(inv, record) => (m.(records := m.records[inv := record]), Saved)
    case SavePlan(plan) =>
      if TasksValid(plan.tasks, plan.run) then
        (m.(plans := m.plans[plan.investigation := plan], tasks := m.tasks[plan.investigation := plan.tasks]), Saved)
      else (m, Rejected)
    case SaveTasks(inv, ts) =>
      if TasksValid(ts, None) then (m.(tasks := m.tasks[inv := ts]), Saved) else (m, Rejected)
    case SaveExecutions(inv, xs) =>
      (m.(executions := m.executions[inv := PutAll(Bucket(m.executions, inv), xs)]), Saved)
    case SaveFindings(inv, fs) =>
      var bucket := Bucket(m.findings, inv);
      if !OwnedBy(inv, fs) then (m, Rejected)
      else if FindingsValid(fs, bucket, ById(TaskList(m.tasks, inv)), ReviewOf(m.reviews, inv)) then
        (m.(findings := m.findings[inv := PutAll(bucket, fs)]), Saved)
      else (m.(findings := m.findings[inv := bucket]), Rejected)  // the empty bucket stays behind
    case SaveReview(review) =>
      (m.(reviews := m.reviews[review.investigation := review]), Saved)
    case SaveResult(inv, fs, xs, review) =>
      if ResultValid(inv, fs, xs, review) then
        (m.(findings := m.findings[inv := PutAll(KeepCustom(Bucket(m.findings, inv)), fs)],
            executions := m.executions[inv := PutAll(KeepCustom(Bucket(m.executions, inv)), xs)],
            reviews := ReplaceReview(m.reviews, inv, review)), Saved)
      else (m, Rejected)
    case Activate(inv, run) =>
      if inv in m.records && MayActivate(m.records[inv], run) then
        (Memory(m.records[inv := m.records[inv].(active := Some(run), projection := 0)], m.plans - {inv}, m.tasks - {inv},
                m.executions - {inv}, m.findings - {inv}, m.reviews - {inv}), Saved)
      else (m, Rejected)
  }

  // ---------------------------------------------------------------- tables

  datatype Row<+T> = Row(investigation: Investigation, item: T)
  datatype TaskRow = TaskRow(investigation: Investigation, position: nat, task: Task)

  datatype Tables = Tables(
    records: map<Investigation, Record>,
    plans: map<string, Row<Plan>>,
    tasks: map<string, TaskRow>,
    executions: map<string, Row<Execution>>,
    findings: map<string, Row<Finding>>,
    reviews: map<string, Row<Review>>)

  function DeleteFor<T>(t: map<string, Row<T>>, inv: Investigation): map<string, Row<T>> {
    map id | id in t && t[id].investigation != inv :: t[id]
  }

  function InsertItems<P>(t: map<string, Row<Item<P>>>, inv: Investigation, xs: seq<Item<P>>): Option<map<string, Row<Item<P>>>>
    decreases |xs|
  {
    if xs == [] then Some(t)
    else if xs[0].id in t then None
    else InsertItems(t[xs[0].id := Row(inv, xs[0])], inv, xs[1..])
  }

  function Ids<P(==)>(xs: seq<Item<P>>): set<string> {
    set x | x in xs :: x.id
  }

  function Upsert<P(==)>(t: map<string, Row<Item<P>>>, inv: Investigation, xs: seq<Item<P>>): Option<map<string, Row<Item<P>>>> {
    InsertItems(t - Ids(xs), inv, xs)
  }

  function DeleteSdk<P>(t: map<string, Row<Item<P>>>, inv: Investigation): map<string, Row<Item<P>>> {
    map id | id in t && !(t[id].investigation == inv && t[id].item.layer == Sdk) :: t[id]
  }

  function DeleteTasks(t: map<string, TaskRow>, inv: Investigation): map<string, TaskRow> {
    map id | id in t && t[id].investigation != inv :: t[id]
  }

  function InsertTasks(t: map<string, TaskRow>, inv: Investigation, ts: seq<Task>, position: nat): Option<map<string, TaskRow>>
    requires position <= |ts|
    decreases |ts| - position
  {
    if position == |ts| then Some(t)
    else if ts[position].id in t then None
    else InsertTasks(t[ts[position].id := TaskRow(inv, position, ts[position])], inv, ts, position + 1)
  }

  function ReplaceTasks(t: map<string, TaskRow>, inv: Investigation, ts: seq<Task>): Option<map<string, TaskRow>> {
    InsertTasks(DeleteTasks(t, inv), inv, ts, 0)
  }

  function InsertRow<T>(t: map<string, Row<T>>, id: string, row: Row<T>): Option<map<string, Row<T>>> {
    if id in t then None else Some(t[id := row])
  }

  function ItemsOf<P>(t: map<string, Row<Item<P>>>, inv: Investigation): map<string, Item<P>> {
    map id | id in t && t[id].investigation == inv :: t[id].item
  }

  function TasksOf(t: map<string, TaskRow>, inv: Investigation): map<string, Task> {
    map id | id in t && t[id].investigation == inv :: t[id].task
  }

  /** The investigation's review row, if it has one. */
  ghost function ReviewRow(t: map<string, Row<Review>>, inv: Investigation): Option<Review> {
    if exists id :: id in t && t[id].investigation == inv then
      var id :| id in t && t[id].investigation == inv;
      Some(t[id].item)
    else None
  }

  ghost function MergeReview(t: map<string, Row<Review>>, inv: Investigation, review: Option<Review>): Option<map<string, Row<Review>>> {
    var existing := ReviewRow(t, inv);
    if review.Some? then InsertRow(DeleteFor(t, inv), review.value.id, Row(inv, review.value))
    else if existing.Some? && existing.value.layer == Sdk then Some(DeleteFor(t, inv))
    else Some(t)
  }

  /** The rows an operation deletes and inserts, investigations aside. */
  ghost function RowsApply(q: Tables, op: Operation): (Tables, Outcome) {
    match op
    case SaveRecord(inv, record) => (q.(records := q.records[inv := record]), Saved)
    case SavePlan(plan) =>
      var inv := plan.investigation;
      if !TasksValid(plan.tasks, plan.run) then (q, Rejected)
      else
        var plans := InsertRow(DeleteFor(q.plans, inv), plan.id, Row(inv, plan));
        var tasks := ReplaceTasks(q.tasks, inv, plan.tasks);
        if plans.Some? && tasks.Some? then (q.(plans := plans.value, tasks := tasks.value), Saved) else (q, Stopped)
    case SaveTasks(inv, ts) =>
      if !TasksValid(ts, None) then (q, Rejected)
      else
        var tasks := ReplaceTasks(q.tasks, inv, ts);
        if tasks.Some? then (q.(tasks := tasks.value), Saved) else (q, Stopped)
    case SaveExecutions(inv, xs) =>
      var executions := Upsert(q.executions, inv, xs);
      if executions.Some? then (q.(executions := executions.value), Saved) else (q, Stopped)
    case SaveFindings(inv, fs) =>
      if !OwnedBy(inv, fs) then (q, Rejected)
      else if !FindingsValid(fs, ItemsOf(q.findings, inv), TasksOf(q.tasks, inv), ReviewRow(q.reviews, inv)) then (q, Rejected)
      else
        var findings := Upsert(q.findings, inv, fs);
        if findings.Some? then (q.(findings := findings.value), Saved) else (q, Stopped)
    case SaveReview(review) =>
      var inv := review.investigation;
      var reviews := InsertRow(DeleteFor(q.reviews, inv), review.id, Row(inv, review));
      if reviews.Some? then (q.(reviews := reviews.value), Saved) else (q, Stopped)
    case SaveResult(inv, fs, xs, review) =>
      if !ResultValid(inv, fs, xs, review) then (q, Rejected)
      else
        var findings := Upsert(DeleteSdk(q.findings, inv), inv, fs);
        var executions := Upsert(DeleteSdk(q.executions, inv), inv, xs);
        var reviews := MergeReview(q.reviews, inv, review);
        if findings.Some? && executions.Some? && reviews.Some? then
          (q.(findings := findings.value, executions := executions.value, reviews := reviews.value), Saved)
        else (q, Stopped)
    case Activate(inv, run) =>
      if inv in q.records && MayActivate(q.records[inv], run) then
        (Tables(q.records[inv := q.records[inv].(active := Some(run), projection := 0)],
                DeleteFor(q.plans, inv), DeleteTasks(q.tasks, inv), DeleteFor(q.executions, inv),
                DeleteFor(q.findings, inv), DeleteFor(q.reviews, inv)), Saved)
      else (q, Rejected)
  }

  function Target(op: Operation): Investigation {
    match op
    case SaveRecord(inv, _) => inv
    case SavePlan(plan) => plan.investigation
    case SaveTasks(inv, _) => inv
    case SaveExecutions(inv, _) => inv
    case SaveFindings(inv, _) => inv
    case SaveReview(review) => review.investigation
    case SaveResult(inv, _, _, _) => inv
    case Activate(inv, _) => inv
  }

  /** The operation inserts at least one row that refers to its investigation. */
  predicate Inserts(op: Operation) {
    match op
    case SaveRecord(_, _) => false
    case SavePlan(_) => true
    case SaveTasks(_, ts) => ts != []
    case SaveExecutions(_, xs) => xs != []
    case SaveFindings(_, fs) => fs != []
    case SaveReview(_) => true
    case SaveResult(_, fs, xs, review) => fs != [] || xs != [] || review.Some?
    case Activate(_, _) => false
  }

  /** Foreign keys are enforced: a row needs the record of its investigation. */
  predicate Referenced(records: map<Investigation, Record>, op: Operation) {
    Inserts(op) ==> Target(op) in records
  }

  ghost function TablesApply(q: Tables, op: Operation): (Tables, Outcome) {
    var written := RowsApply(q, op);
    if written.1 == Saved && !Referenced(q.records, op) then (q, Stopped) else written
  }

  // ---------------------------------------------------------------- the relation

  /** Grouped by investigation, the table holds exactly the bucket's items under the same ids. */
  ghost predicate SameItems<P>(buckets: map<Investigation, map<string, Item<P>>>, t: map<string, Row<Item<P>>>) {
    && (forall inv, id :: id in Bucket(buckets, inv) ==> id in t && t[id] == Row(inv, Bucket(buckets, inv)[id]))
    && (forall id :: id in t ==> id in Bucket(buckets, t[id].investigation))
  }

  ghost predicate SameTasks(tasks: map<Investigation, seq<Task>>, t: map<string, TaskRow>) {
    && (forall inv, k :: 0 <= k < |TaskList(tasks, inv)| ==>
          var task := TaskList(tasks, inv)[k]; task.id in t && t[task.id] == TaskRow(inv, k, task))
    && (forall id :: id in t ==>
          var row := t[id];
          row.position < |TaskList(tasks, row.investigation)| && TaskList(tasks, row.investigation)[row.position] == row.task && row.task.id == id)
  }

  ghost predicate SameReviews(reviews: map<Investigation, Review>, t: map<string, Row<Review>>) {
    && (forall inv :: inv in reviews ==> reviews[inv].id in t && t[reviews[inv].id] == Row(inv, reviews[inv]))
    && (forall id :: id in t ==>
          t[id].investigation in reviews && reviews[t[id].investigation] == t[id].item && t[id].item.id == id)
  }

  ghost predicate SamePlans(plans: map<Investigation, Plan>, t: map<string, Row<Plan>>) {
    && (forall inv :: inv in plans ==> plans[inv].id in t && t[plans[inv].id] == Row(inv, plans[inv]))
    && (forall id :: id in t ==>
          t[id].investigation in plans && plans[t[id].investigation] == t[id].item && t[id].item.id == id)
  }

  ghost predicate Same(m: Memory, q: Tables) {
    && m.records == q.records
    && SamePlans(m.plans, q.plans)
    && SameTasks(m.tasks, q.tasks)
    && SameItems(m.executions, q.executions)
    && SameItems(m.findings, q.findings)
    && SameReviews(m.reviews, q.reviews)
  }

  // ---------------------------------------------------------------- globally unique ids

  /** The investigation each identifier was generated for. */
  datatype Registry = Registry(
    plans: string -> Investigation, tasks: string -> Investigation, executions: string -> Investigation,
    findings: string -> Investigation, reviews: string -> Investigation)

  ghost predicate DistinctItems<P>(xs: seq<Item<P>>) {
    forall i, j :: 0 <= i < j < |xs| ==> xs[i].id != xs[j].id
  }

  ghost predicate FreshItems<P>(xs: seq<Item<P>>, inv: Investigation, owner: string -> Investigation) {
    DistinctItems(xs) && forall x :: x in xs ==> owner(x.id) == inv
  }

  ghost predicate FreshTasks(ts: seq<Task>, inv: Investigation, owner: string -> Investigation) {
    (forall i, j :: 0 <= i < j < |ts| ==> ts[i].id != ts[j].id) && forall t :: t in ts ==> owner(t.id) == inv
  }

  /** Ids are distinct within the batch and used by no other investigation. */
  ghost predicate UsesOwnIds(op: Operation, g: Registry) {
    match op
    case SaveRecord(_, _) => true
    case SavePlan(plan) => g.plans(plan.id) == plan.investigation && FreshTasks(plan.tasks, plan.investigation, g.tasks)
    case SaveTasks(inv, ts) => FreshTasks(ts, inv, g.tasks)
    case SaveExecutions(inv, xs) => FreshItems(xs, inv, g.executions)
    case SaveFindings(inv, fs) => FreshItems(fs, inv, g.findings)
    case SaveReview(review) => g.reviews(review.id) == review.investigation
    case SaveResult(inv, fs, xs, review) =>
      FreshItems(fs, inv, g.findings) && FreshItems(xs, inv, g.executions) && (review.Some? ==> g.reviews(review.value.id) == inv)
    case Activate(_, _) => true
  }

  ghost predicate RowsOwned<T>(t: map<string, Row<T>>, owner: string -> Investigation) {
    forall id :: id in t ==> owner(id) == t[id].investigation
  }

  ghost predicate TaskRowsOwned(t: map<string, TaskRow>, owner: string -> Investigation) {
    forall id :: id in t ==> owner(id) == t[id].investigation
  }

  ghost predicate TablesOwned(q: Tables, g: Registry) {
    && RowsOwned(q.plans, g.plans) && TaskRowsOwned(q.tasks, g.tasks) && RowsOwned(q.executions, g.executions)
    && RowsOwned(q.findings, g.findings) && RowsOwned(q.reviews, g.reviews)
  }

  ghost predicate Related(m: Memory, q: Tables, g: Registry) {
    Same(m, q) && TablesOwned(q, g)
  }

  // ---------------------------------------------------------------- items

  ghost predicate HasId<P>(xs: seq<Item<P>>, id: string) {
    exists x :: x in xs && x.id == id
  }

  lemma {:induction false} PutAllIs<P>(bucket: map<string, Item<P>>, xs: seq<Item<P>>)
    requires DistinctItems(xs)
    ensures var r := PutAll(bucket, xs);
            && (forall x :: x in xs ==> x.id in r && r[x.id] == x)
            && (forall id :: !HasId(xs, id) ==> (id in r <==> id in bucket) && (id in bucket ==> r[id] == bucket[id]))
    decreases |xs|
  {
    if xs != [] {
      assert xs == [xs[0]] + xs[1..];
      PutAllIs(bucket[xs[0].id := xs[0]], xs[1..]);
      assert !HasId(xs[1..], xs[0].id);
      forall id | !HasId(xs, id) ensures !HasId(xs[1..], id) && id != xs[0].id {
        assert xs[0] in xs;
        assert forall x :: x in xs[1..] ==> x in xs;
      }
    }
  }

  lemma {:induction false} InsertItemsIs<P>(t: map<string, Row<Item<P>>>, inv: Investigation, xs: seq<Item<P>>)
    requires DistinctItems(xs) && forall x :: x in xs ==> x.id !in t
    ensures InsertItems(t, inv, xs).Some?
    ensures var r := InsertItems(t, inv, xs).value;
            && (forall x :: x in xs ==> x.id in r && r[x.id] == Row(inv, x))
            && (forall id :: !HasId(xs, id) ==> (id in r <==> id in t) && (id in t ==> r[id] == t[id]))
    decreases |xs|
  {
    if xs != [] {
      assert xs == [xs[0]] + xs[1..];
      InsertItemsIs(t[xs[0].id := Row(inv, xs[0])], inv, xs[1..]);
      assert !HasId(xs[1..], xs[0].id);
      forall id | !HasId(xs, id) ensures !HasId(xs[1..], id) && id != xs[0].id {
        assert xs[0] in xs;
        assert forall x :: x in xs[1..] ==> x in xs;
      }
    }
  }

  ghost predicate Merged<P>(before: map<string, Item<P>>, after: map<string, Item<P>>, xs: seq<Item<P>>) {
    && (forall x :: x in xs ==> x.id in after && after[x.id] == x)
    && (forall id :: !HasId(xs, id) ==> (id in after <==> id in before) && (id in before ==> after[id] == before[id]))
  }

  ghost predicate MergedRows<P>(before: map<string, Row<Item<P>>>, after: map<string, Row<Item<P>>>, inv: Investigation, xs: seq<Item<P>>) {
    && (forall x :: x in xs ==> x.id in after && after[x.id] == Row(inv, x))
    && (forall id :: !HasId(xs, id) ==> (id in after <==> id in before) && (id in before ==> after[id] == before[id]))
  }

  lemma UpsertMerges<P>(bucket: map<string, Item<P>>, t: map<string, Row<Item<P>>>, inv: Investigation, xs: seq<Item<P>>)
    requires DistinctItems(xs)
    ensures Merged(bucket, PutAll(bucket, xs), xs)
    ensures Upsert(t, inv, xs).Some? && MergedRows(t, Upsert(t, inv, xs).value, inv, xs)
  {
    PutAllIs(bucket, xs);
    InsertItemsIs(t - Ids(xs), inv, xs);
    forall id | !HasId(xs, id) ensures id in t - Ids(xs) <==> id in t {
    }
  }

  lemma MergeAgrees<P>(buckets: map<Investigation, map<string, Item<P>>>, t: map<string, Row<Item<P>>>, inv: Investigation,
                       xs: seq<Item<P>>, bucket: map<string, Item<P>>, r: map<string, Row<Item<P>>>)
    requires SameItems(buckets, t) && Merged(Bucket(buckets, inv), bucket, xs) && MergedRows(t, r, inv, xs)
    requires forall id :: HasId(xs, id) && id in t ==> t[id].investigation == inv
    ensures SameItems(buckets[inv := bucket], r)
  {
    var after := buckets[inv := bucket];
    assert Bucket(after, inv) == bucket;
    assert forall j :: j != inv ==> Bucket(after, j) == Bucket(buckets, j);
    forall j, id | id in Bucket(after, j) ensures id in r && r[id] == Row(j, Bucket(after, j)[id]) {
      if j == inv && HasId(xs, id) {
        var x :| x in xs && x.id == id;
      } else {
        assert id in Bucket(buckets, j) && t[id] == Row(j, Bucket(buckets, j)[id]);
      }
    }
    forall id | id in r ensures id in Bucket(after, r[id].investigation) {
      if HasId(xs, id) {
        var x :| x in xs && x.id == id;
      } else {
        assert id in Bucket(buckets, t[id].investigation);
      }
    }
  }

  lemma UpsertAgrees<P>(buckets: map<Investigation, map<string, Item<P>>>, t: map<string, Row<Item<P>>>,
                        inv: Investigation, xs: seq<Item<P>>, owner: string -> Investigation)
    requires SameItems(buckets, t) && RowsOwned(t, owner) && FreshItems(xs, inv, owner)
    ensures Upsert(t, inv, xs).Some?
    ensures SameItems(buckets[inv := PutAll(Bucket(buckets, inv), xs)], Upsert(t, inv, xs).value)
    ensures RowsOwned(Upsert(t, inv, xs).value, owner)
  {
    UpsertMerges(Bucket(buckets, inv), t, inv, xs);
    MergeAgrees(buckets, t, inv, xs, PutAll(Bucket(buckets, inv), xs), Upsert(t, inv, xs).value);
    var r := Upsert(t, inv, xs).value;
    forall id | id in r ensures owner(id) == r[id].investigation {
      if HasId(xs, id) {
        var x :| x in xs && x.id == id;
      }
    }
  }

  lemma DeleteSdkAgrees<P>(buckets: map<Investigation, map<string, Item<P>>>, t: map<string, Row<Item<P>>>,
                           inv: Investigation, owner: string -> Investigation)
    requires SameItems(buckets, t) && RowsOwned(t, owner)
    ensures SameItems(buckets[inv := KeepCustom(Bucket(buckets, inv))], DeleteSdk(t, inv))
    ensures RowsOwned(DeleteSdk(t, inv), owner)
  {
    var after := buckets[inv := KeepCustom(Bucket(buckets, inv))];
    assert forall j :: j != inv ==> Bucket(after, j) == Bucket(buckets, j);
    forall j, id | id in Bucket(buckets, j) ensures id in t && t[id] == Row(j, Bucket(buckets, j)[id]) {
    }
  }

  lemma DeleteItemsAgrees<P>(buckets: map<Investigation, map<string, Item<P>>>, t: map<string, Row<Item<P>>>,
                             inv: Investigation, owner: string -> Investigation)
    requires SameItems(buckets, t) && RowsOwned(t, owner)
    ensures SameItems(buckets - {inv}, DeleteFor(t, inv))
    ensures RowsOwned(DeleteFor(t, inv), owner)
  {
    assert forall j :: j != inv ==> Bucket(buckets - {inv}, j) == Bucket(buckets, j);
  }

  /** Replacing an investigation's SDK items: delete by layer, then insert, in both stores. */
  lemma ReplaceSdkAgrees<P>(buckets: map<Investigation, map<string, Item<P>>>, t: map<string, Row<Item<P>>>,
                            inv: Investigation, xs: seq<Item<P>>, owner: string -> Investigation)
    requires SameItems(buckets, t) && RowsOwned(t, owner) && FreshItems(xs, inv, owner)
    ensures var r := Upsert(DeleteSdk(t, inv), inv, xs);
            && r.Some?
            && SameItems(buckets[inv := PutAll(KeepCustom(Bucket(buckets, inv)), xs)], r.value)
            && RowsOwned(r.value, owner)
  {
    DeleteSdkAgrees(buckets, t, inv, owner);
    var middle := buckets[inv := KeepCustom(Bucket(buckets, inv))];
    UpsertAgrees(middle, DeleteSdk(t, inv), inv, xs, owner);
    assert middle[inv := PutAll(Bucket(middle, inv), xs)] == buckets[inv := PutAll(KeepCustom(Bucket(buckets, inv)), xs)];
  }

  lemma ItemsOfIsBucket<P>(buckets: map<Investigation, map<string, Item<P>>>, t: map<string, Row<Item<P>>>, inv: Investigation)
    requires SameItems(buckets, t)
    ensures ItemsOf(t, inv) == Bucket(buckets, inv)
  {
  }

  // ---------------------------------------------------------------- tasks

  lemma {:induction false} InsertTasksIs(t: map<string, TaskRow>, inv: Investigation, ts: seq<Task>, position: nat)
    requires position <= |ts|
    requires forall i, j :: 0 <= i < j < |ts| ==> ts[i].id != ts[j].id
    requires forall i :: position <= i < |ts| ==> ts[i].id !in t
    ensures InsertTasks(t, inv, ts, position).Some?
    ensures var r := InsertTasks(t, inv, ts, position).value;
            && (forall i :: position <= i < |ts| ==> ts[i].id in r && r[ts[i].id] == TaskRow(inv, i, ts[i]))
            && (forall id :: id in t ==> id in r && r[id] == t[id])
            && (forall id :: id in r ==> id in t || exists i :: position <= i < |ts| && ts[i].id == id)
    decreases |ts| - position
  {
    if position < |ts| {
      InsertTasksIs(t[ts[position].id := TaskRow(inv, position, ts[position])], inv, ts, position + 1);
    }
  }

  ghost predicate TaskRowAt(t: map<string, TaskRow>, inv: Investigation, k: nat, task: Task) {
    task.id in t && t[task.id] == TaskRow(inv, k, task)
  }

  /** The rows of other investigations, and exactly one row for every new task. */
  ghost predicate ReplacedRows(t: map<string, TaskRow>, inv: Investigation, ts: seq<Task>, r: map<string, TaskRow>) {
    && (forall k: nat :: k < |ts| ==> TaskRowAt(r, inv, k, ts[k]))
    && (forall id :: id in t && t[id].investigation != inv ==> id in r && r[id] == t[id])
    && (forall id :: id in r ==> (id in t && t[id].investigation != inv && r[id] == t[id]) || IsRowOf(inv, ts, id, r[id]))
  }

  ghost predicate IsRowOf(inv: Investigation, ts: seq<Task>, id: string, row: TaskRow) {
    row.investigation == inv && row.position < |ts| && ts[row.position] == row.task && row.task.id == id
  }

  lemma ReplaceTasksRows(t: map<string, TaskRow>, inv: Investigation, ts: seq<Task>, owner: string -> Investigation)
    requires TaskRowsOwned(t, owner) && FreshTasks(ts, inv, owner)
    ensures ReplaceTasks(t, inv, ts).Some?
    ensures ReplacedRows(t, inv, ts, ReplaceTasks(t, inv, ts).value)
  {
    InsertTasksIs(DeleteTasks(t, inv), inv, ts, 0);
  }

  lemma ReplacedTasksSame(tasks: map<Investigation, seq<Task>>, t: map<string, TaskRow>, inv: Investigation, ts: seq<Task>, r: map<string, TaskRow>)
    requires SameTasks(tasks, t) && ReplacedRows(t, inv, ts, r)
    ensures SameTasks(tasks[inv := ts], r)
  {
    var after := tasks[inv := ts];
    forall j, k | 0 <= k < |TaskList(after, j)| ensures TaskRowAt(r, j, k, TaskList(after, j)[k]) {
      if j != inv {
        assert TaskList(after, j) == TaskList(tasks, j);
        assert TaskRowAt(t, j, k, TaskList(tasks, j)[k]);
      }
    }
    forall id | id in r
      ensures r[id].position < |TaskList(after, r[id].investigation)|
      ensures TaskList(after, r[id].investigation)[r[id].position] == r[id].task && r[id].task.id == id
    {
      if !IsRowOf(inv, ts, id, r[id]) {
        assert TaskList(after, t[id].investigation) == TaskList(tasks, t[id].investigation);
      }
    }
  }

  lemma ReplaceTasksAgrees(tasks: map<Investigation, seq<Task>>, t: map<string, TaskRow>, inv: Investigation, ts: seq<Task>,
                           owner: string -> Investigation)
    requires SameTasks(tasks, t) && TaskRowsOwned(t, owner) && FreshTasks(ts, inv, owner)
    ensures ReplaceTasks(t, inv, ts).Some?
    ensures SameTasks(tasks[inv := ts], ReplaceTasks(t, inv, ts).value)
    ensures TaskRowsOwned(ReplaceTasks(t, inv, ts).value, owner)
  {
    ReplaceTasksRows(t, inv, ts, owner);
    var r := ReplaceTasks(t, inv, ts).value;
    ReplacedTasksSame(tasks, t, inv, ts, r);
    forall id | id in r ensures owner(id) == r[id].investigation {
      if IsRowOf(inv, ts, id, r[id]) {
        assert r[id].task in ts;
      }
    }
  }

  lemma DeleteTasksAgrees(tasks: map<Investigation, seq<Task>>, t: map<string, TaskRow>, inv: Investigation, owner: string -> Investigation)
    requires SameTasks(tasks, t) && TaskRowsOwned(t, owner)
    ensures SameTasks(tasks - {inv}, DeleteTasks(t, inv)) && TaskRowsOwned(DeleteTasks(t, inv), owner)
  {
    assert forall j :: j != inv ==> TaskList(tasks - {inv}, j) == TaskList(tasks, j);
  }

  lemma {:induction false} ByIdIs(ts: seq<Task>)
    requires forall i, j :: 0 <= i < j < |ts| ==> ts[i].id != ts[j].id
    ensures forall i :: 0 <= i < |ts| ==> ts[i].id in ById(ts) && ById(ts)[ts[i].id] == ts[i]
    ensures forall id :: id in ById(ts) ==> exists i :: 0 <= i < |ts| && ts[i].id == id
  {
    if ts != [] {
      ByIdIs(ts[..|ts| - 1]);
    }
  }

  lemma StoredTasksDiffer(tasks: map<Investigation, seq<Task>>, t: map<string, TaskRow>, inv: Investigation)
    requires SameTasks(tasks, t)
    ensures var ts := TaskList(tasks, inv);
            forall i, j :: 0 <= i < j < |ts| ==> ts[i].id != ts[j].id
  {
    var ts := TaskList(tasks, inv);
    forall i, j | 0 <= i < j < |ts| ensures ts[i].id != ts[j].id {
      assert t[ts[i].id].position == i && t[ts[j].id].position == j;
    }
  }

  lemma TaskRowIsListed(tasks: map<Investigation, seq<Task>>, t: map<string, TaskRow>, inv: Investigation, id: string)
    requires SameTasks(tasks, t) && id in TasksOf(t, inv)
    ensures var ts := TaskList(tasks, inv);
            t[id].position < |ts| && ts[t[id].position] == TasksOf(t, inv)[id] && ts[t[id].position].id == id
  {
  }

  lemma ListedTaskHasRow(tasks: map<Investigation, seq<Task>>, t: map<string, TaskRow>, inv: Investigation, i: nat)
    requires SameTasks(tasks, t) && i < |TaskList(tasks, inv)|
    ensures TaskList(tasks, inv)[i].id in TasksOf(t, inv)
  {
    assert TaskRowAt(t, inv, i, TaskList(tasks, inv)[i]);
  }

  lemma TasksOfIsById(tasks: map<Investigation, seq<Task>>, t: map<string, TaskRow>, inv: Investigation)
    requires SameTasks(tasks, t)
    ensures TasksOf(t, inv) == ById(TaskList(tasks, inv))
  {
    var ts := TaskList(tasks, inv);
    StoredTasksDiffer(tasks, t, inv);
    ByIdIs(ts);
    forall id | id in TasksOf(t, inv) ensures id in ById(ts) && ById(ts)[id] == TasksOf(t, inv)[id] {
      TaskRowIsListed(tasks, t, inv, id);
    }
    forall id | id in ById(ts) ensures id in TasksOf(t, inv) {
      var i :| 0 <= i < |ts| && ts[i].id == id;
      ListedTaskHasRow(tasks, t, inv, i);
    }
  }

  // ---------------------------------------------------------------- reviews and plans

  lemma ReviewRowIsReview(reviews: map<Investigation, Review>, t: map<string, Row<Review>>, inv: Investigation)
    requires SameReviews(reviews, t)
    ensures ReviewRow(t, inv) == ReviewOf(reviews, inv)
  {
  }

  lemma SaveReviewAgrees(reviews: map<Investigation, Review>, t: map<string, Row<Review>>, review: Review, inv: Investigation, owner: string -> Investigation)
    requires SameReviews(reviews, t) && RowsOwned(t, owner) && owner(review.id) == inv
    ensures InsertRow(DeleteFor(t, inv), review.id, Row(inv, review)).Some?
    ensures var r := InsertRow(DeleteFor(t, inv), review.id, Row(inv, review)).value;
            SameReviews(reviews[inv := review], r) && RowsOwned(r, owner)
  {
  }

  lemma DropReviewAgrees(reviews: map<Investigation, Review>, t: map<string, Row<Review>>, inv: Investigation, owner: string -> Investigation)
    requires SameReviews(reviews, t) && RowsOwned(t, owner)
    ensures SameReviews(reviews - {inv}, DeleteFor(t, inv)) && RowsOwned(DeleteFor(t, inv), owner)
  {
  }

  lemma SavePlanAgrees(plans: map<Investigation, Plan>, t: map<string, Row<Plan>>, plan: Plan, owner: string -> Investigation)
    requires SamePlans(plans, t) && RowsOwned(t, owner) && owner(plan.id) == plan.investigation
    ensures InsertRow(DeleteFor(t, plan.investigation), plan.id, Row(plan.investigation, plan)).Some?
    ensures var r := InsertRow(DeleteFor(t, plan.investigation), plan.id, Row(plan.investigation, plan)).value;
            SamePlans(plans[plan.investigation := plan], r) && RowsOwned(r, owner)
  {
  }

  lemma DropPlanAgrees(plans: map<Investigation, Plan>, t: map<string, Row<Plan>>, inv: Investigation, owner: string -> Investigation)
    requires SamePlans(plans, t) && RowsOwned(t, owner)
    ensures SamePlans(plans - {inv}, DeleteFor(t, inv)) && RowsOwned(DeleteFor(t, inv), owner)
  {
  }

  // ---------------------------------------------------------------- the main results

  /** Foreign keys aside, both stores give the same answer and stay related. */
  ghost predicate Agree(m: Memory, q: Tables, g: Registry, op: Operation) {
    && MemoryApply(m, op).1 == RowsApply(q, op).1
    && Related(MemoryApply(m, op).0, RowsApply(q, op).0, g)
  }

  lemma ActivateAgrees(m: Memory, q: Tables, g: Registry, inv: Investigation, run: RunOwner)
    requires Related(m, q, g)
    ensures Agree(m, q, g, Activate(inv, run))
  {
    DropPlanAgrees(m.plans, q.plans, inv, g.plans);
    DeleteTasksAgrees(m.tasks, q.tasks, inv, g.tasks);
    DeleteItemsAgrees(m.executions, q.executions, inv, g.executions);
    DeleteItemsAgrees(m.findings, q.findings, inv, g.findings);
    DropReviewAgrees(m.reviews, q.reviews, inv, g.reviews);
  }

  lemma SaveFindingsAgrees(m: Memory, q: Tables, g: Registry, inv: Investigation, fs: seq<Finding>)
    requires Related(m, q, g) && FreshItems(fs, inv, g.findings)
    ensures Agree(m, q, g, SaveFindings(inv, fs))
  {
    ItemsOfIsBucket(m.findings, q.findings, inv);
    TasksOfIsById(m.tasks, q.tasks, inv);
    ReviewRowIsReview(m.reviews, q.reviews, inv);
    UpsertAgrees(m.findings, q.findings, inv, fs, g.findings);
    TouchKeeps(m.findings, q.findings, inv);
    var op := SaveFindings(inv, fs);
    var bucket := Bucket(m.findings, inv);
    if OwnedBy(inv, fs) && FindingsValid(fs, bucket, ById(TaskList(m.tasks, inv)), ReviewOf(m.reviews, inv)) {
      assert MemoryApply(m, op) == (m.(findings := m.findings[inv := PutAll(bucket, fs)]), Saved);
      assert RowsApply(q, op) == (q.(findings := Upsert(q.findings, inv, fs).value), Saved);
    } else {
      assert RowsApply(q, op) == (q, Rejected);
    }
  }

  /** Creating an empty bucket changes nothing the tables can see. */
  lemma TouchKeeps<P>(buckets: map<Investigation, map<string, Item<P>>>, t: map<string, Row<Item<P>>>, inv: Investigation)
    requires SameItems(buckets, t)
    ensures SameItems(buckets[inv := Bucket(buckets, inv)], t)
  {
    var touched := buckets[inv := Bucket(buckets, inv)];
    assert forall j :: Bucket(touched, j) == Bucket(buckets, j);
  }

  lemma ResultReviewAgrees(m: Memory, q: Tables, g: Registry, inv: Investigation, review: Option<Review>)
    requires SameReviews(m.reviews, q.reviews) && RowsOwned(q.reviews, g.reviews)
    requires review.Some? ==> g.reviews(review.value.id) == inv
    ensures MergeReview(q.reviews, inv, review).Some?
    ensures SameReviews(ReplaceReview(m.reviews, inv, review), MergeReview(q.reviews, inv, review).value)
    ensures RowsOwned(MergeReview(q.reviews, inv, review).value, g.reviews)
  {
    ReviewRowIsReview(m.reviews, q.reviews, inv);
    if review.Some? {
      SaveReviewAgrees(m.reviews, q.reviews, review.value, inv, g.reviews);
    } else {
      DropReviewAgrees(m.reviews, q.reviews, inv, g.reviews);
    }
  }

  lemma SaveResultAgrees(m: Memory, q: Tables, g: Registry, inv: Investigation, fs: seq<Finding>, xs: seq<Execution>, review: Option<Review>)
    requires Related(m, q, g) && UsesOwnIds(SaveResult(inv, fs, xs, review), g)
    ensures Agree(m, q, g, SaveResult(inv, fs, xs, review))
  {
    ReplaceSdkAgrees(m.findings, q.findings, inv, fs, g.findings);
    ReplaceSdkAgrees(m.executions, q.executions, inv, xs, g.executions);
    ResultReviewAgrees(m, q, g, inv, review);
  }

  lemma PlanAgrees(m: Memory, q: Tables, g: Registry, plan: Plan)
    requires Related(m, q, g) && UsesOwnIds(SavePlan(plan), g)
    ensures Agree(m, q, g, SavePlan(plan))
  {
    SavePlanAgrees(m.plans, q.plans, plan, g.plans);
    ReplaceTasksAgrees(m.tasks, q.tasks, plan.investigation, plan.tasks, g.tasks);
  }

  lemma TasksAgree(m: Memory, q: Tables, g: Registry, inv: Investigation, ts: seq<Task>)
    requires Related(m, q, g) && UsesOwnIds(SaveTasks(inv, ts), g)
    ensures Agree(m, q, g, SaveTasks(inv, ts))
  {
    ReplaceTasksAgrees(m.tasks, q.tasks, inv, ts, g.tasks);
  }

  lemma ExecutionsAgree(m: Memory, q: Tables, g: Registry, inv: Investigation, xs: seq<Execution>)
    requires Related(m, q, g) && UsesOwnIds(SaveExecutions(inv, xs), g)
    ensures Agree(m, q, g, SaveExecutions(inv, xs))
  {
    UpsertAgrees(m.executions, q.executions, inv, xs, g.executions);
  }

  lemma ReviewAgrees(m: Memory, q: Tables, g: Registry, review: Review)
    requires Related(m, q, g) && UsesOwnIds(SaveReview(review), g)
    ensures Agree(m, q, g, SaveReview(review))
  {
    SaveReviewAgrees(m.reviews, q.reviews, review, review.investigation, g.reviews);
  }

  lemma RowsAgree(m: Memory, q: Tables, g: Registry, op: Operation)
    requires Related(m, q, g) && UsesOwnIds(op, g)
    ensures Agree(m, q, g, op)
  {
    match op
    case SaveRecord(_, _) =>
    case SavePlan(plan) => PlanAgrees(m, q, g, plan);
    case SaveTasks(inv, ts) => TasksAgree(m, q, g, inv, ts);
    case SaveExecutions(inv, xs) => ExecutionsAgree(m, q, g, inv, xs);
    case SaveFindings(inv, fs) => SaveFindingsAgrees(m, q, g, inv, fs);
    case SaveReview(review) => ReviewAgrees(m, q, g, review);
    case SaveResult(inv, fs, xs, review) => SaveResultAgrees(m, q, g, inv, fs, xs, review);
    case Activate(inv, run) => ActivateAgrees(m, q, g, inv, run);
  }

  /** The dictionaries need no record; the tables do, unless the operation is refused anyway. */
  predicate Answerable(m: Memory, op: Operation) {
    Referenced(m.records, op) || MemoryApply(m, op).1 == Rejected
  }

  /** One operation with ids of its own: the two answers are the same exactly when the investigation
      has a record, nothing is inserted or the operation is refused, and then the stores stay related. */
  lemma StepAgrees(m: Memory, q: Tables, g: Registry, op: Operation)
    requires Related(m, q, g) && UsesOwnIds(op, g)
    ensures MemoryApply(m, op).1 == TablesApply(q, op).1 <==> Answerable(m, op)
    ensures Answerable(m, op) ==> Related(MemoryApply(m, op).0, TablesApply(q, op).0, g)
    ensures !Answerable(m, op) ==> MemoryApply(m, op).1 == Saved && TablesApply(q, op) == (q, Stopped)
  {
    RowsAgree(m, q, g, op);
    MemoryNeverStops(m, op);
  }

  lemma MemoryNeverStops(m: Memory, op: Operation)
    ensures MemoryApply(m, op).1 != Stopped
  {
  }

  function MemoryRun(m: Memory, ops: seq<Operation>): Memory {
    if ops == [] then m else MemoryApply(MemoryRun(m, ops[..|ops| - 1]), ops[|ops| - 1]).0
  }

  ghost function TablesRun(q: Tables, ops: seq<Operation>): Tables {
    if ops == [] then q else TablesApply(TablesRun(q, ops[..|ops| - 1]), ops[|ops| - 1]).0
  }

  const NO_MEMORY := Memory(map[], map[], map[], map[], map[], map[])
  const NO_TABLES := Tables(map[], map[], map[], map[], map[], map[])

  /** What the dictionaries, and the tables, answer to each operation in turn, starting new. */
  function MemoryAnswers(ops: seq<Operation>): (r: seq<Outcome>)
    ensures |r| == |ops|
  {
    if ops == [] then []
    else
      var front := ops[..|ops| - 1];
      MemoryAnswers(front) + [MemoryApply(MemoryRun(NO_MEMORY, front), ops[|ops| - 1]).1]
  }

  ghost function TablesAnswers(ops: seq<Operation>): (r: seq<Outcome>)
    ensures |r| == |ops|
  {
    if ops == [] then []
    else
      var front := ops[..|ops| - 1];
      TablesAnswers(front) + [TablesApply(TablesRun(NO_TABLES, front), ops[|ops| - 1]).1]
  }

  /** Every operation refers to an investigation that has a record by then, inserts nothing, or is refused. */
  predicate AllAnswerable(ops: seq<Operation>) {
    ops == []
    || (AllAnswerable(ops[..|ops| - 1]) && Answerable(MemoryRun(NO_MEMORY, ops[..|ops| - 1]), ops[|ops| - 1]))
  }

  lemma AppendedSame(a: seq<Outcome>, b: seq<Outcome>, x: Outcome, y: Outcome)
    requires |a| == |b|
    ensures a + [x] == b + [y] <==> a == b && x == y
  {
    if a + [x] == b + [y] {
      assert a == (a + [x])[..|a|] == (b + [y])[..|b|] == b;
      assert x == (a + [x])[|a|] == (b + [y])[|b|] == y;
    }
  }

  /** Any sequence of saves and activations with ids of their own: both stores give the same answers
      exactly when every step is answerable, and then they end with the same content. */
  lemma {:induction false} StoresAgree(ops: seq<Operation>, g: Registry)
    requires forall op :: op in ops ==> UsesOwnIds(op, g)
    ensures MemoryAnswers(ops) == TablesAnswers(ops) <==> AllAnswerable(ops)
    ensures AllAnswerable(ops) ==> Related(MemoryRun(NO_MEMORY, ops), TablesRun(NO_TABLES, ops), g)
    decreases |ops|
  {
    if ops != [] {
      var n := |ops| - 1;
      var m, q := MemoryRun(NO_MEMORY, ops[..n]), TablesRun(NO_TABLES, ops[..n]);
      assert forall op :: op in ops[..n] ==> op in ops;
      StoresAgree(ops[..n], g);
      AppendedSame(MemoryAnswers(ops[..n]), TablesAnswers(ops[..n]), MemoryApply(m, ops[n]).1, TablesApply(q, ops[n]).1);
      if AllAnswerable(ops[..n]) {
        StepAgrees(m, q, g, ops[n]);
      }
    }
  }

  /** The investigations a sequence of operations makes a record for. */
  ghost function RecordedBy(ops: seq<Operation>): set<Investigation> {
    set op | op in ops && op.SaveRecord? :: op.investigation
  }

  lemma StepRecords(m: Memory, op: Operation)
    ensures MemoryApply(m, op).0.records.Keys == m.records.Keys + if op.SaveRecord? then {op.investigation} else {}
  {
  }

  lemma {:induction false} RecordsMean(ops: seq<Operation>)
    ensures MemoryRun(NO_MEMORY, ops).records.Keys == RecordedBy(ops)
    decreases |ops|
  {
    if ops != [] {
      var front, last := ops[..|ops| - 1], ops[|ops| - 1];
      RecordsMean(front);
      StepRecords(MemoryRun(NO_MEMORY, front), last);
      RecordedNext(front, last);
      assert ops == front + [last];
    }
  }

  lemma RecordedNext(front: seq<Operation>, last: Operation)
    ensures RecordedBy(front + [last]) == RecordedBy(front) + if last.SaveRecord? then {last.investigation} else {}
  {
    forall op ensures op in front + [last] <==> op in front || op == last {
    }
  }

  /** Each investigation's record is saved before anything is inserted for it. */
  ghost predicate RecordsFirst(ops: seq<Operation>) {
    forall k :: 0 <= k < |ops| && Inserts(ops[k]) ==> Target(ops[k]) in RecordedBy(ops[..k])
  }

  lemma {:induction false} RecordsFirstAnswer(ops: seq<Operation>)
    requires RecordsFirst(ops)
    ensures AllAnswerable(ops)
    decreases |ops|
  {
    if ops != [] {
      var n := |ops| - 1;
      forall k | 0 <= k < n && Inserts(ops[..n][k]) ensures Target(ops[..n][k]) in RecordedBy(ops[..n][..k]) {
        assert ops[..n][..k] == ops[..k];
      }
      RecordsFirstAnswer(ops[..n]);
      RecordsMean(ops[..n]);
    }
  }

  lemma RecordsFirstAgree(ops: seq<Operation>, g: Registry)
    requires (forall op :: op in ops ==> UsesOwnIds(op, g)) && RecordsFirst(ops)
    ensures MemoryAnswers(ops) == TablesAnswers(ops)
    ensures Related(MemoryRun(NO_MEMORY, ops), TablesRun(NO_TABLES, ops), g)
  {
    RecordsFirstAnswer(ops);
    StoresAgree(ops, g);
  }

  lemma SharedIdSplits<P>(buckets: map<Investigation, map<string, Item<P>>>, t: map<string, Row<Item<P>>>,
                          inv: Investigation, xs: seq<Item<P>>, x: Item<P>)
    requires SameItems(buckets, t) && DistinctItems(xs)
    requires x in xs && x.id in t && t[x.id].investigation != inv
    ensures Upsert(t, inv, xs).Some?
    ensures !SameItems(buckets[inv := PutAll(Bucket(buckets, inv), xs)], Upsert(t, inv, xs).value)
  {
    UpsertMerges(Bucket(buckets, inv), t, inv, xs);
    var other, after, r := t[x.id].investigation, buckets[inv := PutAll(Bucket(buckets, inv), xs)], Upsert(t, inv, xs).value;
    assert Bucket(after, other) == Bucket(buckets, other);
    assert x.id in Bucket(after, other) && r[x.id] == Row(inv, x);
  }

  /** The condition is needed: an id stored under another investigation is moved by the tables
      and kept by the dictionaries; the stores stay the same iff no batch does that. */
  lemma SharedIdDiverges<P>(buckets: map<Investigation, map<string, Item<P>>>, t: map<string, Row<Item<P>>>,
                            inv: Investigation, xs: seq<Item<P>>)
    requires SameItems(buckets, t) && DistinctItems(xs)
    ensures Upsert(t, inv, xs).Some?
    ensures SameItems(buckets[inv := PutAll(Bucket(buckets, inv), xs)], Upsert(t, inv, xs).value)
            <==> forall x :: x in xs && x.id in t ==> t[x.id].investigation == inv
  {
    UpsertMerges(Bucket(buckets, inv), t, inv, xs);
    if x :| x in xs && x.id in t && t[x.id].investigation != inv {
      SharedIdSplits(buckets, t, inv, xs, x);
    } else {
      MergeAgrees(buckets, t, inv, xs, PutAll(Bucket(buckets, inv), xs), Upsert(t, inv, xs).value);
    }
  }

  // ---------------------------------------------------------------- key conflicts

  lemma {:induction false} InsertItemsConflicts<P>(t: map<string, Row<Item<P>>>, inv: Investigation, xs: seq<Item<P>>)
    ensures InsertItems(t, inv, xs).Some? <==> DistinctItems(xs) && forall x :: x in xs ==> x.id !in t
    decreases |xs|
  {
    if xs != [] {
      var rest, u := xs[1..], t[xs[0].id := Row(inv, xs[0])];
      InsertItemsConflicts(u, inv, rest);
      assert xs == [xs[0]] + rest;
      if DistinctItems(rest) && forall x :: x in rest ==> x.id !in u {
        forall j | 0 < j < |xs| ensures xs[0].id != xs[j].id {
          assert xs[j] == rest[j - 1] && rest[j - 1] in rest;
        }
      }
      if DistinctItems(xs) {
        forall x | x in rest ensures x.id != xs[0].id {
          var j :| 0 <= j < |rest| && rest[j] == x;
          assert xs[j + 1] == x;
        }
      }
    }
  }

  /** A batch of items is stopped by the table exactly when it repeats an id; the dictionary keeps
      the last of them. */
  lemma RepeatedItemConflicts<P>(t: map<string, Row<Item<P>>>, inv: Investigation, xs: seq<Item<P>>)
    ensures Upsert(t, inv, xs).None? <==> !DistinctItems(xs)
  {
    InsertItemsConflicts(t - Ids(xs), inv, xs);
  }

  ghost predicate DistinctTasks(ts: seq<Task>) {
    forall i, j :: 0 <= i < j < |ts| ==> ts[i].id != ts[j].id
  }

  lemma {:induction false} InsertTasksConflicts(t: map<string, TaskRow>, inv: Investigation, ts: seq<Task>, position: nat)
    requires position <= |ts|
    ensures InsertTasks(t, inv, ts, position).Some? <==>
            (forall i, j :: position <= i < j < |ts| ==> ts[i].id != ts[j].id)
            && (forall i :: position <= i < |ts| ==> ts[i].id !in t)
    decreases |ts| - position
  {
    if position < |ts| {
      InsertTasksConflicts(t[ts[position].id := TaskRow(inv, position, ts[position])], inv, ts, position + 1);
    }
  }

  /** Tasks are stopped when they repeat an id or use one that another investigation has stored. */
  lemma SharedTaskConflicts(t: map<string, TaskRow>, inv: Investigation, ts: seq<Task>)
    ensures ReplaceTasks(t, inv, ts).Some? <==>
            DistinctTasks(ts) && forall k :: 0 <= k < |ts| && ts[k].id in t ==> t[ts[k].id].investigation == inv
  {
    InsertTasksConflicts(DeleteTasks(t, inv), inv, ts, 0);
  }

  /** The table cannot store this id for this investigation: another one has it. */
  ghost predicate TakenElsewhere<T>(t: map<string, Row<T>>, inv: Investigation, id: string) {
    id in t && t[id].investigation != inv
  }

  ghost predicate TasksCollide(t: map<string, TaskRow>, inv: Investigation, ts: seq<Task>) {
    !DistinctTasks(ts) || exists k :: 0 <= k < |ts| && ts[k].id in t && t[ts[k].id].investigation != inv
  }

  ghost predicate Collides(q: Tables, op: Operation) {
    match op
    case SaveRecord(_, _) => false
    case SavePlan(plan) => TakenElsewhere(q.plans, plan.investigation, plan.id) || TasksCollide(q.tasks, plan.investigation, plan.tasks)
    case SaveTasks(inv, ts) => TasksCollide(q.tasks, inv, ts)
    case SaveExecutions(_, xs) => !DistinctItems(xs)
    case SaveFindings(_, fs) => !DistinctItems(fs)
    case SaveReview(review) => TakenElsewhere(q.reviews, review.investigation, review.id)
    case SaveResult(inv, fs, xs, review) =>
      !DistinctItems(fs) || !DistinctItems(xs) || (review.Some? && TakenElsewhere(q.reviews, inv, review.value.id))
    case Activate(_, _) => false
  }

  lemma CollisionsStopRows(q: Tables, op: Operation)
    ensures RowsApply(q, op).1 == Stopped <==> RowsApply(q, op).1 != Rejected && Collides(q, op)
  {
    match op
    case SaveRecord(_, _) =>
    case SavePlan(plan) => SharedTaskConflicts(q.tasks, plan.investigation, plan.tasks);
    case SaveTasks(inv, ts) => SharedTaskConflicts(q.tasks, inv, ts);
    case SaveExecutions(inv, xs) => RepeatedItemConflicts(q.executions, inv, xs);
    case SaveFindings(inv, fs) => RepeatedItemConflicts(q.findings, inv, fs);
    case SaveReview(_) =>
    case SaveResult(inv, fs, xs, review) =>
      RepeatedItemConflicts(DeleteSdk(q.findings, inv), inv, fs);
      RepeatedItemConflicts(DeleteSdk(q.executions, inv), inv, xs);
    case Activate(_, _) =>
  }

  /** An operation that is not refused is stopped by the tables exactly when its ids collide or it
      inserts for an investigation without a record; the dictionaries never stop one. */
  lemma CollisionsConflict(m: Memory, q: Tables, op: Operation)
    ensures MemoryApply(m, op).1 != Stopped
    ensures TablesApply(q, op).1 == Stopped <==>
            TablesApply(q, op).1 != Rejected && (Collides(q, op) || !Referenced(q.records, op))
  {
    MemoryNeverStops(m, op);
    CollisionsStopRows(q, op);
  }

  // ---------------------------------------------------------------- references

  ghost predicate RowsRefer<T>(t: map<string, Row<T>>, records: map<Investigation, Record>) {
    forall id :: id in t ==> t[id].investigation in records
  }

  ghost predicate TasksRefer(t: map<string, TaskRow>, records: map<Investigation, Record>) {
    forall id :: id in t ==> t[id].investigation in records
  }

  /** Every row belongs to an investigation with a record. */
  ghost predicate Rooted(q: Tables) {
    && RowsRefer(q.plans, q.records) && TasksRefer(q.tasks, q.records) && RowsRefer(q.executions, q.records)
    && RowsRefer(q.findings, q.records) && RowsRefer(q.reviews, q.records)
  }

  lemma {:induction false} InsertedRefer<P>(t: map<string, Row<Item<P>>>, inv: Investigation, xs: seq<Item<P>>, records: map<Investigation, Record>)
    requires RowsRefer(t, records) && (xs != [] ==> inv in records) && InsertItems(t, inv, xs).Some?
    ensures RowsRefer(InsertItems(t, inv, xs).value, records)
    decreases |xs|
  {
    if xs != [] {
      InsertedRefer(t[xs[0].id := Row(inv, xs[0])], inv, xs[1..], records);
    }
  }

  lemma UpsertedRefer<P>(t: map<string, Row<Item<P>>>, inv: Investigation, xs: seq<Item<P>>, records: map<Investigation, Record>)
    requires RowsRefer(t, records) && (xs != [] ==> inv in records) && Upsert(t, inv, xs).Some?
    ensures RowsRefer(Upsert(t, inv, xs).value, records)
  {
    InsertedRefer(t - Ids(xs), inv, xs, records);
  }

  lemma {:induction false} InsertedTasksRefer(t: map<string, TaskRow>, inv: Investigation, ts: seq<Task>, position: nat, records: map<Investigation, Record>)
    requires position <= |ts| && TasksRefer(t, records) && (ts != [] ==> inv in records) && InsertTasks(t, inv, ts, position).Some?
    ensures TasksRefer(InsertTasks(t, inv, ts, position).value, records)
    decreases |ts| - position
  {
    if position < |ts| {
      InsertedTasksRefer(t[ts[position].id := TaskRow(inv, position, ts[position])], inv, ts, position + 1, records);
    }
  }

  /** No operation, whatever its ids, leaves a row without its record. */
  lemma StepRooted(q: Tables, op: Operation)
    requires Rooted(q)
    ensures Rooted(TablesApply(q, op).0)
  {
    if TablesApply(q, op).1 == Saved {
      match op
      case SaveRecord(_, _) =>
      case SavePlan(plan) => InsertedTasksRefer(DeleteTasks(q.tasks, plan.investigation), plan.investigation, plan.tasks, 0, q.records);
      case SaveTasks(inv, ts) => InsertedTasksRefer(DeleteTasks(q.tasks, inv), inv, ts, 0, q.records);
      case SaveExecutions(inv, xs) => UpsertedRefer(q.executions, inv, xs, q.records);
      case SaveFindings(inv, fs) => UpsertedRefer(q.findings, inv, fs, q.records);
      case SaveReview(_) =>
      case SaveResult(inv, fs, xs, _) =>
        UpsertedRefer(DeleteSdk(q.findings, inv), inv, fs, q.records);
        UpsertedRefer(DeleteSdk(q.executions, inv), inv, xs, q.records);
      case Activate(_, _) =>
    }
  }

  lemma {:induction false} RunRooted(ops: seq<Operation>)
    ensures Rooted(TablesRun(NO_TABLES, ops))
    decreases |ops|
  {
    if ops != [] {
      RunRooted(ops[..|ops| - 1]);
      StepRooted(TablesRun(NO_TABLES, ops[..|ops| - 1]), ops[|ops| - 1]);
    }
  }

  lemma ItemShows<P>(buckets: map<Investigation, map<string, Item<P>>>, t: map<string, Row<Item<P>>>, records: map<Investigation, Record>,
                     inv: Investigation, id: string)
    requires RowsRefer(t, records) && inv !in records && id in Bucket(buckets, inv)
    ensures !SameItems(buckets, t)
  {
    if SameItems(buckets, t) {
      ItemHasRow(buckets, t, inv, id);
    }
  }

  lemma ItemHasRow<P>(buckets: map<Investigation, map<string, Item<P>>>, t: map<string, Row<Item<P>>>, inv: Investigation, id: string)
    requires SameItems(buckets, t) && id in Bucket(buckets, inv)
    ensures id in t && t[id].investigation == inv
  {
  }

  lemma TaskShows(tasks: map<Investigation, seq<Task>>, t: map<string, TaskRow>, records: map<Investigation, Record>, inv: Investigation)
    requires TasksRefer(t, records) && inv !in records && TaskList(tasks, inv) != []
    ensures !SameTasks(tasks, t)
  {
    assert TaskList(tasks, inv)[0] in TaskList(tasks, inv);
  }

  /** An unanswerable step parts the contents too: the dictionaries then hold something of an
      investigation of which the tables can hold nothing. */
  lemma UnanswerableDiverges(m: Memory, q: Tables, g: Registry, op: Operation)
    requires Related(m, q, g) && UsesOwnIds(op, g) && Rooted(q) && !Answerable(m, op)
    ensures !Same(MemoryApply(m, op).0, TablesApply(q, op).0)
  {
    StepAgrees(m, q, g, op);
    SavedShows(m, q, op, MemoryApply(m, op).0);
  }

  lemma SavedShows(m: Memory, q: Tables, op: Operation, after: Memory)
    requires MemoryApply(m, op) == (after, Saved) && Inserts(op) && Target(op) !in q.records && Rooted(q)
    requires op.SaveExecutions? ==> DistinctItems(op.executions)
    requires op.SaveFindings? ==> DistinctItems(op.findings)
    requires op.SaveResult? ==> DistinctItems(op.findings) && DistinctItems(op.executions) && (op.newReview.Some? ==> op.newReview.value.investigation == op.investigation)
    ensures !Same(after, q)
  {
    var inv := Target(op);
    match op
    case SavePlan(plan) => assert inv in after.plans;
    case SaveTasks(_, ts) => TaskShows(after.tasks, q.tasks, q.records, inv);
    case SaveExecutions(_, xs) =>
      PutAllIs(Bucket(m.executions, inv), xs);
      ItemShows(after.executions, q.executions, q.records, inv, xs[0].id);
    case SaveFindings(_, fs) =>
      PutAllIs(Bucket(m.findings, inv), fs);
      ItemShows(after.findings, q.findings, q.records, inv, fs[0].id);
    case SaveReview(_) => assert inv in after.reviews;
    case SaveResult(_, fs, xs, review) =>
      ResultShows(m, after, inv, fs, xs, review);
      if fs != [] {
        ItemShows(after.findings, q.findings, q.records, inv, fs[0].id);
      } else if xs != [] {
        ItemShows(after.executions, q.executions, q.records, inv, xs[0].id);
      }
  }

  lemma ResultShows(m: Memory, after: Memory, inv: Investigation, fs: seq<Finding>, xs: seq<Execution>, review: Option<Review>)
    requires after == MemoryApply(m, SaveResult(inv, fs, xs, review)).0 && MemoryApply(m, SaveResult(inv, fs, xs, review)).1 == Saved
    requires DistinctItems(fs) && DistinctItems(xs)
    ensures fs != [] ==> fs[0].id in Bucket(after.findings, inv)
    ensures xs != [] ==> xs[0].id in Bucket(after.executions, inv)
    ensures review.Some? ==> inv in after.reviews
  {
    PutAllIs(KeepCustom(Bucket(m.findings, inv)), fs);
    PutAllIs(KeepCustom(Bucket(m.executions, inv)), xs);
  }

  // ---------------------------------------------------------------- concrete runs

  const ONE_EXECUTION: Execution := Item("x", Custom, ExecutionBody(None, 0))

  const NEW_RECORD := Record(None, false, 0)

  /** An execution saved before its investigation: the dictionaries keep it, the tables refuse it. */
  lemma UnrecordedIsStopped()
    ensures var op := SaveExecutions("a", [ONE_EXECUTION]);
            MemoryApply(NO_MEMORY, op).1 == Saved && TablesApply(NO_TABLES, op) == (NO_TABLES, Stopped)
            && !Same(MemoryApply(NO_MEMORY, op).0, NO_TABLES)
  {
    var op, x := SaveExecutions("a", [ONE_EXECUTION]), ONE_EXECUTION;
    InsertOne(x);
    assert PutAll(map[], [x]) == map[x.id := x];
    assert x.id in Bucket(MemoryApply(NO_MEMORY, op).0.executions, "a");
  }

  /** The same execution saved for two recorded investigations: nothing is refused or stopped, but
      the table moves it and the dictionaries keep both. */
  lemma SharedIdMoves()
    ensures var front := [SaveRecord("a", NEW_RECORD), SaveRecord("b", NEW_RECORD), SaveExecutions("a", [ONE_EXECUTION])];
            var last := SaveExecutions("b", [ONE_EXECUTION]);
            var m, q := MemoryRun(NO_MEMORY, front), TablesRun(NO_TABLES, front);
            && MemoryApply(m, last).1 == TablesApply(q, last).1 == Saved
            && !Same(MemoryApply(m, last).0, TablesApply(q, last).0)
  {
    var x := ONE_EXECUTION;
    var front := [SaveRecord("a", NEW_RECORD), SaveRecord("b", NEW_RECORD), SaveExecutions("a", [x])];
    FirstSave();
    var m, q := MemoryRun(NO_MEMORY, front), TablesRun(NO_TABLES, front);
    SecondSaveMoves(m, q, x);
  }

  lemma SecondSaveMoves(m: Memory, q: Tables, x: Execution)
    requires m.executions == map["a" := map[x.id := x]] && q.executions == map[x.id := Row("a", x)] && "b" in q.records
    ensures var last := SaveExecutions("b", [x]);
            && MemoryApply(m, last).1 == TablesApply(q, last).1 == Saved
            && !Same(MemoryApply(m, last).0, TablesApply(q, last).0)
  {
    SharedIdSplits(m.executions, q.executions, "b", [x], x);
  }

  lemma ThreeSteps(a: Operation, b: Operation, c: Operation)
    ensures MemoryRun(NO_MEMORY, [a]) == MemoryApply(NO_MEMORY, a).0
    ensures MemoryRun(NO_MEMORY, [a, b]) == MemoryApply(MemoryRun(NO_MEMORY, [a]), b).0
    ensures MemoryRun(NO_MEMORY, [a, b, c]) == MemoryApply(MemoryRun(NO_MEMORY, [a, b]), c).0
    ensures TablesRun(NO_TABLES, [a]) == TablesApply(NO_TABLES, a).0
    ensures TablesRun(NO_TABLES, [a, b]) == TablesApply(TablesRun(NO_TABLES, [a]), b).0
    ensures TablesRun(NO_TABLES, [a, b, c]) == TablesApply(TablesRun(NO_TABLES, [a, b]), c).0
  {
    assert [a][..0] == [] && [a, b][..1] == [a] && [a, b, c][..2] == [a, b];
  }

  lemma InsertOne(x: Execution)
    ensures var none: map<string, Row<Execution>> := map[];
            Upsert(none, "a", [x]) == Some(map[x.id := Row("a", x)])
  {
    var none: map<string, Row<Execution>> := map[];
    assert [x][1..] == [] && none - Ids([x]) == none;
    assert InsertItems(none, "a", [x]) == Some(map[x.id := Row("a", x)]);
  }

  lemma FirstSave()
    ensures var ops := [SaveRecord("a", NEW_RECORD), SaveRecord("b", NEW_RECORD), SaveExecutions("a", [ONE_EXECUTION])];
            && MemoryRun(NO_MEMORY, ops).executions == map["a" := map["x" := ONE_EXECUTION]]
            && TablesRun(NO_TABLES, ops).executions == map["x" := Row("a", ONE_EXECUTION)]
            && TablesRun(NO_TABLES, ops).records.Keys == {"a", "b"}
  {
    var x := ONE_EXECUTION;
    ThreeSteps(SaveRecord("a", NEW_RECORD), SaveRecord("b", NEW_RECORD), SaveExecutions("a", [x]));
    InsertOne(x);
    assert [x][1..] == [];
    assert PutAll(map[], [x]) == map[x.id := x];
  }
}
