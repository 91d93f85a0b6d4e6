/** Every run of the infer-fill protocol: jobs and proposals written by any number of workers, duplicate deliveries and
    callers. A step carries its attempt number as a plain argument, so the fences below hold for stale workers too. */
module InferenceProtocol {
  import opened Common
  import opened InferenceStore
  import opened InferenceProposals
  import opened ConfirmTheory

  datatype Step =
    | CreateJob(id: Id, workspace: Id, name: string)
    | Claim(id: Id, expected: Option<int>)
    | Reconcile(id: Id, target: int)
    | Complete(id: Id, attempt: int, proposed: int, skipped: int)
    | Fail(id: Id, attempt: int, message: string)
    | Retry(id: Id, attempt: int, message: string)
    | Record(batch: Batch)
    | Reject(workspace: Id, job: Id)
    | Discard(workspace: Id, job: Id)
    | Confirm(call: Call)
    | Others(schemas: Schemas, entities: Entities, snapshots: map<(Id, Id), Entity>)

  /** New rows get new ids, and a confirm lists the rows of its job. */
  ghost predicate Enabled(st: State, step: Step)
  {
    match step
    case Record(b) => FreshIds(st.proposals, b.fields)
    case Confirm(c) => CallOk(st, c)
    case _ => true
  }

  /** What the job table becomes and what the writer is told. */
  function JobWrite(jobs: Jobs, step: Step): (Jobs, Answer)
  {
    match step
    case CreateJob(id, workspace, name) => Created(jobs, id, workspace, name)
    case Claim(id, expected) => Claimed(jobs, id, expected)
    case Reconcile(id, target) => Reconciled(jobs, id, target)
    case Complete(id, attempt, proposed, skipped) => CompletedJob(jobs, id, attempt, proposed, skipped)
    case Fail(id, attempt, message) => FailedJob(jobs, id, attempt, message)
    case Retry(id, attempt, message) => Retried(jobs, id, attempt, message)
    case _ => (jobs, Ok(false))
  }

  ghost function Apply(st: State, step: Step): State
    requires Enabled(st, step)
  {
    match step
    case Record(b) => if RecordVerdict(st.jobs, b).Ok? then st.(proposals := Inserted(st.proposals, b, b.fields)) else st
    case Reject(workspace, job) => st.(proposals := Dismissed(st, workspace, job, Rejected))
    case Discard(workspace, job) => st.(proposals := Dismissed(st, workspace, job, Discarded))
    case Confirm(c) => if Confirmable(st, c) then AfterConfirm(st, c) else st
    case Others(schemas, entities, snapshots) => st.(schemas := schemas, entities := entities, snapshots := snapshots)
    case _ => st.(jobs := JobWrite(st.jobs, step).0)
  }

  /** A step of a run is a call of the store: what a run does, and what its writers are told, is what these calls do. */
  method Perform(store: ProposalStore, step: Step) returns (told: Answer)
    requires Enabled(store.tables, step) && !step.Others?
    modifies store
    ensures store.tables == Apply(old(store.tables), step) && told == JobWrite(old(store.tables).jobs, step).1
  {
    told := Ok(false);
    match step
    case CreateJob(id, workspace, name) => { told := store.CreateJob(id, workspace, name); }
    case Claim(id, expected) => { told := store.ClaimJob(id, expected); }
    case Reconcile(id, target) => { told := store.ReconcileJob(id, target); }
    case Complete(id, attempt, proposed, skipped) => { told := store.CompleteJob(id, attempt, proposed, skipped); }
    case Fail(id, attempt, message) => { told := store.FailJob(id, attempt, message); }
    case Retry(id, attempt, message) => { told := store.RetryJob(id, attempt, message); }
    case Record(b) => { var r := store.RecordBatchAttempt(b); }
    case Reject(workspace, job) => { var r := store.Dismiss(workspace, job, Rejected); }
    case Discard(workspace, job) => { var r := store.Dismiss(workspace, job, Discarded); }
    case Confirm(c) => { var r := store.Confirm(c); }
  }

  ghost predicate RunsFrom(st: State, steps: seq<Step>)
    decreases |steps|
  {
    steps == [] || (Enabled(st, steps[0]) && RunsFrom(Apply(st, steps[0]), steps[1..]))
  }

  ghost function After(st: State, steps: seq<Step>): State
    requires RunsFrom(st, steps)
    decreases |steps|
  {
    if steps == [] then st else After(Apply(st, steps[0]), steps[1..])
  }

  // ---------------------------------------------------------------- what one step does to the rows

  lemma {:induction false} JobWritesEvolve(jobs: Jobs, step: Step)
    ensures JobsEvolve(jobs, JobWrite(jobs, step).0)
  {
  }

  lemma {:induction false} JobWritesKeepOneRunning(jobs: Jobs, step: Step)
    requires OneRunning(jobs)
    ensures OneRunning(JobWrite(jobs, step).0)
  {
  }

  /** A proposal row may change only its status, and only out of Pending once its job is completed. */
  predicate RowEvolves(jobs: Jobs, a: Proposal, b: Proposal)
  {
    b == a.(status := b.status)
    && (b != a ==> a.status == Pending && a.job in jobs && jobs[a.job].status == Completed)
  }

  /** New rows belong to a running job of their workspace and are pending. */
  predicate RowStarts(jobs: Jobs, b: Proposal)
  {
    b.status == Pending && b.job in jobs && jobs[b.job].status == Running && jobs[b.job].workspace == b.workspace
  }

  ghost predicate RowsEvolve(jobs: Jobs, a: Proposals, b: Proposals)
  {
    && (forall p :: p in a ==> p in b && RowEvolves(jobs, a[p], b[p]))
    && (forall p :: p in b && p !in a ==> RowStarts(jobs, b[p]))
  }

  lemma {:induction false} RecordEvolves(st: State, b: Batch)
    requires FreshIds(st.proposals, b.fields) && RecordVerdict(st.jobs, b).Ok?
    ensures RowsEvolve(st.jobs, st.proposals, Inserted(st.proposals, b, b.fields))
  {
    InsertedProperties(st.proposals, b, b.fields);
    var after := Inserted(st.proposals, b, b.fields);
    forall p | p in after && p !in st.proposals ensures RowStarts(st.jobs, after[p]) {
      var f :| f in b.fields && p == f.id && after[p] == RowFor(b, f);
    }
  }

  lemma {:induction false} ConfirmEvolves(st: State, c: Call)
    requires CallOk(st, c) && Confirmable(st, c)
    ensures RowsEvolve(st.jobs, st.proposals, AfterConfirm(st, c).proposals) && AfterConfirm(st, c).jobs == st.jobs
  {
    ConfirmSettlesTheJob(st, c);
    var after := AfterConfirm(st, c).proposals;
    forall p | p in st.proposals ensures p in after && RowEvolves(st.jobs, st.proposals[p], after[p]) {
      if p in Rows(st, c) { assert st.proposals[p].job == c.job; }
    }
  }

  lemma {:induction false} StepEvolves(st: State, step: Step)
    requires Enabled(st, step)
    ensures JobsEvolve(st.jobs, Apply(st, step).jobs)
    ensures RowsEvolve(st.jobs, st.proposals, Apply(st, step).proposals)
  {
    JobWritesEvolve(st.jobs, step);
    match step
    case Record(b) => if RecordVerdict(st.jobs, b).Ok? { RecordEvolves(st, b); }
    case Confirm(c) => if Confirmable(st, c) { ConfirmEvolves(st, c); }
    case _ =>
  }

  // ---------------------------------------------------------------- the invariant

  /** A proposal belongs to a job of its workspace, and has left Pending only if that job is completed. */
  ghost predicate RowsCoupled(jobs: Jobs, proposals: Proposals)
  {
    forall p :: p in proposals ==>
      && proposals[p].job in jobs && jobs[proposals[p].job].workspace == proposals[p].workspace
      && (proposals[p].status != Pending ==> jobs[proposals[p].job].status == Completed)
  }

  ghost predicate Inv(st: State)
  {
    OneRunning(st.jobs) && KeysUnique(st.proposals) && RowsCoupled(st.jobs, st.proposals)
  }

  lemma {:induction false} EvolvingKeepsCoupled(jobs: Jobs, jobs': Jobs, rows: Proposals, rows': Proposals)
    requires RowsCoupled(jobs, rows) && JobsEvolve(jobs, jobs') && RowsEvolve(jobs, rows, rows')
    ensures RowsCoupled(jobs', rows')
  {
    forall p | p in rows'
      ensures rows'[p].job in jobs' && jobs'[rows'[p].job].workspace == rows'[p].workspace
      ensures rows'[p].status != Pending ==> jobs'[rows'[p].job].status == Completed
    {
      if p in rows { assert RowEvolves(jobs, rows[p], rows'[p]); } else { assert RowStarts(jobs, rows'[p]); }
      assert rows'[p].job in jobs && JobEvolves(jobs[rows'[p].job], jobs'[rows'[p].job]);
    }
  }

  lemma {:induction false} EvolvingKeepsKeys(jobs: Jobs, rows: Proposals, rows': Proposals)
    requires KeysUnique(rows) && RowsEvolve(jobs, rows, rows') && rows'.Keys == rows.Keys
    ensures KeysUnique(rows')
  {
    forall p, q | p in rows' && q in rows' && KeyOf(rows'[p]) == KeyOf(rows'[q]) ensures p == q {
      assert KeyOf(rows[p]) == KeyOf(rows'[p]) && KeyOf(rows[q]) == KeyOf(rows'[q]);
    }
  }

  lemma {:induction false} StepKeepsKeys(st: State, step: Step)
    requires Enabled(st, step) && KeysUnique(st.proposals)
    ensures KeysUnique(Apply(st, step).proposals)
  {
    StepEvolves(st, step);
    if step.Record? {
      InsertedProperties(st.proposals, step.batch, step.batch.fields);
    } else {
      if step.Confirm? && Confirmable(st, step.call) { ConfirmSettlesTheJob(st, step.call); }
      EvolvingKeepsKeys(st.jobs, st.proposals, Apply(st, step).proposals);
    }
  }

  lemma {:induction false} StepKeepsInv(st: State, step: Step)
    requires Enabled(st, step) && Inv(st)
    ensures Inv(Apply(st, step))
  {
    var st' := Apply(st, step);
    StepEvolves(st, step);
    StepKeepsKeys(st, step);
    EvolvingKeepsCoupled(st.jobs, st'.jobs, st.proposals, st'.proposals);
    assert OneRunning(st'.jobs) by {
      JobWritesKeepOneRunning(st.jobs, step);
      assert st'.jobs == st.jobs || st'.jobs == JobWrite(st.jobs, step).0;
    }
  }

  /** Whatever any number of workers and callers do, at most one job per workspace is running, no delivery key occurs
      twice, and a proposal that has left Pending belongs to a completed job. */
  lemma {:induction false} EveryRunKeepsInv(st: State, steps: seq<Step>)
    requires Inv(st) && RunsFrom(st, steps)
    ensures Inv(After(st, steps))
    ensures var end := After(st, steps);
            && OneRunning(end.jobs) && KeysUnique(end.proposals)
            && (forall p :: p in end.proposals && end.proposals[p].status != Pending ==>
                  end.proposals[p].job in end.jobs && end.jobs[end.proposals[p].job].status == Completed)
    decreases |steps|
  {
    if steps != [] {
      StepKeepsInv(st, steps[0]);
      EveryRunKeepsInv(Apply(st, steps[0]), steps[1..]);
    }
  }

  /** From empty tables: one running job per workspace, one proposal per delivery key across all retries, and no
      proposal settled before its job is completed. */
  lemma {:induction false} EveryHistoryIsSound(schemas: Schemas, entities: Entities, steps: seq<Step>)
    requires RunsFrom(State(map[], map[], schemas, entities, map[]), steps)
    ensures Inv(After(State(map[], map[], schemas, entities, map[]), steps))
  {
    EveryRunKeepsInv(State(map[], map[], schemas, entities, map[]), steps);
  }

  // ---------------------------------------------------------------- jobs over whole runs

  /** Rows never disappear, attempts never fall, and a completed row never changes again in any column. */
  lemma {:induction false} JobsOverARun(st: State, steps: seq<Step>, j: Id)
    requires RunsFrom(st, steps) && j in st.jobs
    ensures j in After(st, steps).jobs
    ensures After(st, steps).jobs[j].attempt >= st.jobs[j].attempt
    ensures After(st, steps).jobs[j].attempt - st.jobs[j].attempt <= |steps|
    ensures st.jobs[j].status == Completed ==> After(st, steps).jobs[j] == st.jobs[j]
    decreases |steps|
  {
    if steps != [] {
      StepEvolves(st, steps[0]);
      JobsOverARun(Apply(st, steps[0]), steps[1..], j);
    }
  }

  /** How many steps of a run were told that they completed job `j`. */
  ghost function Completions(st: State, steps: seq<Step>, j: Id): nat
    requires RunsFrom(st, steps)
    decreases |steps|
  {
    if steps == [] then 0
    else
      (if steps[0].Complete? && steps[0].id == j && JobWrite(st.jobs, steps[0]).1 == Ok(true) then 1 else 0)
      + Completions(Apply(st, steps[0]), steps[1..], j)
  }

  lemma {:induction false} CompletesAtMostOnce(st: State, steps: seq<Step>, j: Id)
    requires RunsFrom(st, steps)
    ensures Completions(st, steps, j) <= 1
    ensures j in st.jobs && st.jobs[j].status == Completed ==> Completions(st, steps, j) == 0
    decreases |steps|
  {
    if steps != [] {
      StepEvolves(st, steps[0]);
      CompletesAtMostOnce(Apply(st, steps[0]), steps[1..], j);
    }
  }

  // ---------------------------------------------------------------- the attempt fence

  /** A write about job `j` that carries attempt `a` or an earlier one. */
  predicate Late(step: Step, j: Id, a: int)
  {
    match step
    case Complete(id, attempt, _, _) => id == j && attempt <= a
    case Fail(id, attempt, _) => id == j && attempt <= a
    case Retry(id, attempt, _) => id == j && attempt <= a
    case Reconcile(id, target) => id == j && target <= a
    case Record(b) => b.job == j && b.attempt <= a
    case _ => false
  }

  /** Once the attempt of a job exceeds `a`, whatever happens next, a write that carries `a` or less changes no table. */
  lemma {:induction false} LateWritesDoNothing(st: State, steps: seq<Step>, j: Id, a: int, late: Step)
    requires RunsFrom(st, steps) && j in st.jobs && st.jobs[j].attempt > a
    requires Late(late, j, a) && Enabled(After(st, steps), late)
    ensures Apply(After(st, steps), late) == After(st, steps)
    ensures !late.Record? ==> JobWrite(After(st, steps).jobs, late).1 == Ok(false)
    ensures late.Record? ==> RecordVerdict(After(st, steps).jobs, late.batch).Err?
  {
    JobsOverARun(st, steps, j);
  }

  /** Repeating a reconcile at once changes nothing more and never admits a second worker. */
  lemma {:induction false} ReconcileIsIdempotent(jobs: Jobs, j: Id, target: int)
    ensures var once := Reconciled(jobs, j, target);
            var twice := Reconciled(once.0, j, target);
            twice.0 == once.0 && twice.1 == if once.1 == Ok(true) then Ok(false) else once.1
  {
  }

  /** The step admitted a worker to job `j`: a claim or a reconcile that answered true. */
  predicate Admits(jobs: Jobs, step: Step, j: Id)
  {
    (step.Claim? || step.Reconcile?) && step.id == j && JobWrite(jobs, step).1 == Ok(true)
  }

  /** Attempt `a` of the job is taken: some worker was admitted to it and it has not failed since. */
  predicate Taken(jobs: Jobs, j: Id, a: int)
  {
    j in jobs && jobs[j].attempt >= a && !(jobs[j].attempt == a && jobs[j].status == Failed)
  }

  /** The steps of a run without a failure recorded for attempt `a` of job `j`. */
  predicate NeverFails(steps: seq<Step>, j: Id, a: int)
  {
    forall k :: 0 <= k < |steps| ==> !(steps[k].Fail? && steps[k].id == j && steps[k].attempt == a)
  }

  lemma {:induction false} StepKeepsTaken(st: State, step: Step, j: Id, a: int)
    requires Enabled(st, step) && Taken(st.jobs, j, a) && !(step.Fail? && step.id == j && step.attempt == a)
    ensures Taken(Apply(st, step).jobs, j, a)
  {
    assert Apply(st, step).jobs == st.jobs || Apply(st, step).jobs == JobWrite(st.jobs, step).0;
  }

  lemma {:induction false} TakenStaysTaken(st: State, steps: seq<Step>, j: Id, a: int)
    requires RunsFrom(st, steps) && Taken(st.jobs, j, a) && NeverFails(steps, j, a)
    ensures Taken(After(st, steps).jobs, j, a)
    decreases |steps|
  {
    if steps != [] {
      StepKeepsTaken(st, steps[0], j, a);
      assert NeverFails(steps[1..], j, a);
      TakenStaysTaken(Apply(st, steps[0]), steps[1..], j, a);
    }
  }

  /** Two workers are never both admitted to one attempt of a job unless that attempt was failed in between. */
  lemma {:induction false} AdmissionsAreExclusive(st: State, first: Step, steps: seq<Step>, second: Step, j: Id)
    requires Enabled(st, first) && Admits(st.jobs, first, j)
    requires RunsFrom(Apply(st, first), steps)
    requires NeverFails(steps, j, Apply(st, first).jobs[j].attempt)
    requires Admits(After(Apply(st, first), steps).jobs, second, j)
    ensures JobWrite(After(Apply(st, first), steps).jobs, second).0[j].attempt > Apply(st, first).jobs[j].attempt
  {
    TakenStaysTaken(Apply(st, first), steps, j, Apply(st, first).jobs[j].attempt);
  }

  /** The step starts a new attempt: an admission other than resuming a failed attempt. */
  predicate Starts(jobs: Jobs, step: Step, j: Id)
  {
    Admits(jobs, step, j) && !(step.Reconcile? && j in jobs && jobs[j].attempt == step.target)
  }

  ghost function Starters(st: State, steps: seq<Step>, j: Id): nat
    requires RunsFrom(st, steps)
    decreases |steps|
  {
    if steps == [] then 0
    else (if Starts(st.jobs, steps[0], j) then 1 else 0) + Starters(Apply(st, steps[0]), steps[1..], j)
  }

  lemma {:induction false} OneStart(st: State, step: Step, j: Id)
    requires Enabled(st, step) && j in st.jobs
    ensures j in Apply(st, step).jobs
    ensures Apply(st, step).jobs[j].attempt == st.jobs[j].attempt + if Starts(st.jobs, step, j) then 1 else 0
  {
  }

  /** The attempt number counts the admissions that started an attempt, and so it is unchanged exactly if none did. An
      admission that resumes a failed attempt leaves the number as it is. */
  lemma {:induction false} AttemptCountsStarts(st: State, steps: seq<Step>, j: Id)
    requires RunsFrom(st, steps) && j in st.jobs
    ensures j in After(st, steps).jobs
    ensures After(st, steps).jobs[j].attempt == st.jobs[j].attempt + Starters(st, steps, j)
    ensures After(st, steps).jobs[j].attempt == st.jobs[j].attempt <==> Starters(st, steps, j) == 0
    decreases |steps|
  {
    if steps != [] {
      OneStart(st, steps[0], j);
      AttemptCountsStarts(Apply(st, steps[0]), steps[1..], j);
    }
  }

  // ---------------------------------------------------------------- who holds an attempt number

  /** The state of a run after its first `k` steps. */
  ghost function At(st: State, steps: seq<Step>, k: nat): State
    requires RunsFrom(st, steps) && k <= |steps|
    decreases k
  {
    if k == 0 then st else At(Apply(st, steps[0]), steps[1..], k - 1)
  }

  lemma {:induction false} AtSucceeds(st: State, steps: seq<Step>, k: nat)
    requires RunsFrom(st, steps) && k < |steps|
    ensures Enabled(At(st, steps, k), steps[k]) && At(st, steps, k + 1) == Apply(At(st, steps, k), steps[k])
    decreases k
  {
    if k > 0 { AtSucceeds(Apply(st, steps[0]), steps[1..], k - 1); }
  }

  /** Step `k` of the run starts an attempt of the job. */
  ghost predicate StartsAt(st: State, steps: seq<Step>, j: Id, k: nat)
    requires RunsFrom(st, steps) && k < |steps|
  {
    Starts(At(st, steps, k).jobs, steps[k], j)
  }

  ghost predicate NoStartBetween(st: State, steps: seq<Step>, j: Id, p: nat, q: nat)
    requires RunsFrom(st, steps) && q <= |steps|
  {
    forall k :: p <= k < q ==> !StartsAt(st, steps, j, k)
  }

  /** Two reads of the attempt give one number exactly if no step between them starts an attempt. */
  lemma {:induction false} ReadsAgreeExactlyWhen(st: State, steps: seq<Step>, j: Id, p: nat, q: nat)
    requires RunsFrom(st, steps) && p <= q <= |steps| && j in At(st, steps, p).jobs
    ensures j in At(st, steps, q).jobs && At(st, steps, q).jobs[j].attempt >= At(st, steps, p).jobs[j].attempt
    ensures At(st, steps, q).jobs[j].attempt == At(st, steps, p).jobs[j].attempt <==> NoStartBetween(st, steps, j, p, q)
    decreases q - p
  {
    if p < q {
      ReadsAgreeExactlyWhen(st, steps, j, p, q - 1);
      AtSucceeds(st, steps, q - 1);
      OneStart(At(st, steps, q - 1), steps[q - 1], j);
      assert NoStartBetween(st, steps, j, p, q) <==> NoStartBetween(st, steps, j, p, q - 1) && !StartsAt(st, steps, j, q - 1);
    }
  }

  /** The step resumes the attempt that was failed last. */
  predicate Resumes(jobs: Jobs, step: Step, j: Id)
  {
    step.Reconcile? && step.id == j && j in jobs && jobs[j].status == Failed && jobs[j].attempt == step.target
  }

  /** A worker is admitted at step `a` and reads its attempt again after step `ra - 1`; another one is admitted later, at
      step `b`, and reads after step `rb - 1`. They hold one attempt number exactly if no attempt is started between the
      two reads. Then the second admission came before the first worker's read, or it resumed a failed attempt. */
  lemma {:induction false} WorkersShareExactlyWhen(st: State, steps: seq<Step>, j: Id, a: nat, ra: nat, b: nat, rb: nat)
    requires RunsFrom(st, steps) && a < b && a < ra <= |steps| && b < rb <= |steps|
    requires Admits(At(st, steps, a).jobs, steps[a], j) && Admits(At(st, steps, b).jobs, steps[b], j)
    ensures j in At(st, steps, ra).jobs && j in At(st, steps, rb).jobs
    ensures At(st, steps, ra).jobs[j].attempt == At(st, steps, rb).jobs[j].attempt
       <==> NoStartBetween(st, steps, j, if ra < rb then ra else rb, if ra < rb then rb else ra)
    ensures At(st, steps, ra).jobs[j].attempt == At(st, steps, rb).jobs[j].attempt
            ==> b < ra || Resumes(At(st, steps, b).jobs, steps[b], j)
  {
    assert j in At(st, steps, a).jobs;
    ReadsAgreeExactlyWhen(st, steps, j, a, ra);
    ReadsAgreeExactlyWhen(st, steps, j, a, rb);
    if ra < rb { ReadsAgreeExactlyWhen(st, steps, j, ra, rb); } else { ReadsAgreeExactlyWhen(st, steps, j, rb, ra); }
    if ra <= b && NoStartBetween(st, steps, j, ra, rb) { assert !StartsAt(st, steps, j, b); }
  }

  /** Two workers can hold one attempt. The lease of the first expires and the job is recovered before the first reads its
      attempt again: then writes of both carry attempt 2 and pass the fence, which refuses attempt 1. */
  lemma {:induction false} TwoWorkersShareAnAttempt(b: Batch)
    requires b.workspace == 1 && b.job == 9 && b.attempt == 2
    ensures var queued := map[9 := Job(1, "s", Queued, 0, 0, 0, None, 0)];
            var first := JobWrite(queued, Reconcile(9, 1));
            var second := JobWrite(first.0, Reconcile(9, 2));
            && first.1 == Ok(true) && first.0[9].attempt == 1
            && second.1 == Ok(true) && second.0[9].attempt == 2
            && RecordVerdict(second.0, b).Ok? && RecordVerdict(second.0, b.(attempt := 1)).Err?
  {
  }

  /** Two workers can hold one attempt also one after the other: attempt 1 is failed and resumed. */
  lemma {:induction false} ResumedAttemptIsSharedToo(message: string)
    ensures var running := map[9 := Job(1, "s", Running, 0, 0, 0, None, 1)];
            var failed := JobWrite(running, Fail(9, 1, message)).0;
            Admits(failed, Reconcile(9, 1), 9) && Resumes(failed, Reconcile(9, 1), 9)
            && JobWrite(failed, Reconcile(9, 1)).0[9].attempt == 1
  {
  }

  // ---------------------------------------------------------------- proposals over whole runs

  function RowsOfJob(proposals: Proposals, j: Id): set<Id>
  {
    set p | p in proposals && proposals[p].job == j
  }

  lemma {:induction false} CompletedSetKept(st: State, step: Step, j: Id)
    requires Enabled(st, step) && j in st.jobs && st.jobs[j].status == Completed
    ensures RowsOfJob(Apply(st, step).proposals, j) == RowsOfJob(st.proposals, j)
  {
    StepEvolves(st, step);
    var rows, rows' := st.proposals, Apply(st, step).proposals;
    forall p ensures p in RowsOfJob(rows, j) <==> p in RowsOfJob(rows', j) {
      if p in rows { assert RowEvolves(st.jobs, rows[p], rows'[p]); }
      else if p in rows' { assert RowStarts(st.jobs, rows'[p]); }
    }
  }

  /** Once a job is completed its set of proposals is fixed in every continuation. */
  lemma {:induction false} CompletedSetIsFixed(st: State, steps: seq<Step>, j: Id)
    requires RunsFrom(st, steps) && j in st.jobs && st.jobs[j].status == Completed
    ensures RowsOfJob(After(st, steps).proposals, j) == RowsOfJob(st.proposals, j)
    decreases |steps|
  {
    if steps != [] {
      CompletedSetKept(st, steps[0], j);
      StepEvolves(st, steps[0]);
      CompletedSetIsFixed(Apply(st, steps[0]), steps[1..], j);
    }
  }

  /** Rows never disappear, only their status ever changes, and a settled row never changes at all. */
  lemma {:induction false} SettledIsForever(st: State, steps: seq<Step>, p: Id)
    requires RunsFrom(st, steps) && p in st.proposals
    ensures p in After(st, steps).proposals
    ensures var after := After(st, steps).proposals[p]; after == st.proposals[p].(status := after.status)
    ensures st.proposals[p].status != Pending ==> After(st, steps).proposals[p] == st.proposals[p]
    decreases |steps|
  {
    if steps != [] {
      StepEvolves(st, steps[0]);
      assert RowEvolves(st.jobs, st.proposals[p], Apply(st, steps[0]).proposals[p]);
      SettledIsForever(Apply(st, steps[0]), steps[1..], p);
    }
  }

  /** No proposal of a job appears after any proposal of that job has left Pending. */
  lemma {:induction false} NoProposalAfterASettledOne(st: State, steps: seq<Step>, p: Id)
    requires Inv(st) && RunsFrom(st, steps) && p in st.proposals && st.proposals[p].status != Pending
    ensures RowsOfJob(After(st, steps).proposals, st.proposals[p].job) == RowsOfJob(st.proposals, st.proposals[p].job)
  {
    CompletedSetIsFixed(st, steps, st.proposals[p].job);
  }

  // ---------------------------------------------------------------- the count of a completed job

  /** The rows that one step records for the job: what `record_batch_attempt` answers. */
  ghost function Written(st: State, step: Step, j: Id): int
    requires Enabled(st, step)
  {
    if step.Record? && step.batch.job == j then |Apply(st, step).proposals| - |st.proposals| else 0
  }

  /** The rows recorded for the job by the steps of one worker, `mine` marking its steps, or by all others. */
  ghost function WrittenBy(st: State, steps: seq<Step>, j: Id, mine: seq<bool>, who: bool): int
    requires RunsFrom(st, steps) && |mine| == |steps|
    decreases |steps|
  {
    if steps == [] then 0
    else (if mine[0] == who then Written(st, steps[0], j) else 0)
         + WrittenBy(Apply(st, steps[0]), steps[1..], j, mine[1..], who)
  }

  lemma {:induction false} GrowthIsOfTheJob(before: Proposals, after: Proposals, j: Id)
    requires forall p :: p in before ==> p in after && after[p] == before[p]
    requires forall p :: p in after && p !in before ==> after[p].job == j
    ensures |RowsOfJob(after, j)| - |RowsOfJob(before, j)| == |after| - |before| >= 0
  {
    var new' := after.Keys - before.Keys;
    assert after.Keys == before.Keys + new';
    assert RowsOfJob(after, j) == RowsOfJob(before, j) + new';
  }

  lemma {:induction false} RecordAddsItsRows(st: State, b: Batch)
    requires FreshIds(st.proposals, b.fields)
    ensures var after := Inserted(st.proposals, b, b.fields);
            |RowsOfJob(after, b.job)| - |RowsOfJob(st.proposals, b.job)| == |after| - |st.proposals| >= 0
  {
    var after := Inserted(st.proposals, b, b.fields);
    InsertedProperties(st.proposals, b, b.fields);
    forall p | p in after && p !in st.proposals ensures after[p].job == b.job {
      var f :| f in b.fields && p == f.id && after[p] == RowFor(b, f);
    }
    GrowthIsOfTheJob(st.proposals, after, b.job);
  }

  lemma {:induction false} OnlyRecordsAdd(st: State, step: Step)
    requires Enabled(st, step) && !step.Record?
    ensures Apply(st, step).proposals.Keys == st.proposals.Keys
  {
    if step.Confirm? && Confirmable(st, step.call) { ConfirmSettlesTheJob(st, step.call); }
  }

  lemma {:induction false} SameRowsOfJob(jobs: Jobs, before: Proposals, after: Proposals, j: Id)
    requires RowsEvolve(jobs, before, after) && forall p :: p in after && p !in before ==> after[p].job != j
    ensures RowsOfJob(after, j) == RowsOfJob(before, j)
  {
    forall p | p in before ensures p in after && after[p].job == before[p].job {
      assert RowEvolves(jobs, before[p], after[p]);
    }
  }

  lemma {:induction false} OtherStepsKeepRows(st: State, step: Step, j: Id)
    requires Enabled(st, step) && !(step.Record? && step.batch.job == j)
    ensures RowsOfJob(Apply(st, step).proposals, j) == RowsOfJob(st.proposals, j)
  {
    var after := Apply(st, step).proposals;
    StepEvolves(st, step);
    forall p | p in after && p !in st.proposals ensures after[p].job != j {
      if step.Record? {
        InsertedProperties(st.proposals, step.batch, step.batch.fields);
        var f :| f in step.batch.fields && p == f.id && after[p] == RowFor(step.batch, f);
      } else {
        OnlyRecordsAdd(st, step);
      }
    }
    SameRowsOfJob(st.jobs, st.proposals, after, j);
  }

  lemma {:induction false} StepAddsWritten(st: State, step: Step, j: Id)
    requires Enabled(st, step)
    ensures Written(st, step, j) >= 0
    ensures |RowsOfJob(Apply(st, step).proposals, j)| == |RowsOfJob(st.proposals, j)| + Written(st, step, j)
  {
    if step.Record? && step.batch.job == j {
      if RecordVerdict(st.jobs, step.batch).Ok? { RecordAddsItsRows(st, step.batch); }
    } else {
      OtherStepsKeepRows(st, step, j);
    }
  }

  /** The proposals of a job are those its workers wrote, whoever they are. */
  lemma {:induction false} RowsCountWrites(st: State, steps: seq<Step>, j: Id, mine: seq<bool>)
    requires RunsFrom(st, steps) && |mine| == |steps|
    ensures WrittenBy(st, steps, j, mine, false) >= 0
    ensures |RowsOfJob(After(st, steps).proposals, j)|
         == |RowsOfJob(st.proposals, j)| + WrittenBy(st, steps, j, mine, true) + WrittenBy(st, steps, j, mine, false)
    decreases |steps|
  {
    if steps != [] {
      StepAddsWritten(st, steps[0], j);
      RowsCountWrites(Apply(st, steps[0]), steps[1..], j, mine[1..]);
    }
  }

  /** A worker completes the job with the number of rows it wrote itself. In every continuation the `proposed` column
      counts the proposals of the job exactly if nobody else wrote any: no earlier attempt that was taken over or retried,
      and no other worker under the same number. */
  lemma {:induction false} ProposedCountsTheRowsExactlyWhen(st: State, steps: seq<Step>, mine: seq<bool>, end: Step,
                                                            later: seq<Step>, j: Id)
    requires Inv(st) && j !in st.jobs && RunsFrom(st, steps) && |mine| == |steps|
    requires end.Complete? && end.id == j && end.proposed == WrittenBy(st, steps, j, mine, true)
    requires JobWrite(After(st, steps).jobs, end).1 == Ok(true)
    requires RunsFrom(Apply(After(st, steps), end), later)
    ensures var last := After(Apply(After(st, steps), end), later);
            j in last.jobs &&
            (last.jobs[j].proposed == |RowsOfJob(last.proposals, j)| <==> WrittenBy(st, steps, j, mine, false) == 0)
  {
    assert RowsOfJob(st.proposals, j) == {};
    RowsCountWrites(st, steps, j, mine);
    var done := Apply(After(st, steps), end);
    JobsOverARun(done, later, j);
    CompletedSetIsFixed(done, later, j);
  }
}
