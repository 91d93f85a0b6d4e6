/** Rows and single-statement writes of the infer-fill tables:
    ee/models/inference_jobs.rs, ee/models/inference_proposals.rs and ee/models/entity_entities.rs. */
module InferenceStore {
  import opened Common

  datatype JobStatus = Queued | Running | Completed | Failed

  datatype Job = Job(workspace: Id, schemaName: string, status: JobStatus, applied: int, proposed: int,
                     skipped: int, error: Option<string>, attempt: int)

  datatype Json = Null | Bool(b: bool) | Number(n: int) | Text(s: string) | Array(items: seq<Json>)
                | Object(fields: map<string, Json>)

  datatype ProposalStatus = Pending | Confirmed | Rejected | Discarded | Stale | Invalid

  datatype Proposal = Proposal(job: Id, workspace: Id, entity: Id, schema: Id, version: int,
                               field: string, value: Json, status: ProposalStatus)

  /** A schema version; `types` are the entity types its definition names. */
  datatype Schema = Schema(workspace: Id, name: string, version: int, active: bool, types: set<string>)

  /** An entity row; `stamp` is its `updated_at`. */
  datatype Entity = Entity(workspace: Id, entityType: string, data: Json, schema: Id, version: int,
                           updatedBy: Option<Id>, stamp: int)

  type Jobs = map<Id, Job>
  type Proposals = map<Id, Proposal>
  type Entities = map<Id, Entity>
  type Schemas = map<Id, Schema>

  // ---------------------------------------------------------------- jobs

  /** The partial unique index refuses `id` as a running job: another job of its workspace is running. */
  predicate WorkspaceBusy(jobs: Jobs, id: Id)
    requires id in jobs
  {
    exists j :: j in jobs && j != id && jobs[j].workspace == jobs[id].workspace && jobs[j].status == Running
  }

  /** What one guarded write answers: whether it changed the row, or the workspace-busy conflict. */
  type Answer = Result<bool>

  function Created(jobs: Jobs, id: Id, workspace: Id, name: string): (Jobs, Answer)
  {
    if id in jobs then (jobs, Err(Internal))
    else (jobs[id := Job(workspace, name, Queued, 0, 0, 0, None, 0)], Ok(true))
  }

  function Claimed(jobs: Jobs, id: Id, expected: Option<int>): (Jobs, Answer)
  {
    if id !in jobs || jobs[id].status != Queued || (expected.Some? && expected.value != jobs[id].attempt)
    then (jobs, Ok(false))
    else if WorkspaceBusy(jobs, id) then (jobs, Err(Conflict))
    else (jobs[id := jobs[id].(status := Running, attempt := jobs[id].attempt + 1)], Ok(true))
  }

  function Reconciled(jobs: Jobs, id: Id, target: int): (Jobs, Answer)
  {
    if id !in jobs then (jobs, Err(NotFound))
    else
      var row := jobs[id];
      if row.status == Running && row.attempt == target then (jobs, Ok(false))
      else if row.status == Failed && row.attempt == target then
        if WorkspaceBusy(jobs, id) then (jobs, Err(Conflict))
        else (jobs[id := row.(status := Running, error := None)], Ok(true))
      else if row.attempt != target - 1 || row.status == Completed then (jobs, Ok(false))
      else if WorkspaceBusy(jobs, id) then (jobs, Err(Conflict))
      else (jobs[id := row.(status := Running, attempt := target)], Ok(true))
  }

  /** The row is running and carries this attempt: the guard of complete, fail and retry. */
  predicate Owns(jobs: Jobs, id: Id, attempt: int)
  {
    id in jobs && jobs[id].status == Running && jobs[id].attempt == attempt
  }

  /** Completion leaves the `error` of an earlier attempt in place. */
  function CompletedJob(jobs: Jobs, id: Id, attempt: int, proposed: int, skipped: int): (Jobs, Answer)
  {
    if Owns(jobs, id, attempt)
    then (jobs[id := jobs[id].(status := Completed, applied := 0, proposed := proposed, skipped := skipped)], Ok(true))
    else (jobs, Ok(false))
  }

  function FailedJob(jobs: Jobs, id: Id, attempt: int, message: string): (Jobs, Answer)
  {
    if Owns(jobs, id, attempt) then (jobs[id := jobs[id].(status := Failed, error := Some(message))], Ok(true))
    else (jobs, Ok(false))
  }

  function Retried(jobs: Jobs, id: Id, attempt: int, message: string): (Jobs, Answer)
  {
    if Owns(jobs, id, attempt) then (jobs[id := jobs[id].(status := Queued, error := Some(message))], Ok(true))
    else (jobs, Ok(false))
  }

  // ---------------------------------------------------------------- what job writes keep

  /** A job row may change so: Completed is frozen, and an attempt rises by one at most, into Running. */
  predicate JobEvolves(a: Job, b: Job)
  {
    && b.workspace == a.workspace && b.schemaName == a.schemaName
    && a.attempt <= b.attempt <= a.attempt + 1
    && (a.status == Completed ==> b == a)
    && (b.attempt > a.attempt ==> b.status == Running)
    && (b.status == Completed && a.status != Completed ==> a.status == Running)
  }

  ghost predicate JobsEvolve(a: Jobs, b: Jobs)
  {
    forall j :: j in a ==> j in b && JobEvolves(a[j], b[j])
  }

  ghost predicate OneRunning(jobs: Jobs)
  {
    forall i, j | i in jobs && j in jobs && jobs[i].status == Running && jobs[j].status == Running
                  && jobs[i].workspace == jobs[j].workspace :: i == j
  }

  /** A write about job `id` touches no other row, lets its row evolve only, and keeps one running job per workspace. */
  ghost predicate KeepsJobRules(a: Jobs, b: Jobs, id: Id)
  {
    && JobsEvolve(a, b) && (OneRunning(a) ==> OneRunning(b))
    && forall j :: j in b && j != id ==> j in a && b[j] == a[j]
  }

  lemma {:induction false} ReplacingKeepsJobRules(jobs: Jobs, id: Id, row: Job)
    requires id in jobs && JobEvolves(jobs[id], row) && (row.status == Running ==> !WorkspaceBusy(jobs, id))
    ensures KeepsJobRules(jobs, jobs[id := row], id)
  {
  }

  /** Nobody owns the job: no attempt number passes the guard of complete, fail and retry. */
  ghost predicate Unowned(jobs: Jobs, id: Id)
  {
    forall attempt :: !Owns(jobs, id, attempt)
  }

  /** The row a claim looks for. */
  predicate Claimable(jobs: Jobs, id: Id, expected: Option<int>)
  {
    id in jobs && jobs[id].status == Queued && (expected.None? || expected.value == jobs[id].attempt)
  }

  /** Attempt `target` of the job may be started, or was failed and may be resumed. */
  predicate Admissible(jobs: Jobs, id: Id, target: int)
  {
    && id in jobs
    && (if jobs[id].attempt == target then jobs[id].status == Failed
        else jobs[id].attempt == target - 1 && jobs[id].status != Completed)
  }

  // ---------------------------------------------------------------- recording proposals

  /** The columns of the unique delivery key. */
  datatype DeliveryKey = DeliveryKey(workspace: Id, job: Id, entity: Id, schema: Id, version: int, field: string)

  function KeyOf(p: Proposal): DeliveryKey
  {
    DeliveryKey(p.workspace, p.job, p.entity, p.schema, p.version, p.field)
  }

  predicate HasKey(proposals: Proposals, key: DeliveryKey)
  {
    exists p :: p in proposals && KeyOf(proposals[p]) == key
  }

  ghost predicate KeysUnique(proposals: Proposals)
  {
    forall p, q | p in proposals && q in proposals && KeyOf(proposals[p]) == KeyOf(proposals[q]) :: p == q
  }

  /** One proposed value, with the id its row gets if it is inserted. */
  datatype Field = Field(id: Id, entity: Id, name: string, value: Json)

  datatype Batch = Batch(workspace: Id, job: Id, attempt: int, schema: Id, version: int, fields: seq<Field>)

  function RowFor(b: Batch, f: Field): Proposal
  {
    Proposal(b.job, b.workspace, f.entity, b.schema, b.version, f.name, f.value, Pending)
  }

  ghost predicate FreshIds(proposals: Proposals, fields: seq<Field>)
  {
    && (forall k :: 0 <= k < |fields| ==> fields[k].id !in proposals)
    && (forall j, k :: 0 <= j < k < |fields| ==> fields[j].id != fields[k].id)
  }

  lemma {:induction false} FreshTail(proposals: Proposals, fields: seq<Field>, k: nat, row: Proposal)
    requires k < |fields| && FreshIds(proposals, fields[k..])
    ensures fields[k].id !in proposals
    ensures FreshIds(proposals, fields[k + 1..]) && FreshIds(proposals[fields[k].id := row], fields[k + 1..])
  {
    var now, rest := fields[k..], fields[k + 1..];
    assert now[0] == fields[k];
    forall m | 0 <= m < |rest| ensures rest[m].id !in proposals && rest[m].id != now[0].id { assert rest[m] == now[m + 1]; }
    forall j, m | 0 <= j < m < |rest| ensures rest[j].id != rest[m].id { assert rest[j] == now[j + 1] && rest[m] == now[m + 1]; }
  }

  /** The table after one field: unchanged for a duplicate key, otherwise with its row. */
  function InsertedOne(proposals: Proposals, row: Proposal, id: Id): Proposals
  {
    if HasKey(proposals, KeyOf(row)) then proposals else proposals[id := row]
  }

  /** Inserts field by field; a duplicate delivery key is skipped. */
  function Inserted(proposals: Proposals, b: Batch, fields: seq<Field>): Proposals
    decreases |fields|
  {
    if fields == [] then proposals
    else
      Inserted(InsertedOne(proposals, RowFor(b, fields[0]), fields[0].id), b, fields[1..])
  }

  function RecordVerdict(jobs: Jobs, b: Batch): Result<()>
  {
    if b.job !in jobs || jobs[b.job].workspace != b.workspace then Err(NotFound)
    else if jobs[b.job].status != Running || jobs[b.job].attempt != b.attempt then Err(Conflict)
    else Ok(())
  }

  lemma {:induction false} OneInsert(proposals: Proposals, row: Proposal, id: Id)
    requires id !in proposals
    ensures var next := InsertedOne(proposals, row, id);
            && (forall p :: p in proposals ==> p in next && next[p] == proposals[p])
            && (KeysUnique(proposals) ==> KeysUnique(next))
            && HasKey(next, KeyOf(row))
            && (forall p :: p in next && p !in proposals ==> p == id && next[p] == row)
  {
    var next := InsertedOne(proposals, row, id);
    if !HasKey(proposals, KeyOf(row)) { assert id in next && next[id] == row; }
  }

  /** What inserting guarantees: old rows stay, keys stay unique, and exactly the new delivery keys appear as pending rows. */
  lemma {:induction false} InsertedProperties(proposals: Proposals, b: Batch, fields: seq<Field>)
    requires FreshIds(proposals, fields)
    ensures var after := Inserted(proposals, b, fields);
            && (forall p :: p in proposals ==> p in after && after[p] == proposals[p])
            && (KeysUnique(proposals) ==> KeysUnique(after))
            && (forall p :: p in after && p !in proposals ==> exists f :: f in fields && p == f.id && after[p] == RowFor(b, f))
            && (forall f :: f in fields ==> HasKey(after, KeyOf(RowFor(b, f))))
    decreases |fields|
  {
    if fields != [] {
      var row := RowFor(b, fields[0]);
      var next := InsertedOne(proposals, row, fields[0].id);
      assert fields[0..] == fields;
      FreshTail(proposals, fields, 0, row);
      OneInsert(proposals, row, fields[0].id);
      InsertedProperties(next, b, fields[1..]);
      var after := Inserted(proposals, b, fields);
      assert HasKey(after, KeyOf(row)) by {
        var p :| p in next && KeyOf(next[p]) == KeyOf(row);
        assert p in after && after[p] == next[p];
      }
      forall p | p in after && p !in proposals
        ensures exists f :: f in fields && p == f.id && after[p] == RowFor(b, f)
      {
        if p in next {
          assert p == fields[0].id && after[p] == RowFor(b, fields[0]) && fields[0] in fields;
        } else {
          var f :| f in fields[1..] && p == f.id && after[p] == RowFor(b, f);
          assert f in fields;
        }
      }
    }
  }

  lemma {:induction false} SubsetSize(a: set<Id>, b: set<Id>)
    requires a <= b
    ensures |a| <= |b|
  {
    assert b == a + (b - a);
  }

  // ---------------------------------------------------------------- actions on a completed job

  /** `require_completed_job`. */
  function ActionVerdict(jobs: Jobs, proposals: Proposals, workspace: Id, job: Id): Result<()>
  {
    if job !in jobs || jobs[job].workspace != workspace then Err(NotFound)
    else if jobs[job].status != Completed then Err(Conflict)
    else if !exists p :: p in proposals && proposals[p].workspace == workspace && proposals[p].job == job then Err(Conflict)
    else Ok(())
  }

  function PendingOf(proposals: Proposals, workspace: Id, job: Id): set<Id>
  {
    set p | p in proposals && proposals[p].workspace == workspace && proposals[p].job == job && proposals[p].status == Pending
  }

  /** `transition_pending`: one statement over the pending rows of a job. */
  function Moved(proposals: Proposals, rows: set<Id>, status: ProposalStatus): Proposals
  {
    map p | p in proposals :: if p in rows then proposals[p].(status := status) else proposals[p]
  }

  // ---------------------------------------------------------------- the conditional entity write

  /** `update_if_unchanged` finds a row to write: on PostgreSQL only if it still carries the timestamp that was read. */
  predicate Unchanged(backend: Backend, workspace: Id, current: Entities, e: Id, existing: Entity)
  {
    && e in current && current[e].workspace == workspace
    && (backend.Postgres? ==> current[e].stamp == existing.stamp)
  }
}
