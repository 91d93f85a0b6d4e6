/** A run by example: a job is taken over under a newer schema after its first worker recorded a proposal. Both
    proposals are confirmed, the archived version's value is the one stored, and the job's count misses a row. */
module RetriedJob {
  import opened Common
  import opened InferenceStore
  import opened InferenceProposals
  import opened ConfirmTheory
  import opened InferenceProtocol

  function Schemas(newer: bool): Schemas
  {
    map[100 := Schema(1, "s", 1, false, {"t"}), 101 := Schema(1, "s", 2, !newer, {"t"})]
    + if newer then map[102 := Schema(1, "s", 3, true, {"t"})] else map[]
  }

  function Outdated(): Entities
  {
    map[5 := Entity(1, "t", Object(map[]), 100, 1, None, 0)]
  }

  function Row(attempt: nat): Proposal
  {
    Proposal(9, 1, 5, 100 + attempt, attempt + 1, "f", Number(attempt), Pending)
  }

  function BatchOf(attempt: nat): Batch
  {
    Batch(1, 9, attempt, 100 + attempt, attempt + 1, [Field(20 + attempt, 5, "f", Number(attempt))])
  }

  function JobAt(status: JobStatus, attempt: nat, proposed: nat): Job
  {
    Job(1, "s", status, 0, proposed, 0, None, attempt)
  }

  function Rows(attempts: nat): Proposals
  {
    if attempts == 0 then map[] else if attempts == 1 then map[21 := Row(1)] else map[21 := Row(1), 22 := Row(2)]
  }

  /** The tables during the run. */
  function Tables(job: Job, attempts: nat, newer: bool): State
  {
    State(map[9 := job], Rows(attempts), Schemas(newer), Outdated(), map[])
  }

  function Start(): State
  {
    State(map[], map[], Schemas(false), Outdated(), map[])
  }

  /** The first worker records its proposal and disappears; a new schema version is published; a second worker takes the
      job over, records its proposal and completes the job. */
  function Steps(): seq<Step>
  {
    [CreateJob(9, 1, "s"), Reconcile(9, 1), Record(BatchOf(1)), Others(Schemas(true), Outdated(), map[]),
     Reconcile(9, 2), Record(BatchOf(2)), Complete(9, 2, 1, 0)]
  }

  /** The tables before step `k`. */
  function Stage(k: nat): State
  {
    if k == 0 then Start()
    else if k == 1 then Tables(JobAt(Queued, 0, 0), 0, false)
    else if k == 2 then Tables(JobAt(Running, 1, 0), 0, false)
    else if k == 3 then Tables(JobAt(Running, 1, 0), 1, false)
    else if k == 4 then Tables(JobAt(Running, 1, 0), 1, true)
    else if k == 5 then Tables(JobAt(Running, 2, 0), 1, true)
    else if k == 6 then Tables(JobAt(Running, 2, 0), 2, true)
    else Tables(JobAt(Completed, 2, 1), 2, true)
  }

  lemma {:induction false} RecordsOneRow(proposals: Proposals, b: Batch, f: Field)
    requires !HasKey(proposals, KeyOf(RowFor(b, f)))
    ensures Inserted(proposals, b, [f]) == proposals[f.id := RowFor(b, f)]
  {
    assert [f][1..] == [];
  }

  lemma {:induction false} BothRecord()
    ensures Inserted(Rows(0), BatchOf(1), BatchOf(1).fields) == Rows(1)
    ensures Inserted(Rows(1), BatchOf(2), BatchOf(2).fields) == Rows(2)
    ensures FreshIds(Rows(0), BatchOf(1).fields) && FreshIds(Rows(1), BatchOf(2).fields)
  {
    RecordsOneRow(Rows(0), BatchOf(1), BatchOf(1).fields[0]);
    RecordsOneRow(Rows(1), BatchOf(2), BatchOf(2).fields[0]);
  }

  lemma {:induction false} JobStages()
    ensures JobWrite(map[], CreateJob(9, 1, "s")).0 == map[9 := JobAt(Queued, 0, 0)]
    ensures JobWrite(map[9 := JobAt(Queued, 0, 0)], Reconcile(9, 1)).0 == map[9 := JobAt(Running, 1, 0)]
    ensures JobWrite(map[9 := JobAt(Running, 1, 0)], Reconcile(9, 2)).0 == map[9 := JobAt(Running, 2, 0)]
    ensures JobWrite(map[9 := JobAt(Running, 2, 0)], Complete(9, 2, 1, 0)).0 == map[9 := JobAt(Completed, 2, 1)]
  {
  }

  lemma {:induction false} RecordStage(job: Job, attempt: nat, newer: bool)
    requires attempt in {1, 2} && job == JobAt(Running, attempt, 0)
    ensures var st := Tables(job, attempt - 1, newer);
            Enabled(st, Record(BatchOf(attempt))) && Apply(st, Record(BatchOf(attempt))) == Tables(job, attempt, newer)
  {
    BothRecord();
  }

  lemma {:induction false} JobStage(before: Job, after: Job, attempts: nat, newer: bool, step: Step)
    requires step.Reconcile? || step.Complete?
    requires JobWrite(map[9 := before], step).0 == map[9 := after]
    ensures Apply(Tables(before, attempts, newer), step) == Tables(after, attempts, newer)
  {
  }

  lemma {:induction false} EarlyStage(k: nat)
    requires k < 4
    ensures Enabled(Stage(k), Steps()[k]) && Apply(Stage(k), Steps()[k]) == Stage(k + 1)
  {
    JobStages();
    if k == 1 { JobStage(JobAt(Queued, 0, 0), JobAt(Running, 1, 0), 0, false, Reconcile(9, 1)); }
    else if k == 2 { RecordStage(JobAt(Running, 1, 0), 1, false); }
  }

  lemma {:induction false} LateStage(k: nat)
    requires 4 <= k < 7
    ensures Enabled(Stage(k), Steps()[k]) && Apply(Stage(k), Steps()[k]) == Stage(k + 1)
  {
    JobStages();
    if k == 4 { JobStage(JobAt(Running, 1, 0), JobAt(Running, 2, 0), 1, true, Reconcile(9, 2)); }
    else if k == 5 { RecordStage(JobAt(Running, 2, 0), 2, true); }
    else { JobStage(JobAt(Running, 2, 0), JobAt(Completed, 2, 1), 2, true, Complete(9, 2, 1, 0)); }
  }

  lemma {:induction false} StagesAreARun(k: nat)
    requires k <= 7
    ensures RunsFrom(Stage(k), Steps()[k..]) && After(Stage(k), Steps()[k..]) == Stage(7)
    decreases 7 - k
  {
    if k < 7 {
      if k < 4 { EarlyStage(k); } else { LateStage(k); }
      StagesAreARun(k + 1);
      assert Steps()[k..][0] == Steps()[k] && Steps()[k..][1..] == Steps()[k + 1..];
    }
  }

  // ---------------------------------------------------------------- the confirm

  function CallFor(validate: Validator): Call
  {
    Call(Postgres, 1, 9, None, 7, [22, 21], map[], validate)
  }

  lemma {:induction false} TwoProposalsAreOneGroup(proposals: Proposals, p: Id, q: Id, e: Id)
    requires p in proposals && proposals[p].status == Pending && proposals[p].entity == e
    requires q in proposals && proposals[q].status == Pending && proposals[q].entity == e
    ensures Group(proposals, [p, q], e) == [p, q]
  {
    assert [p, q][..1] == [p] && [p][..0] == [];
    assert Group(proposals, [p], e) == Group(proposals, [], e) + [p];
  }

  lemma {:induction false} LaterValueWins(proposals: Proposals, p: Id, q: Id)
    requires p in proposals && q in proposals && proposals[p].field == proposals[q].field
    ensures Merged(map[], proposals, [p, q]) == map[proposals[q].field := proposals[q].value]
  {
    assert [p, q][..1] == [p] && [p][..0] == [];
    assert Merged(map[], proposals, [p]) == map[proposals[p].field := proposals[p].value];
  }

  lemma {:induction false} NewestIsCurrent()
    ensures IsCurrent(Schemas(true), 102) && !IsCurrent(Schemas(true), 101) && HasActive(Schemas(true), 1, "s")
  {
    assert Schemas(true)[102].active;
  }

  /** The tests of the confirm loop that a group must pass. */
  lemma {:induction false} PassingGroupConfirms(st: State, c: Call, e: Id, g: seq<Id>, s: Id)
    requires g != [] && (forall p :: p in g ==> p in st.proposals) && st.proposals[g[0]].schema == s
    requires s in st.schemas && st.schemas[s].workspace == c.workspace && IsCurrent(st.schemas, s)
    requires HasActive(st.schemas, c.workspace, st.schemas[s].name)
    requires e in st.entities && st.entities[e].workspace == c.workspace && st.entities[e].data == Object(map[])
    requires st.entities[e].entityType in st.schemas[s].types && c.race == map[]
    requires forall s, t, d :: c.validate(s, t, d) == Valid
    ensures Judge(st, c, e, g) == Confirms(Merged(map[], st.proposals, g), s, st.schemas[s].version)
  {
    assert e in Raced(st.entities, c.race) && Raced(st.entities, c.race)[e] == st.entities[e];
  }

  /** The judgement of the entity's group. */
  lemma {:induction false} GroupConfirms(validate: Validator)
    requires forall s, t, d :: validate(s, t, d) == Valid
    ensures var st, c := Stage(7), CallFor(validate);
            && (forall p :: p in c.listing ==> p in st.proposals) && Group(st.proposals, c.listing, 5) == [22, 21]
            && Judge(st, c, 5, [22, 21]) == Confirms(map["f" := Number(1)], 102, 3)
  {
    var st, c := Stage(7), CallFor(validate);
    TwoProposalsAreOneGroup(st.proposals, 22, 21, 5);
    LaterValueWins(st.proposals, 22, 21);
    NewestIsCurrent();
    PassingGroupConfirms(st, c, 5, [22, 21], 102);
  }

  lemma {:induction false} CallIsOk(validate: Validator)
    ensures var st, c := Stage(7), CallFor(validate);
            CallOk(st, c) && InferenceProposals.Rows(st, c) == {21, 22} && Touched(st, c) == {5}
  {
    var st, c := Stage(7), CallFor(validate);
    assert InferenceProposals.Rows(st, c) == {21, 22};
    assert st.proposals[21].entity == 5 && st.proposals[22].entity == 5;
    assert Touched(st, c) == {5};
  }

  lemma {:induction false} OneEntityIsConfirmable(st: State, c: Call, e: Id)
    requires CallOk(st, c) && Touched(st, c) == {e} && InferenceProposals.Rows(st, c) != {}
    requires ActionVerdict(st.jobs, st.proposals, c.workspace, c.job).Ok? && !FateOf(st, c, e).Breaks?
    ensures Confirmable(st, c)
  {
    forall x | x in Touched(st, c) ensures !FateOf(st, c, x).Breaks? { assert x == e; }
  }

  lemma {:induction false} RowsTakeTheFate(st: State, c: Call, e: Id)
    requires CallOk(st, c) && Touched(st, c) == {e} && FateOf(st, c, e).Confirms?
    ensures forall p :: p in InferenceProposals.Rows(st, c) ==>
              p in AfterConfirm(st, c).proposals && AfterConfirm(st, c).proposals[p].status == Confirmed
  {
    forall p | p in InferenceProposals.Rows(st, c)
      ensures p in AfterConfirm(st, c).proposals && AfterConfirm(st, c).proposals[p].status == Confirmed
    {
      MarkedWithItsFate(st, c, p);
      assert st.proposals[p].entity == e;
    }
  }

  /** A job whose pending proposals are all for one entity, and whose group confirms. */
  lemma {:induction false} OneEntityConfirms(st: State, c: Call, e: Id, fate: Fate)
    requires CallOk(st, c) && Touched(st, c) == {e} && InferenceProposals.Rows(st, c) != {}
    requires ActionVerdict(st.jobs, st.proposals, c.workspace, c.job).Ok?
    requires FateOf(st, c, e) == fate && fate.Confirms?
    ensures Confirmable(st, c)
    ensures forall p :: p in InferenceProposals.Rows(st, c) ==>
              p in AfterConfirm(st, c).proposals && AfterConfirm(st, c).proposals[p].status == Confirmed
    ensures e in AfterConfirm(st, c).entities && AfterConfirm(st, c).entities[e].data == Object(fate.data)
  {
    OneEntityIsConfirmable(st, c, e);
    RowsTakeTheFate(st, c, e);
    ConfirmNeverOverwrites(st, c, e);
  }

  lemma {:induction false} MarkedWithItsFate(st: State, c: Call, p: Id)
    requires CallOk(st, c) && p in InferenceProposals.Rows(st, c)
    ensures st.proposals[p].entity in Touched(st, c)
    ensures p in AfterConfirm(st, c).proposals
    ensures AfterConfirm(st, c).proposals[p].status == StatusOf(FateOf(st, c, st.proposals[p].entity))
  {
    assert Fates(st, c)[st.proposals[p].entity] == FateOf(st, c, st.proposals[p].entity);
  }

  /** Both proposals are confirmed although one was made for an archived version, that version's value is the one
      stored, and the job counts one proposal where there are two. */
  ghost predicate StoresArchivedValue(st: State, c: Call)
  {
    && CallOk(st, c) && Confirmable(st, c) && InferenceProposals.Rows(st, c) == {21, 22}
    && 101 in st.schemas && st.proposals[21].schema == 101 && !IsCurrent(st.schemas, 101)
    && (forall p :: p in {21, 22} ==>
          p in AfterConfirm(st, c).proposals && AfterConfirm(st, c).proposals[p].status == Confirmed)
    && 5 in AfterConfirm(st, c).entities && AfterConfirm(st, c).entities[5].data == Object(map["f" := Number(1)])
    && 9 in st.jobs && st.jobs[9].proposed == 1 && RowsOfJob(st.proposals, 9) == {21, 22}
  }

  lemma {:induction false} JobMayBeActedOn(st: State)
    requires st == Stage(7)
    ensures ActionVerdict(st.jobs, st.proposals, 1, 9).Ok? && 9 in st.jobs && st.jobs[9].proposed == 1
    ensures 21 in st.proposals && 22 in st.proposals && st.proposals[21].schema == 101
    ensures RowsOfJob(st.proposals, 9) == {21, 22} && st.schemas == Schemas(true)
  {
    assert 21 in st.proposals && st.proposals[21].workspace == 1 && st.proposals[21].job == 9;
  }

  lemma {:induction false} ConfirmStoresArchivedValue(st: State, c: Call, validate: Validator)
    requires st == Stage(7) && c == CallFor(validate) && forall s, t, d :: validate(s, t, d) == Valid
    ensures StoresArchivedValue(st, c)
  {
    CallIsOk(validate);
    GroupConfirms(validate);
    NewestIsCurrent();
    JobMayBeActedOn(st);
    OneEntityConfirms(st, c, 5, Confirms(map["f" := Number(1)], 102, 3));
  }

  /** From empty tables a run reaches a completed job whose confirm does so. */
  lemma {:induction false} TakenOverJobConfirmsAnArchivedProposal(validate: Validator)
    requires forall s, t, d :: validate(s, t, d) == Valid
    ensures RunsFrom(Start(), Steps()) && StoresArchivedValue(After(Start(), Steps()), CallFor(validate))
  {
    StagesAreARun(0);
    assert Steps()[0..] == Steps();
    ConfirmStoresArchivedValue(After(Start(), Steps()), CallFor(validate), validate);
  }
}
