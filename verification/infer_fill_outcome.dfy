/** What one infer-fill attempt means in terms of rows, fields and answers: which answers become proposals, which rows are
    counted, when the attempt succeeds, and when a delivery is admitted. */
module InferFillOutcome {
  import opened Common
  import opened InferenceStore
  import opened InferenceProposals
  import opened InferFill

  predicate Lacks(data: Json, field: string)
  {
    !(data.Object? && field in data.fields)
  }

  /** The provider is asked for exactly what the row lacks of the fields of its type, and answers with the value. */
  ghost predicate IsAnswer(active: Active, ask: Provider, row: Row, field: string, value: Json)
  {
    && row.entityType in active.fields && field in active.fields[row.entityType] && Lacks(row.data, field)
    && var reply := ask(row.data, Missing(row.data, active.fields[row.entityType]));
       reply.Ok? && (field, value) in reply.value
  }

  lemma {:induction false} OutcomeHoldsTheAnswers(active: Active, ask: Provider, row: Row)
    ensures var o := OutcomeOf(active, ask, row);
            !o.Refused? ==>
              && (o.Asked? <==> exists field, value :: IsAnswer(active, ask, row, field, value))
              && (o.Asked? ==> forall field, value :: (field, value) in o.answers <==> IsAnswer(active, ask, row, field, value))
  {
    var o := OutcomeOf(active, ask, row);
    if o.Asked? {
      assert o.answers[0] in o.answers && o.answers[0] == (o.answers[0].0, o.answers[0].1);
      assert IsAnswer(active, ask, row, o.answers[0].0, o.answers[0].1);
    }
  }

  ghost predicate InSome(batches: seq<Batched>, entity: Id, field: string, value: Json)
  {
    exists b :: b in batches && b.entity == entity && (field, value) in b.answers
  }

  ghost predicate AnsweredBy(active: Active, ask: Provider, rows: seq<Row>, entity: Id, field: string, value: Json)
  {
    exists row :: row in rows && row.id == entity && IsAnswer(active, ask, row, field, value)
  }

  /** The batches hold exactly the answers to missing fields: none is dropped and none is invented. */
  lemma {:induction false} BatchesHoldTheAnswers(active: Active, ask: Provider, rows: seq<Row>, entity: Id, field: string, value: Json)
    requires forall row :: row in rows ==> !OutcomeOf(active, ask, row).Refused?
    ensures InSome(BatchesOf(active, ask, rows), entity, field, value) <==> AnsweredBy(active, ask, rows, entity, field, value)
    decreases |rows|
  {
    if rows != [] {
      var init, row := rows[..|rows| - 1], rows[|rows| - 1];
      assert rows == init + [row];
      BatchesHoldTheAnswers(active, ask, init, entity, field, value);
      OutcomeHoldsTheAnswers(active, ask, row);
      var before, all := BatchesOf(active, ask, init), BatchesOf(active, ask, rows);
      assert InSome(all, entity, field, value)
        <==> InSome(before, entity, field, value) || (row.id == entity && IsAnswer(active, ask, row, field, value)) by {
        if b :| b in before && b.entity == entity && (field, value) in b.answers { assert b in all; }
        if row.id == entity && IsAnswer(active, ask, row, field, value) { assert all[|all| - 1] in all; }
      }
    }
  }

  lemma {:induction false} NoBatchMeansNoAnswer(active: Active, ask: Provider, rows: seq<Row>)
    requires forall row :: row in rows ==> !OutcomeOf(active, ask, row).Refused?
    ensures BatchesOf(active, ask, rows) != [] <==> exists row, field, value :: row in rows && IsAnswer(active, ask, row, field, value)
    decreases |rows|
  {
    if rows != [] {
      var init, row := rows[..|rows| - 1], rows[|rows| - 1];
      assert rows == init + [row];
      NoBatchMeansNoAnswer(active, ask, init);
      OutcomeHoldsTheAnswers(active, ask, row);
    }
  }

  /** A proposal row for an answer of the attempt. */
  predicate ProposedFor(p: Proposal, i: Input, active: Active, entity: Id, field: string)
  {
    && p.job == i.job && p.workspace == i.workspace && p.schema == active.schema && p.version == active.version
    && p.entity == entity && p.field == field
  }

  /** After a successful attempt every answer to a missing field has a proposal under its delivery key, and every new
      proposal is pending and holds such an answer. */
  lemma {:induction false} AttemptProposesTheAnswers(before: Proposals, after: Proposals, i: Input, active: Active)
    requires forall row :: row in i.rows ==> !OutcomeOf(active, i.ask, row).Refused?
    requires var batches := BatchesOf(active, i.ask, i.rows); Delivered(before, after, KeyFor(i, active), batches, |batches|)
    ensures forall entity, field, value :: AnsweredBy(active, i.ask, i.rows, entity, field, value) ==>
              exists p :: p in after && ProposedFor(after[p], i, active, entity, field)
    ensures forall p :: p in after && p !in before ==>
              && ProposedFor(after[p], i, active, after[p].entity, after[p].field) && after[p].status == Pending
              && AnsweredBy(active, i.ask, i.rows, after[p].entity, after[p].field, after[p].value)
  {
    var batches, key := BatchesOf(active, i.ask, i.rows), KeyFor(i, active);
    forall entity, field, value | AnsweredBy(active, i.ask, i.rows, entity, field, value)
      ensures exists p :: p in after && ProposedFor(after[p], i, active, entity, field)
    {
      BatchesHoldTheAnswers(active, i.ask, i.rows, entity, field, value);
      KeyOfAnAnswer(before, after, i, active, batches, entity, field, value);
    }
    forall p | p in after && p !in before
      ensures ProposedFor(after[p], i, active, after[p].entity, after[p].field) && after[p].status == Pending
      ensures AnsweredBy(active, i.ask, i.rows, after[p].entity, after[p].field, after[p].value)
    {
      var b, a := AnswerOfRow(key, batches, after[p]);
      assert (after[p].field, after[p].value) == a;
      BatchesHoldTheAnswers(active, i.ask, i.rows, after[p].entity, after[p].field, after[p].value);
    }
  }

  lemma {:induction false} AnswerOfRow(key: Batch, batches: seq<Batched>, row: Proposal) returns (b: Batched, a: (string, Json))
    requires InferFill.IsAnswer(key, batches, row)
    ensures b in batches && a in b.answers
    ensures row == Proposal(key.job, key.workspace, b.entity, key.schema, key.version, a.0, a.1, Pending)
  {
    var k, answer :| 0 <= k < |batches| && answer in batches[k].answers && row == AnswerRow(key, batches[k], answer);
    b, a := batches[k], answer;
  }

  lemma {:induction false} KeyOfAnAnswer(before: Proposals, after: Proposals, i: Input, active: Active, batches: seq<Batched>,
                                         entity: Id, field: string, value: Json)
    requires Delivered(before, after, KeyFor(i, active), batches, |batches|) && InSome(batches, entity, field, value)
    ensures exists p :: p in after && ProposedFor(after[p], i, active, entity, field)
  {
    var b :| b in batches && b.entity == entity && (field, value) in b.answers;
    var k :| 0 <= k < |batches| && batches[k] == b;
    assert HasKey(after, KeyOf(AnswerRow(KeyFor(i, active), batches[k], (field, value))));
    var p :| p in after && KeyOf(after[p]) == KeyOf(AnswerRow(KeyFor(i, active), batches[k], (field, value)));
    assert ProposedFor(after[p], i, active, entity, field);
  }

  function TypedIds(active: Active, rows: seq<Row>): set<Id>
  {
    set row | row in rows && row.entityType in active.fields :: row.id
  }

  lemma {:induction false} LastRowIsNew(rows: seq<Row>)
    requires rows != [] && DistinctRows(rows)
    ensures forall row :: row in rows[..|rows| - 1] ==> row.id != rows[|rows| - 1].id
  {
    var init := rows[..|rows| - 1];
    forall row | row in init ensures row.id != rows[|rows| - 1].id {
      var k :| 0 <= k < |init| && init[k] == row;
      assert rows[k] == row;
    }
  }

  /** The rows that are counted are those whose type the schema defines. */
  lemma {:induction false} TypedCountsRows(active: Active, rows: seq<Row>)
    requires DistinctRows(rows)
    ensures Typed(active, rows) == |TypedIds(active, rows)|
    decreases |rows|
  {
    if rows != [] {
      var init, last := rows[..|rows| - 1], rows[|rows| - 1];
      assert rows == init + [last];
      TypedCountsRows(active, init);
      LastRowIsNew(rows);
      assert TypedIds(active, rows) == TypedIds(active, init) + if last.entityType in active.fields then {last.id} else {};
    }
  }

  // ---------------------------------------------------------------- success

  /** Every row that lacks a field of its type gets an answer. */
  ghost predicate ProviderAnswers(active: Active, i: Input)
  {
    forall row | row in i.rows && row.entityType in active.fields
                 && (exists f :: f in active.fields[row.entityType] && Lacks(row.data, f)) ::
      i.ask(row.data, Missing(row.data, active.fields[row.entityType])).Ok?
  }

  /** The schema the answers were made for is still the newest active one of its name, and the attempt still owns the job. */
  ghost predicate MayRecord(st: State, i: Input, active: Active)
  {
    && i.allowed.1
    && active.schema in st.schemas && st.schemas[active.schema].active
    && st.schemas[active.schema].workspace == i.workspace && st.schemas[active.schema].name == i.name
    && st.schemas[active.schema].version == active.version
    && (forall o | o in st.schemas && st.schemas[o].active && st.schemas[o].workspace == i.workspace && st.schemas[o].name == i.name ::
          st.schemas[o].version <= active.version)
    && i.job in st.jobs && st.jobs[i.job].workspace == i.workspace && st.jobs[i.job].status == Running
    && st.jobs[i.job].attempt == i.attempt
  }

  lemma {:induction false} RefusedMeans(active: Active, ask: Provider, row: Row)
    ensures OutcomeOf(active, ask, row).Refused? <==>
              && row.entityType in active.fields && (exists f :: f in active.fields[row.entityType] && Lacks(row.data, f))
              && ask(row.data, Missing(row.data, active.fields[row.entityType])).Err?
  {
    if row.entityType in active.fields {
      var missing := Missing(row.data, active.fields[row.entityType]);
      if missing != [] { assert missing[0] in missing; }
    }
  }

  /** An attempt succeeds exactly if its actor may act and has credentials, the provider answers for every row that lacks
      something, and, if there is any answer to record, it may still be recorded. */
  lemma {:induction false} AttemptSucceedsExactlyWhen(st: State, i: Input)
    ensures Succeeds(st, i) <==>
              && i.allowed.0 && i.credentials && i.active.Some? && ProviderAnswers(i.active.value, i)
              && ((exists row, field, value :: row in i.rows && IsAnswer(i.active.value, i.ask, row, field, value)) ==>
                    MayRecord(st, i, i.active.value))
  {
    if i.active.Some? {
      var active := i.active.value;
      forall row | row in i.rows
        ensures OutcomeOf(active, i.ask, row).Refused? <==>
                  row.entityType in active.fields && (exists f :: f in active.fields[row.entityType] && Lacks(row.data, f))
                  && i.ask(row.data, Missing(row.data, active.fields[row.entityType])).Err?
      { RefusedMeans(active, i.ask, row); }
      if ProviderAnswers(active, i) { NoBatchMeansNoAnswer(active, i.ask, i.rows); }
    }
  }

  // ---------------------------------------------------------------- admission

  predicate Busy(jobs: Jobs, job: Id)
    requires job in jobs
  {
    exists j :: j in jobs && j != job && jobs[j].workspace == jobs[job].workspace && jobs[j].status == Running
  }

  predicate FailedOrNext(row: Job, attempt: int)
  {
    (row.attempt == attempt && row.status == Failed) || (row.attempt + 1 == attempt && row.status != Completed)
  }

  /** A delivery without a lifecycle is admitted to a queued job, one with an admitted attempt to that attempt, if it was
      failed or the job still has the attempt before it and is not completed; and only in an idle workspace. */
  lemma {:induction false} AdmittedExactlyWhen(jobs: Jobs, admission: Admission, job: Id)
    ensures Admit(jobs, admission, job).1 == Ok(true) <==>
              && job in jobs && !Busy(jobs, job)
              && match admission
                 case NoLifecycle => jobs[job].status == Queued
                 case Started(a) => FailedOrNext(jobs[job], a)
                 case Duplicate(a) => FailedOrNext(jobs[job], a)
                 case _ => false
    ensures var after := Admit(jobs, admission, job);
            after.1 == Ok(true) ==>
              && job in after.0 && after.0[job].status == Running
              && after.0[job].attempt == match admission
                                         case Started(a) => a
                                         case Duplicate(a) => a
                                         case _ => jobs[job].attempt + 1
  {
    if job in jobs { assert Busy(jobs, job) <==> WorkspaceBusy(jobs, job); }
  }
}
