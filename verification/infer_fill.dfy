/** The work of one admitted infer-fill attempt, ee/workers/infer_fill.rs: ask for the missing fields of every outdated
    entity, then record all answers in one transaction and count what was proposed and what was skipped. */
module InferFill {
  import opened Common
  import opened InferenceStore
  import opened InferenceProposals

  /** An entity on an outdated schema version, as read in the first transaction. */
  datatype Row = Row(id: Id, entityType: string, data: Json)

  /** The active schema read in the first transaction, with the field names of each entity type. */
  datatype Active = Active(schema: Id, version: int, fields: map<string, seq<string>>)

  /** What the model answers for a record and its missing fields: a JSON object, or an error. */
  type Provider = (Json, seq<string>) -> Result<seq<(string, Json)>>

  function Missing(data: Json, fields: seq<string>): (missing: seq<string>)
    ensures forall f :: f in missing <==> f in fields && !(data.Object? && f in data.fields)
    decreases |fields|
  {
    if fields == [] then []
    else
      assert fields == [fields[0]] + fields[1..];
      (if data.Object? && fields[0] in data.fields then [] else [fields[0]]) + Missing(data, fields[1..])
  }

  /** Keeps only answers to what was asked. */
  function Filtered(answers: seq<(string, Json)>, missing: seq<string>): (kept: seq<(string, Json)>)
    ensures forall a :: a in kept <==> a in answers && a.0 in missing
    decreases |answers|
  {
    if answers == [] then []
    else
      assert answers == [answers[0]] + answers[1..];
      (if answers[0].0 in missing then [answers[0]] else []) + Filtered(answers[1..], missing)
  }

  datatype Outcome = Untyped | Skipped | Asked(answers: seq<(string, Json)>) | Refused

  /** What becomes of one row in the first loop. */
  function OutcomeOf(active: Active, ask: Provider, row: Row): Outcome
  {
    if row.entityType !in active.fields then Untyped
    else
      var missing := Missing(row.data, active.fields[row.entityType]);
      if missing == [] then Skipped
      else match ask(row.data, missing)
        case Err(_) => Refused
        case Ok(answers) =>
          var kept := Filtered(answers, missing);
          if kept == [] then Skipped else Asked(kept)
  }

  datatype Batched = Batched(entity: Id, answers: seq<(string, Json)>)

  function BatchesOf(active: Active, ask: Provider, rows: seq<Row>): seq<Batched>
    decreases |rows|
  {
    if rows == [] then []
    else
      var init, row := rows[..|rows| - 1], rows[|rows| - 1];
      match OutcomeOf(active, ask, row)
      case Asked(answers) => BatchesOf(active, ask, init) + [Batched(row.id, answers)]
      case _ => BatchesOf(active, ask, init)
  }

  /** The rows whose type the active schema defines. */
  function Typed(active: Active, rows: seq<Row>): nat
    decreases |rows|
  {
    if rows == [] then 0
    else Typed(active, rows[..|rows| - 1]) + if rows[|rows| - 1].entityType in active.fields then 1 else 0
  }

  ghost predicate DistinctRows(rows: seq<Row>)
  {
    forall j, k :: 0 <= j < k < |rows| ==> rows[j].id != rows[k].id
  }

  ghost predicate DistinctBatches(batches: seq<Batched>)
  {
    forall j, k :: 0 <= j < k < |batches| ==> batches[j].entity != batches[k].entity
  }

  /** A batch answers, for some row, only fields its type defines and its data lacks. */
  ghost predicate Answers(active: Active, row: Row, b: Batched)
  {
    && b.entity == row.id && row.entityType in active.fields && b.answers != []
    && forall a :: a in b.answers ==> a.0 in active.fields[row.entityType] && !(row.data.Object? && a.0 in row.data.fields)
  }

  lemma {:induction false} BatchesAnswerMissingFields(active: Active, ask: Provider, rows: seq<Row>)
    ensures forall b :: b in BatchesOf(active, ask, rows) ==> exists r :: r in rows && Answers(active, r, b)
    ensures DistinctRows(rows) ==> DistinctBatches(BatchesOf(active, ask, rows))
    decreases |rows|
  {
    if rows != [] {
      var init, row := rows[..|rows| - 1], rows[|rows| - 1];
      BatchesAnswerMissingFields(active, ask, init);
      var before := BatchesOf(active, ask, init);
      forall b | b in BatchesOf(active, ask, rows) ensures exists r :: r in rows && Answers(active, r, b) {
        if b in before {
          var r :| r in init && Answers(active, r, b);
          assert r in rows;
        } else {
          assert row in rows && Answers(active, row, b);
        }
      }
      if DistinctRows(rows) {
        forall k | 0 <= k < |before| ensures before[k].entity != row.id {
          assert before[k] in before;
          var r :| r in init && Answers(active, r, before[k]);
        }
      }
    }
  }

  datatype Plan = Plan(batches: seq<Batched>, skipped: nat)

  /** The first loop. It fails exactly if some answer does; otherwise every typed row is a batch or skipped. */
  method PlanBatches(active: Active, ask: Provider, rows: seq<Row>) returns (r: Result<Plan>)
    ensures r.Ok? <==> forall row :: row in rows ==> !OutcomeOf(active, ask, row).Refused?
    ensures r.Ok? ==> r.value.batches == BatchesOf(active, ask, rows)
    ensures r.Ok? ==> r.value.skipped + |r.value.batches| == Typed(active, rows)
  {
    var batches: seq<Batched> := [];
    var skipped: nat := 0;
    for k := 0 to |rows|
      invariant forall row :: row in rows[..k] ==> !OutcomeOf(active, ask, row).Refused?
      invariant batches == BatchesOf(active, ask, rows[..k])
      invariant skipped + |batches| == Typed(active, rows[..k])
    {
      var row := rows[k];
      assert rows[..k + 1] == rows[..k] + [row];
      if row.entityType !in active.fields { continue; }
      var missing := Missing(row.data, active.fields[row.entityType]);
      if missing == [] {
        skipped := skipped + 1;
        continue;
      }
      var answer := ask(row.data, missing);
      if answer.Err? {
        assert row in rows && OutcomeOf(active, ask, row).Refused?;
        return Err(answer.error);
      }
      var kept := Filtered(answer.value, missing);
      if kept == [] {
        skipped := skipped + 1;
        continue;
      }
      batches := batches + [Batched(row.id, kept)];
    }
    assert rows[..|rows|] == rows;
    return Ok(Plan(batches, skipped));
  }

  // ---------------------------------------------------------------- recording

  /** The rows for one batch; ids are handed out upwards from `next`. */
  function FieldsFor(b: Batched, next: Id): (fields: seq<Field>)
    ensures |fields| == |b.answers|
    ensures forall k :: 0 <= k < |fields| ==> fields[k] == Field(next + k, b.entity, b.answers[k].0, b.answers[k].1)
  {
    seq(|b.answers|, k requires 0 <= k < |b.answers| => Field(next + k, b.entity, b.answers[k].0, b.answers[k].1))
  }

  ghost predicate AllBelow(proposals: Proposals, next: Id)
  {
    forall p :: p in proposals ==> p < next
  }

  /** The entities that have a row in `after` and not in `before`. */
  ghost function Gained(before: Proposals, after: Proposals): set<Id>
  {
    set p | p in after && p !in before :: after[p].entity
  }

  lemma {:induction false} BelowMeansFresh(proposals: Proposals, b: Batched, next: Id)
    requires AllBelow(proposals, next)
    ensures FreshIds(proposals, FieldsFor(b, next))
  {
  }

  /** Rows stay as they are, and delivery keys stay unique. */
  ghost predicate Extends(before: Proposals, after: Proposals)
  {
    Keeps(before, after) && (KeysUnique(before) ==> KeysUnique(after))
  }

  /** Recording one batch adds rows of its entity only. */
  lemma {:induction false} OneBatchAdds(now: Proposals, b: Batch, batched: Batched, next: Id)
    requires AllBelow(now, next) && b.fields == FieldsFor(batched, next)
    ensures var after := Inserted(now, b, b.fields);
            && Extends(now, after) && AllBelow(after, next + |batched.answers|)
            && (forall p :: p in after && p !in now ==> after[p].entity == batched.entity)
  {
    var after := Inserted(now, b, b.fields);
    BelowMeansFresh(now, batched, next);
    InsertedProperties(now, b, b.fields);
    forall p | p in after && p !in now
      ensures after[p].entity == batched.entity && next <= p < next + |batched.answers|
    {
      var f :| f in b.fields && p == f.id && after[p] == RowFor(b, f);
    }
  }

  ghost predicate Keeps(before: Proposals, after: Proposals)
  {
    forall p :: p in before ==> p in after && after[p] == before[p]
  }

  lemma {:induction false} GainsNothing(start: Proposals, now: Proposals, after: Proposals)
    requires Keeps(now, after) && now.Keys == after.Keys
    ensures Gained(start, after) == Gained(start, now)
  {
    assert now == after;
  }

  lemma {:induction false} GainsOne(start: Proposals, now: Proposals, after: Proposals, e: Id, new': Id)
    requires Keeps(start, now) && Keeps(now, after) && new' in after && new' !in now
    requires forall p :: p in after && p !in now ==> after[p].entity == e
    ensures Gained(start, after) == Gained(start, now) + {e}
  {
    forall x ensures x in Gained(start, after) <==> x in Gained(start, now) || x == e {
      if x in Gained(start, now) {
        var p :| p in now && p !in start && now[p].entity == x;
        assert p in after && after[p].entity == x;
      }
      if x == e { assert new' !in start && after[new'].entity == x; }
      if x in Gained(start, after) && x != e {
        var p :| p in after && p !in start && after[p].entity == x;
        assert p in now;
      }
    }
  }

  /** An entity that gained nothing so far gains something exactly if the table grows. */
  lemma {:induction false} OneBatchGains(start: Proposals, now: Proposals, after: Proposals, e: Id)
    requires Keeps(start, now) && Keeps(now, after) && e !in Gained(start, now)
    requires forall p :: p in after && p !in now ==> after[p].entity == e
    ensures |now| <= |after|
    ensures |Gained(start, after)| == |Gained(start, now)| + if |after| > |now| then 1 else 0
    ensures Gained(start, after) <= Gained(start, now) + {e}
  {
    SubsetSize(now.Keys, after.Keys);
    if |after| == |now| {
      SameSize(now.Keys, after.Keys);
      GainsNothing(start, now, after);
    } else {
      NewRow(now, after);
      var p :| p in after && p !in now;
      GainsOne(start, now, after, e, p);
    }
  }

  lemma {:induction false} NewRow(now: Proposals, after: Proposals)
    requires |after| > |now|
    ensures exists p :: p in after && p !in now
  {
    if after.Keys <= now.Keys { SubsetSize(after.Keys, now.Keys); }
  }

  lemma {:induction false} SameSize(a: set<Id>, b: set<Id>)
    requires a <= b && |a| == |b|
    ensures a == b
  {
    assert b == a + (b - a);
  }

  datatype Tally = Tally(proposed: nat, skipped: nat)

  /** Every entity is that of one of the first `k` batches. */
  ghost predicate OfTheBatches(entities: set<Id>, batches: seq<Batched>, k: nat)
    requires k <= |batches|
  {
    forall e :: e in entities ==> exists i :: 0 <= i < k && batches[i].entity == e
  }

  /** `k` batches are recorded: `proposed` rows are new, and every batch that added none is counted as skipped. */
  ghost predicate Recorded(start: Proposals, now: Proposals, plan: Plan, k: nat, t: Tally)
    requires k <= |plan.batches|
  {
    && Extends(start, now)
    && |now| == |start| + t.proposed
    && t.skipped + |Gained(start, now)| == plan.skipped + k
    && OfTheBatches(Gained(start, now), plan.batches, k)
  }

  lemma {:induction false} OneMoreOfTheBatches(gained: set<Id>, more: set<Id>, batches: seq<Batched>, k: nat)
    requires k < |batches| && OfTheBatches(gained, batches, k) && more <= gained + {batches[k].entity}
    ensures OfTheBatches(more, batches, k + 1)
  {
    forall e | e in more ensures exists i :: 0 <= i < k + 1 && batches[i].entity == e {
      if e == batches[k].entity { assert k < k + 1; }
    }
  }

  lemma {:induction false} OneMoreBatch(start: Proposals, now: Proposals, plan: Plan, k: nat, t: Tally, b: Batch, next: Id)
    requires k < |plan.batches| && DistinctBatches(plan.batches) && Recorded(start, now, plan, k, t)
    requires AllBelow(now, next) && b.fields == FieldsFor(plan.batches[k], next)
    ensures var after := Inserted(now, b, b.fields);
            && AllBelow(after, next + |plan.batches[k].answers|) && |now| <= |after|
            && Recorded(start, after, plan, k + 1,
                        if |after| == |now| then t.(skipped := t.skipped + 1) else t.(proposed := t.proposed + |after| - |now|))
  {
    var after, e := Inserted(now, b, b.fields), plan.batches[k].entity;
    OneBatchAdds(now, b, plan.batches[k], next);
    assert e !in Gained(start, now);
    OneBatchGains(start, now, after, e);
    OneMoreOfTheBatches(Gained(start, now), Gained(start, after), plan.batches, k);
  }

  /** The row for one answer. */
  function AnswerRow(b: Batch, batched: Batched, a: (string, Json)): Proposal
  {
    Proposal(b.job, b.workspace, batched.entity, b.schema, b.version, a.0, a.1, Pending)
  }

  ghost predicate IsAnswer(b: Batch, batches: seq<Batched>, row: Proposal)
  {
    exists i, a :: 0 <= i < |batches| && a in batches[i].answers && row == AnswerRow(b, batches[i], a)
  }

  /** Every new row holds an answer, and every answer of the first `k` batches has a row under its delivery key. */
  ghost predicate Delivered(start: Proposals, now: Proposals, b: Batch, batches: seq<Batched>, k: nat)
    requires k <= |batches|
  {
    && (forall p :: p in now && p !in start ==> IsAnswer(b, batches, now[p]))
    && forall i, a :: 0 <= i < k && a in batches[i].answers ==> HasKey(now, KeyOf(AnswerRow(b, batches[i], a)))
  }

  lemma {:induction false} KeysAreKept(now: Proposals, after: Proposals, key: DeliveryKey)
    requires Keeps(now, after) && HasKey(now, key)
    ensures HasKey(after, key)
  {
    var p :| p in now && KeyOf(now[p]) == key;
    assert p in after && KeyOf(after[p]) == key;
  }

  lemma {:induction false} FieldIsAnswer(b: Batch, batched: Batched, next: Id, f: Field)
    requires b.fields == FieldsFor(batched, next) && f in b.fields
    ensures exists a :: a in batched.answers && RowFor(b, f) == AnswerRow(b, batched, a)
  {
    var m :| 0 <= m < |b.fields| && b.fields[m] == f;
    assert batched.answers[m] in batched.answers && RowFor(b, f) == AnswerRow(b, batched, batched.answers[m]);
  }

  lemma {:induction false} AnswerIsField(b: Batch, batched: Batched, next: Id, a: (string, Json))
    requires b.fields == FieldsFor(batched, next) && a in batched.answers
    ensures exists f :: f in b.fields && RowFor(b, f) == AnswerRow(b, batched, a)
  {
    var m :| 0 <= m < |batched.answers| && batched.answers[m] == a;
    assert b.fields[m] in b.fields && RowFor(b, b.fields[m]) == AnswerRow(b, batched, a);
  }

  lemma {:induction false} OneBatchDelivers(now: Proposals, b: Batch, batched: Batched, next: Id)
    requires AllBelow(now, next) && b.fields == FieldsFor(batched, next)
    ensures var after := Inserted(now, b, b.fields);
            && Keeps(now, after)
            && (forall p :: p in after && p !in now ==> exists a :: a in batched.answers && after[p] == AnswerRow(b, batched, a))
            && (forall a :: a in batched.answers ==> HasKey(after, KeyOf(AnswerRow(b, batched, a))))
  {
    var after := Inserted(now, b, b.fields);
    BelowMeansFresh(now, batched, next);
    InsertedProperties(now, b, b.fields);
    forall p | p in after && p !in now ensures exists a :: a in batched.answers && after[p] == AnswerRow(b, batched, a) {
      var f :| f in b.fields && p == f.id && after[p] == RowFor(b, f);
      FieldIsAnswer(b, batched, next, f);
    }
    forall a | a in batched.answers ensures HasKey(after, KeyOf(AnswerRow(b, batched, a))) {
      AnswerIsField(b, batched, next, a);
    }
  }

  lemma {:induction false} DeliveredForAnyFields(start: Proposals, now: Proposals, b: Batch, batches: seq<Batched>, k: nat,
                                                 fields: seq<Field>)
    requires k <= |batches| && Delivered(start, now, b, batches, k)
    ensures Delivered(start, now, b.(fields := fields), batches, k)
  {
    var b' := b.(fields := fields);
    forall p | p in now && p !in start ensures IsAnswer(b', batches, now[p]) {
      var i, a :| 0 <= i < |batches| && a in batches[i].answers && now[p] == AnswerRow(b, batches[i], a);
      assert now[p] == AnswerRow(b', batches[i], a);
    }
    forall i, a | 0 <= i < k && a in batches[i].answers ensures HasKey(now, KeyOf(AnswerRow(b', batches[i], a))) {
      assert AnswerRow(b', batches[i], a) == AnswerRow(b, batches[i], a);
    }
  }

  lemma {:induction false} OneMoreDelivered(start: Proposals, now: Proposals, key: Batch, b: Batch, batches: seq<Batched>,
                                            k: nat, next: Id)
    requires k < |batches| && AllBelow(now, next) && b == key.(fields := FieldsFor(batches[k], next))
    requires Delivered(start, now, key, batches, k)
    ensures Delivered(start, Inserted(now, b, b.fields), key, batches, k + 1)
  {
    var after := Inserted(now, b, b.fields);
    DeliveredForAnyFields(start, now, key, batches, k, b.fields);
    OneBatchDelivers(now, b, batches[k], next);
    forall p | p in after && p !in start ensures IsAnswer(b, batches, after[p]) {
      if p !in now { var a :| a in batches[k].answers && after[p] == AnswerRow(b, batches[k], a); }
    }
    forall i, a | 0 <= i < k + 1 && a in batches[i].answers ensures HasKey(after, KeyOf(AnswerRow(b, batches[i], a))) {
      if i < k { KeysAreKept(now, after, KeyOf(AnswerRow(b, batches[i], a))); }
    }
    assert key == b.(fields := key.fields);
    DeliveredForAnyFields(start, after, b, batches, k + 1, key.fields);
  }

  /** A marker under which the facts about the recorded batches are unfolded. */
  ghost predicate Unfolded(x: int)
  {
    true
  }

  /** The state of the loop after `k` batches. */
  ghost predicate AtBatch(start: Proposals, now: Proposals, plan: Plan, key: Batch, k: nat, t: Tally, next: Id)
    requires k <= |plan.batches|
  {
    forall x {:trigger Unfolded(x)} :: Unfolded(x) ==>
      AllBelow(now, next) && Recorded(start, now, plan, k, t) && Delivered(start, now, key, plan.batches, k)
  }

  lemma {:induction false} AtFirstBatch(start: Proposals, plan: Plan, key: Batch, next: Id)
    requires AllBelow(start, next)
    ensures AtBatch(start, start, plan, key, 0, Tally(0, plan.skipped), next)
  {
    assert Gained(start, start) == {};
  }

  lemma {:induction false} NextIsFresh(start: Proposals, now: Proposals, plan: Plan, key: Batch, k: nat, t: Tally, next: Id)
    requires k < |plan.batches| && AtBatch(start, now, plan, key, k, t, next)
    ensures FreshIds(now, FieldsFor(plan.batches[k], next))
  {
    assert Unfolded(0);
    BelowMeansFresh(now, plan.batches[k], next);
  }

  function Counted(t: Tally, written: nat): Tally
  {
    if written == 0 then t.(skipped := t.skipped + 1) else t.(proposed := t.proposed + written)
  }

  lemma {:induction false} AtNextBatch(start: Proposals, now: Proposals, after: Proposals, plan: Plan, key: Batch, k: nat,
                                       t: Tally, next: Id, written: nat)
    requires k < |plan.batches| && DistinctBatches(plan.batches) && AtBatch(start, now, plan, key, k, t, next)
    requires var b := key.(fields := FieldsFor(plan.batches[k], next)); after == Inserted(now, b, b.fields)
    requires |after| == |now| + written
    ensures AtBatch(start, after, plan, key, k + 1, Counted(t, written), next + |plan.batches[k].answers|)
  {
    assert Unfolded(0);
    var b := key.(fields := FieldsFor(plan.batches[k], next));
    OneMoreBatch(start, now, plan, k, t, b, next);
    OneMoreDelivered(start, now, key, b, plan.batches, k, next);
  }

  /** The attempt still owns the job, as `record_batch_attempt` asks before every batch. */
  predicate Writable(jobs: Jobs, key: Batch)
  {
    Owns(jobs, key.job, key.attempt) && jobs[key.job].workspace == key.workspace
  }

  /** The body of the second loop. */
  method RecordBatch(store: ProposalStore, key: Batch, plan: Plan, k: nat, t: Tally, next: Id, ghost start: Proposals)
    returns (r: Result<Tally>)
    requires k < |plan.batches| && DistinctBatches(plan.batches)
    requires AtBatch(start, store.tables.proposals, plan, key, k, t, next)
    modifies store
    ensures r.Ok? <==> Writable(old(store.tables).jobs, key)
    ensures r.Err? ==> store.tables == old(store.tables)
    ensures store.tables == old(store.tables).(proposals := store.tables.proposals)
    ensures r.Ok? ==> AtBatch(start, store.tables.proposals, plan, key, k + 1, r.value, next + |plan.batches[k].answers|)
  {
    NextIsFresh(start, store.tables.proposals, plan, key, k, t, next);
    ghost var now := store.tables.proposals;
    var written := store.RecordBatchAttempt(key.(fields := FieldsFor(plan.batches[k], next)));
    if written.Err? { return Err(written.error); }
    AtNextBatch(start, now, store.tables.proposals, plan, key, k, t, next, written.value);
    r := Ok(if written.value == 0 then t.(skipped := t.skipped + 1) else t.(proposed := t.proposed + written.value));
    assert r.value == Counted(t, written.value);
  }

  /** The second loop, inside one transaction. Nothing is written unless the attempt still owns the job; otherwise the
      table grows by `proposed` rows that hold the answers, and a batch is skipped exactly if its entity gained no row. */
  method RecordBatches(store: ProposalStore, key: Batch, plan: Plan, next: Id) returns (r: Result<Tally>)
    requires AllBelow(store.tables.proposals, next) && DistinctBatches(plan.batches) && plan.batches != []
    modifies store
    ensures r.Ok? <==> Writable(old(store.tables).jobs, key)
    ensures r.Err? ==> store.tables == old(store.tables)
    ensures store.tables == old(store.tables).(proposals := store.tables.proposals)
    ensures r.Ok? ==> Recorded(old(store.tables).proposals, store.tables.proposals, plan, |plan.batches|, r.value)
    ensures r.Ok? ==> Delivered(old(store.tables).proposals, store.tables.proposals, key, plan.batches, |plan.batches|)
  {
    ghost var start := store.tables;
    var t := Tally(0, plan.skipped);
    var id: Id := next;
    AtFirstBatch(start.proposals, plan, key, next);
    for k := 0 to |plan.batches|
      invariant store.tables == start.(proposals := store.tables.proposals)
      invariant k > 0 ==> Writable(start.jobs, key)
      invariant k == 0 ==> store.tables == start
      invariant AtBatch(start.proposals, store.tables.proposals, plan, key, k, t, id)
    {
      var next := RecordBatch(store, key, plan, k, t, id, start.proposals);
      if next.Err? { return Err(next.error); }
      t := next.value;
      id := id + |plan.batches[k].answers|;
    }
    assert Unfolded(0);
    return Ok(t);
  }

  // ---------------------------------------------------------------- the whole attempt

  /** What the first transaction and the checks around it supply. `allowed` are the two checks of the actor. */
  datatype Input = Input(workspace: Id, name: string, job: Id, attempt: int, allowed: (bool, bool), credentials: bool,
                         active: Option<Active>, rows: seq<Row>, ask: Provider)

  /** The version that is active for a name, if the schema is still the one the answers were made for. */
  predicate StillActive(schemas: Schemas, i: Input, active: Active)
  {
    && active.schema in schemas && IsCurrent(schemas, active.schema) && schemas[active.schema].version == active.version
    && schemas[active.schema].workspace == i.workspace && schemas[active.schema].name == i.name
  }

  function KeyFor(i: Input, active: Active): Batch
  {
    Batch(i.workspace, i.job, i.attempt, active.schema, active.version, [])
  }

  /** The attempt succeeds: nothing fails before the second transaction, and if there is anything to record, the actor
      may still act, the schema is still active and the attempt still owns the job. */
  predicate Succeeds(st: State, i: Input)
  {
    && i.allowed.0 && i.credentials && i.active.Some?
    && (forall row :: row in i.rows ==> !OutcomeOf(i.active.value, i.ask, row).Refused?)
    && (BatchesOf(i.active.value, i.ask, i.rows) != [] ==>
          i.allowed.1 && StillActive(st.schemas, i, i.active.value) && Writable(st.jobs, KeyFor(i, i.active.value)))
  }

  /** `perform_infer_fill`. The tables are those of the second transaction: any other work may have come between.
      On success every typed row is either skipped or gains a proposal, `proposed` is the growth of the table and the
      new rows are the answers to missing fields; on failure nothing is written. */
  method PerformInferFill(store: ProposalStore, i: Input, next: Id) returns (r: Result<Tally>)
    requires AllBelow(store.tables.proposals, next) && DistinctRows(i.rows)
    modifies store
    ensures r.Ok? <==> Succeeds(old(store.tables), i)
    ensures store.tables == old(store.tables).(proposals := store.tables.proposals)
    ensures r.Err? ==> store.tables == old(store.tables)
    ensures r.Ok? ==>
              var before, after := old(store.tables).proposals, store.tables.proposals;
              && Extends(before, after) && |after| == |before| + r.value.proposed
              && r.value.skipped + |Gained(before, after)| == Typed(i.active.value, i.rows)
    ensures r.Ok? ==>
              var batches := BatchesOf(i.active.value, i.ask, i.rows);
              Delivered(old(store.tables).proposals, store.tables.proposals, KeyFor(i, i.active.value), batches, |batches|)
  {
    if !i.allowed.0 { return Err(Internal); }
    if !i.credentials { return Err(Internal); }
    if i.active.None? { return Err(Internal); }
    var active := i.active.value;
    var planned := PlanBatches(active, i.ask, i.rows);
    if planned.Err? { return Err(planned.error); }
    var plan := planned.value;
    BatchesAnswerMissingFields(active, i.ask, i.rows);
    if plan.batches == [] {
      assert Gained(store.tables.proposals, store.tables.proposals) == {};
      return Ok(Tally(0, plan.skipped));
    }
    if !i.allowed.1 { return Err(Internal); }
    if !StillActive(store.tables.schemas, i, active) { return Err(Internal); }
    r := RecordBatches(store, KeyFor(i, active), plan, next);
  }

  // ---------------------------------------------------------------- one delivery

  /** What the queue lifecycle says about a delivery; `Started` covers recovered admissions. */
  datatype Admission = NoLifecycle | Started(attempt: int) | Duplicate(attempt: int) | Terminal | Saturated

  /** How the delivery takes the job over: without a lifecycle by a claim, otherwise by reconciling the admitted attempt. */
  function Admit(jobs: Jobs, admission: Admission, job: Id): (Jobs, Answer)
  {
    match admission
    case NoLifecycle => Claimed(jobs, job, None)
    case Started(attempt) => Reconciled(jobs, job, attempt)
    case Duplicate(attempt) => Reconciled(jobs, job, attempt)
    case _ => (jobs, Ok(false))
  }

  /** An admitted delivery was answered: the job is completed with the counts of its proposals, or it carries the error.
      No other job and none of the other tables change. */
  ghost predicate Concluded(before: State, after: State, job: Id, filled: bool, requeue: bool, message: string)
    requires job in before.jobs
  {
    && after == before.(jobs := after.jobs, proposals := after.proposals)
    && KeepsJobRules(before.jobs, after.jobs, job)
    && after.jobs[job].attempt == before.jobs[job].attempt
    && if filled then
         && after.jobs[job].status == Completed && Extends(before.proposals, after.proposals)
         && |after.proposals| == |before.proposals| + after.jobs[job].proposed
       else
         && after.jobs[job].status == (if requeue then Queued else Failed)
         && after.jobs[job].error == Some(message) && after.proposals == before.proposals
  }

  /** Takes the job over in the way the admission asks for. */
  method TakeOver(store: ProposalStore, admission: Admission, job: Id) returns (r: Answer)
    modifies store
    ensures (store.tables.jobs, r) == Admit(old(store.tables).jobs, admission, job)
    ensures store.tables == old(store.tables).(jobs := store.tables.jobs)
    ensures r != Ok(true) ==> store.tables == old(store.tables)
    ensures r == Ok(true) ==> job in store.tables.jobs && Owns(store.tables.jobs, job, store.tables.jobs[job].attempt)
  {
    match admission {
      case NoLifecycle => r := store.ClaimJob(job, None);
      case Started(attempt) => r := store.ReconcileJob(job, attempt);
      case Duplicate(attempt) => r := store.ReconcileJob(job, attempt);
      case _ => r := Ok(false);
    }
  }

  /** `perform_job` without interference. A delivery that is not admitted changes nothing. An admitted one never leaves the
      job running: it completes it, or records no proposal and fails or requeues it. `denied` is the outcome of
      checking the actor again after an error, `message` the error text. */
  method PerformJob(store: ProposalStore, admission: Admission, i: Input, next: Id, denied: bool, message: string)
    returns (r: Result<()>)
    requires AllBelow(store.tables.proposals, next) && DistinctRows(i.rows)
    modifies store
    ensures var admitted := Admit(old(store.tables).jobs, admission, i.job);
            if admitted.1 == Ok(true) then
              i.job in admitted.0 &&
              var st := old(store.tables).(jobs := admitted.0);
              var filled := Succeeds(st, i.(attempt := admitted.0[i.job].attempt));
              && Concluded(st, store.tables, i.job, filled, !admission.NoLifecycle? && !denied, message)
              && (r.Ok? <==> filled || (!admission.NoLifecycle? && !denied))
              && (filled ==>
                    store.tables.jobs[i.job].skipped + |Gained(st.proposals, store.tables.proposals)|
                    == Typed(i.active.value, i.rows))
            else
              && store.tables == old(store.tables)
              && (r.Err? <==> admitted.1.Err? && !(admission.Started? && admitted.1.error == Conflict))
  {
    if admission.Terminal? || admission.Saturated? { return Ok(()); }
    var admitted := TakeOver(store, admission, i.job);
    if admitted.Err? {
      // A busy workspace hands the job back to the queue; without a lifecycle row, or for a duplicate, it is an error.
      if admission.Started? && admitted.error == Conflict { return Ok(()); }
      return Err(admitted.error);
    }
    if !admitted.value { return Ok(()); }
    var attempt := store.tables.jobs[i.job].attempt;
    var filled := PerformInferFill(store, i.(attempt := attempt), next);
    if filled.Ok? {
      var owned := store.CompleteJob(i.job, attempt, filled.value.proposed, filled.value.skipped);
      return Ok(());
    }
    if !admission.NoLifecycle? && !denied {
      var owned := store.RetryJob(i.job, attempt, message);
      return Ok(());
    }
    var owned := store.FailJob(i.job, attempt, message);
    return Err(filled.error);
  }
}
