/** What a successful `confirm` means for proposals and entities, and exactly when it means less than one would expect. */
module ConfirmTheory {
  import opened Common
  import opened InferenceStore
  import opened InferenceProposals

  // ---------------------------------------------------------------- proposals

  /** Every pending proposal is counted once: confirmed, stale and invalid add up to the pending rows of the start. */
  lemma {:induction false} ConfirmConserves(st: State, c: Call, r: Report)
    requires CallOk(st, c) && Confirmable(st, c) && Counts(st, c, r)
    ensures r.confirmed + r.stale + r.invalid == |Rows(st, c)|
  {
    NothingBreaks(st, c);
    EndingsPartition(st, c, Fates(st, c), r);
  }

  /** Every touched entity has a fate, and none of them ends the call. */
  ghost predicate Settled(st: State, c: Call, fates: map<Id, Fate>)
  {
    fates.Keys == Touched(st, c) && forall e :: e in fates ==> !fates[e].Breaks?
  }

  lemma {:induction false} NothingBreaks(st: State, c: Call)
    requires CallOk(st, c) && Confirmable(st, c)
    ensures Settled(st, c, Fates(st, c))
  {
    var fates := Fates(st, c);
    forall e | e in fates ensures !fates[e].Breaks? { assert fates[e] == FateOf(st, c, e); }
  }

  lemma {:induction false} EndingsPartition(st: State, c: Call, fates: map<Id, Fate>, r: Report)
    requires Settled(st, c, fates) && ReportIs(st, c, fates, fates.Keys, r)
    ensures r.confirmed + r.stale + r.invalid == |Rows(st, c)|
  {
    var a := Ending(st, c, fates, fates.Keys, Confirmed);
    var b := Ending(st, c, fates, fates.Keys, Stale);
    var d := Ending(st, c, fates, fates.Keys, Invalid);
    var rows, rest := Rows(st, c), b + d;
    forall p ensures (p in rest <==> p in b || p in d) && (p in b ==> p !in d) {
      InEnding(st, c, fates, fates.Keys, Stale, p);
      InEnding(st, c, fates, fates.Keys, Invalid, p);
    }
    DisjointSizes(rest, b, d);
    forall p ensures (p in rows <==> p in a || p in rest) && (p in a ==> p !in rest) {
      if p in rows { assert st.proposals[p].entity in fates; }
      InEnding(st, c, fates, fates.Keys, Confirmed, p);
      InEnding(st, c, fates, fates.Keys, Stale, p);
      InEnding(st, c, fates, fates.Keys, Invalid, p);
    }
    DisjointSizes(rows, a, rest);
  }

  /** No pending proposal of the job remains, one entity's proposals share one outcome, and no other row changes. */
  lemma {:induction false} ConfirmSettlesTheJob(st: State, c: Call)
    requires CallOk(st, c) && Confirmable(st, c)
    ensures SettlesTheJob(st, c, AfterConfirm(st, c).proposals)
  {
    NothingBreaks(st, c);
    MarksSettle(st, c, Fates(st, c));
  }

  ghost predicate SettlesTheJob(st: State, c: Call, after: Proposals)
  {
    && after.Keys == st.proposals.Keys
    && PendingOf(after, c.workspace, c.job) == {}
    && (forall p :: p in st.proposals && p !in Rows(st, c) ==> after[p] == st.proposals[p])
    && (forall p :: p in Rows(st, c) ==>
          after[p].status in {Confirmed, Stale, Invalid} && after[p] == st.proposals[p].(status := after[p].status))
    && (forall p, q :: p in Rows(st, c) && q in Rows(st, c) && st.proposals[p].entity == st.proposals[q].entity
          ==> after[p].status == after[q].status)
  }

  lemma {:induction false} MarksSettle(st: State, c: Call, fates: map<Id, Fate>)
    requires Settled(st, c, fates) && Plausible(st, fates, fates.Keys)
    ensures SettlesTheJob(st, c, MarkedRows(st, c, fates, fates.Keys))
  {
    var after := MarkedRows(st, c, fates, fates.Keys);
    forall p | p in Rows(st, c)
      ensures after[p] == st.proposals[p].(status := StatusOf(fates[st.proposals[p].entity]))
      ensures after[p].status in {Confirmed, Stale, Invalid}
    { assert st.proposals[p].entity in fates; }
  }

  // ---------------------------------------------------------------- entities

  /** Where the value of a merged field comes from. */
  lemma {:induction false} MergedFrom(data: map<string, Json>, proposals: Proposals, g: seq<Id>)
    requires forall p :: p in g ==> p in proposals
    ensures var m := Merged(data, proposals, g);
            && (forall k :: k in m <==> k in data || exists p :: p in g && proposals[p].field == k)
            && (forall k :: k in m ==>
                  || (exists p :: p in g && proposals[p].field == k && proposals[p].value == m[k])
                  || (k in data && m[k] == data[k] && forall p :: p in g ==> proposals[p].field != k))
    decreases |g|
  {
    if g != [] {
      var init, last := g[..|g| - 1], g[|g| - 1];
      MergedFrom(data, proposals, init);
      assert forall p :: p in g <==> p in init || p == last;
      var before, m := Merged(data, proposals, init), Merged(data, proposals, g);
      forall k | k in m
        ensures || (exists p :: p in g && proposals[p].field == k && proposals[p].value == m[k])
                || (k in data && m[k] == data[k] && forall p :: p in g ==> proposals[p].field != k)
      {
        if k == proposals[last].field {
          assert last in g && proposals[last].value == m[k];
        } else {
          assert k in before && m[k] == before[k];
          if p :| p in init && proposals[p].field == k && proposals[p].value == before[k] { assert p in g; }
        }
      }
    }
  }

  /** A confirmed entity keeps every field it had and gains exactly the fields its group proposed. */
  ghost predicate OnlyGains(before: map<string, Json>, after: map<string, Json>, proposals: Proposals, g: seq<Id>)
    requires forall p :: p in g ==> p in proposals
  {
    && (forall k :: k in before ==> k in after && after[k] == before[k])
    && (forall p :: p in g ==> proposals[p].field !in before)
    && (forall k :: k in after <==> k in before || exists p :: p in g && proposals[p].field == k)
    && (forall k :: k in after && k !in before ==> exists p :: p in g && proposals[p].field == k && proposals[p].value == after[k])
  }

  lemma {:induction false} JudgedDataOnlyGains(st: State, c: Call, e: Id, g: seq<Id>)
    requires g != [] && (forall p :: p in g ==> p in st.proposals) && Judge(st, c, e, g).Confirms?
    ensures e in st.entities && st.entities[e].data.Object?
    ensures OnlyGains(st.entities[e].data.fields, Judge(st, c, e, g).data, st.proposals, g)
  {
    MergedFrom(st.entities[e].data.fields, st.proposals, g);
  }

  /** The target is the current schema of its name, and the new data is valid for it. */
  ghost predicate ValidUnderCurrent(st: State, c: Call, e: Id, fate: Fate)
    requires e in st.entities && fate.Confirms?
  {
    && fate.target in st.schemas && IsCurrent(st.schemas, fate.target)
    && st.entities[e].entityType in st.schemas[fate.target].types
    && c.validate(fate.target, st.entities[e].entityType, fate.data) == Valid
  }

  lemma {:induction false} JudgedTargetIsCurrent(st: State, c: Call, e: Id, g: seq<Id>)
    requires g != [] && (forall p :: p in g ==> p in st.proposals) && Judge(st, c, e, g).Confirms?
    ensures e in st.entities && ValidUnderCurrent(st, c, e, Judge(st, c, e, g))
    ensures Judge(st, c, e, g).target == st.proposals[g[0]].schema
    ensures e in Raced(st.entities, c.race)
  {
  }

  /** A confirmed entity keeps every field it had and gains exactly the fields its group proposed; the result is valid
      for its type under the current schema, and the row it had before is kept as a snapshot of the job. */
  lemma {:induction false} ConfirmNeverOverwrites(st: State, c: Call, e: Id)
    requires CallOk(st, c) && e in Touched(st, c) && FateOf(st, c, e).Confirms?
    ensures e in st.entities && st.entities[e].data.Object?
    ensures OnlyGains(st.entities[e].data.fields, FateOf(st, c, e).data, st.proposals, Group(st.proposals, c.listing, e))
    ensures ValidUnderCurrent(st, c, e, FateOf(st, c, e))
    ensures FateOf(st, c, e).target == st.proposals[Group(st.proposals, c.listing, e)[0]].schema
    ensures var after := AfterConfirm(st, c);
            && e in after.entities && after.entities[e].data == Object(FateOf(st, c, e).data)
            && (c.job, e) in after.snapshots && after.snapshots[(c.job, e)] == st.entities[e]
  {
    var g := Group(st.proposals, c.listing, e);
    GroupIsTheRowsOf(st, c, e);
    JudgedDataOnlyGains(st, c, e, g);
    JudgedTargetIsCurrent(st, c, e, g);
    ConfirmedRowAndSnapshot(st, c, Fates(st, c), e);
  }

  lemma {:induction false} ConfirmedRowAndSnapshot(st: State, c: Call, fates: map<Id, Fate>, e: Id)
    requires Plausible(st, fates, fates.Keys) && e in fates && fates[e].Confirms? && e in Raced(st.entities, c.race)
    ensures var after := Progress(st, c, fates, fates.Keys);
            && e in after.entities && after.entities[e] == Rewritten(c, Raced(st.entities, c.race)[e], fates[e])
            && (c.job, e) in after.snapshots && after.snapshots[(c.job, e)] == st.entities[e]
  {
    assert (c.job, e) in TakenSnapshots(st, c, fates, fates.Keys);
  }

  /** Entities that are not confirmed are left as the other transactions left them. */
  lemma {:induction false} OnlyConfirmedEntitiesChange(st: State, c: Call, e: Id)
    requires CallOk(st, c) && !(e in Touched(st, c) && FateOf(st, c, e).Confirms?)
    ensures var after, found := AfterConfirm(st, c).entities, Raced(st.entities, c.race);
            (e in after <==> e in found) && (e in found ==> after[e] == found[e])
  {
  }

  // ---------------------------------------------------------------- exact conditions

  /** Another transaction replaced the entity after it was read. The confirm writes over that row exactly when the
      conditional write cannot tell the rows apart: on SQLite, or when both carry one timestamp. */
  lemma {:induction false} ConfirmWritesOverARaceExactlyWhen(st: State, c: Call, e: Id, row: Entity)
    requires CallOk(st, c) && e in Touched(st, c) && row.workspace == c.workspace
    requires FateOf(st, c.(race := map[]), e).Confirms?
    ensures var raced := c.(race := map[e := Some(row)]);
            CallOk(st, raced)
            && (FateOf(st, raced, e).Confirms? <==> (c.backend.Sqlite? || row.stamp == st.entities[e].stamp))
  {
    var calm, raced := c.(race := map[]), c.(race := map[e := Some(row)]);
    GroupIsTheRowsOf(st, c, e);
    ConfirmsOnlyWhatIsThere(st, calm, e);
    assert e in Raced(st.entities, raced.race) && Raced(st.entities, raced.race)[e] == row;
    var g := Group(st.proposals, c.listing, e);
    assert Judge(st, calm, e, g).Confirms?;
    assert Judge(st, raced, e, g).Confirms? || Judge(st, raced, e, g).Overtaken?;
  }

  /** All schemas a group names carry one name and distinct versions, as those of one job do. */
  ghost predicate OneName(st: State, g: seq<Id>)
  {
    && (forall p :: p in g ==> p in st.proposals && st.proposals[p].schema in st.schemas)
    && (forall p, q :: p in g && q in g ==>
          var a, b := st.schemas[st.proposals[p].schema], st.schemas[st.proposals[q].schema];
          a.workspace == b.workspace && a.name == b.name
          && (a.version == b.version ==> st.proposals[p].schema == st.proposals[q].schema))
  }

  /** Only the first proposal's schema is tested. Every confirmed proposal was made for the current schema exactly
      when the whole group was made for one schema version. */
  lemma {:induction false} ConfirmedProposalsAreCurrentExactlyWhen(st: State, c: Call, e: Id)
    requires CallOk(st, c) && e in Touched(st, c) && FateOf(st, c, e).Confirms?
    requires OneName(st, Group(st.proposals, c.listing, e))
    ensures var g := Group(st.proposals, c.listing, e);
            (forall p :: p in g ==> IsCurrent(st.schemas, st.proposals[p].schema))
            <==> (forall p, q :: p in g && q in g ==> st.proposals[p].schema == st.proposals[q].schema)
  {
    var g := Group(st.proposals, c.listing, e);
    GroupIsTheRowsOf(st, c, e);
    assert g[0] in g && IsCurrent(st.schemas, st.proposals[g[0]].schema);
  }

  /** Every confirmed proposal's value is in the entity exactly when no two proposals of the group give one field two values. */
  lemma {:induction false} ConfirmedValuesAreStoredExactlyWhen(st: State, c: Call, e: Id)
    requires CallOk(st, c) && e in Touched(st, c) && FateOf(st, c, e).Confirms?
    ensures var g, data := Group(st.proposals, c.listing, e), FateOf(st, c, e).data;
            (forall p :: p in g ==> st.proposals[p].field in data && data[st.proposals[p].field] == st.proposals[p].value)
            <==> (forall p, q :: p in g && q in g && st.proposals[p].field == st.proposals[q].field
                    ==> st.proposals[p].value == st.proposals[q].value)
  {
    var g, data := Group(st.proposals, c.listing, e), FateOf(st, c, e).data;
    ConfirmNeverOverwrites(st, c, e);
    if forall p, q :: p in g && q in g && st.proposals[p].field == st.proposals[q].field
         ==> st.proposals[p].value == st.proposals[q].value {
      forall p | p in g
        ensures st.proposals[p].field in data && data[st.proposals[p].field] == st.proposals[p].value
      {
        var k := st.proposals[p].field;
        assert k in data && k !in st.entities[e].data.fields;
      }
    }
  }
}
