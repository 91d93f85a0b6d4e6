/** What `confirm` leaves behind, told in rows only: for every entity with pending proposals the outcome, the row and the
    snapshot, and what the report counts. */
module ConfirmOutcome {
  import opened Common
  import opened InferenceStore
  import opened InferenceProposals
  import opened ConfirmTheory

  predicate IsPending(st: State, c: Call, p: Id)
  {
    p in st.proposals && st.proposals[p].workspace == c.workspace && st.proposals[p].job == c.job && st.proposals[p].status == Pending
  }

  ghost predicate Precedes(listing: seq<Id>, p: Id, q: Id)
  {
    exists a, b :: 0 <= a < b < |listing| && listing[a] == p && listing[b] == q
  }

  ghost predicate InListingOrder(listing: seq<Id>, g: seq<Id>)
  {
    forall i, j :: 0 <= i < j < |g| ==> Precedes(listing, g[i], g[j])
  }

  lemma {:induction false} PrecedesInLonger(listing: seq<Id>, p: Id, q: Id)
    requires listing != []
    ensures Precedes(listing[..|listing| - 1], p, q) ==> Precedes(listing, p, q)
    ensures p in listing[..|listing| - 1] ==> Precedes(listing, p, listing[|listing| - 1])
  {
    var init := listing[..|listing| - 1];
    if Precedes(init, p, q) {
      var a, b :| 0 <= a < b < |init| && init[a] == p && init[b] == q;
      assert listing[a] == p && listing[b] == q;
    }
    if p in init {
      var a :| 0 <= a < |init| && init[a] == p;
      assert listing[a] == p;
    }
  }

  /** The pending proposals of the entity, each once and in listing order. */
  ghost predicate IsGroup(st: State, c: Call, e: Id, g: seq<Id>)
  {
    && (forall p :: p in g <==> IsPending(st, c, p) && st.proposals[p].entity == e)
    && NoRepeats(g) && InListingOrder(c.listing, g)
  }

  /** The data with every proposed value of the group, the last one for a field. */
  ghost predicate IsMerged(data: map<string, Json>, old': map<string, Json>, proposals: Proposals, g: seq<Id>)
    requires forall p :: p in g ==> p in proposals
  {
    && (forall k :: k in data <==> k in old' || exists p :: p in g && proposals[p].field == k)
    && (forall k :: k in old' && (forall p :: p in g ==> proposals[p].field != k) ==> k in data && data[k] == old'[k])
    && (forall i | 0 <= i < |g| && IsLastForField(proposals, g, i) ::
          proposals[g[i]].field in data && data[proposals[g[i]].field] == proposals[g[i]].value)
  }

  /** Proposal `i` of the group is the last one for its field. */
  predicate IsLastForField(proposals: Proposals, g: seq<Id>, i: nat)
    requires i < |g| && forall p :: p in g ==> p in proposals
  {
    forall j :: i < j < |g| ==> proposals[g[j]].field != proposals[g[i]].field
  }

  lemma {:induction false} LastValueWins(old': map<string, Json>, proposals: Proposals, g: seq<Id>, i: nat)
    requires (forall p :: p in g ==> p in proposals) && i < |g| && IsLastForField(proposals, g, i)
    ensures var data, k := Merged(old', proposals, g), proposals[g[i]].field; k in data && data[k] == proposals[g[i]].value
    decreases |g|
  {
    var init, last := g[..|g| - 1], |g| - 1;
    if i < last {
      assert init[i] == g[i] && proposals[g[last]].field != proposals[g[i]].field;
      forall j | i < j < |init| ensures proposals[init[j]].field != proposals[init[i]].field { assert init[j] == g[j]; }
      LastValueWins(old', proposals, init, i);
    }
  }

  lemma {:induction false} MergedIsMerged(old': map<string, Json>, proposals: Proposals, g: seq<Id>)
    requires forall p :: p in g ==> p in proposals
    ensures IsMerged(Merged(old', proposals, g), old', proposals, g)
  {
    MergedFrom(old', proposals, g);
    forall i | 0 <= i < |g| && IsLastForField(proposals, g, i)
      ensures var k := proposals[g[i]].field; k in Merged(old', proposals, g) && Merged(old', proposals, g)[k] == proposals[g[i]].value
    { LastValueWins(old', proposals, g, i); }
  }

  lemma {:induction false} GroupKeepsOrder(proposals: Proposals, listing: seq<Id>, e: Id)
    requires forall p :: p in listing ==> p in proposals
    ensures InListingOrder(listing, Group(proposals, listing, e))
    decreases |listing|
  {
    if listing != [] {
      var init := listing[..|listing| - 1];
      var before, g := Group(proposals, init, e), Group(proposals, listing, e);
      GroupKeepsOrder(proposals, init, e);
      forall i, j | 0 <= i < j < |g| ensures Precedes(listing, g[i], g[j]) {
        PrecedesInLonger(listing, g[i], g[j]);
        if j < |before| { assert Precedes(init, before[i], before[j]); } else { assert g[i] in before; }
      }
    }
  }

  lemma {:induction false} GroupIsGroup(st: State, c: Call, e: Id)
    requires CallOk(st, c)
    ensures IsGroup(st, c, e, Group(st.proposals, c.listing, e))
    ensures e in Touched(st, c) <==> exists p :: IsPending(st, c, p) && st.proposals[p].entity == e
  {
    GroupIsTheRowsOf(st, c, e);
    GroupKeepsOrder(st.proposals, c.listing, e);
    if p :| IsPending(st, c, p) && st.proposals[p].entity == e { assert p in Rows(st, c); }
  }

  // ---------------------------------------------------------------- outcomes

  /** `s` is active and no active row of its name in its workspace is newer. */
  predicate Active(schemas: Schemas, s: Id)
  {
    && s in schemas && schemas[s].active
    && forall o | o in schemas && schemas[o].workspace == schemas[s].workspace && schemas[o].name == schemas[s].name
                  && schemas[o].active :: schemas[o].version <= schemas[s].version
  }

  /** The entity is gone, the target is not active any more, or a proposed field has been filled in the meantime. */
  ghost predicate OutOfDate(st: State, c: Call, e: Id, g: seq<Id>)
    requires g != [] && forall p :: p in g ==> p in st.proposals
  {
    || e !in st.entities || st.entities[e].workspace != c.workspace
    || !Active(st.schemas, st.proposals[g[0]].schema)
    || !st.entities[e].data.Object?
    || exists p :: p in g && st.proposals[p].field in st.entities[e].data.fields
  }

  /** The row that the conditional write meets, if it is still there. */
  function Met(st: State, c: Call, e: Id): Option<Entity>
  {
    if e in c.race then c.race[e] else if e in st.entities then Some(st.entities[e]) else None
  }

  /** The write finds the row: it is still in the workspace, and on PostgreSQL it has the timestamp that was read. */
  predicate StillThere(st: State, c: Call, e: Id)
  {
    && e in st.entities && Met(st, c, e).Some? && Met(st, c, e).value.workspace == c.workspace
    && (c.backend == Sqlite || Met(st, c, e).value.stamp == st.entities[e].stamp)
  }

  ghost predicate Accepted(st: State, c: Call, e: Id, s: Id, data: map<string, Json>)
    requires s in st.schemas && e in st.entities
  {
    st.entities[e].entityType in st.schemas[s].types && c.validate(s, st.entities[e].entityType, data) == Valid
  }

  /** The status that the group of an entity ends with. */
  ghost function Outcome(st: State, c: Call, e: Id, g: seq<Id>, data: map<string, Json>): ProposalStatus
    requires g != [] && forall p :: p in g ==> p in st.proposals
  {
    var s := st.proposals[g[0]].schema;
    if OutOfDate(st, c, e, g) then Stale
    else if !Accepted(st, c, e, s, data) then Invalid
    else if StillThere(st, c, e) then Confirmed
    else Stale
  }

  /** The row of a confirmed entity: the merged data under the schema of the group's first proposal, the caller and the
      time of the confirm, in the workspace and of the type of the row that was found. */
  function ConfirmedRow(st: State, c: Call, found: Entity, s: Id, data: map<string, Json>): Entity
    requires s in st.schemas
  {
    Entity(found.workspace, found.entityType, Object(data), s, st.schemas[s].version, c.updatedBy, c.now)
  }

  ghost predicate LeavesEntity(st: State, after: State, c: Call, e: Id, g: seq<Id>, data: map<string, Json>)
    requires g != [] && forall p :: p in g ==> p in st.proposals
  {
    var s := st.proposals[g[0]].schema;
    if Outcome(st, c, e, g, data) == Confirmed then
      && s in st.schemas && Met(st, c, e).Some? && e in after.entities
      && after.entities[e] == ConfirmedRow(st, c, Met(st, c, e).value, s, data)
      && (c.job, e) in after.snapshots && e in st.entities && after.snapshots[(c.job, e)] == st.entities[e]
    else
      && (e in after.entities <==> Met(st, c, e).Some?) && (e in after.entities ==> after.entities[e] == Met(st, c, e).value)
      && ((c.job, e) in after.snapshots <==>
            (c.job, e) in st.snapshots && (OutOfDate(st, c, e, g) || Outcome(st, c, e, g, data) == Invalid))
      && ((c.job, e) in after.snapshots ==> after.snapshots[(c.job, e)] == st.snapshots[(c.job, e)])
  }

  lemma {:induction false} FateGivesOutcome(st: State, c: Call, e: Id, g: seq<Id>)
    requires g != [] && (forall p :: p in g ==> p in st.proposals) && !Judge(st, c, e, g).Breaks?
    ensures var data := if e in st.entities && st.entities[e].data.Object?
                        then Merged(st.entities[e].data.fields, st.proposals, g) else map[];
            var fate := Judge(st, c, e, g);
            && StatusOf(fate) == Outcome(st, c, e, g, data)
            && (fate.Confirms? ==> fate.data == data && fate.target == st.proposals[g[0]].schema
                                   && fate.target in st.schemas && fate.version == st.schemas[fate.target].version)
            && (fate.Overtaken? <==> !OutOfDate(st, c, e, g) && Outcome(st, c, e, g, data) == Stale)
  {
    var s := st.proposals[g[0]].schema;
    assert Active(st.schemas, s) <==> IsCurrent(st.schemas, s);
    if e in st.entities {
      assert Unchanged(c.backend, c.workspace, Raced(st.entities, c.race), e, st.entities[e]) <==> StillThere(st, c, e);
    }
  }

  /** The fates of all groups, spelled out for one entity. */
  lemma {:induction false} AfterConfirmAt(st: State, c: Call, fates: map<Id, Fate>, e: Id)
    requires Plausible(st, fates, fates.Keys)
    requires forall x :: x in fates && fates[x].Confirms? ==> x in Raced(st.entities, c.race)
    ensures var after := Progress(st, c, fates, fates.Keys);
            && (e in fates && fates[e].Confirms? ==>
                  && e in after.entities && after.entities[e] == Rewritten(c, Raced(st.entities, c.race)[e], fates[e])
                  && (c.job, e) in after.snapshots && after.snapshots[(c.job, e)] == st.entities[e])
            && (!(e in fates && fates[e].Confirms?) ==>
                  && (e in after.entities <==> e in Raced(st.entities, c.race))
                  && (e in after.entities ==> after.entities[e] == Raced(st.entities, c.race)[e])
                  && ((c.job, e) in after.snapshots <==> (c.job, e) in st.snapshots && !(e in fates && fates[e].Overtaken?))
                  && ((c.job, e) in after.snapshots ==> after.snapshots[(c.job, e)] == st.snapshots[(c.job, e)]))
  {
    SnapshotAt(st, c, fates, e);
  }

  lemma {:induction false} SnapshotAt(st: State, c: Call, fates: map<Id, Fate>, e: Id)
    requires Plausible(st, fates, fates.Keys)
    ensures var kept, k := KeptSnapshots(st, c, fates, fates.Keys), (c.job, e);
            && (e in fates && fates[e].Confirms? ==> k in kept && kept[k] == st.entities[e])
            && (!(e in fates && fates[e].Confirms?) ==>
                  && (k in kept <==> k in st.snapshots && !(e in fates && fates[e].Overtaken?))
                  && (k in kept ==> kept[k] == st.snapshots[k]))
  {
    var k := (c.job, e);
    assert k in TakenSnapshots(st, c, fates, fates.Keys) <==> e in fates && fates[e].Confirms?;
    assert k in LostSnapshots(c, fates, fates.Keys) <==> e in fates && fates[e].Overtaken?;
  }

  lemma {:induction false} MetIsRaced(st: State, c: Call, e: Id)
    ensures e in Raced(st.entities, c.race) <==> Met(st, c, e).Some?
    ensures e in Raced(st.entities, c.race) ==> Raced(st.entities, c.race)[e] == Met(st, c, e).value
  {
  }

  /** The proposals of the group have the status, and nothing else about them changed. */
  ghost predicate EndWith(before: Proposals, after: Proposals, g: seq<Id>, status: ProposalStatus)
    requires forall p :: p in g ==> p in before
  {
    forall p :: p in g ==> p in after && after[p] == before[p].(status := status)
  }

  /** The outcome of every entity with pending proposals: its status, its row and its snapshot. */
  lemma {:induction false} ConfirmLeaves(st: State, c: Call, e: Id) returns (g: seq<Id>, data: map<string, Json>)
    requires CallOk(st, c) && Confirmable(st, c) && exists p :: IsPending(st, c, p) && st.proposals[p].entity == e
    ensures g != [] && IsGroup(st, c, e, g) && forall p :: p in g ==> p in st.proposals
    ensures e in st.entities && st.entities[e].data.Object? ==> IsMerged(data, st.entities[e].data.fields, st.proposals, g)
    ensures LeavesEntity(st, AfterConfirm(st, c), c, e, g, data)
    ensures EndWith(st.proposals, AfterConfirm(st, c).proposals, g, Outcome(st, c, e, g, data))
  {
    g := Group(st.proposals, c.listing, e);
    data := if e in st.entities && st.entities[e].data.Object?
            then Merged(st.entities[e].data.fields, st.proposals, g) else map[];
    GroupIsGroup(st, c, e);
    GroupIsTheRowsOf(st, c, e);
    if e in st.entities && st.entities[e].data.Object? { MergedIsMerged(st.entities[e].data.fields, st.proposals, g); }
    FateGivesOutcome(st, c, e, g);
    FateFits(st, c, e, g, data);
    forall p | p in g
      ensures p in AfterConfirm(st, c).proposals
              && AfterConfirm(st, c).proposals[p] == st.proposals[p].(status := Outcome(st, c, e, g, data))
    { MarkedByFate(st, c, Fates(st, c), p); }
  }

  lemma {:induction false} MarkedByFate(st: State, c: Call, fates: map<Id, Fate>, p: Id)
    requires Plausible(st, fates, fates.Keys) && p in Rows(st, c) && st.proposals[p].entity in fates
    ensures var after := MarkedRows(st, c, fates, fates.Keys);
            p in after && after[p] == st.proposals[p].(status := StatusOf(fates[st.proposals[p].entity]))
  {
  }

  lemma {:induction false} FateFits(st: State, c: Call, e: Id, g: seq<Id>, data: map<string, Json>)
    requires CallOk(st, c) && e in Touched(st, c) && g == Group(st.proposals, c.listing, e) && g != []
    requires StatusOf(FateOf(st, c, e)) == Outcome(st, c, e, g, data)
    requires var fate := FateOf(st, c, e);
             && (fate.Confirms? ==> fate.data == data && fate.target == st.proposals[g[0]].schema
                                    && fate.target in st.schemas && fate.version == st.schemas[fate.target].version)
             && (fate.Overtaken? <==> !OutOfDate(st, c, e, g) && Outcome(st, c, e, g, data) == Stale)
    ensures LeavesEntity(st, AfterConfirm(st, c), c, e, g, data)
  {
    TheFates(st, c);
    AfterConfirmAt(st, c, Fates(st, c), e);
    MetIsRaced(st, c, e);
    assert Fates(st, c)[e] == FateOf(st, c, e);
  }

  /** Entities without pending proposals, their snapshots, the snapshots of other jobs, and all other tables are as they were. */
  lemma {:induction false} ConfirmLeavesTheRest(st: State, c: Call, e: Id)
    requires CallOk(st, c) && Confirmable(st, c) && !exists p :: IsPending(st, c, p) && st.proposals[p].entity == e
    ensures var after := AfterConfirm(st, c);
            && after.jobs == st.jobs && after.schemas == st.schemas
            && (e in after.entities <==> Met(st, c, e).Some?) && (e in after.entities ==> after.entities[e] == Met(st, c, e).value)
            && ((c.job, e) in after.snapshots <==> (c.job, e) in st.snapshots)
            && ((c.job, e) in after.snapshots ==> after.snapshots[(c.job, e)] == st.snapshots[(c.job, e)])
  {
    GroupIsGroup(st, c, e);
    TheFates(st, c);
    AfterConfirmAt(st, c, Fates(st, c), e);
    MetIsRaced(st, c, e);
  }

  lemma {:induction false} OtherJobsKeepSnapshots(st: State, c: Call, j: Id, e: Id)
    requires CallOk(st, c) && j != c.job
    ensures (j, e) in AfterConfirm(st, c).snapshots <==> (j, e) in st.snapshots
    ensures (j, e) in st.snapshots ==> AfterConfirm(st, c).snapshots[(j, e)] == st.snapshots[(j, e)]
  {
    OtherSnapshots(st, c, Fates(st, c), j, e);
  }

  lemma {:induction false} OtherSnapshots(st: State, c: Call, fates: map<Id, Fate>, j: Id, e: Id)
    requires Plausible(st, fates, fates.Keys) && j != c.job
    ensures var kept := KeptSnapshots(st, c, fates, fates.Keys);
            ((j, e) in kept <==> (j, e) in st.snapshots) && ((j, e) in kept ==> kept[(j, e)] == st.snapshots[(j, e)])
  {
  }

  // ---------------------------------------------------------------- the answer

  ghost function EndedWith(st: State, c: Call, after: Proposals, status: ProposalStatus): set<Id>
  {
    set p | p in st.proposals && IsPending(st, c, p) && p in after && after[p].status == status
  }

  lemma {:induction false} EndingIsEndedWith(st: State, c: Call, fates: map<Id, Fate>, status: ProposalStatus)
    requires Settled(st, c, fates) && Plausible(st, fates, fates.Keys)
    ensures Ending(st, c, fates, fates.Keys, status) == EndedWith(st, c, MarkedRows(st, c, fates, fates.Keys), status)
  {
    var after := MarkedRows(st, c, fates, fates.Keys);
    forall p ensures p in Ending(st, c, fates, fates.Keys, status) <==> p in EndedWith(st, c, after, status) {
      InEnding(st, c, fates, fates.Keys, status, p);
      if IsPending(st, c, p) {
        assert p in Rows(st, c) && st.proposals[p].entity in fates;
        MarkedByFate(st, c, fates, p);
      }
    }
  }

  /** The report counts the rows that were pending by the status they have now. */
  lemma {:induction false} ReportCountsRows(st: State, c: Call, r: Report)
    requires CallOk(st, c) && Confirmable(st, c) && Counts(st, c, r)
    ensures var after := AfterConfirm(st, c).proposals;
            && r.confirmed == |EndedWith(st, c, after, Confirmed)|
            && r.stale == |EndedWith(st, c, after, Stale)|
            && r.invalid == |EndedWith(st, c, after, Invalid)|
  {
    NothingBreaks(st, c);
    EndingIsEndedWith(st, c, Fates(st, c), Confirmed);
    EndingIsEndedWith(st, c, Fates(st, c), Stale);
    EndingIsEndedWith(st, c, Fates(st, c), Invalid);
  }

  /** A group can be judged: its first schema is in the workspace, some schema of that name is active, and the validator,
      if the group gets that far, answers. */
  ghost predicate CanBeJudged(st: State, c: Call, e: Id, g: seq<Id>, data: map<string, Json>)
    requires g != [] && forall p :: p in g ==> p in st.proposals
  {
    var s := st.proposals[g[0]].schema;
    && s in st.schemas && st.schemas[s].workspace == c.workspace
    && (exists o :: o in st.schemas && st.schemas[o].workspace == c.workspace && st.schemas[o].name == st.schemas[s].name
                    && st.schemas[o].active)
    && (!OutOfDate(st, c, e, g) && st.entities[e].entityType in st.schemas[s].types ==>
          c.validate(s, st.entities[e].entityType, data) != OtherError)
  }

  lemma {:induction false} BreaksUnlessJudged(st: State, c: Call, e: Id, g: seq<Id>)
    requires g != [] && forall p :: p in g ==> p in st.proposals
    ensures var data := if e in st.entities && st.entities[e].data.Object?
                        then Merged(st.entities[e].data.fields, st.proposals, g) else map[];
            Judge(st, c, e, g).Breaks? <==> !CanBeJudged(st, c, e, g, data)
  {
    var s := st.proposals[g[0]].schema;
    assert Active(st.schemas, s) <==> s in st.schemas && IsCurrent(st.schemas, s);
  }

  /** `confirm` succeeds only on a completed job of the workspace with something pending whose groups can all be judged. */
  lemma {:induction false} ConfirmableMeans(st: State, c: Call)
    requires CallOk(st, c)
    ensures Confirmable(st, c) ==>
              && c.job in st.jobs && st.jobs[c.job].workspace == c.workspace && st.jobs[c.job].status == Completed
              && (exists p :: IsPending(st, c, p))
              && forall e :: e in Touched(st, c) ==> Group(st.proposals, c.listing, e) != [] && !FateOf(st, c, e).Breaks?
    ensures c.job in st.jobs && st.jobs[c.job].workspace == c.workspace && st.jobs[c.job].status == Completed
            && (exists p :: IsPending(st, c, p)) && (forall e :: e in Touched(st, c) ==> !FateOf(st, c, e).Breaks?)
            ==> Confirmable(st, c)
  {
    forall p ensures IsPending(st, c, p) <==> p in Rows(st, c) { }
    forall e | e in Touched(st, c) ensures Group(st.proposals, c.listing, e) != [] { GroupIsTheRowsOf(st, c, e); }
  }
}
