/** Recording, rejecting and confirming proposals. `Judge` is the fate of one entity's group of proposals;
    `AfterConfirm` puts the groups together, and class `ProposalStore` runs the loops of the source. */
module InferenceProposals {
  import opened Common
  import opened InferenceStore

  /** The tables the proposal operations read and write; `snapshots` is keyed by job and entity. */
  datatype State = State(jobs: Jobs, proposals: Proposals, schemas: Schemas, entities: Entities,
                         snapshots: map<(Id, Id), Entity>)

  datatype Verdict = Valid | ValidationFailed | OtherError

  /** `validate_data` for a schema version and entity type. */
  type Validator = (Id, string, map<string, Json>) -> Verdict

  /** A call of `confirm`. `listing` is the order in which the database lists the job's rows, `now` the clock, and
      `race` what other transactions made of some entities between the read and the conditional write (None: deleted). */
  datatype Call = Call(backend: Backend, workspace: Id, job: Id, updatedBy: Option<Id>, now: int,
                       listing: seq<Id>, race: map<Id, Option<Entity>>, validate: Validator)

  /** `for_job` lists every row of the job once. */
  ghost predicate IsListing(proposals: Proposals, workspace: Id, job: Id, listing: seq<Id>)
  {
    && (forall p :: p in listing <==> p in proposals && proposals[p].workspace == workspace && proposals[p].job == job)
    && NoRepeats(listing)
  }

  // ---------------------------------------------------------------- groups

  /** The pending proposals of one entity, in listing order. */
  function Group(proposals: Proposals, listing: seq<Id>, e: Id): (g: seq<Id>)
    requires forall p :: p in listing ==> p in proposals
    ensures forall p :: p in g <==> p in listing && proposals[p].status == Pending && proposals[p].entity == e
    decreases |listing|
  {
    if listing == [] then []
    else
      var init, p := listing[..|listing| - 1], listing[|listing| - 1];
      assert forall q :: q in listing <==> q == p || q in init;
      if proposals[p].status == Pending && proposals[p].entity == e
      then Group(proposals, init, e) + [p] else Group(proposals, init, e)
  }

  ghost predicate NoRepeats(g: seq<Id>)
  {
    forall j, k :: 0 <= j < k < |g| ==> g[j] != g[k]
  }

  lemma {:induction false} GroupHasNoRepeats(proposals: Proposals, listing: seq<Id>, e: Id)
    requires (forall p :: p in listing ==> p in proposals) && NoRepeats(listing)
    ensures NoRepeats(Group(proposals, listing, e))
    decreases |listing|
  {
    if listing != [] {
      var init, p := listing[..|listing| - 1], listing[|listing| - 1];
      GroupHasNoRepeats(proposals, init, e);
      assert p !in init;
      assert p !in Group(proposals, init, e);
    }
  }

  lemma {:induction false} SizeOfDistinct(g: seq<Id>)
    requires NoRepeats(g)
    ensures |Members(g)| == |g|
    decreases |g|
  {
    if g != [] {
      var init, p := g[..|g| - 1], g[|g| - 1];
      SizeOfDistinct(init);
      assert p !in Members(init);
      assert Members(g) == Members(init) + {p};
    }
  }

  function Members(g: seq<Id>): set<Id>
  {
    set p | p in g
  }

  function EntitiesOf(proposals: Proposals, rows: set<Id>): set<Id>
    requires rows <= proposals.Keys
  {
    set p | p in rows :: proposals[p].entity
  }

  /** Writes every proposed value of a group into the data, a later one over an earlier one. */
  function Merged(data: map<string, Json>, proposals: Proposals, g: seq<Id>): map<string, Json>
    requires forall p :: p in g ==> p in proposals
    decreases |g|
  {
    if g == [] then data
    else Merged(data, proposals, g[..|g| - 1])[proposals[g[|g| - 1]].field := proposals[g[|g| - 1]].value]
  }

  // ---------------------------------------------------------------- the fate of a group

  /** `Overtaken`: the conditional write matched no row, so the group goes stale after its snapshot was taken. */
  datatype Fate =
    | Confirms(data: map<string, Json>, target: Id, version: int)
    | GoesStale
    | Overtaken
    | IsInvalid
    | Breaks(error: Error)

  predicate HasActive(schemas: Schemas, workspace: Id, name: string)
  {
    exists s :: s in schemas && schemas[s].workspace == workspace && schemas[s].name == name && schemas[s].active
  }

  /** `s` is the active schema of its name: active, and no active row of the name is newer (versions are unique). */
  predicate IsCurrent(schemas: Schemas, s: Id)
    requires s in schemas
  {
    && schemas[s].active
    && forall o | o in schemas && schemas[o].workspace == schemas[s].workspace && schemas[o].name == schemas[s].name
                  && schemas[o].active :: schemas[o].version <= schemas[s].version
  }

  /** What the entity table holds when the conditional writes run. */
  function Raced(entities: Entities, race: map<Id, Option<Entity>>): Entities
  {
    map e | e in entities.Keys + race.Keys && (e in race ==> race[e].Some?) ::
      if e in race then race[e].value else entities[e]
  }

  /** The tests of the confirm loop for one entity, in order. The target schema is that of the first proposal. */
  function Judge(st: State, c: Call, e: Id, g: seq<Id>): Fate
    requires g != [] && forall p :: p in g ==> p in st.proposals
  {
    var s := st.proposals[g[0]].schema;
    if s !in st.schemas || st.schemas[s].workspace != c.workspace then Breaks(NotFound)
    else if !HasActive(st.schemas, c.workspace, st.schemas[s].name) then Breaks(NotFound)
    else if e !in st.entities || st.entities[e].workspace != c.workspace then GoesStale
    else
      var existing := st.entities[e];
      if !IsCurrent(st.schemas, s) || !existing.data.Object?
         || (exists p :: p in g && st.proposals[p].field in existing.data.fields) then GoesStale
      else if existing.entityType !in st.schemas[s].types then IsInvalid
      else
        var data := Merged(existing.data.fields, st.proposals, g);
        match c.validate(s, existing.entityType, data)
        case OtherError => Breaks(Internal)
        case ValidationFailed => IsInvalid
        case Valid =>
          if Unchanged(c.backend, c.workspace, Raced(st.entities, c.race), e, existing)
          then Confirms(data, s, st.schemas[s].version) else Overtaken
  }

  function StatusOf(fate: Fate): ProposalStatus
  {
    match fate
    case Confirms(_, _, _) => Confirmed
    case GoesStale => Stale
    case Overtaken => Stale
    case IsInvalid => Invalid
    case Breaks(_) => Pending
  }

  ghost predicate CallOk(st: State, c: Call)
  {
    IsListing(st.proposals, c.workspace, c.job, c.listing)
  }

  /** The pending proposals the call is about, and their entities. */
  function Rows(st: State, c: Call): set<Id>
  {
    PendingOf(st.proposals, c.workspace, c.job)
  }

  function Touched(st: State, c: Call): set<Id>
  {
    EntitiesOf(st.proposals, Rows(st, c))
  }

  lemma {:induction false} GroupIsTheRowsOf(st: State, c: Call, e: Id)
    requires CallOk(st, c)
    ensures var g := Group(st.proposals, c.listing, e);
            && (forall p :: p in g <==> p in Rows(st, c) && st.proposals[p].entity == e)
            && (g != [] <==> e in Touched(st, c))
            && NoRepeats(g)
  {
    var g := Group(st.proposals, c.listing, e);
    GroupHasNoRepeats(st.proposals, c.listing, e);
    if g != [] { assert g[0] in g; }
  }

  /** The fate of the group of entity `e`. */
  ghost function FateOf(st: State, c: Call, e: Id): Fate
    requires CallOk(st, c) && e in Touched(st, c)
  {
    GroupIsTheRowsOf(st, c, e);
    Judge(st, c, e, Group(st.proposals, c.listing, e))
  }

  /** `confirm` answers with a report: the job may be acted on, something is pending and no group breaks. */
  ghost predicate Confirmable(st: State, c: Call)
    requires CallOk(st, c)
  {
    && ActionVerdict(st.jobs, st.proposals, c.workspace, c.job).Ok?
    && Rows(st, c) != {}
    && forall e :: e in Touched(st, c) ==> !FateOf(st, c, e).Breaks?
  }

  /** `confirm` may answer with this error: that of the job, a conflict without pending rows, or that of a group that breaks. */
  ghost predicate Refuses(st: State, c: Call, error: Error)
    requires CallOk(st, c)
  {
    match ActionVerdict(st.jobs, st.proposals, c.workspace, c.job)
    case Err(refusal) => error == refusal
    case Ok(_) =>
      if Rows(st, c) == {} then error == Conflict
      else exists e :: e in Touched(st, c) && FateOf(st, c, e) == Breaks(error)
  }

  /** The fate of every touched entity. */
  ghost function Fates(st: State, c: Call): (fates: map<Id, Fate>)
    requires CallOk(st, c)
    ensures fates.Keys == Touched(st, c)
    ensures forall e :: e in fates && fates[e].Confirms? ==> e in st.entities
  {
    map e | e in Touched(st, c) :: FateOf(st, c, e)
  }

  /** The row that replaces what a confirming write found. */
  function Rewritten(c: Call, found: Entity, fate: Fate): Entity
    requires fate.Confirms?
  {
    found.(data := Object(fate.data), schema := fate.target, version := fate.version, updatedBy := c.updatedBy, stamp := c.now)
  }

  ghost predicate Plausible(st: State, fates: map<Id, Fate>, done: set<Id>)
  {
    done <= fates.Keys && forall e :: e in fates && fates[e].Confirms? ==> e in st.entities
  }

  /** The proposal rows after the groups of the entities in `done`. */
  ghost function MarkedRows(st: State, c: Call, fates: map<Id, Fate>, done: set<Id>): Proposals
    requires Plausible(st, fates, done)
  {
    map p | p in st.proposals ::
      if p in Rows(st, c) && st.proposals[p].entity in done
      then st.proposals[p].(status := StatusOf(fates[st.proposals[p].entity])) else st.proposals[p]
  }

  ghost function WrittenRows(st: State, c: Call, fates: map<Id, Fate>, done: set<Id>): Entities
    requires Plausible(st, fates, done)
  {
    var found := Raced(st.entities, c.race);
    map e | e in found :: if e in done && fates[e].Confirms? then Rewritten(c, found[e], fates[e]) else found[e]
  }

  /** The snapshots taken for the confirmed entities of `done`. */
  ghost function TakenSnapshots(st: State, c: Call, fates: map<Id, Fate>, done: set<Id>): map<(Id, Id), Entity>
    requires Plausible(st, fates, done)
  {
    map k | k in (set e | e in done && fates[e].Confirms? :: (c.job, e)) :: st.entities[k.1]
  }

  ghost function LostSnapshots(c: Call, fates: map<Id, Fate>, done: set<Id>): set<(Id, Id)>
    requires done <= fates.Keys
  {
    set e | e in done && fates[e].Overtaken? :: (c.job, e)
  }

  ghost function KeptSnapshots(st: State, c: Call, fates: map<Id, Fate>, done: set<Id>): map<(Id, Id), Entity>
    requires Plausible(st, fates, done)
  {
    (st.snapshots - LostSnapshots(c, fates, done)) + TakenSnapshots(st, c, fates, done)
  }

  /** The state after the groups of the entities in `done`. */
  ghost function Progress(st: State, c: Call, fates: map<Id, Fate>, done: set<Id>): State
    requires Plausible(st, fates, done)
  {
    st.(proposals := MarkedRows(st, c, fates, done), entities := WrittenRows(st, c, fates, done),
        snapshots := KeptSnapshots(st, c, fates, done))
  }

  /** What a successful `confirm` leaves. */
  ghost function AfterConfirm(st: State, c: Call): State
    requires CallOk(st, c)
  {
    Progress(st, c, Fates(st, c), Touched(st, c))
  }

  /** The pending proposals whose group, among the entities in `done`, ends with a status. */
  ghost function Ending(st: State, c: Call, fates: map<Id, Fate>, done: set<Id>, status: ProposalStatus): set<Id>
    requires done <= fates.Keys
  {
    set p | p in Rows(st, c) && st.proposals[p].entity in done && StatusOf(fates[st.proposals[p].entity]) == status
  }

  // ---------------------------------------------------------------- one group at a time

  function RowsOf(st: State, c: Call, e: Id): set<Id>
  {
    set p | p in Rows(st, c) && st.proposals[p].entity == e
  }

  lemma {:induction false} OneMoreGroup(st: State, c: Call, fates: map<Id, Fate>, done: set<Id>, e: Id)
    requires Plausible(st, fates, done) && e in fates && e !in done
    ensures MarkedRows(st, c, fates, done + {e}) == Moved(MarkedRows(st, c, fates, done), RowsOf(st, c, e), StatusOf(fates[e]))
    ensures fates[e].Confirms? && e in Raced(st.entities, c.race) ==>
              WrittenRows(st, c, fates, done + {e})
              == WrittenRows(st, c, fates, done)[e := Rewritten(c, Raced(st.entities, c.race)[e], fates[e])]
    ensures !fates[e].Confirms? ==> WrittenRows(st, c, fates, done + {e}) == WrittenRows(st, c, fates, done)
  {
  }

  lemma {:induction false} OneMoreTaken(st: State, c: Call, fates: map<Id, Fate>, done: set<Id>, e: Id)
    requires Plausible(st, fates, done) && e in fates && e !in done
    ensures (c.job, e) !in TakenSnapshots(st, c, fates, done)
    ensures fates[e].Confirms? ==>
              TakenSnapshots(st, c, fates, done + {e}) == TakenSnapshots(st, c, fates, done)[(c.job, e) := st.entities[e]]
    ensures !fates[e].Confirms? ==> TakenSnapshots(st, c, fates, done + {e}) == TakenSnapshots(st, c, fates, done)
  {
  }

  lemma {:induction false} OneMoreLost(c: Call, fates: map<Id, Fate>, done: set<Id>, e: Id)
    requires done <= fates.Keys && e in fates && e !in done
    ensures fates[e].Overtaken? ==> LostSnapshots(c, fates, done + {e}) == LostSnapshots(c, fates, done) + {(c.job, e)}
    ensures !fates[e].Overtaken? ==> LostSnapshots(c, fates, done + {e}) == LostSnapshots(c, fates, done)
  {
  }

  lemma {:induction false} MapWith(s: map<(Id, Id), Entity>, lost: set<(Id, Id)>, taken: map<(Id, Id), Entity>, k: (Id,
                                   Id), row: Entity)
    ensures (s - lost) + taken[k := row] == ((s - lost) + taken)[k := row]
  {
  }

  lemma {:induction false} MapWithout(s: map<(Id, Id), Entity>, lost: set<(Id, Id)>, taken: map<(Id, Id), Entity>, k: (Id,
                                      Id))
    ensures k !in taken ==> (s - (lost + {k})) + taken == ((s - lost) + taken) - {k}
  {
  }

  lemma {:induction false} OneMoreSnapshot(st: State, c: Call, fates: map<Id, Fate>, done: set<Id>, e: Id)
    requires Plausible(st, fates, done) && e in fates && e !in done
    ensures fates[e].Confirms? ==>
              KeptSnapshots(st, c, fates, done + {e}) == KeptSnapshots(st, c, fates, done)[(c.job, e) := st.entities[e]]
    ensures fates[e].Overtaken? ==>
              KeptSnapshots(st, c, fates, done + {e}) == KeptSnapshots(st, c, fates, done) - {(c.job, e)}
    ensures !fates[e].Confirms? && !fates[e].Overtaken? ==>
              KeptSnapshots(st, c, fates, done + {e}) == KeptSnapshots(st, c, fates, done)
  {
    OneMoreTaken(st, c, fates, done, e);
    OneMoreLost(c, fates, done, e);
    if e in st.entities {
      MapWith(st.snapshots, LostSnapshots(c, fates, done), TakenSnapshots(st, c, fates, done), (c.job, e), st.entities[e]);
    }
    MapWithout(st.snapshots, LostSnapshots(c, fates, done), TakenSnapshots(st, c, fates, done), (c.job, e));
  }

  lemma {:induction false} DisjointSizes(all: set<Id>, a: set<Id>, b: set<Id>)
    requires (forall p :: p in all <==> p in a || p in b) && (forall p :: p in a ==> p !in b)
    ensures |all| == |a| + |b|
  {
    assert a !! b && all == a + b;
  }

  lemma {:induction false} InEnding(st: State, c: Call, fates: map<Id, Fate>, done: set<Id>, status: ProposalStatus, p: Id)
    requires done <= fates.Keys
    ensures p in Ending(st, c, fates, done, status)
       <==> p in Rows(st, c) && st.proposals[p].entity in done && StatusOf(fates[st.proposals[p].entity]) == status
  {
  }

  /** One more group adds its rows to the rows that end with its status and to no others. */
  lemma {:induction false} EndingGrows(st: State, c: Call, fates: map<Id, Fate>, done: set<Id>, e: Id, status: ProposalStatus)
    requires done <= fates.Keys && e in fates && e !in done
    ensures |Ending(st, c, fates, done + {e}, status)|
         == |Ending(st, c, fates, done, status)| + if StatusOf(fates[e]) == status then |RowsOf(st, c, e)| else 0
  {
    var before, after := Ending(st, c, fates, done, status), Ending(st, c, fates, done + {e}, status);
    var more := if StatusOf(fates[e]) == status then RowsOf(st, c, e) else {};
    forall p ensures (p in after <==> p in before || p in more) && (p in before ==> p !in more) {
      InEnding(st, c, fates, done, status, p);
      InEnding(st, c, fates, done + {e}, status, p);
    }
    DisjointSizes(after, before, more);
  }

  // ---------------------------------------------------------------- the store

  datatype Report = Report(confirmed: nat, stale: nat, invalid: nat)

  /** What the transaction has written so far. */
  datatype Work = Work(rows: Proposals, table: Entities, kept: map<(Id, Id), Entity>, report: Report)

  /** A marker under which `WorkDone` is unfolded. */
  ghost predicate Opened(k: nat)
  {
    true
  }

  /** The work of the groups in `done` has been done. */
  ghost predicate WorkDone(st: State, c: Call, fates: map<Id, Fate>, done: set<Id>, w: Work)
  {
    Plausible(st, fates, done) && forall k {:trigger Opened(k)} :: Opened(k) ==> WorkIs(st, c, fates, done, w)
  }

  ghost predicate WorkIs(st: State, c: Call, fates: map<Id, Fate>, done: set<Id>, w: Work)
    requires Plausible(st, fates, done)
  {
    && w.rows == MarkedRows(st, c, fates, done)
    && w.table == WrittenRows(st, c, fates, done)
    && w.kept == KeptSnapshots(st, c, fates, done)
    && ReportIs(st, c, fates, done, w.report)
  }

  ghost predicate ReportIs(st: State, c: Call, fates: map<Id, Fate>, done: set<Id>, r: Report)
    requires done <= fates.Keys
  {
    && r.confirmed == |Ending(st, c, fates, done, Confirmed)|
    && r.stale == |Ending(st, c, fates, done, Stale)|
    && r.invalid == |Ending(st, c, fates, done, Invalid)|
  }

  lemma {:induction false} NoSnapshotsYet(st: State, c: Call, fates: map<Id, Fate>)
    requires Plausible(st, fates, {})
    ensures KeptSnapshots(st, c, fates, {}) == st.snapshots
  {
    assert LostSnapshots(c, fates, {}) == {};
    assert TakenSnapshots(st, c, fates, {}) == map[];
  }

  lemma {:induction false} NoRowsYet(st: State, c: Call, fates: map<Id, Fate>)
    requires Plausible(st, fates, {})
    ensures MarkedRows(st, c, fates, {}) == st.proposals
    ensures WrittenRows(st, c, fates, {}) == Raced(st.entities, c.race)
  {
  }

  lemma {:induction false} NothingCounted(st: State, c: Call, fates: map<Id, Fate>, status: ProposalStatus)
    ensures Ending(st, c, fates, {}, status) == {}
  {
  }

  lemma {:induction false} NothingDone(st: State, c: Call, fates: map<Id, Fate>, w: Work)
    requires Plausible(st, fates, {})
    requires w == Work(st.proposals, Raced(st.entities, c.race), st.snapshots, Report(0, 0, 0))
    ensures WorkDone(st, c, fates, {}, w)
  {
    NoRowsYet(st, c, fates);
    NoSnapshotsYet(st, c, fates);
    NothingCounted(st, c, fates, Confirmed);
    NothingCounted(st, c, fates, Stale);
    NothingCounted(st, c, fates, Invalid);
  }

  /** The counters after a group of `n` proposals. */
  function Tally(r: Report, status: ProposalStatus, n: nat): Report
  {
    match status
    case Confirmed => r.(confirmed := r.confirmed + n)
    case Stale => r.(stale := r.stale + n)
    case Invalid => r.(invalid := r.invalid + n)
    case _ => r
  }

  lemma {:induction false} OneMoreCounted(st: State, c: Call, fates: map<Id, Fate>, done: set<Id>, e: Id, r: Report)
    requires done <= fates.Keys && e in fates && e !in done && ReportIs(st, c, fates, done, r)
    ensures ReportIs(st, c, fates, done + {e}, Tally(r, StatusOf(fates[e]), |RowsOf(st, c, e)|))
  {
    EndingGrows(st, c, fates, done, e, Confirmed);
    EndingGrows(st, c, fates, done, e, Stale);
    EndingGrows(st, c, fates, done, e, Invalid);
  }

  /** The work with the writes of one more group. */
  function AddGroup(st: State, c: Call, e: Id, n: nat, fate: Fate, w: Work): Work
    requires fate.Confirms? ==> e in st.entities && e in w.table
  {
    Work(Moved(w.rows, PendingIn(w.rows, c, e), StatusOf(fate)),
         if fate.Confirms? then w.table[e := Rewritten(c, w.table[e], fate)] else w.table,
         if fate.Confirms? then w.kept[(c.job, e) := st.entities[e]]
         else if fate.Overtaken? then w.kept - {(c.job, e)} else w.kept,
         Tally(w.report, StatusOf(fate), n))
  }

  lemma {:induction false} WorkGrows(st: State, c: Call, fates: map<Id, Fate>, done: set<Id>, e: Id, w: Work)
    requires CallOk(st, c) && WorkDone(st, c, fates, done, w) && e in fates && e !in done
    requires fates[e].Confirms? ==> e in Raced(st.entities, c.race)
    ensures fates[e].Confirms? ==> e in w.table
    ensures WorkDone(st, c, fates, done + {e}, AddGroup(st, c, e, |Group(st.proposals, c.listing, e)|, fates[e], w))
  {
    assert Opened(0);
    OneMoreGroup(st, c, fates, done, e);
    OneMoreSnapshot(st, c, fates, done, e);
    OneMoreCounted(st, c, fates, done, e, w.report);
    MarksTheGroup(st, c, fates, done, e);
  }

  /** A marker under which the judgement of one entity is unfolded. */
  ghost predicate Asked(e: Id)
  {
    true
  }

  ghost predicate AreFates(st: State, c: Call, fates: map<Id, Fate>)
    requires CallOk(st, c)
  {
    forall e {:trigger Asked(e)} :: Asked(e) && e in fates ==> e in Touched(st, c) && fates[e] == FateOf(st, c, e)
  }

  lemma {:induction false} TheFates(st: State, c: Call)
    requires CallOk(st, c)
    ensures var fates := Fates(st, c);
            && AreFates(st, c, fates)
            && forall e :: e in fates && fates[e].Confirms? ==> e in Raced(st.entities, c.race)
  {
    var fates := Fates(st, c);
    forall e | e in fates && fates[e].Confirms? ensures e in Raced(st.entities, c.race) { ConfirmsOnlyWhatIsThere(st, c, e); }
  }

  lemma {:induction false} ConfirmsOnlyWhatIsThere(st: State, c: Call, e: Id)
    requires CallOk(st, c) && e in Touched(st, c) && FateOf(st, c, e).Confirms?
    ensures Unchanged(c.backend, c.workspace, Raced(st.entities, c.race), e, st.entities[e])
  {
  }

  function PendingIn(rows: Proposals, c: Call, e: Id): set<Id>
  {
    set p | p in PendingOf(rows, c.workspace, c.job) && rows[p].entity == e
  }

  /** However many groups are done, the pending rows of the next one are its proposals, each counted once. */
  lemma {:induction false} MarksTheGroup(st: State, c: Call, fates: map<Id, Fate>, done: set<Id>, e: Id)
    requires CallOk(st, c) && Plausible(st, fates, done) && e !in done
    ensures PendingIn(MarkedRows(st, c, fates, done), c, e) == RowsOf(st, c, e)
    ensures |RowsOf(st, c, e)| == |Group(st.proposals, c.listing, e)|
  {
    var g := Group(st.proposals, c.listing, e);
    GroupIsTheRowsOf(st, c, e);
    SizeOfDistinct(g);
    assert RowsOf(st, c, e) == Members(g);
  }

  /** The report counts the pending proposals by the status they end with. */
  ghost predicate Counts(st: State, c: Call, r: Report)
    requires CallOk(st, c)
  {
    ReportIs(st, c, Fates(st, c), Touched(st, c), r)
  }

  lemma {:induction false} WorkGivesAfterConfirm(st: State, c: Call, w: Work)
    requires CallOk(st, c) && WorkDone(st, c, Fates(st, c), Touched(st, c), w)
    ensures AfterConfirm(st, c) == st.(proposals := w.rows, entities := w.table, snapshots := w.kept)
    ensures Counts(st, c, w.report)
  {
    assert Opened(0);
  }

  // ---------------------------------------------------------------- recording

  /** The row is a pending proposal of the batch for its field. */
  predicate IsFor(p: Proposal, b: Batch, f: Field)
  {
    && p.job == b.job && p.workspace == b.workspace && p.schema == b.schema && p.version == b.version
    && p.entity == f.entity && p.field == f.name && p.value == f.value && p.status == Pending
  }

  /** The row has the delivery key of the field: job, workspace, entity, schema, version and field name. */
  predicate Delivers(p: Proposal, b: Batch, f: Field)
  {
    && p.job == b.job && p.workspace == b.workspace && p.entity == f.entity && p.schema == b.schema
    && p.version == b.version && p.field == f.name
  }

  /** Old rows stay, every field of the batch has a row with its delivery key, and a new row is for a field of the batch
      whose key no old row had. */
  ghost predicate RecordsBatch(before: Proposals, after: Proposals, b: Batch)
  {
    && (forall p :: p in before ==> p in after && after[p] == before[p])
    && (forall f :: f in b.fields ==> exists p :: p in after && Delivers(after[p], b, f))
    && (forall p :: p in after && p !in before ==> exists f :: f in b.fields && p == f.id && IsFor(after[p], b, f))
    && (forall p, q, f | p in after && p !in before && q in before && f in b.fields && Delivers(after[p], b, f) ::
          !Delivers(before[q], b, f))
    && (forall p, q, f | p in after && p !in before && q in after && q !in before && f in b.fields
                         && Delivers(after[p], b, f) && Delivers(after[q], b, f) :: p == q)
  }

  /** A new row has a key that no row had before it. */
  lemma {:induction false} NewKeysAreNew(proposals: Proposals, b: Batch, fields: seq<Field>)
    requires FreshIds(proposals, fields)
    ensures var after := Inserted(proposals, b, fields);
            && (forall p, q :: p in after && p !in proposals && q in proposals ==> KeyOf(after[p]) != KeyOf(proposals[q]))
            && (forall p, q :: p in after && p !in proposals && q in after && q !in proposals && KeyOf(after[p]) == KeyOf(after[q])
                  ==> p == q)
    decreases |fields|
  {
    if fields != [] {
      var row := RowFor(b, fields[0]);
      var next := InsertedOne(proposals, row, fields[0].id);
      assert fields[0..] == fields;
      FreshTail(proposals, fields, 0, row);
      OneInsert(proposals, row, fields[0].id);
      NewKeysAreNew(next, b, fields[1..]);
      InsertedProperties(next, b, fields[1..]);
    }
  }

  /** Of several values for one field of an entity the first is recorded, unless it had a proposal before. */
  lemma {:induction false} FirstDeliveryWins(proposals: Proposals, b: Batch, fields: seq<Field>, i: nat)
    requires FreshIds(proposals, fields) && i < |fields|
    requires forall q :: q in proposals ==> !Delivers(proposals[q], b, fields[i])
    requires forall j :: 0 <= j < i ==> fields[j].entity != fields[i].entity || fields[j].name != fields[i].name
    ensures var after, id := Inserted(proposals, b, fields), fields[i].id; id in after && IsFor(after[id], b, fields[i])
    decreases i
  {
    var f, rest := fields[0], fields[1..];
    var next := InsertedOne(proposals, RowFor(b, f), f.id);
    assert fields[0..] == fields;
    FreshTail(proposals, fields, 0, RowFor(b, f));
    OneInsert(proposals, RowFor(b, f), f.id);
    if i == 0 {
      InsertedProperties(next, b, rest);
    } else {
      assert rest[i - 1] == fields[i];
      forall j | 0 <= j < i - 1 ensures rest[j].entity != fields[i].entity || rest[j].name != fields[i].name {
        assert rest[j] == fields[j + 1];
      }
      FirstDeliveryWins(next, b, rest, i - 1);
    }
  }

  /** What a recorded batch leaves, column by column. */
  lemma {:induction false} RecordMeans(proposals: Proposals, b: Batch)
    requires FreshIds(proposals, b.fields)
    ensures RecordsBatch(proposals, Inserted(proposals, b, b.fields), b)
  {
    var after := Inserted(proposals, b, b.fields);
    InsertedProperties(proposals, b, b.fields);
    NewKeysAreNew(proposals, b, b.fields);
    forall f | f in b.fields ensures exists p :: p in after && Delivers(after[p], b, f) {
      var p :| p in after && KeyOf(after[p]) == KeyOf(RowFor(b, f));
      assert Delivers(after[p], b, f);
    }
    forall p | p in after && p !in proposals ensures exists f :: f in b.fields && p == f.id && IsFor(after[p], b, f) {
      var f :| f in b.fields && p == f.id && after[p] == RowFor(b, f);
    }
  }

  // ---------------------------------------------------------------- dismissing

  function Dismissed(st: State, workspace: Id, job: Id, status: ProposalStatus): Proposals
  {
    if ActionVerdict(st.jobs, st.proposals, workspace, job).Ok?
    then Moved(st.proposals, PendingOf(st.proposals, workspace, job), status) else st.proposals
  }

  /** The rows that differ. */
  function Changed(a: Proposals, b: Proposals): set<Id>
  {
    set p | p in a && (p !in b || b[p] != a[p])
  }

  /** No proposal of the job is pending any more: those that were have the status, and every other row is as it was. */
  ghost predicate SettledAs(a: Proposals, b: Proposals, workspace: Id, job: Id, status: ProposalStatus)
  {
    && a.Keys == b.Keys && PendingOf(b, workspace, job) == {}
    && forall p :: p in a ==>
         b[p] == if a[p].workspace == workspace && a[p].job == job && a[p].status == Pending
                 then a[p].(status := status) else a[p]
  }

  lemma {:induction false} MovedSettles(proposals: Proposals, workspace: Id, job: Id, status: ProposalStatus)
    requires status != Pending
    ensures var rows := PendingOf(proposals, workspace, job);
            && SettledAs(proposals, Moved(proposals, rows, status), workspace, job, status)
            && Changed(proposals, Moved(proposals, rows, status)) == rows
  {
  }

  class ProposalStore {
    var tables: State

    constructor (st: State)
      ensures tables == st
    {
      tables := st;
    }

    // -------------------------------------------------------------- job writes

    /** A new job waits in the queue with attempt 0 and has no owner; a used id is refused. */
    method CreateJob(id: Id, workspace: Id, name: string) returns (r: Answer)
      modifies this
      ensures (tables.jobs, r) == Created(old(tables).jobs, id, workspace, name)
      ensures tables == old(tables).(jobs := tables.jobs) && KeepsJobRules(old(tables).jobs, tables.jobs, id)
      ensures r.Ok? <==> id !in old(tables).jobs
      ensures r.Ok? ==> Claimable(tables.jobs, id, Some(0)) && Unowned(tables.jobs, id)
      ensures r.Ok? ==> tables.jobs[id] == Job(workspace, name, Queued, 0, 0, 0, None, 0)
    {
      if id in tables.jobs { return Err(Internal); }
      tables := tables.(jobs := tables.jobs[id := Job(workspace, name, Queued, 0, 0, 0, None, 0)]);
      r := Ok(true);
    }

    /** A claim admits its caller exactly to a queued job of an idle workspace, and to an attempt nobody had before. */
    method ClaimJob(id: Id, expected: Option<int>) returns (r: Answer)
      modifies this
      ensures (tables.jobs, r) == Claimed(old(tables).jobs, id, expected)
      ensures tables == old(tables).(jobs := tables.jobs) && KeepsJobRules(old(tables).jobs, tables.jobs, id)
      ensures r == Ok(true) <==> Claimable(old(tables).jobs, id, expected) && !WorkspaceBusy(old(tables).jobs, id)
      ensures r.Err? <==> Claimable(old(tables).jobs, id, expected) && WorkspaceBusy(old(tables).jobs, id)
      ensures r == Ok(true) ==> Owns(tables.jobs, id, old(tables).jobs[id].attempt + 1)
      ensures r == Ok(true) ==>
                var row := old(tables).jobs[id]; tables.jobs[id] == row.(status := Running, attempt := row.attempt + 1)
      ensures r != Ok(true) ==> tables == old(tables)
    {
      r := Ok(false);
      if id in tables.jobs && tables.jobs[id].status == Queued
         && (expected.None? || expected.value == tables.jobs[id].attempt) {
        if WorkspaceBusy(tables.jobs, id) { return Err(Conflict); }
        var row := tables.jobs[id];
        tables := tables.(jobs := tables.jobs[id := row.(status := Running, attempt := row.attempt + 1)]);
        r := Ok(true);
      }
    }

    /** A reconcile admits its caller exactly to an admissible attempt of an idle workspace, which the caller then owns
        and did not own before; asking again admits nobody. */
    method ReconcileJob(id: Id, target: int) returns (r: Answer)
      modifies this
      ensures (tables.jobs, r) == Reconciled(old(tables).jobs, id, target)
      ensures tables == old(tables).(jobs := tables.jobs) && KeepsJobRules(old(tables).jobs, tables.jobs, id)
      ensures r == Ok(true) <==> Admissible(old(tables).jobs, id, target) && !WorkspaceBusy(old(tables).jobs, id)
      ensures r == Err(Conflict) <==> Admissible(old(tables).jobs, id, target) && WorkspaceBusy(old(tables).jobs, id)
      ensures r == Err(NotFound) <==> id !in old(tables).jobs
      ensures r == Ok(true) ==> Owns(tables.jobs, id, target) && !Owns(old(tables).jobs, id, target)
      ensures r == Ok(true) ==>
                var row := old(tables).jobs[id];
                tables.jobs[id] == row.(status := Running, attempt := target,
                                        error := if row.attempt == target then None else row.error)
      ensures r != Ok(true) ==> tables == old(tables)
      ensures Reconciled(tables.jobs, id, target).1 != Ok(true)
    {
      if id !in tables.jobs { return Err(NotFound); }
      var row := tables.jobs[id];
      if row.status == Running && row.attempt == target { return Ok(false); }
      if row.status == Failed && row.attempt == target {
        if WorkspaceBusy(tables.jobs, id) { return Err(Conflict); }
        ReplacingKeepsJobRules(tables.jobs, id, row.(status := Running, error := None));
        tables := tables.(jobs := tables.jobs[id := row.(status := Running, error := None)]);
        return Ok(true);
      }
      if row.attempt != target - 1 || row.status == Completed { return Ok(false); }
      if WorkspaceBusy(tables.jobs, id) { return Err(Conflict); }
      ReplacingKeepsJobRules(tables.jobs, id, row.(status := Running, attempt := target));
      tables := tables.(jobs := tables.jobs[id := row.(status := Running, attempt := target)]);
      return Ok(true);
    }

    /** Exactly the owner of the running attempt completes the job; then nobody owns it, and no attempt of it is
        admissible ever again. */
    method CompleteJob(id: Id, attempt: int, proposed: int, skipped: int) returns (r: Answer)
      modifies this
      ensures (tables.jobs, r) == CompletedJob(old(tables).jobs, id, attempt, proposed, skipped)
      ensures tables == old(tables).(jobs := tables.jobs) && KeepsJobRules(old(tables).jobs, tables.jobs, id)
      ensures r.Ok? && (r.value <==> Owns(old(tables).jobs, id, attempt))
      ensures r.value ==> Unowned(tables.jobs, id) && forall target :: !Admissible(tables.jobs, id, target)
      ensures r.value ==>
                tables.jobs[id] == old(tables).jobs[id].(status := Completed, applied := 0, proposed := proposed, skipped := skipped)
      ensures !r.value ==> tables == old(tables)
    {
      r := Ok(false);
      if Owns(tables.jobs, id, attempt) {
        tables := tables.(jobs := tables.jobs[id := tables.jobs[id].(status := Completed, applied := 0,
                                                                    proposed := proposed, skipped := skipped)]);
        r := Ok(true);
      }
    }

    /** Exactly the owner of the running attempt fails it; then nobody owns it, and only this attempt may be resumed or
        the next one started. */
    method FailJob(id: Id, attempt: int, message: string) returns (r: Answer)
      modifies this
      ensures (tables.jobs, r) == FailedJob(old(tables).jobs, id, attempt, message)
      ensures tables == old(tables).(jobs := tables.jobs) && KeepsJobRules(old(tables).jobs, tables.jobs, id)
      ensures r.Ok? && (r.value <==> Owns(old(tables).jobs, id, attempt))
      ensures r.value ==> Unowned(tables.jobs, id)
      ensures r.value ==> tables.jobs[id] == old(tables).jobs[id].(status := Failed, error := Some(message))
      ensures r.value ==> forall target :: Admissible(tables.jobs, id, target) <==> attempt <= target <= attempt + 1
      ensures !r.value ==> tables == old(tables)
    {
      r := Ok(false);
      if Owns(tables.jobs, id, attempt) {
        tables := tables.(jobs := tables.jobs[id := tables.jobs[id].(status := Failed, error := Some(message))]);
        r := Ok(true);
      }
    }

    /** Exactly the owner of the running attempt hands the job back; then nobody owns it, it can be claimed, and only the
        next attempt may be started. */
    method RetryJob(id: Id, attempt: int, message: string) returns (r: Answer)
      modifies this
      ensures (tables.jobs, r) == Retried(old(tables).jobs, id, attempt, message)
      ensures tables == old(tables).(jobs := tables.jobs) && KeepsJobRules(old(tables).jobs, tables.jobs, id)
      ensures r.Ok? && (r.value <==> Owns(old(tables).jobs, id, attempt))
      ensures r.value ==> Unowned(tables.jobs, id) && Claimable(tables.jobs, id, Some(attempt))
      ensures r.value ==> tables.jobs[id] == old(tables).jobs[id].(status := Queued, error := Some(message))
      ensures r.value ==> forall target :: Admissible(tables.jobs, id, target) <==> target == attempt + 1
      ensures !r.value ==> tables == old(tables)
    {
      r := Ok(false);
      if Owns(tables.jobs, id, attempt) {
        tables := tables.(jobs := tables.jobs[id := tables.jobs[id].(status := Queued, error := Some(message))]);
        r := Ok(true);
      }
    }

    // -------------------------------------------------------------- proposals

    /** Records the proposals of the running attempt and counts the rows it really inserted. */
    method RecordBatchAttempt(b: Batch) returns (r: Result<nat>)
      requires FreshIds(tables.proposals, b.fields)
      modifies this
      ensures match RecordVerdict(old(tables).jobs, b)
              case Err(error) => r == Err(error) && tables == old(tables)
              case Ok(_) =>
                && r.Ok? && |tables.proposals| == |old(tables).proposals| + r.value
                && tables == old(tables).(proposals := Inserted(old(tables).proposals, b, b.fields))
      ensures r.Ok? <==> b.job in old(tables).jobs && old(tables).jobs[b.job].workspace == b.workspace
                         && old(tables).jobs[b.job].status == Running && old(tables).jobs[b.job].attempt == b.attempt
      ensures r == Err(NotFound) <==> b.job !in old(tables).jobs || old(tables).jobs[b.job].workspace != b.workspace
      ensures r.Err? ==> r.error in {NotFound, Conflict}
    {
      if b.job !in tables.jobs { return Err(NotFound); }
      if tables.jobs[b.job].workspace != b.workspace { return Err(NotFound); }
      if tables.jobs[b.job].status != Running { return Err(Conflict); }
      if tables.jobs[b.job].attempt != b.attempt { return Err(Conflict); }
      var inserted: nat := 0;
      var rows: Proposals := tables.proposals;
      for k := 0 to |b.fields|
        invariant tables == old(tables)
        invariant FreshIds(rows, b.fields[k..])
        invariant Inserted(tables.proposals, b, b.fields) == Inserted(rows, b, b.fields[k..])
        invariant |rows| == |tables.proposals| + inserted
      {
        var f := b.fields[k];
        FreshTail(rows, b.fields, k, RowFor(b, f));
        assert b.fields[k..][0] == f && b.fields[k..][1..] == b.fields[k + 1..];
        if !HasKey(rows, KeyOf(RowFor(b, f))) {
          rows := rows[f.id := RowFor(b, f)];
          inserted := inserted + 1;
        }
      }
      assert b.fields[|b.fields|..] == [];
      tables := tables.(proposals := rows);
      return Ok(inserted);
    }

    /** `transition_pending`: settles the pending rows of a job and counts the rows it changed. */
    method TransitionPending(workspace: Id, job: Id, status: ProposalStatus) returns (count: nat)
      requires status != Pending
      modifies this
      ensures tables == old(tables).(proposals := Moved(old(tables).proposals, PendingOf(old(tables).proposals, workspace, job), status))
      ensures SettledAs(old(tables).proposals, tables.proposals, workspace, job, status)
      ensures count == |Changed(old(tables).proposals, tables.proposals)|
    {
      var rows := PendingOf(tables.proposals, workspace, job);
      MovedSettles(tables.proposals, workspace, job, status);
      tables := tables.(proposals := Moved(tables.proposals, rows, status));
      return |rows|;
    }

    /** `reject` and `discard`, by the status they give: refused unless the job is completed and has proposals; otherwise
        none of its proposals is pending any more, each that was has the status, and no other row changed. */
    method Dismiss(workspace: Id, job: Id, status: ProposalStatus) returns (r: Result<nat>)
      requires status != Pending
      modifies this
      ensures match ActionVerdict(old(tables).jobs, old(tables).proposals, workspace, job)
              case Err(error) => r == Err(error) && tables == old(tables)
              case Ok(_) =>
                && tables == old(tables).(proposals := tables.proposals)
                && SettledAs(old(tables).proposals, tables.proposals, workspace, job, status)
                && r == Ok(|Changed(old(tables).proposals, tables.proposals)|)
      ensures tables.proposals == Dismissed(old(tables), workspace, job, status)
      ensures r.Ok? <==> job in old(tables).jobs && old(tables).jobs[job].workspace == workspace
                         && old(tables).jobs[job].status == Completed
                         && exists p :: p in old(tables).proposals && old(tables).proposals[p].workspace == workspace
                                        && old(tables).proposals[p].job == job
      ensures r == Err(NotFound) <==> job !in old(tables).jobs || old(tables).jobs[job].workspace != workspace
      ensures r.Err? ==> r.error in {NotFound, Conflict}
    {
      var verdict := ActionVerdict(tables.jobs, tables.proposals, workspace, job);
      if verdict.Err? { return Err(verdict.error); }
      var count := TransitionPending(workspace, job, status);
      return Ok(count);
    }

    /** The inner loop of `confirm` over the proposals of a group. */
    method MergeFields(data: map<string, Json>, g: seq<Id>) returns (merged: map<string, Json>)
      requires forall p :: p in g ==> p in tables.proposals
      ensures merged == Merged(data, tables.proposals, g)
    {
      merged := data;
      for k := 0 to |g|
        invariant merged == Merged(data, tables.proposals, g[..k])
      {
        assert g[..k + 1][..k] == g[..k];
        merged := merged[tables.proposals[g[k]].field := tables.proposals[g[k]].value];
      }
      assert g[..|g|] == g;
    }

    /** Groups the pending rows of the listing by entity. */
    method GroupByEntity(listing: seq<Id>) returns (groups: map<Id, seq<Id>>)
      requires forall p :: p in listing ==> p in tables.proposals
      ensures forall e :: e in groups <==> Group(tables.proposals, listing, e) != []
      ensures forall e :: e in groups ==> groups[e] == Group(tables.proposals, listing, e)
    {
      groups := map[];
      for k := 0 to |listing|
        invariant forall e :: e in groups <==> Group(tables.proposals, listing[..k], e) != []
        invariant forall e :: e in groups ==> groups[e] == Group(tables.proposals, listing[..k], e)
      {
        var p := listing[k];
        assert listing[..k + 1][..k] == listing[..k];
        if tables.proposals[p].status == Pending {
          var e := tables.proposals[p].entity;
          groups := groups[e := (if e in groups then groups[e] else []) + [p]];
        }
      }
      assert listing[..|listing|] == listing;
    }

    /** The tests of the confirm loop for one group; a fate of `Breaks` ends the call with that error. */
    method JudgeGroup(c: Call, e: Id, g: seq<Id>) returns (fate: Fate)
      requires g != [] && forall p :: p in g ==> p in tables.proposals
      ensures fate == Judge(tables, c, e, g)
    {
      var target := tables.proposals[g[0]].schema;
      if target !in tables.schemas || tables.schemas[target].workspace != c.workspace { return Breaks(NotFound); }
      if !HasActive(tables.schemas, c.workspace, tables.schemas[target].name) { return Breaks(NotFound); }
      if e !in tables.entities || tables.entities[e].workspace != c.workspace { return GoesStale; }
      var existing := tables.entities[e];
      if !IsCurrent(tables.schemas, target) || !existing.data.Object?
         || exists p :: p in g && tables.proposals[p].field in existing.data.fields { return GoesStale; }
      // The data is an object here: the test for a non-object after this point can never succeed.
      var data := MergeFields(existing.data.fields, g);
      if existing.entityType !in tables.schemas[target].types { return IsInvalid; }
      match c.validate(target, existing.entityType, data) {
        case OtherError => return Breaks(Internal);
        case ValidationFailed => return IsInvalid;
        case Valid =>
          if Unchanged(c.backend, c.workspace, Raced(tables.entities, c.race), e, existing) {
            return Confirms(data, target, tables.schemas[target].version);
          }
          return Overtaken;
      }
    }

    /** The judgement of a group, matched with the fate the specification gives it. */
    method JudgeNext(c: Call, e: Id, g: seq<Id>, ghost fates: map<Id, Fate>) returns (fate: Fate)
      requires CallOk(tables, c) && AreFates(tables, c, fates)
      requires e in fates && g == Group(tables.proposals, c.listing, e)
      ensures fate == fates[e]
    {
      GroupIsTheRowsOf(tables, c, e);
      assert Asked(e);
      fate := JudgeGroup(c, e, g);
    }

    /** The writes of one group that did not break: snapshot, entity, proposal rows and a counter. */
    method ConfirmGroup(c: Call, e: Id, g: seq<Id>, fate: Fate, w: Work) returns (w': Work)
      requires fate.Confirms? ==> e in tables.entities && e in w.table
      ensures w' == AddGroup(tables, c, e, |g|, fate, w)
    {
      // The update of the rows affects exactly the pending proposals of the entity; `WorkGrows` counts them.
      var marked := PendingIn(w.rows, c, e);
      w' := w.(rows := Moved(w.rows, marked, StatusOf(fate)));
      match fate {
        case Confirms(_, _, _) =>
          w' := w'.(kept := w.kept[(c.job, e) := tables.entities[e]],
                    table := w.table[e := Rewritten(c, w.table[e], fate)]);
        case Overtaken => w' := w'.(kept := w.kept - {(c.job, e)});
        case _ =>
      }
      match StatusOf(fate) {
        case Confirmed => w' := w'.(report := w.report.(confirmed := w.report.confirmed + |g|));
        case Stale => w' := w'.(report := w.report.(stale := w.report.stale + |g|));
        case Invalid => w' := w'.(report := w.report.(invalid := w.report.invalid + |g|));
        case _ =>
      }
    }

    /** The loop over the groups. Their order does not matter to the result. */
    method ConfirmGroups(c: Call, groups: map<Id, seq<Id>>, ghost fates: map<Id, Fate>) returns (r: Result<Work>)
      requires CallOk(tables, c) && AreFates(tables, c, fates) && Plausible(tables, fates, groups.Keys)
      requires groups.Keys == fates.Keys
      requires forall e :: e in groups ==> groups[e] == Group(tables.proposals, c.listing, e)
      requires forall e :: e in fates && fates[e].Confirms? ==> e in Raced(tables.entities, c.race)
      ensures r.Ok? <==> forall e :: e in fates ==> !fates[e].Breaks?
      ensures r.Err? ==> exists e :: e in fates && fates[e] == Breaks(r.error)
      ensures r.Ok? ==> WorkDone(tables, c, fates, fates.Keys, r.value)
    {
      var w := Work(tables.proposals, Raced(tables.entities, c.race), tables.snapshots, Report(0, 0, 0));
      var left := groups.Keys;
      ghost var done: set<Id> := {};
      NothingDone(tables, c, fates, w);
      while left != {}
        invariant left <= groups.Keys && done == groups.Keys - left
        invariant WorkDone(tables, c, fates, done, w)
        invariant forall e :: e in done ==> !fates[e].Breaks?
        decreases left
      {
        var e :| e in left;
        var fate := JudgeNext(c, e, groups[e], fates);
        if fate.Breaks? { return Err(fate.error); }
        WorkGrows(tables, c, fates, done, e, w);
        w := ConfirmGroup(c, e, groups[e], fate, w);
        left := left - {e};
        done := done + {e};
      }
      assert done == fates.Keys;
      return Ok(w);
    }

    /** `confirm` up to its commit. */
    method PlanConfirm(c: Call) returns (r: Result<Work>)
      requires CallOk(tables, c)
      ensures r.Ok? <==> Confirmable(tables, c)
      ensures r.Err? ==> Refuses(tables, c, r.error)
      ensures r.Ok? ==> WorkDone(tables, c, Fates(tables, c), Touched(tables, c), r.value)
    {
      var verdict := ActionVerdict(tables.jobs, tables.proposals, c.workspace, c.job);
      if verdict.Err? { return Err(verdict.error); }
      if PendingOf(tables.proposals, c.workspace, c.job) == {} { return Err(Conflict); }
      ghost var fates := Fates(tables, c);
      TheFates(tables, c);
      var groups := GroupByEntity(c.listing);
      assert groups.Keys == fates.Keys by {
        forall e ensures e in groups <==> e in Touched(tables, c) { GroupIsTheRowsOf(tables, c, e); }
      }
      r := ConfirmGroups(c, groups, fates);
    }

    /** `confirm` answers with a report exactly when the call is confirmable, and then every group has met its fate
        and the counters count proposals; otherwise the transaction leaves no trace. */
    method Confirm(c: Call) returns (r: Result<Report>)
      requires CallOk(tables, c)
      modifies this
      ensures r.Ok? <==> Confirmable(old(tables), c)
      ensures r.Err? ==> tables == old(tables) && Refuses(old(tables), c, r.error)
      ensures r.Ok? ==> tables == AfterConfirm(old(tables), c)
      ensures r.Ok? ==> Counts(old(tables), c, r.value)
    {
      var w := PlanConfirm(c);
      if w.Err? { return Err(w.error); }
      WorkGivesAfterConfirm(tables, c, w.value);
      tables := tables.(proposals := w.value.rows, entities := w.value.table, snapshots := w.value.kept);
      return Ok(w.value.report);
    }
  }
}
