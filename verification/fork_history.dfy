/** What every run of fork operations keeps: an acyclic graph, sound head histories and newest-version heads.
    The other writers of the schema and entity tables take part as steps of their own. */
module ForkHistory {
  import opened Common
  import opened ForkGraph
  import opened SchemaForks

  datatype Op =
    | Create(create: CreateInput, head: Id, fork: Id)
    | Update(update: UpdateInput, head: Id)
    | Delete(tenant: Tenant, workspace: Workspace, fork: Id)
    | Retire(tenant: Tenant)
    | Publish(schema: Id, row: Schema)
    | Archive(schema: Id)
    | Drop(schema: Id)
    | Store(use: (Workspace, Id))
    | Erase(use: (Workspace, Id))

  predicate Referenced(t: Tables, s: Id)
  {
    || (exists f :: f in t.forks && (t.forks[f].head == s || t.forks[f].sourceSchema == s))
    || (exists h :: h in t.heads && h.1 == s)
    || (exists u :: u in t.used && u.1 == s)
  }

  /** Generated ids are new, and a schema version is dropped only once archived and unreferenced. */
  predicate Enabled(t: Tables, op: Op)
  {
    match op
    case Create(_, head, fork) => head !in t.minted && fork !in t.minted && head != fork
    case Update(_, head) => head !in t.minted
    case Publish(s, row) => s !in t.minted && row.version !in Versions(t.schemas, row.workspace, row.name)
    case Drop(s) => s in t.schemas && !t.schemas[s].active && !Referenced(t, s)
    case _ => true
  }

  ghost function Apply(t: Tables, op: Op): Tables
  {
    match op
    case Create(i, head, fork) => if CreateVerdict(t, i).Ok? then Created(t, i, head, fork) else t
    case Update(i, head) => if UpdateVerdict(t, i).Ok? then Updated(t, i, head) else t
    case Delete(tenant, workspace, fork) =>
      if DeleteVerdict(t, tenant, workspace, fork).Ok? then Deleted(t, fork) else t
    case Retire(tenant) =>
      t.(forks := map f | f in t.forks && t.forks[f].tenant != tenant :: t.forks[f],
         heads := set h | h in t.heads && h.0 in t.forks && t.forks[h.0].tenant != tenant)
    case Publish(s, row) => t.(schemas := t.schemas[s := row], minted := t.minted + {s})
    case Archive(s) => if s in t.schemas then t.(schemas := t.schemas[s := t.schemas[s].(active := false)]) else t
    case Drop(s) => t.(schemas := t.schemas - {s})
    case Store(u) => t.(used := t.used + {u})
    case Erase(u) => t.(used := t.used - {u})
  }

  ghost predicate RunsFrom(t: Tables, ops: seq<Op>)
    decreases |ops|
  {
    ops == [] || (Enabled(t, ops[0]) && RunsFrom(Apply(t, ops[0]), ops[1..]))
  }

  ghost function After(t: Tables, ops: seq<Op>): Tables
    decreases |ops|
  {
    if ops == [] then t else After(Apply(t, ops[0]), ops[1..])
  }

  /** A fork operation in a run is a call of the store: what a run does is what these calls leave. */
  method Perform(store: ForkStore, op: Op)
    requires UniqueVersions(store.schemas) && (op.Create? || op.Update? || op.Delete?)
    modifies store
    ensures store.View() == Apply(old(store.View()), op)
  {
    match op
    case Create(i, head, fork) => { var r := store.Create(i, head, fork); }
    case Update(i, head) => { var r := store.Update(i, head); }
    case Delete(tenant, workspace, fork) => { var r := store.Delete(tenant, workspace, fork); }
  }

  // ---------------------------------------------------------------- the invariant

  /** Both ends of every edge belong to the tenant of its row. */
  ghost predicate Homed(t: Tables)
  {
    forall f :: f in t.forks ==>
      && t.forks[f].workspace in t.home && t.home[t.forks[f].workspace] == t.forks[f].tenant
      && t.forks[f].source in t.home && t.home[t.forks[f].source] == t.forks[f].tenant
  }

  /** The current head of a fork is in its history, and the history holds versions of the forked name in its workspace. */
  ghost predicate HistorySound(t: Tables)
  {
    && (forall f :: f in t.forks ==> (f, t.forks[f].head) in t.heads)
    && (forall h :: h in t.heads ==>
          && h.0 in t.forks && h.1 in t.schemas
          && t.schemas[h.1].workspace == t.forks[h.0].workspace && t.schemas[h.1].name == t.forks[h.0].sourceName)
  }

  ghost predicate IdsMinted(t: Tables)
  {
    t.schemas.Keys <= t.minted && t.forks.Keys <= t.minted
  }

  ghost predicate Inv(t: Tables)
  {
    UniqueVersions(t.schemas) && Homed(t) && HistorySound(t) && IdsMinted(t) && Acyclic(AllEdges(t.forks))
  }

  /** Reachability within one tenant is reachability: no edge leaves a tenant. */
  lemma {:induction false} PathsStayInTheirTenant(t: Tables, tenant: Tenant, p: seq<Workspace>, a: Workspace, b: Workspace)
    requires Homed(t) && a in t.home && t.home[a] == tenant && PathBetween(AllEdges(t.forks), p, a, b)
    ensures Reaches(TenantEdges(t.forks, tenant), a, b)
    decreases |p|
  {
    var edges := TenantEdges(t.forks, tenant);
    if |p| == 1 {
      ReachesSelf(edges, a);
    } else {
      assert (p[0], p[1]) in AllEdges(t.forks);
      var f :| f in t.forks && t.forks[f].workspace == p[0] && t.forks[f].source == p[1];
      assert PathBetween(AllEdges(t.forks), p[1..], p[1], b);
      PathsStayInTheirTenant(t, tenant, p[1..], p[1], b);
      assert (p[0], p[1]) in edges;
      ReachesByEdge(edges, a, p[1], b);
    }
  }

  lemma {:induction false} CreateKeepsAcyclic(t: Tables, i: CreateInput, head: Id, fork: Id)
    requires Homed(t) && Acyclic(AllEdges(t.forks)) && CreateVerdict(t, i).Ok? && fork !in t.forks
    ensures Acyclic(AllEdges(Created(t, i, head, fork).forks))
  {
    var edges := AllEdges(t.forks);
    if Reaches(edges, i.source, i.workspace) {
      var p :| PathBetween(edges, p, i.source, i.workspace);
      PathsStayInTheirTenant(t, i.tenant, p, i.source, i.workspace);
      assert false;
    }
    AddingEdgeKeepsAcyclic(edges, i.workspace, i.source);
    var t' := Created(t, i, head, fork);
    assert AllEdges(t'.forks) == edges + {(i.workspace, i.source)} by {
      forall e | e in edges ensures e in AllEdges(t'.forks) {
        var f :| f in t.forks && e == (t.forks[f].workspace, t.forks[f].source);
        assert f in t'.forks && t'.forks[f] == t.forks[f];
      }
      assert fork in t'.forks;
    }
  }

  lemma {:induction false} CreateKeepsHistory(t: Tables, i: CreateInput, head: Id, fork: Id)
    requires Homed(t) && HistorySound(t) && IdsMinted(t) && CreateVerdict(t, i).Ok? && Enabled(t, Create(i, head, fork))
    ensures var t' := Created(t, i, head, fork); Homed(t') && HistorySound(t') && IdsMinted(t')
  {
  }

  lemma {:induction false} CreateKeepsInv(t: Tables, i: CreateInput, head: Id, fork: Id)
    requires Inv(t) && CreateVerdict(t, i).Ok? && Enabled(t, Create(i, head, fork))
    ensures Inv(Created(t, i, head, fork))
  {
    CreateKeepsAcyclic(t, i, head, fork);
    CreateKeepsHistory(t, i, head, fork);
    var t' := Created(t, i, head, fork);
    NewRowKeepsUnique(t.schemas, head, t'.schemas[head]);
  }

  lemma {:induction false} NewRowKeepsUnique(schemas: map<Id, Schema>, s: Id, row: Schema)
    requires UniqueVersions(schemas) && row.version !in Versions(schemas, row.workspace, row.name)
    ensures UniqueVersions(schemas[s := row])
  {
    forall o | o in schemas && o != s && schemas[o].workspace == row.workspace && schemas[o].name == row.name
      ensures schemas[o].version != row.version
    {
      assert schemas[o].version in Versions(schemas, row.workspace, row.name);
    }
  }

  /** An update never moves an edge. */
  lemma {:induction false} UpdateKeepsEdges(t: Tables, i: UpdateInput, head: Id)
    requires UpdateVerdict(t, i).Ok?
    ensures AllEdges(Updated(t, i, head).forks) == AllEdges(t.forks)
    ensures Updated(t, i, head).forks.Keys == t.forks.Keys
  {
    var t' := Updated(t, i, head);
    forall f | f in t.forks
      ensures t'.forks[f].workspace == t.forks[f].workspace && t'.forks[f].source == t.forks[f].source
    { }
    forall e | e in AllEdges(t.forks) ensures e in AllEdges(t'.forks) {
      var f :| f in t.forks && e == (t.forks[f].workspace, t.forks[f].source);
      assert f in t'.forks;
    }
  }

  lemma {:induction false} UpdateKeepsHistory(t: Tables, i: UpdateInput, head: Id)
    requires Homed(t) && HistorySound(t) && IdsMinted(t) && UpdateVerdict(t, i).Ok? && Enabled(t, Update(i, head))
    ensures var t' := Updated(t, i, head); Homed(t') && HistorySound(t') && IdsMinted(t')
  {
  }

  lemma {:induction false} UpdateKeepsInv(t: Tables, i: UpdateInput, head: Id)
    requires Inv(t) && UpdateVerdict(t, i).Ok? && Enabled(t, Update(i, head))
    ensures Inv(Updated(t, i, head))
  {
    UpdateKeepsEdges(t, i, head);
    UpdateKeepsHistory(t, i, head);
    var t' := Updated(t, i, head);
    NewRowKeepsUnique(t.schemas, head, t'.schemas[head]);
  }

  lemma {:induction false} RemovalKeepsAcyclic(t: Tables, forks: map<Id, Fork>)
    requires Acyclic(AllEdges(t.forks))
    requires forall f :: f in forks ==> f in t.forks && forks[f] == t.forks[f]
    ensures Acyclic(AllEdges(forks))
  {
    forall e | e in AllEdges(forks) ensures e in AllEdges(t.forks) {
      var f :| f in forks && e == (forks[f].workspace, forks[f].source);
      assert f in t.forks;
    }
    RemovingEdgesKeepsAcyclic(AllEdges(forks), AllEdges(t.forks));
  }

  lemma {:induction false} RemovalKeepsHistory(t: Tables, op: Op)
    requires Homed(t) && HistorySound(t) && IdsMinted(t) && (op.Delete? || op.Retire?)
    ensures var t' := Apply(t, op); Homed(t') && HistorySound(t') && IdsMinted(t') && t'.schemas == t.schemas
    ensures forall f :: f in Apply(t, op).forks ==> f in t.forks && Apply(t, op).forks[f] == t.forks[f]
  {
  }

  lemma {:induction false} RemovalKeepsInv(t: Tables, op: Op)
    requires Inv(t) && (op.Delete? || op.Retire?)
    ensures Inv(Apply(t, op))
  {
    RemovalKeepsHistory(t, op);
    RemovalKeepsAcyclic(t, Apply(t, op).forks);
  }

  lemma {:induction false} PublishKeepsInv(t: Tables, s: Id, row: Schema)
    requires Inv(t) && Enabled(t, Publish(s, row))
    ensures Inv(Apply(t, Publish(s, row)))
  {
    NewRowKeepsUnique(t.schemas, s, row);
    assert s !in t.schemas;
  }

  lemma {:induction false} ArchiveKeepsInv(t: Tables, s: Id)
    requires Inv(t)
    ensures Inv(Apply(t, Archive(s)))
  {
    var schemas := Apply(t, Archive(s)).schemas;
    assert forall o :: o in t.schemas ==> schemas[o] == t.schemas[o].(active := schemas[o].active);
  }

  lemma {:induction false} DropKeepsInv(t: Tables, s: Id)
    requires Inv(t) && Enabled(t, Drop(s))
    ensures Inv(Apply(t, Drop(s)))
  {
    assert forall h :: h in t.heads ==> h.1 != s;
  }

  /** Every step keeps the invariant. */
  lemma {:induction false} StepKeepsInv(t: Tables, op: Op)
    requires Inv(t) && Enabled(t, op)
    ensures Inv(Apply(t, op))
  {
    match op
    case Create(i, head, fork) => if CreateVerdict(t, i).Ok? { CreateKeepsInv(t, i, head, fork); }
    case Update(i, head) => if UpdateVerdict(t, i).Ok? { UpdateKeepsInv(t, i, head); }
    case Delete(_, _, _) => RemovalKeepsInv(t, op);
    case Retire(_) => RemovalKeepsInv(t, op);
    case Publish(s, row) => PublishKeepsInv(t, s, row);
    case Archive(s) => ArchiveKeepsInv(t, s);
    case Drop(s) => DropKeepsInv(t, s);
    case Store(_) =>
    case Erase(_) =>
  }

  /** Over every run: the fork graph is acyclic and every head history is sound. */
  lemma {:induction false} EveryRunKeepsInv(t: Tables, ops: seq<Op>)
    requires Inv(t) && RunsFrom(t, ops)
    ensures Inv(After(t, ops))
    decreases |ops|
  {
    if ops != [] {
      StepKeepsInv(t, ops[0]);
      EveryRunKeepsInv(Apply(t, ops[0]), ops[1..]);
    }
  }

  lemma {:induction false} EmptyTablesSatisfyInv(home: map<Workspace, Tenant>)
    ensures Inv(Tables(home, map[], map[], {}, {}, {}))
  {
    assert AllEdges(map[]) == {};
  }

  // ---------------------------------------------------------------- heads and versions

  /** The version an update installs is above every stored version of the name exactly when
      the newest stored version can still be incremented in 32 bits. */
  lemma {:induction false} UpdateInstallsNewestExactlyWhen(t: Tables, i: UpdateInput, head: Id)
    requires UpdateVerdict(t, i).Ok?
    ensures var row := Updated(t, i, head).schemas[head];
            && row.workspace == i.workspace && row.name == t.forks[i.fork].sourceName
            && ((forall v :: v in Versions(t.schemas, row.workspace, row.name) ==> v < row.version)
                <==> Newest(t.schemas, row.workspace, row.name) != I32_MAX)
  {
    var row := Updated(t, i, head).schemas[head];
    var newest := Newest(t.schemas, row.workspace, row.name);
    if newest == I32_MAX {
      assert newest in Versions(t.schemas, row.workspace, row.name) && row.version == I32_MIN;
    }
  }

  /** Workspace 1 forks schema "s" of workspace 2, and its head has the largest version. */
  function AtTheTop(): Tables
  {
    var d := Definition("s", 0, true);
    Tables(map[1 := 7, 2 := 7],
           map[10 := Schema(7, 1, "s", I32_MAX, d, false), 11 := Schema(7, 2, "s", 1, d, true)],
           map[20 := Fork(7, 1, 2, 11, 1, "s", 10, false)], {(20, 10)}, {}, {10, 11, 20})
  }

  lemma {:induction false} AtTheTopIsSound()
    ensures Inv(AtTheTop())
  {
    var t := AtTheTop();
    var edges := AllEdges(t.forks);
    assert edges == {(1, 2)} by { assert t.forks[20].workspace == 1; }
    AddingEdgeKeepsAcyclic({}, 1, 2);
    ExhaustedSearchMeansUnreachable({}, {2}, 2, 1);
    assert {} + {(1, 2)} == edges;
  }

  /** At the top of the 32-bit range the new head is the oldest version instead. */
  lemma {:induction false} VersionWrapsAround()
    ensures Inv(AtTheTop())
    ensures var i := UpdateInput(7, 1, 20, Some(Definition("s", 0, true)), None, false, None, None);
            UpdateVerdict(AtTheTop(), i).Ok? && Updated(AtTheTop(), i, 30).schemas[30].version == I32_MIN
  {
    AtTheTopIsSound();
    var schemas := AtTheTop().schemas;
    assert Versions(schemas, 1, "s") == {I32_MAX} by { assert 10 in schemas; }
  }

  /** A head that was replaced, or whose fork is gone, is never a head of that fork again. */
  lemma {:induction false} ReplacedHeadNeverReturns(t: Tables, ops: seq<Op>, fork: Id, h: Id)
    requires RunsFrom(t, ops) && h in t.minted
    requires fork in t.forks ==> t.forks[fork].head != h
    ensures fork in After(t, ops).forks ==> After(t, ops).forks[fork].head != h
    decreases |ops|
  {
    if ops != [] {
      ReplacedHeadNeverReturns(Apply(t, ops[0]), ops[1..], fork, h);
    }
  }

  /** Of two updates that expect the same head, in any run, the later one fails. */
  lemma {:induction false} UpdatesExpectingOneHeadConflict(t: Tables, i: UpdateInput, head: Id, ops: seq<Op>, j: UpdateInput)
    requires Inv(t) && UpdateVerdict(t, i).Ok? && Enabled(t, Update(i, head))
    requires RunsFrom(Updated(t, i, head), ops)
    requires i.expectedHead.Some? && j.fork == i.fork && j.expectedHead == i.expectedHead
    ensures UpdateVerdict(After(Updated(t, i, head), ops), j).Err?
  {
    assert (i.fork, t.forks[i.fork].head) in t.heads;
    ReplacedHeadNeverReturns(Updated(t, i, head), ops, i.fork, t.forks[i.fork].head);
  }

  ghost predicate ForcesFollow(op: Op, fork: Id)
  {
    op.Update? && op.update.fork == fork && op.update.action.Some? && op.update.force
  }

  /** Local edits survive every run without a forced follow of that fork. */
  lemma {:induction false} CustomizedForkStaysCustomized(t: Tables, ops: seq<Op>, fork: Id)
    requires IdsMinted(t) && RunsFrom(t, ops)
    requires fork in t.minted && (fork in t.forks ==> t.forks[fork].customized)
    requires forall k :: 0 <= k < |ops| ==> !ForcesFollow(ops[k], fork)
    ensures fork in After(t, ops).forks ==> After(t, ops).forks[fork].customized
    decreases |ops|
  {
    if ops != [] {
      var t' := Apply(t, ops[0]);
      assert !ForcesFollow(ops[0], fork);
      assert IdsMinted(t');
      forall k | 0 <= k < |ops[1..]| ensures !ForcesFollow(ops[1..][k], fork) { assert ops[1..][k] == ops[k + 1]; }
      CustomizedForkStaysCustomized(t', ops[1..], fork);
    }
  }

  /** After an accepted local update no run without a forced follow lets the fork follow its source: the edit is kept. */
  lemma {:induction false} LocalEditIsNeverFollowedAway(t: Tables, i: UpdateInput, head: Id, ops: seq<Op>, j: UpdateInput)
    requires IdsMinted(t) && i.definition.Some? && UpdateVerdict(t, i).Ok? && Enabled(t, Update(i, head))
    requires RunsFrom(Updated(t, i, head), ops)
    requires forall k :: 0 <= k < |ops| ==> !ForcesFollow(ops[k], i.fork)
    requires j.fork == i.fork && j.action.Some? && !j.force
    ensures i.fork in After(Updated(t, i, head), ops).forks ==> After(Updated(t, i, head), ops).forks[i.fork].customized
    ensures UpdateVerdict(After(Updated(t, i, head), ops), j).Err?
  {
    UpdatedMeans(t, i, head);
    assert IdsMinted(Updated(t, i, head));
    CustomizedForkStaysCustomized(Updated(t, i, head), ops, i.fork);
  }
}
