/** Tables and operations of ee/models/workspace_schema_forks.rs, one transaction at a time.

    The verdict functions give what each operation answers, in terms of reachability and stored rows;
    class `ForkStore` holds the tables and runs the operations with the loops of the source. */
module SchemaForks {
  import opened Common
  import opened ForkGraph

  type Tenant = nat

  /** A schema definition; `conforms` is the verdict of `validate_definition` on it. */
  datatype Definition = Definition(name: string, body: nat, conforms: bool)

  datatype Schema = Schema(tenant: Tenant, workspace: Workspace, name: string, version: int,
                           definition: Definition, active: bool)

  datatype Fork = Fork(tenant: Tenant, workspace: Workspace, source: Workspace, sourceSchema: Id,
                       sourceVersion: int, sourceName: string, head: Id, customized: bool)

  /** `heads` is the head history as (fork, schema) rows, `used` the (workspace, schema) pairs of stored entities,
      `minted` every row id handed out so far. */
  datatype Tables = Tables(home: map<Workspace, Tenant>, schemas: map<Id, Schema>, forks: map<Id, Fork>,
                           heads: set<(Id, Id)>, used: set<(Workspace, Id)>, minted: set<Id>)

  datatype CreateInput = CreateInput(tenant: Tenant, workspace: Workspace, source: Workspace, sourceSchema: Id)

  datatype UpdateInput = UpdateInput(tenant: Tenant, workspace: Workspace, fork: Id,
                                     definition: Option<Definition>, action: Option<string>, force: bool,
                                     expectedHead: Option<Id>, expectedSource: Option<Id>)

  // ---------------------------------------------------------------- queries

  /** The edges `fork_edges` can see: those of one tenant. */
  function TenantEdges(forks: map<Id, Fork>, tenant: Tenant): set<Edge>
  {
    set f | f in forks && forks[f].tenant == tenant :: (forks[f].workspace, forks[f].source)
  }

  function AllEdges(forks: map<Id, Fork>): set<Edge>
  {
    set f | f in forks :: (forks[f].workspace, forks[f].source)
  }

  function Versions(schemas: map<Id, Schema>, workspace: Workspace, name: string): set<int>
  {
    set s | s in schemas && schemas[s].workspace == workspace && schemas[s].name == name :: schemas[s].version
  }

  ghost predicate IsNewest(versions: set<int>, v: int)
  {
    v in versions && forall w :: w in versions ==> w <= v
  }

  lemma {:induction false} NewestExists(schemas: map<Id, Schema>, workspace: Workspace, name: string)
    requires Versions(schemas, workspace, name) != {}
    ensures exists v :: IsNewest(Versions(schemas, workspace, name), v)
  {
    var versions := Versions(schemas, workspace, name);
    var newest, left := 0, versions;
    while left != {}
      invariant left <= versions
      invariant left < versions ==> IsNewest(versions - left, newest)
      decreases left
    {
      var v :| v in left;
      var seen := versions - left;
      if left == versions || v > newest { newest := v; }
      left := left - {v};
      assert versions - left == seen + {v};
    }
    assert versions - {} == versions;
    assert IsNewest(versions, newest);
  }

  /** The newest stored version of a name, 0 without one. */
  ghost function Newest(schemas: map<Id, Schema>, workspace: Workspace, name: string): (v: int)
    ensures var versions := Versions(schemas, workspace, name);
            if versions == {} then v == 0 else IsNewest(versions, v)
  {
    var versions := Versions(schemas, workspace, name);
    if versions == {} then 0 else
      NewestExists(schemas, workspace, name);
      var v :| IsNewest(versions, v); v
  }

  /** `max + 1` in 32 bits, which wraps around in a release build. */
  function Successor(version: int): int
  {
    if version == I32_MAX then I32_MIN else version + 1
  }

  ghost function NextVersion(schemas: map<Id, Schema>, workspace: Workspace, name: string): int
  {
    Successor(Newest(schemas, workspace, name))
  }

  /** `s` is the newest active row of `name` in `workspace`. */
  predicate IsLatest(schemas: map<Id, Schema>, tenant: Tenant, workspace: Workspace, name: string, s: Id)
  {
    && s in schemas && schemas[s].tenant == tenant && schemas[s].workspace == workspace
    && schemas[s].name == name && schemas[s].active
    && forall o | o in schemas && schemas[o].tenant == tenant && schemas[o].workspace == workspace
                  && schemas[o].name == name && schemas[o].active :: schemas[o].version <= schemas[s].version
  }

  ghost function LatestSource(schemas: map<Id, Schema>, tenant: Tenant, workspace: Workspace, name: string): Option<Id>
  {
    if exists s :: IsLatest(schemas, tenant, workspace, name, s)
    then var s :| IsLatest(schemas, tenant, workspace, name, s); Some(s)
    else None
  }

  /** The unique index on (workspace, name, version). */
  ghost predicate UniqueVersions(schemas: map<Id, Schema>)
  {
    forall s, o | s in schemas && o in schemas && schemas[s].workspace == schemas[o].workspace
                  && schemas[s].name == schemas[o].name && schemas[s].version == schemas[o].version :: s == o
  }

  predicate HasForkOf(forks: map<Id, Fork>, workspace: Workspace, source: Workspace, name: string)
  {
    exists f :: f in forks && forks[f].workspace == workspace && forks[f].source == source && forks[f].sourceName == name
  }

  predicate FindsFork(t: Tables, tenant: Tenant, workspace: Workspace, fork: Id)
  {
    fork in t.forks && t.forks[fork].tenant == tenant && t.forks[fork].workspace == workspace
  }

  // ---------------------------------------------------------------- verdicts

  /** What `create` answers. The order of the tests is the order of the source. */
  ghost function CreateVerdict(t: Tables, i: CreateInput): Result<()>
  {
    if i.source == i.workspace then Err(Validation)
    else if i.workspace !in t.home || t.home[i.workspace] != i.tenant then Err(NotFound)
    else if i.sourceSchema !in t.schemas || t.schemas[i.sourceSchema].tenant != i.tenant
            || t.schemas[i.sourceSchema].workspace != i.source then Err(NotFound)
    else
      var s := t.schemas[i.sourceSchema];
      if !s.active then Err(Validation)
      else if Reaches(TenantEdges(t.forks, i.tenant), i.source, i.workspace) then Err(Conflict)
      else if !s.definition.conforms then Err(Validation)
      else if NextVersion(t.schemas, i.workspace, s.definition.name)
              in Versions(t.schemas, i.workspace, s.definition.name) then Err(Internal)
      else if i.source !in t.home || t.home[i.source] != i.tenant
              || s.definition.name != s.name || s.version <= 0 then Err(Internal)
      else if HasForkOf(t.forks, i.workspace, i.source, s.name) then Err(Conflict)
      else Ok(())
  }

  ghost function HeadRow(t: Tables, tenant: Tenant, workspace: Workspace, d: Definition): Schema
  {
    Schema(tenant, workspace, d.name, NextVersion(t.schemas, workspace, d.name), d, false)
  }

  ghost function Created(t: Tables, i: CreateInput, head: Id, fork: Id): Tables
    requires CreateVerdict(t, i).Ok?
  {
    var s := t.schemas[i.sourceSchema];
    t.(schemas := t.schemas[head := HeadRow(t, i.tenant, i.workspace, s.definition)],
       forks := t.forks[fork := Fork(i.tenant, i.workspace, i.source, i.sourceSchema, s.version, s.name, head, false)],
       heads := t.heads + {(fork, head)},
       minted := t.minted + {head, fork})
  }

  /** The definition an update installs and, when it follows, the source row it follows. */
  ghost function Installs(t: Tables, i: UpdateInput): Result<(Definition, Option<Id>)>
    requires FindsFork(t, i.tenant, i.workspace, i.fork)
  {
    var f := t.forks[i.fork];
    if i.definition.Some? then
      var d := i.definition.value;
      if !d.conforms || d.name != f.sourceName then Err(Validation) else Ok((d, None))
    else if i.action != Some("follow") then Err(Validation)
    else if f.customized && !i.force then Err(Conflict)
    else
      var latest := LatestSource(t.schemas, i.tenant, f.source, f.sourceName);
      if latest.None? then Err(NotFound)
      else if i.expectedSource.Some? && i.expectedSource != latest then Err(Conflict)
      else Ok((t.schemas[latest.value].definition, latest))
  }

  ghost function UpdateVerdict(t: Tables, i: UpdateInput): Result<(Definition, Option<Id>)>
  {
    if i.definition.Some? == i.action.Some? then Err(Validation)
    else if !FindsFork(t, i.tenant, i.workspace, i.fork) then Err(NotFound)
    else if i.expectedHead.Some? && i.expectedHead.value != t.forks[i.fork].head then Err(Conflict)
    else
      var installs := Installs(t, i);
      if installs.Err? then installs
      else
        var d := installs.value.0;
        if !d.conforms then Err(Validation)
        else if NextVersion(t.schemas, i.workspace, d.name) in Versions(t.schemas, i.workspace, d.name) then Err(Internal)
        else if d.name != t.forks[i.fork].sourceName
                || (installs.value.1.Some? && t.schemas[installs.value.1.value].version <= 0) then Err(Internal)
        else installs
  }

  ghost function Updated(t: Tables, i: UpdateInput, head: Id): Tables
    requires UpdateVerdict(t, i).Ok?
  {
    var (d, follows) := UpdateVerdict(t, i).value;
    var f := t.forks[i.fork].(head := head, customized := follows.None?);
    var f' := if follows.None? then f
              else f.(sourceSchema := follows.value, sourceVersion := t.schemas[follows.value].version);
    t.(schemas := t.schemas[head := HeadRow(t, i.tenant, i.workspace, d)],
       forks := t.forks[i.fork := f'],
       heads := t.heads + {(i.fork, head)},
       minted := t.minted + {head})
  }

  function HistoryOf(heads: set<(Id, Id)>, fork: Id): set<Id>
  {
    set h | h in heads && h.0 == fork :: h.1
  }

  function DeleteVerdict(t: Tables, tenant: Tenant, workspace: Workspace, fork: Id): Result<()>
  {
    if !FindsFork(t, tenant, workspace, fork) then Err(NotFound)
    else if exists u :: u in t.used && u.0 == workspace && u.1 in HistoryOf(t.heads, fork) then Err(Conflict)
    else Ok(())
  }

  /** The fork row goes, and its head history with it by the cascading foreign key. */
  function Deleted(t: Tables, fork: Id): Tables
  {
    t.(forks := t.forks - {fork}, heads := set h | h in t.heads && h.0 != fork)
  }

  lemma {:induction false} RemovingForksKeepsAcyclic(forks: map<Id, Fork>, fork: Id)
    ensures AllEdges(forks - {fork}) <= AllEdges(forks)
    ensures Acyclic(AllEdges(forks)) ==> Acyclic(AllEdges(forks - {fork}))
  {
    forall e | e in AllEdges(forks - {fork}) ensures e in AllEdges(forks) {
      var f :| f in forks - {fork} && e == (forks[f].workspace, forks[f].source);
    }
    if Acyclic(AllEdges(forks)) { RemovingEdgesKeepsAcyclic(AllEdges(forks - {fork}), AllEdges(forks)); }
  }

  // ---------------------------------------------------------------- what create and update promise

  ghost predicate IsNamed(t: Tables, s: Id, workspace: Workspace, name: string)
  {
    s in t.schemas && t.schemas[s].workspace == workspace && t.schemas[s].name == name
  }

  /** `version` comes after every stored version of the name: 1 for the first, otherwise the largest plus one in 32 bits. */
  ghost predicate ComesNext(t: Tables, workspace: Workspace, name: string, version: int)
  {
    if forall s :: !IsNamed(t, s, workspace, name) then version == 1
    else exists top ::
      && IsNamed(t, top, workspace, name)
      && (forall s :: IsNamed(t, s, workspace, name) ==> t.schemas[s].version <= t.schemas[top].version)
      && version == if t.schemas[top].version == 0x7FFF_FFFF then -0x8000_0000 else t.schemas[top].version + 1
  }

  /** The next version of the name is not stored yet. */
  ghost predicate HasRoom(t: Tables, workspace: Workspace, name: string)
  {
    forall s, version :: IsNamed(t, s, workspace, name) && ComesNext(t, workspace, name, version) ==> t.schemas[s].version != version
  }

  /** The row holds the definition as a new archived version of its name. */
  ghost predicate HoldsHead(t: Tables, row: Schema, tenant: Tenant, workspace: Workspace, d: Definition)
  {
    && row.tenant == tenant && row.workspace == workspace && row.name == d.name && row.definition == d && !row.active
    && ComesNext(t, workspace, d.name, row.version)
  }

  /** Nothing but one new schema row, one new history entry and one fork row differs. */
  ghost predicate OnlyAddsHead(a: Tables, b: Tables, head: Id, fork: Id)
  {
    && head in b.schemas && fork in b.forks && b.home == a.home && b.used == a.used
    && (forall s :: s in b.schemas && s != head ==> s in a.schemas)
    && (forall s :: s in a.schemas && s != head ==> s in b.schemas && b.schemas[s] == a.schemas[s])
    && (forall f :: f in b.forks && f != fork ==> f in a.forks)
    && (forall f :: f in a.forks && f != fork ==> f in b.forks && b.forks[f] == a.forks[f])
    && (forall h :: h in b.heads <==> h in a.heads || h == (fork, head))
  }

  /** `s` is active, and no active row of the same name in the workspace is newer. */
  ghost predicate IsNewestActive(t: Tables, s: Id, tenant: Tenant, workspace: Workspace, name: string)
  {
    && IsNamed(t, s, workspace, name) && t.schemas[s].tenant == tenant && t.schemas[s].active
    && forall o | IsNamed(t, o, workspace, name) && t.schemas[o].tenant == tenant && t.schemas[o].active ::
         t.schemas[o].version <= t.schemas[s].version
  }

  /** The caller's workspace and an active schema of another workspace of the tenant, which does not lead back to it. */
  ghost predicate MayCreate(t: Tables, i: CreateInput)
  {
    && i.source != i.workspace
    && i.workspace in t.home && t.home[i.workspace] == i.tenant && i.source in t.home && t.home[i.source] == i.tenant
    && i.sourceSchema in t.schemas
    && var s := t.schemas[i.sourceSchema];
       && s.tenant == i.tenant && s.workspace == i.source && s.active && s.definition.conforms
       && s.definition.name == s.name && s.version > 0 && HasRoom(t, i.workspace, s.name)
       && !Reaches(TenantEdges(t.forks, i.tenant), i.source, i.workspace)
       && forall f :: f in t.forks && t.forks[f].workspace == i.workspace && t.forks[f].source == i.source
            ==> t.forks[f].sourceName != s.name
  }

  /** The input names the caller's workspace and the active source schema of another one. */
  ghost predicate NamesActiveSource(t: Tables, i: CreateInput)
  {
    && i.source != i.workspace && i.workspace in t.home && t.home[i.workspace] == i.tenant
    && i.sourceSchema in t.schemas && t.schemas[i.sourceSchema].tenant == i.tenant
    && t.schemas[i.sourceSchema].workspace == i.source && t.schemas[i.sourceSchema].active
  }

  /** A created fork records its source and starts uncustomized, with the source's definition as its head. */
  ghost predicate CreatesFork(a: Tables, b: Tables, i: CreateInput, head: Id, fork: Id)
    requires i.sourceSchema in a.schemas
  {
    var s := a.schemas[i.sourceSchema];
    && OnlyAddsHead(a, b, head, fork)
    && HoldsHead(a, b.schemas[head], i.tenant, i.workspace, s.definition)
    && b.forks[fork] == Fork(i.tenant, i.workspace, i.source, i.sourceSchema, s.version, s.name, head, false)
  }

  lemma {:induction false} NamedVersions(t: Tables, workspace: Workspace, name: string)
    ensures forall v :: v in Versions(t.schemas, workspace, name) <==> exists s :: IsNamed(t, s, workspace, name) && t.schemas[s].version == v
  {
    forall v ensures v in Versions(t.schemas, workspace, name) <==> exists s :: IsNamed(t, s, workspace, name) && t.schemas[s].version == v {
      if v in Versions(t.schemas, workspace, name) {
        var s :| s in t.schemas && t.schemas[s].workspace == workspace && t.schemas[s].name == name && t.schemas[s].version == v;
        assert IsNamed(t, s, workspace, name);
      }
    }
  }

  lemma {:induction false} TopIsNewest(t: Tables, workspace: Workspace, name: string, top: Id)
    requires IsNamed(t, top, workspace, name)
    ensures (forall s :: IsNamed(t, s, workspace, name) ==> t.schemas[s].version <= t.schemas[top].version)
       <==> t.schemas[top].version == Newest(t.schemas, workspace, name)
  {
    NamedVersions(t, workspace, name);
    var versions, newest := Versions(t.schemas, workspace, name), Newest(t.schemas, workspace, name);
    assert t.schemas[top].version in versions && newest in versions;
    forall s | IsNamed(t, s, workspace, name) ensures t.schemas[s].version <= newest { assert t.schemas[s].version in versions; }
    var s :| IsNamed(t, s, workspace, name) && t.schemas[s].version == newest;
  }

  lemma {:induction false} UnnamedHasNoVersion(t: Tables, workspace: Workspace, name: string)
    ensures (forall s :: !IsNamed(t, s, workspace, name)) <==> Versions(t.schemas, workspace, name) == {}
  {
    NamedVersions(t, workspace, name);
    if s :| IsNamed(t, s, workspace, name) { assert t.schemas[s].version in Versions(t.schemas, workspace, name); }
  }

  lemma {:induction false} NextComesNext(t: Tables, workspace: Workspace, name: string)
    ensures ComesNext(t, workspace, name, NextVersion(t.schemas, workspace, name))
    ensures forall v :: ComesNext(t, workspace, name, v) ==> v == NextVersion(t.schemas, workspace, name)
  {
    UnnamedHasNoVersion(t, workspace, name);
    if Versions(t.schemas, workspace, name) != {} {
      NamedVersions(t, workspace, name);
      forall top | IsNamed(t, top, workspace, name)
        ensures (forall s :: IsNamed(t, s, workspace, name) ==> t.schemas[s].version <= t.schemas[top].version)
           <==> t.schemas[top].version == Newest(t.schemas, workspace, name)
      { TopIsNewest(t, workspace, name, top); }
      var top :| IsNamed(t, top, workspace, name) && t.schemas[top].version == Newest(t.schemas, workspace, name);
    }
  }

  lemma {:induction false} RoomIsFree(t: Tables, workspace: Workspace, name: string)
    ensures HasRoom(t, workspace, name) <==> NextVersion(t.schemas, workspace, name) !in Versions(t.schemas, workspace, name)
  {
    NamedVersions(t, workspace, name);
    NextComesNext(t, workspace, name);
  }

  lemma {:induction false} CreateMeans(t: Tables, i: CreateInput, head: Id, fork: Id)
    ensures CreateVerdict(t, i).Ok? <==> MayCreate(t, i)
    ensures MayCreate(t, i) ==> CreatesFork(t, Created(t, i, head, fork), i, head, fork)
  {
    if i.sourceSchema in t.schemas {
      NextComesNext(t, i.workspace, t.schemas[i.sourceSchema].definition.name);
      RoomIsFree(t, i.workspace, t.schemas[i.sourceSchema].definition.name);
    }
  }

  /** What an update may install: a definition of the caller under the forked name, or the newest active source. */
  ghost predicate MayInstall(t: Tables, i: UpdateInput, d: Definition, follows: Option<Id>)
    requires i.fork in t.forks
  {
    var f := t.forks[i.fork];
    && d.conforms && d.name == f.sourceName && HasRoom(t, i.workspace, d.name)
    && if follows.None? then i.definition == Some(d) && i.action.None?
       else
         && i.definition.None? && i.action == Some("follow") && (f.customized ==> i.force)
         && IsNewestActive(t, follows.value, i.tenant, f.source, f.sourceName)
         && (i.expectedSource.Some? ==> i.expectedSource == follows)
         && d == t.schemas[follows.value].definition && t.schemas[follows.value].version > 0
  }

  ghost predicate MayUpdate(t: Tables, i: UpdateInput, d: Definition, follows: Option<Id>)
  {
    && i.fork in t.forks && t.forks[i.fork].tenant == i.tenant && t.forks[i.fork].workspace == i.workspace
    && (i.expectedHead.Some? ==> i.expectedHead.value == t.forks[i.fork].head)
    && MayInstall(t, i, d, follows)
  }

  /** A local update makes the fork customized and leaves its source columns; a follow makes it uncustomized and records
      the followed version. Either way the new head holds exactly the installed definition. */
  ghost predicate UpdatesFork(a: Tables, b: Tables, i: UpdateInput, head: Id, d: Definition, follows: Option<Id>)
    requires i.fork in a.forks && (follows.Some? ==> follows.value in a.schemas)
  {
    var f := a.forks[i.fork];
    && OnlyAddsHead(a, b, head, i.fork)
    && HoldsHead(a, b.schemas[head], i.tenant, i.workspace, d)
    && b.forks[i.fork] ==
         if follows.None?
         then Fork(f.tenant, f.workspace, f.source, f.sourceSchema, f.sourceVersion, f.sourceName, head, true)
         else Fork(f.tenant, f.workspace, f.source, follows.value, a.schemas[follows.value].version, f.sourceName, head, false)
  }

  lemma {:induction false} LatestIsNewestActive(t: Tables, tenant: Tenant, workspace: Workspace, name: string)
    requires UniqueVersions(t.schemas)
    ensures forall s: Id :: IsNewestActive(t, s, tenant, workspace, name) <==> LatestSource(t.schemas, tenant, workspace, name) == Some(s)
  {
    forall s ensures IsNewestActive(t, s, tenant, workspace, name) <==> IsLatest(t.schemas, tenant, workspace, name, s) {
      if IsNewestActive(t, s, tenant, workspace, name) {
        forall o | o in t.schemas && t.schemas[o].tenant == tenant && t.schemas[o].workspace == workspace
                   && t.schemas[o].name == name && t.schemas[o].active
          ensures t.schemas[o].version <= t.schemas[s].version
        { assert IsNamed(t, o, workspace, name); }
      }
    }
  }

  lemma {:induction false} UpdateMayMeans(t: Tables, i: UpdateInput)
    requires UniqueVersions(t.schemas)
    ensures forall d, follows :: UpdateVerdict(t, i) == Ok((d, follows)) <==> MayUpdate(t, i, d, follows)
  {
    if i.fork in t.forks {
      var f := t.forks[i.fork];
      LatestIsNewestActive(t, i.tenant, f.source, f.sourceName);
      RoomIsFree(t, i.workspace, f.sourceName);
    }
  }

  lemma {:induction false} UpdatedMeans(t: Tables, i: UpdateInput, head: Id)
    requires UpdateVerdict(t, i).Ok?
    ensures var (d, follows) := UpdateVerdict(t, i).value;
            (follows.Some? ==> follows.value in t.schemas) && UpdatesFork(t, Updated(t, i, head), i, head, d, follows)
  {
    NextComesNext(t, i.workspace, UpdateVerdict(t, i).value.0.name);
  }

  // ---------------------------------------------------------------- the store

  class ForkStore {
    var home: map<Workspace, Tenant>
    var schemas: map<Id, Schema>
    var forks: map<Id, Fork>
    var heads: set<(Id, Id)>
    var used: set<(Workspace, Id)>
    ghost var minted: set<Id>

    ghost function View(): Tables
      reads this
    {
      Tables(home, schemas, forks, heads, used, minted)
    }

    constructor (home: map<Workspace, Tenant>)
      ensures View() == Tables(home, map[], map[], {}, {}, {})
    {
      this.home, schemas, forks, heads, used, minted := home, map[], map[], {}, {}, {};
    }

    /** One row of the result per fork row, in whatever order the table gives them. */
    method ForkEdges(tenant: Tenant, workspace: Workspace) returns (rows: seq<Workspace>)
      ensures ListsEdges(TenantEdges(forks, tenant), workspace, rows)
    {
      rows := [];
      var left := forks.Keys;
      while left != {}
        invariant left <= forks.Keys
        invariant forall b :: b in rows ==> (workspace, b) in TenantEdges(forks, tenant)
        invariant forall f :: f in forks.Keys - left && forks[f].tenant == tenant && forks[f].workspace == workspace
                    ==> forks[f].source in rows
        decreases left
      {
        var f :| f in left;
        if forks[f].tenant == tenant && forks[f].workspace == workspace { rows := rows + [forks[f].source]; }
        left := left - {f};
      }
    }

    /** The worklist search of `create`: terminates on every finite edge relation, cyclic ones included,
        and answers exactly whether `target` can be reached from `start`. */
    method FindsCycle(tenant: Tenant, start: Workspace, target: Workspace) returns (found: bool)
      ensures found <==> Reaches(TenantEdges(forks, tenant), start, target)
    {
      ghost var edges := TenantEdges(forks, tenant);
      ghost var universe := Endpoints(edges) + {start};
      var pending, visited: set<Workspace> := [start], {};
      ReachesSelf(edges, start);
      while pending != []
        invariant visited <= universe
        invariant forall w :: w in pending ==> w in universe && Reaches(edges, start, w)
        invariant start in visited || start in pending
        invariant target !in visited
        invariant Explored(edges, visited, pending)
        decreases universe - visited, |pending|
      {
        ghost var before := pending;
        var w := pending[|pending| - 1];
        pending := pending[..|pending| - 1];
        assert forall b :: b in before <==> b in pending || b == w;
        if w in visited { continue; }
        visited := visited + {w};
        assert w in universe;
        if w == target { return true; }
        var rows := ForkEdges(tenant, w);
        forall b | b in rows ensures b in universe && Reaches(edges, start, b) {
          assert (w, b) in edges;
          ReachesSelf(edges, b);
          ReachesByEdge(edges, w, b, b);
          ReachesTransitive(edges, start, w, b);
        }
        pending := pending + rows;
      }
      ExhaustedSearchMeansUnreachable(edges, visited, start, target);
      return false;
    }

    /** The version query: the newest stored version of the name, 0 without one, plus one. */
    method FindNextVersion(workspace: Workspace, name: string) returns (version: int)
      ensures version == NextVersion(schemas, workspace, name)
    {
      var versions := Versions(schemas, workspace, name);
      var newest, left := 0, versions;
      while left != {}
        invariant left <= versions
        invariant left == versions ==> newest == 0
        invariant left < versions ==> IsNewest(versions - left, newest)
        decreases left
      {
        var v :| v in left;
        ghost var seen := versions - left;
        if left == versions || v > newest { newest := v; }
        left := left - {v};
        assert versions - left == seen + {v};
      }
      assert versions - {} == versions;
      version := Successor(newest);
    }

    /** `insert_fork_head` up to its insert: the row for a definition, refused if it does not validate or its version is taken. */
    method PrepareHead(tenant: Tenant, workspace: Workspace, d: Definition) returns (r: Result<Schema>)
      ensures r == if !d.conforms then Err(Validation)
                   else if NextVersion(schemas, workspace, d.name) in Versions(schemas, workspace, d.name) then Err(Internal)
                   else Ok(HeadRow(View(), tenant, workspace, d))
    {
      if !d.conforms { return Err(Validation); }
      var version := FindNextVersion(workspace, d.name);
      if version in Versions(schemas, workspace, d.name) { return Err(Internal); }
      return Ok(Schema(tenant, workspace, d.name, version, d, false));
    }

    /** The newest active row of a name, found by comparing versions. */
    method FindLatestSource(tenant: Tenant, workspace: Workspace, name: string) returns (latest: Option<Id>)
      requires UniqueVersions(schemas)
      ensures latest == LatestSource(schemas, tenant, workspace, name)
    {
      var rows := set s | s in schemas && schemas[s].tenant == tenant && schemas[s].workspace == workspace
                          && schemas[s].name == name && schemas[s].active;
      latest := None;
      var left := rows;
      while left != {}
        invariant left <= rows
        invariant latest.None? ==> left == rows
        invariant latest.Some? ==> latest.value in rows - left
        invariant latest.Some? ==> forall s :: s in rows - left ==> schemas[s].version <= schemas[latest.value].version
        decreases left
      {
        var s :| s in left;
        if latest.None? || schemas[s].version > schemas[latest.value].version { latest := Some(s); }
        left := left - {s};
      }
      if latest.Some? {
        assert forall s :: s in rows ==> s in rows - left;
        assert IsLatest(schemas, tenant, workspace, name, latest.value);
      } else {
        assert rows == {};
        assert forall s :: IsLatest(schemas, tenant, workspace, name, s) ==> s in rows;
      }
    }

    /** Creates a fork with its first head, `head` and `fork` being the ids the database generates. */
    method Create(i: CreateInput, head: Id, fork: Id) returns (r: Result<()>)
      modifies this
      ensures r == CreateVerdict(old(View()), i)
      ensures View() == if r.Ok? then Created(old(View()), i, head, fork) else old(View())
      ensures r.Ok? <==> MayCreate(old(View()), i)
      ensures r.Ok? ==> CreatesFork(old(View()), View(), i, head, fork)
      ensures NamesActiveSource(old(View()), i) && Reaches(TenantEdges(old(forks), i.tenant), i.source, i.workspace)
              ==> r == Err(Conflict)
    {
      CreateMeans(View(), i, head, fork);
      if i.source == i.workspace { return Err(Validation); }
      if i.workspace !in home || home[i.workspace] != i.tenant { return Err(NotFound); }
      if i.sourceSchema !in schemas || schemas[i.sourceSchema].tenant != i.tenant
         || schemas[i.sourceSchema].workspace != i.source { return Err(NotFound); }
      var s := schemas[i.sourceSchema];
      if !s.active { return Err(Validation); }
      var cycle := FindsCycle(i.tenant, i.source, i.workspace);
      if cycle { return Err(Conflict); }
      var row := PrepareHead(i.tenant, i.workspace, s.definition);
      if row.Err? { return Err(row.error); }
      if i.source !in home || home[i.source] != i.tenant || s.definition.name != s.name || s.version <= 0 { return Err(Internal); }
      if HasForkOf(forks, i.workspace, i.source, s.name) { return Err(Conflict); }
      schemas := schemas[head := row.value];
      forks := forks[fork := Fork(i.tenant, i.workspace, i.source, i.sourceSchema, s.version, s.name, head, false)];
      heads := heads + {(fork, head)};
      minted := minted + {head, fork};
      return Ok(());
    }

    /** Resolves what an update installs. */
    method Resolve(i: UpdateInput) returns (r: Result<(Definition, Option<Id>)>)
      requires FindsFork(View(), i.tenant, i.workspace, i.fork) && UniqueVersions(schemas)
      ensures r == Installs(View(), i)
    {
      var f := forks[i.fork];
      if i.definition.Some? {
        var d := i.definition.value;
        if !d.conforms { return Err(Validation); }
        if d.name != f.sourceName { return Err(Validation); }
        return Ok((d, None));
      }
      if i.action != Some("follow") { return Err(Validation); }
      if f.customized && !i.force { return Err(Conflict); }
      var latest := FindLatestSource(i.tenant, f.source, f.sourceName);
      if latest.None? { return Err(NotFound); }
      if i.expectedSource.Some? && i.expectedSource != latest { return Err(Conflict); }
      return Ok((schemas[latest.value].definition, latest));
    }

    /** The tests of `update` and the head row it will insert. */
    method PlanUpdate(i: UpdateInput) returns (r: Result<((Definition, Option<Id>), Schema)>)
      requires UniqueVersions(schemas)
      ensures match UpdateVerdict(View(), i)
              case Err(error) => r == Err(error)
              case Ok(installs) => r == Ok((installs, HeadRow(View(), i.tenant, i.workspace, installs.0)))
    {
      if i.definition.Some? == i.action.Some? { return Err(Validation); }
      if !(i.fork in forks && forks[i.fork].tenant == i.tenant && forks[i.fork].workspace == i.workspace) { return Err(NotFound); }
      var f := forks[i.fork];
      if i.expectedHead.Some? && i.expectedHead.value != f.head { return Err(Conflict); }
      var installs := Resolve(i);
      if installs.Err? { return Err(installs.error); }
      var d, follows := installs.value.0, installs.value.1;
      var row := PrepareHead(i.tenant, i.workspace, d);
      if row.Err? { return Err(row.error); }
      if d.name != f.sourceName || (follows.Some? && schemas[follows.value].version <= 0) { return Err(Internal); }
      return Ok((installs.value, row.value));
    }

    /** Installs a new head: exactly for a definition or followed version that may be installed, and then as promised. The
        conditional write on the previous head always matches here, because nothing runs between the read and the write. */
    method Update(i: UpdateInput, head: Id) returns (r: Result<(Definition, Option<Id>)>)
      requires UniqueVersions(schemas)
      modifies this
      ensures r == UpdateVerdict(old(View()), i)
      ensures View() == if r.Ok? then Updated(old(View()), i, head) else old(View())
      ensures forall d, follows :: r == Ok((d, follows)) <==> MayUpdate(old(View()), i, d, follows)
      ensures r.Ok? ==> (r.value.1.Some? ==> r.value.1.value in old(schemas))
                        && UpdatesFork(old(View()), View(), i, head, r.value.0, r.value.1)
      ensures i.fork in old(forks) && old(forks)[i.fork].tenant == i.tenant && old(forks)[i.fork].workspace == i.workspace
              && (i.definition.Some? <==> i.action.None?) && i.expectedHead.Some? && i.expectedHead.value != old(forks)[i.fork].head
              ==> r == Err(Conflict)
    {
      UpdateMayMeans(View(), i);
      var plan := PlanUpdate(i);
      if plan.Err? { return Err(plan.error); }
      UpdatedMeans(View(), i, head);
      var follows, row := plan.value.0.1, plan.value.1;
      var f := forks[i.fork].(head := head, customized := follows.None?);
      if follows.Some? { f := f.(sourceSchema := follows.value, sourceVersion := schemas[follows.value].version); }
      schemas := schemas[head := row];
      forks := forks[i.fork := f];
      heads := heads + {(i.fork, head)};
      minted := minted + {head};
      return Ok(plan.value.0);
    }

    /** A fork is deleted exactly if the caller's workspace has it and no entity of the workspace uses any head it ever had.
        Only its row and its history go: no edge appears, so no cycle does, and every other fork keeps its history. */
    method Delete(tenant: Tenant, workspace: Workspace, fork: Id) returns (r: Result<()>)
      modifies this`forks, this`heads
      ensures r == DeleteVerdict(old(View()), tenant, workspace, fork)
      ensures View() == if r.Ok? then Deleted(old(View()), fork) else old(View())
      ensures r.Ok? <==> fork in old(forks) && old(forks)[fork].tenant == tenant && old(forks)[fork].workspace == workspace
                         && forall h :: (fork, h) in old(heads) ==> (workspace, h) !in used
      ensures r.Ok? ==> fork !in forks && forall h :: h in heads <==> h in old(heads) && h.0 != fork
      ensures r.Ok? ==> forall f :: f in forks <==> f in old(forks) && f != fork
      ensures forall f :: f in forks ==> f in old(forks) && forks[f] == old(forks)[f]
      ensures r.Err? ==> forks == old(forks) && heads == old(heads)
      ensures r.Err? && fork in old(forks) && old(forks)[fork].workspace == workspace && old(forks)[fork].tenant == tenant
              ==> r.error == Conflict
      ensures AllEdges(forks) <= AllEdges(old(forks))
      ensures Acyclic(AllEdges(old(forks))) ==> Acyclic(AllEdges(forks))
    {
      RemovingForksKeepsAcyclic(forks, fork);
      if !(fork in forks && forks[fork].tenant == tenant && forks[fork].workspace == workspace) { return Err(NotFound); }
      var headIds := HistoryOf(heads, fork);
      if exists u :: u in used && u.0 == workspace && u.1 in headIds { return Err(Conflict); }
      forks := forks - {fork};
      heads := set h | h in heads && h.0 != fork;
      return Ok(());
    }
  }
}
