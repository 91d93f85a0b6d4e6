/** `create` as an interleaved transaction: begin, lock, one step per visited workspace, insert and commit.

    On PostgreSQL every read sees the latest committed rows and the advisory lock excludes other creates until commit.
    On SQLite the lock does nothing, reads come from the transaction's snapshot, and a write transaction commits
    only if nothing was committed since that snapshot (src/db.rs, `lock_for_update` and `begin_write`).
    Updates and deletes of forks commit at any time, between any two steps. */
module ForkProtocol {
  import opened Common
  import opened ForkGraph
  import opened SchemaForks
  import opened ForkHistory

  datatype Txn = Txn(tenant: Tenant, target: Workspace, source: Workspace, locked: bool,
                     pending: seq<Workspace>, visited: set<Workspace>, snapshot: map<Id, Fork>, began: nat)

  datatype World = World(backend: Backend, home: map<Workspace, Tenant>, forks: map<Id, Fork>,
                         commits: nat, holder: Option<Id>, txns: map<Id, Txn>)

  datatype Event =
    | Begin(x: Id, tenant: Tenant, target: Workspace, source: Workspace)
    | Lock(x: Id)
    | Visit(x: Id, rows: seq<Workspace>)
    | Insert(x: Id, fork: Id, row: Fork)
    | Abort(x: Id)
    | Rewrite(fork: Id, row: Fork)
    | Remove(fork: Id)

  /** The fork rows a transaction reads. */
  function Sees(w: World, x: Id): map<Id, Fork>
    requires x in w.txns
  {
    if w.backend.Postgres? then w.forks else w.txns[x].snapshot
  }

  predicate SameEdge(a: Fork, b: Fork)
  {
    a.tenant == b.tenant && a.workspace == b.workspace && a.source == b.source
  }

  /** The workspace the next iteration pops. */
  function Popped(t: Txn): Workspace
    requires t.pending != []
  {
    t.pending[|t.pending| - 1]
  }

  /** The next step of a transaction, as its own code allows it. */
  predicate Possible(w: World, e: Event)
  {
    match e
    case Begin(x, tenant, target, source) =>
      && x !in w.txns && source != target
      && target in w.home && w.home[target] == tenant && source in w.home && w.home[source] == tenant
    case Lock(x) => x in w.txns && !w.txns[x].locked
    case Visit(x, rows) =>
      && x in w.txns && w.txns[x].locked && w.txns[x].pending != []
      && ListsEdges(TenantEdges(Sees(w, x), w.txns[x].tenant), Popped(w.txns[x]), rows)
    case Insert(x, fork, row) =>
      && x in w.txns && w.txns[x].locked && w.txns[x].pending == [] && fork !in w.forks
      && row.tenant == w.txns[x].tenant && row.workspace == w.txns[x].target && row.source == w.txns[x].source
    case Abort(x) => x in w.txns
    case Rewrite(fork, row) => fork in w.forks && SameEdge(row, w.forks[fork])
    case Remove(fork) => fork in w.forks
  }

  /** The database lets the step happen: PostgreSQL gives a lock to one transaction at a time, and SQLite refuses the
      commit of a write that started from an old snapshot. */
  predicate Guarded(w: World, e: Event)
    requires Possible(w, e)
  {
    match e
    case Lock(x) => w.backend.Postgres? ==> w.holder.None?
    case Insert(x, _, _) => w.backend.Sqlite? ==> w.commits == w.txns[x].began
    case _ => true
  }

  predicate Enabled(w: World, e: Event)
  {
    Possible(w, e) && Guarded(w, e)
  }

  /** Ending a transaction releases its lock. */
  function Ended(w: World, x: Id): World
  {
    w.(txns := w.txns - {x}, holder := if w.holder == Some(x) then None else w.holder)
  }

  function Step(w: World, e: Event): World
    requires Possible(w, e)
  {
    match e
    case Begin(x, tenant, target, source) =>
      w.(txns := w.txns[x := Txn(tenant, target, source, false, [source], {}, w.forks, w.commits)])
    case Lock(x) =>
      w.(txns := w.txns[x := w.txns[x].(locked := true)],
         holder := if w.backend.Postgres? then Some(x) else w.holder)
    case Visit(x, rows) =>
      var t := w.txns[x];
      var rest := t.pending[..|t.pending| - 1];
      if Popped(t) in t.visited then w.(txns := w.txns[x := t.(pending := rest)])
      else if Popped(t) == t.target then Ended(w, x)
      else w.(txns := w.txns[x := t.(visited := t.visited + {Popped(t)}, pending := rest + rows)])
    case Insert(x, fork, row) => Ended(w.(forks := w.forks[fork := row], commits := w.commits + 1), x)
    case Abort(x) => Ended(w, x)
    case Rewrite(fork, row) => w.(forks := w.forks[fork := row], commits := w.commits + 1)
    case Remove(fork) => w.(forks := w.forks - {fork}, commits := w.commits + 1)
  }

  // ---------------------------------------------------------------- the invariant

  function AsTables(w: World): Tables
  {
    Tables(w.home, map[], w.forks, {}, {}, {})
  }

  ghost predicate Searching(edges: set<Edge>, t: Txn)
  {
    && t.target !in t.visited
    && (t.source in t.visited || t.source in t.pending)
    && Explored(edges, t.visited, t.pending)
  }

  ghost predicate TxnInv(w: World, x: Id)
    requires x in w.txns
  {
    var t := w.txns[x];
    && t.source != t.target
    && t.target in w.home && w.home[t.target] == t.tenant && t.source in w.home && w.home[t.source] == t.tenant
    && Searching(TenantEdges(Sees(w, x), t.tenant), t)
    && (w.backend.Postgres? ==> (t.locked <==> w.holder == Some(x)))
    && (!t.locked ==> t.visited == {})
    && t.began <= w.commits && (t.began == w.commits ==> t.snapshot == w.forks)
  }

  ghost predicate WorldInv(w: World)
  {
    && Homed(AsTables(w)) && Acyclic(AllEdges(w.forks))
    && (w.holder.Some? ==> w.holder.value in w.txns)
    && forall x :: x in w.txns ==> TxnInv(w, x)
  }

  lemma {:induction false} FewerEdgesKeepSearching(more: map<Id, Fork>, fewer: map<Id, Fork>, t: Txn)
    requires Searching(TenantEdges(more, t.tenant), t)
    requires forall f :: f in fewer ==> f in more && SameEdge(fewer[f], more[f])
    ensures Searching(TenantEdges(fewer, t.tenant), t)
  {
    assert TenantEdges(fewer, t.tenant) <= TenantEdges(more, t.tenant) by {
      forall e | e in TenantEdges(fewer, t.tenant) ensures e in TenantEdges(more, t.tenant) {
        var f :| f in fewer && fewer[f].tenant == t.tenant && e == (fewer[f].workspace, fewer[f].source);
        assert f in more;
      }
    }
  }

  /** One iteration of the search keeps what has been learnt about the graph. */
  lemma {:induction false} VisitKeepsSearching(edges: set<Edge>, t: Txn, rows: seq<Workspace>)
    requires Searching(edges, t) && t.pending != [] && ListsEdges(edges, Popped(t), rows)
    ensures var rest := t.pending[..|t.pending| - 1];
            && (Popped(t) in t.visited ==> Searching(edges, t.(pending := rest)))
            && (Popped(t) !in t.visited && Popped(t) != t.target ==>
                  Searching(edges, t.(visited := t.visited + {Popped(t)}, pending := rest + rows)))
  {
    var rest := t.pending[..|t.pending| - 1];
    assert forall b :: b in t.pending <==> b in rest || b == Popped(t);
  }

  /** A committed change that removes edges or leaves them where they are. */
  lemma {:induction false} ShrinkingKeepsInv(w: World, e: Event)
    requires WorldInv(w) && Enabled(w, e) && (e.Rewrite? || e.Remove?)
    ensures WorldInv(Step(w, e))
  {
    var w' := Step(w, e);
    forall f | f in w'.forks ensures f in w.forks && SameEdge(w'.forks[f], w.forks[f]) { }
    assert AllEdges(w'.forks) <= AllEdges(w.forks) by {
      forall d | d in AllEdges(w'.forks) ensures d in AllEdges(w.forks) {
        var f :| f in w'.forks && d == (w'.forks[f].workspace, w'.forks[f].source);
        assert f in w.forks;
      }
    }
    RemovingEdgesKeepsAcyclic(AllEdges(w'.forks), AllEdges(w.forks));
    forall x | x in w'.txns ensures TxnInv(w', x) {
      assert TxnInv(w, x);
      if w.backend.Postgres? { FewerEdgesKeepSearching(w.forks, w'.forks, w.txns[x]); }
    }
  }

  /** The commit of a create: the search it finished still speaks about the rows that are there now. */
  lemma {:induction false} InsertKeepsAcyclic(w: World, x: Id, fork: Id, row: Fork)
    requires WorldInv(w) && Enabled(w, Insert(x, fork, row))
    ensures Acyclic(AllEdges(w.forks[fork := row]))
  {
    var t := w.txns[x];
    assert TxnInv(w, x);
    assert Sees(w, x) == w.forks;
    ExhaustedSearchMeansUnreachable(TenantEdges(w.forks, t.tenant), t.visited, t.source, t.target);
    if Reaches(AllEdges(w.forks), t.source, t.target) {
      var p :| PathBetween(AllEdges(w.forks), p, t.source, t.target);
      PathsStayInTheirTenant(AsTables(w), t.tenant, p, t.source, t.target);
      assert false;
    }
    AddingEdgeKeepsAcyclic(AllEdges(w.forks), t.target, t.source);
    var forks := w.forks[fork := row];
    assert AllEdges(forks) == AllEdges(w.forks) + {(t.target, t.source)} by {
      assert fork in forks;
      forall d | d in AllEdges(w.forks) ensures d in AllEdges(forks) {
        var f :| f in w.forks && d == (w.forks[f].workspace, w.forks[f].source);
        assert f in forks && forks[f] == w.forks[f];
      }
    }
  }

  lemma {:induction false} InsertKeepsInv(w: World, x: Id, fork: Id, row: Fork)
    requires WorldInv(w) && Enabled(w, Insert(x, fork, row))
    ensures WorldInv(Step(w, Insert(x, fork, row)))
  {
    InsertKeepsAcyclic(w, x, fork, row);
    var w' := Step(w, Insert(x, fork, row));
    assert TxnInv(w, x);
    forall y | y in w'.txns ensures TxnInv(w', y) {
      assert TxnInv(w, y);
      if w.backend.Postgres? {
        // Only the lock holder can insert, so every other transaction has not started to read.
        assert !w.txns[y].locked;
      }
    }
  }

  /** Steps that change no fork row. */
  lemma {:induction false} LocalStepKeepsInv(w: World, e: Event)
    requires WorldInv(w) && Enabled(w, e) && (e.Begin? || e.Lock? || e.Visit? || e.Abort?)
    ensures WorldInv(Step(w, e))
  {
    var w' := Step(w, e);
    if e.Visit? {
      assert TxnInv(w, e.x);
      VisitKeepsSearching(TenantEdges(Sees(w, e.x), w.txns[e.x].tenant), w.txns[e.x], e.rows);
    }
    forall y | y in w'.txns ensures TxnInv(w', y) {
      if y in w.txns { assert TxnInv(w, y); }
    }
  }

  lemma {:induction false} EveryStepKeepsInv(w: World, e: Event)
    requires WorldInv(w) && Enabled(w, e)
    ensures WorldInv(Step(w, e))
  {
    if e.Insert? { InsertKeepsInv(w, e.x, e.fork, e.row); }
    else if e.Rewrite? || e.Remove? { ShrinkingKeepsInv(w, e); }
    else { LocalStepKeepsInv(w, e); }
  }

  // ---------------------------------------------------------------- whole runs

  /** A run: worlds linked by enabled events. */
  ghost predicate IsRun(ws: seq<World>, es: seq<Event>)
  {
    && |ws| == |es| + 1
    && forall k :: 0 <= k < |es| ==> Enabled(ws[k], es[k]) && ws[k + 1] == Step(ws[k], es[k])
  }

  /** Whatever creates, updates and deletes interleave, on either backend, no reachable state has a workspace cycle. */
  lemma {:induction false} EveryInterleavingIsAcyclic(ws: seq<World>, es: seq<Event>, k: nat)
    requires IsRun(ws, es) && k < |ws|
    requires ws[0].txns == map[] && ws[0].holder.None?
    requires Homed(AsTables(ws[0])) && Acyclic(AllEdges(ws[0].forks))
    ensures WorldInv(ws[k]) && Acyclic(AllEdges(ws[k].forks))
    decreases k
  {
    if k > 0 {
      EveryInterleavingIsAcyclic(ws, es, k - 1);
      assert Enabled(ws[k - 1], es[k - 1]);
      EveryStepKeepsInv(ws[k - 1], es[k - 1]);
    }
  }

  // ---------------------------------------------------------------- what the guards are for

  /** A run of possible steps, whether or not the database would let them happen. */
  ghost predicate UnguardedRun(w: World, es: seq<Event>)
    decreases |es|
  {
    es == [] || (Possible(w, es[0]) && UnguardedRun(Step(w, es[0]), es[1..]))
  }

  ghost function UnguardedEnd(w: World, es: seq<Event>): World
    requires UnguardedRun(w, es)
    decreases |es|
  {
    if es == [] then w else UnguardedEnd(Step(w, es[0]), es[1..])
  }

  function Opposite(workspace: Workspace, source: Workspace): Fork
  {
    Fork(7, workspace, source, 10, 1, "s", 11, false)
  }

  /** Two transactions create opposite edges between workspaces 1 and 2; each searches before the other inserts. */
  function OppositeCreates(): seq<Event>
  {
    [Begin(31, 7, 1, 2), Begin(32, 7, 2, 1), Lock(31), Lock(32), Visit(31, []), Visit(32, []),
     Insert(31, 41, Opposite(1, 2)), Insert(32, 42, Opposite(2, 1))]
  }

  function OpenTxn(target: Workspace, source: Workspace, locked: bool, searched: bool): Txn
  {
    Txn(7, target, source, locked, if searched then [] else [source], if searched then {source} else {}, map[], 0)
  }

  /** The world before step `k` of the two creates. */
  function OppositeStage(backend: Backend, k: nat): World
  {
    var txns :=
      if k == 0 then map[]
      else if k == 1 then map[31 := OpenTxn(1, 2, false, false)]
      else if k <= 6 then map[31 := OpenTxn(1, 2, k >= 3, k >= 5), 32 := OpenTxn(2, 1, k >= 4, k >= 6)]
      else if k == 7 then map[32 := OpenTxn(2, 1, true, true)]
      else map[];
    var holder := if backend.Sqlite? then None else if k == 3 then Some(31) else if 4 <= k <= 7 then Some(32) else None;
    var forks :=
      if k <= 6 then map[] else if k == 7 then map[41 := Opposite(1, 2)] else map[41 := Opposite(1, 2), 42 := Opposite(2, 1)];
    World(backend, map[1 := 7, 2 := 7], forks, if k <= 6 then 0 else k - 6, holder, txns)
  }

  /** A search that finds no edge ends after one visit. */
  lemma {:induction false} EmptySearchEnds(w: World, x: Id, target: Workspace, source: Workspace)
    requires x in w.txns && w.txns[x] == OpenTxn(target, source, true, false) && source != target && w.forks == map[]
    ensures Possible(w, Visit(x, []))
    ensures Step(w, Visit(x, [])) == w.(txns := w.txns[x := OpenTxn(target, source, true, true)])
  {
    assert TenantEdges(Sees(w, x), 7) == {};
    var none: seq<Workspace> := [];
    assert [source][..0] + none == [] && {} + {source} == {source};
  }

  lemma {:induction false} SearchStages(backend: Backend, k: nat)
    requires 4 <= k <= 5
    ensures Possible(OppositeStage(backend, k), OppositeCreates()[k])
    ensures Step(OppositeStage(backend, k), OppositeCreates()[k]) == OppositeStage(backend, k + 1)
  {
    if k == 4 { EmptySearchEnds(OppositeStage(backend, k), 31, 1, 2); } else { EmptySearchEnds(OppositeStage(backend, k), 32, 2, 1); }
  }

  lemma {:induction false} OneOppositeStage(backend: Backend, k: nat)
    requires k < 8
    ensures Possible(OppositeStage(backend, k), OppositeCreates()[k])
    ensures Step(OppositeStage(backend, k), OppositeCreates()[k]) == OppositeStage(backend, k + 1)
  {
    if 4 <= k <= 5 { SearchStages(backend, k); }
  }

  lemma {:induction false} OppositeStagesAreARun(backend: Backend, k: nat)
    requires k <= 8
    ensures UnguardedRun(OppositeStage(backend, k), OppositeCreates()[k..])
    ensures UnguardedEnd(OppositeStage(backend, k), OppositeCreates()[k..]) == OppositeStage(backend, 8)
    decreases 8 - k
  {
    if k < 8 {
      OneOppositeStage(backend, k);
      OppositeStagesAreARun(backend, k + 1);
      assert OppositeCreates()[k..][0] == OppositeCreates()[k] && OppositeCreates()[k..][1..] == OppositeCreates()[k + 1..];
    }
  }

  lemma {:induction false} OppositeEdgesAreACycle()
    ensures !Acyclic(AllEdges(map[41 := Opposite(1, 2), 42 := Opposite(2, 1)]))
  {
    var forks := map[41 := Opposite(1, 2), 42 := Opposite(2, 1)];
    var edges := AllEdges(forks);
    assert 41 in forks && (1, 2) in edges && 42 in forks && (2, 1) in edges;
    ReachesSelf(edges, 1);
    ReachesByEdge(edges, 2, 1, 1);
  }

  lemma {:induction false} LastStageIsACycle(backend: Backend, w: World)
    requires w == OppositeStage(backend, 8)
    ensures !Acyclic(AllEdges(w.forks))
  {
    OppositeEdgesAreACycle();
  }

  /** Without the guards two interleaved creates both pass their search and close a cycle. */
  lemma {:induction false} UnguardedCreatesCloseACycle(backend: Backend)
    ensures UnguardedRun(OppositeStage(backend, 0), OppositeCreates()) && OppositeStage(backend, 0).forks == map[]
    ensures !Acyclic(AllEdges(UnguardedEnd(OppositeStage(backend, 0), OppositeCreates()).forks))
  {
    OppositeStagesAreARun(backend, 0);
    assert OppositeCreates()[0..] == OppositeCreates();
    LastStageIsACycle(backend, UnguardedEnd(OppositeStage(backend, 0), OppositeCreates()));
  }

  /** With the guards one of the two is refused: PostgreSQL does not give it the lock, SQLite refuses its commit. */
  lemma {:induction false} GuardsRefuseOneCreate(backend: Backend)
    ensures backend.Postgres? ==> !Enabled(OppositeStage(backend, 3), OppositeCreates()[3])
    ensures backend.Sqlite? ==> !Enabled(OppositeStage(backend, 7), OppositeCreates()[7])
  {
  }
}
