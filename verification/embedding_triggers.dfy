/** The triggers that keep derived tables in step with the entities: the SQLite full-text mirror of
    migration/src/m20261020_000008_create_entities.rs and the embedding revisions of
    migration/src/m20261020_000027_create_entity_embeddings.rs, written once per backend. */
module EmbeddingTriggers {
  import opened Common

  type Workspace = Id

  /** An entity row; `rest` stands for the columns no embedding depends on. */
  datatype Row = Row(workspace: Workspace, data: string, schema: Id, entityType: string, rest: int)

  datatype Column = WorkspaceId | Data | SchemaId | EntityType | Rest

  datatype Revision = Revision(content: nat, provider: nat, reindexing: bool)

  datatype Tables = Tables(entities: map<Id, Row>, keys: map<Workspace, string>, revisions: map<Workspace, Revision>)

  /** A write of one row. `columns` are those named in the SET list of an update. */
  datatype Write =
    | Insert(id: Id, row: Row)
    | Update(id: Id, row: Row, columns: set<Column>)
    | Delete(id: Id)
    | AddKey(ws: Workspace, key: string)
    | ChangeKey(ws: Workspace, to: Workspace, key: string)
    | DropKey(ws: Workspace)

  /** An update changes no column that it does not set. */
  predicate OnlySets(a: Row, b: Row, columns: set<Column>)
  {
    && (a.workspace != b.workspace ==> WorkspaceId in columns) && (a.data != b.data ==> Data in columns)
    && (a.schema != b.schema ==> SchemaId in columns) && (a.entityType != b.entityType ==> EntityType in columns)
    && (a.rest != b.rest ==> Rest in columns)
  }

  predicate Applicable(t: Tables, w: Write)
  {
    match w
    case Insert(id, _) => id !in t.entities
    case Update(id, row, columns) => id in t.entities && OnlySets(t.entities[id], row, columns)
    case Delete(id) => id in t.entities
    case AddKey(ws, _) => ws !in t.keys
    case ChangeKey(ws, to, _) => ws in t.keys && (to == ws || to !in t.keys)
    case DropKey(ws) => ws in t.keys
  }

  // ---------------------------------------------------------------- what the triggers are for

  /** The columns whose assignment fires the content triggers. */
  predicate Relevant(columns: set<Column>)
  {
    Data in columns || SchemaId in columns || EntityType in columns || WorkspaceId in columns
  }

  /** The workspaces whose content a write concerns: a move concerns both. */
  function ContentOf(t: Tables, w: Write): set<Workspace>
    requires Applicable(t, w)
  {
    match w
    case Insert(_, row) => {row.workspace}
    case Update(id, row, columns) => if Relevant(columns) then {t.entities[id].workspace, row.workspace} else {}
    case Delete(id) => {t.entities[id].workspace}
    case _ => {}
  }

  /** The workspace whose provider revision a write raises; of a moved key only the new one. */
  function ProviderOf(w: Write): set<Workspace>
  {
    match w
    case AddKey(ws, _) => {ws}
    case ChangeKey(_, to, _) => {to}
    case DropKey(ws) => {ws}
    case _ => {}
  }

  function Raised(revisions: map<Workspace, Revision>, content: set<Workspace>, provider: set<Workspace>): map<Workspace,
                  Revision>
  {
    map ws | ws in revisions ::
      Revision(revisions[ws].content + (if ws in content then 1 else 0),
               revisions[ws].provider + (if ws in provider then 1 else 0),
               revisions[ws].reindexing || ws in provider)
  }

  /** One write with the triggers it fires, whichever backend runs it. */
  function Step(t: Tables, w: Write): Tables
    requires Applicable(t, w)
  {
    Tables(match w
           case Insert(id, row) => t.entities[id := row]
           case Update(id, row, _) => t.entities[id := row]
           case Delete(id) => t.entities - {id}
           case _ => t.entities,
           match w
           case AddKey(ws, key) => t.keys[ws := key]
           case ChangeKey(ws, to, key) => (t.keys - {ws})[to := key]
           case DropKey(ws) => t.keys - {ws}
           case _ => t.keys,
           Raised(t.revisions, ContentOf(t, w), ProviderOf(w)))
  }

  // ---------------------------------------------------------------- the full-text mirror

  type Index = seq<(Id, string)>

  /** `DELETE FROM entity_fts WHERE entity_id = id`. */
  function Purged(fts: Index, id: Id): Index
    decreases |fts|
  {
    if fts == [] then []
    else
      var init, last := fts[..|fts| - 1], fts[|fts| - 1];
      Purged(init, id) + if last.0 == id then [] else [last]
  }

  /** The index holds each entity's id and data exactly once, and nothing else. */
  ghost predicate Mirrors(fts: Index, entities: map<Id, Row>)
  {
    forall p :: multiset(fts)[p] == if p.0 in entities && entities[p.0].data == p.1 then 1 else 0
  }

  lemma {:induction false} PurgedCounts(fts: Index, id: Id)
    ensures forall p :: multiset(Purged(fts, id))[p] == if p.0 == id then 0 else multiset(fts)[p]
    decreases |fts|
  {
    if fts != [] {
      var init, last := fts[..|fts| - 1], fts[|fts| - 1];
      PurgedCounts(init, id);
      assert fts == init + [last];
    }
  }

  /** The update trigger deletes the old row and inserts the new one. */
  lemma {:induction false} ReplacedMirrors(fts: Index, entities: map<Id, Row>, id: Id, row: Row)
    requires Mirrors(fts, entities)
    ensures Mirrors(Purged(fts, id) + [(id, row.data)], entities[id := row])
  {
    PurgedCounts(fts, id);
  }

  /** What the insert, delete and update-of-data triggers make of the index. */
  function Indexed(fts: Index, w: Write): Index
  {
    match w
    case Insert(id, row) => fts + [(id, row.data)]
    case Update(id, row, columns) => if Data in columns then Purged(fts, id) + [(id, row.data)] else fts
    case Delete(id) => Purged(fts, id)
    case _ => fts
  }

  lemma {:induction false} InsertedMirrors(fts: Index, entities: map<Id, Row>, id: Id, row: Row)
    requires Mirrors(fts, entities) && id !in entities
    ensures Mirrors(fts + [(id, row.data)], entities[id := row])
  {
  }

  lemma {:induction false} DeletedMirrors(fts: Index, entities: map<Id, Row>, id: Id)
    requires Mirrors(fts, entities)
    ensures Mirrors(Purged(fts, id), entities - {id})
  {
    PurgedCounts(fts, id);
  }

  lemma {:induction false} SameDataMirrors(fts: Index, entities: map<Id, Row>, id: Id, row: Row)
    requires Mirrors(fts, entities) && id in entities && entities[id].data == row.data
    ensures Mirrors(fts, entities[id := row])
  {
  }

  lemma {:induction false} StepMirrors(fts: Index, t: Tables, w: Write)
    requires Applicable(t, w) && Mirrors(fts, t.entities)
    ensures Mirrors(Indexed(fts, w), Step(t, w).entities)
  {
    match w
    case Insert(id, row) => InsertedMirrors(fts, t.entities, id, row);
    case Update(id, row, columns) =>
      if Data in columns { ReplacedMirrors(fts, t.entities, id, row); } else { SameDataMirrors(fts, t.entities, id, row); }
    case Delete(id) => DeletedMirrors(fts, t.entities, id);
    case _ =>
  }

  /** The entities after an update that may also change the id. */
  function Renamed(entities: map<Id, Row>, before: Id, after: Id, data: string): map<Id, Row>
    requires before in entities
  {
    (entities - {before})[after := entities[before].(data := data)]
  }

  lemma {:induction false} RenameWithDataMirrors(fts: Index, entities: map<Id, Row>, before: Id, after: Id, data: string)
    requires Mirrors(fts, entities) && before in entities && (after == before || after !in entities)
    ensures Mirrors(Purged(fts, before) + [(after, data)], Renamed(entities, before, after, data))
  {
    PurgedCounts(fts, before);
    var fts', entities' := Purged(fts, before) + [(after, data)], Renamed(entities, before, after, data);
    forall p: (Id, string) ensures multiset(fts')[p] == if p.0 in entities' && entities'[p.0].data == p.1 then 1 else 0 {
      assert multiset(fts)[p] == if p.0 in entities && entities[p.0].data == p.1 then 1 else 0;
    }
  }

  /** An update that also changed the id would keep the mirror exactly if it sets the data column, or changes no id. */
  lemma {:induction false} IdChangeKeepsMirrorExactlyWhen(fts: Index, entities: map<Id, Row>, before: Id, after: Id,
                                                          data: string, setsData: bool)
    requires Mirrors(fts, entities) && before in entities && (after == before || after !in entities)
    requires !setsData ==> data == entities[before].data
    ensures Mirrors(if setsData then Purged(fts, before) + [(after, data)] else fts, Renamed(entities, before, after, data))
            <==> setsData || after == before
  {
    if setsData {
      RenameWithDataMirrors(fts, entities, before, after, data);
    } else if after == before {
      assert Renamed(entities, before, after, data) == entities;
    } else {
      assert multiset(fts)[(before, data)] == 1 && before !in Renamed(entities, before, after, data);
    }
  }

  /** The content revisions of these workspaces, and nothing else about the revisions, have risen by one. */
  ghost predicate RaisesContent(a: Tables, b: Tables, workspaces: set<Workspace>)
  {
    && (forall ws :: ws in b.revisions <==> ws in a.revisions)
    && forall ws :: ws in a.revisions ==>
         && b.revisions[ws].content == a.revisions[ws].content + (if ws in workspaces then 1 else 0)
         && b.revisions[ws].provider == a.revisions[ws].provider && b.revisions[ws].reindexing == a.revisions[ws].reindexing
  }

  /** The provider revision of the workspace has risen by one and it is marked for reindexing; nothing else about the
      revisions has changed. */
  ghost predicate RaisesProvider(a: Tables, b: Tables, changed: Workspace)
  {
    && (forall ws :: ws in b.revisions <==> ws in a.revisions)
    && forall ws :: ws in a.revisions ==>
         && b.revisions[ws].content == a.revisions[ws].content
         && b.revisions[ws].provider == a.revisions[ws].provider + (if ws == changed then 1 else 0)
         && b.revisions[ws].reindexing == (a.revisions[ws].reindexing || ws == changed)
  }

  // ---------------------------------------------------------------- the two implementations

  datatype Operation = OnInsert | OnUpdate | OnDelete

  class Database {
    const backend: Backend
    var tables: Tables
    var fts: Index

    constructor (backend: Backend, t: Tables, index: Index)
      ensures this.backend == backend && tables == t && fts == index
    {
      this.backend := backend;
      tables, fts := t, index;
    }

    /** `UPDATE workspace_workspaces SET embedding_content_revision = embedding_content_revision + 1 WHERE id = ws`. */
    method BumpContent(ws: Workspace)
      modifies this`tables
      ensures tables == old(tables).(revisions := Raised(old(tables).revisions, {ws}, {}))
    {
      if ws in tables.revisions {
        var r := tables.revisions[ws];
        tables := tables.(revisions := tables.revisions[ws := r.(content := r.content + 1)]);
      }
      assert tables.revisions == Raised(old(tables).revisions, {ws}, {});
    }

    method BumpProvider(ws: Workspace)
      modifies this`tables
      ensures tables == old(tables).(revisions := Raised(old(tables).revisions, {}, {ws}))
    {
      if ws in tables.revisions {
        var r := tables.revisions[ws];
        tables := tables.(revisions := tables.revisions[ws := r.(provider := r.provider + 1, reindexing := true)]);
      }
      assert tables.revisions == Raised(old(tables).revisions, {}, {ws});
    }

    /** `touch_workspace_embedding_revision` on PostgreSQL for an entity row. */
    method TouchEntity(op: Operation, before: Workspace, after: Workspace)
      modifies this`tables
      ensures tables == old(tables).(revisions :=
                Raised(old(tables).revisions,
                       if op.OnDelete? then {before} else if op.OnInsert? then {after} else {before, after}, {}))
    {
      var start := tables.revisions;
      if op.OnUpdate? && before != after { BumpContent(before); }
      if op.OnDelete? { BumpContent(before); } else { BumpContent(after); }
      assert tables.revisions
          == Raised(start, if op.OnDelete? then {before} else if op.OnInsert? then {after} else {before, after}, {});
    }

    /** The triggers on SQLite for an entity row: one per operation, and one for moves. */
    method FireEntity(op: Operation, before: Workspace, after: Workspace, setsWorkspace: bool)
      requires op.OnUpdate? && before != after ==> setsWorkspace
      modifies this`tables
      ensures tables == old(tables).(revisions :=
                Raised(old(tables).revisions,
                       if op.OnDelete? then {before} else if op.OnInsert? then {after} else {before, after}, {}))
    {
      var start := tables.revisions;
      match op {
        case OnInsert => BumpContent(after);
        case OnUpdate => BumpContent(after);
        case OnDelete => BumpContent(before);
      }
      if op.OnUpdate? && setsWorkspace && before != after { BumpContent(before); }
      assert tables.revisions
          == Raised(start, if op.OnDelete? then {before} else if op.OnInsert? then {after} else {before, after}, {});
    }

    method EntityTriggers(op: Operation, before: Workspace, after: Workspace, columns: set<Column>)
      requires op.OnUpdate? ==> Relevant(columns) && (before != after ==> WorkspaceId in columns)
      modifies this`tables
      ensures tables == old(tables).(revisions :=
                Raised(old(tables).revisions,
                       if op.OnDelete? then {before} else if op.OnInsert? then {after} else {before, after}, {}))
    {
      if backend.Postgres? { TouchEntity(op, before, after); } else { FireEntity(op, before, after, WorkspaceId in columns); }
    }

    /** Inserting an entity, with its triggers. */
    method InsertEntity(id: Id, row: Row)
      requires Applicable(tables, Insert(id, row))
      modifies this
      ensures tables == Step(old(tables), Insert(id, row))
      ensures fts == if backend.Sqlite? then Indexed(old(fts), Insert(id, row)) else old(fts)
      ensures RaisesContent(old(tables), tables, {row.workspace})
      ensures tables.entities == old(tables).entities[id := row] && tables.keys == old(tables).keys
    {
      EntityTriggers(OnInsert, row.workspace, row.workspace, {});
      tables := tables.(entities := tables.entities[id := row]);
      if backend.Sqlite? { fts := fts + [(id, row.data)]; }
    }

    /** Updating an entity whose id stays. */
    method UpdateEntity(id: Id, row: Row, columns: set<Column>)
      requires Applicable(tables, Update(id, row, columns))
      modifies this
      ensures tables == Step(old(tables), Update(id, row, columns))
      ensures fts == if backend.Sqlite? then Indexed(old(fts), Update(id, row, columns)) else old(fts)
      ensures RaisesContent(old(tables), tables,
                            if Data in columns || SchemaId in columns || EntityType in columns || WorkspaceId in columns
                            then {old(tables).entities[id].workspace, row.workspace} else {})
      ensures tables.entities == old(tables).entities[id := row] && tables.keys == old(tables).keys
    {
      if Relevant(columns) {
        EntityTriggers(OnUpdate, tables.entities[id].workspace, row.workspace, columns);
      } else {
        assert tables.revisions == Raised(tables.revisions, {}, {});
      }
      tables := tables.(entities := tables.entities[id := row]);
      if backend.Sqlite? && Data in columns {
        fts := Purged(fts, id) + [(id, row.data)];
      }
    }

    method DeleteEntity(id: Id)
      requires Applicable(tables, Delete(id))
      modifies this
      ensures tables == Step(old(tables), Delete(id))
      ensures fts == if backend.Sqlite? then Indexed(old(fts), Delete(id)) else old(fts)
      ensures RaisesContent(old(tables), tables, {old(tables).entities[id].workspace})
      ensures tables.entities == old(tables).entities - {id} && tables.keys == old(tables).keys
    {
      EntityTriggers(OnDelete, tables.entities[id].workspace, tables.entities[id].workspace, {});
      tables := tables.(entities := tables.entities - {id});
      if backend.Sqlite? { fts := Purged(fts, id); }
    }

    /** Writing a provider key; both backends look at the new row, or at the old one of a delete. */
    method WriteKey(w: Write)
      requires Applicable(tables, w) && (w.AddKey? || w.ChangeKey? || w.DropKey?)
      modifies this
      ensures tables == Step(old(tables), w) && fts == old(fts)
      ensures RaisesProvider(old(tables), tables, match w case AddKey(ws, _) => ws case ChangeKey(_, to, _) => to case DropKey(ws) => ws)
      ensures tables.entities == old(tables).entities
      ensures tables.keys == match w
                             case AddKey(ws, key) => old(tables).keys[ws := key]
                             case ChangeKey(ws, to, key) => (old(tables).keys - {ws})[to := key]
                             case DropKey(ws) => old(tables).keys - {ws}
    {
      match w {
        case AddKey(ws, key) =>
          BumpProvider(ws);
          tables := tables.(keys := tables.keys[ws := key]);
        case ChangeKey(ws, to, key) =>
          BumpProvider(to);
          tables := tables.(keys := (tables.keys - {ws})[to := key]);
        case DropKey(ws) =>
          BumpProvider(ws);
          tables := tables.(keys := tables.keys - {ws});
      }
    }
  }

  // ---------------------------------------------------------------- histories

  ghost predicate RunsFrom(t: Tables, writes: seq<Write>)
    decreases |writes|
  {
    writes == [] || (Applicable(t, writes[0]) && RunsFrom(Step(t, writes[0]), writes[1..]))
  }

  ghost function After(t: Tables, writes: seq<Write>): Tables
    requires RunsFrom(t, writes)
    decreases |writes|
  {
    if writes == [] then t else After(Step(t, writes[0]), writes[1..])
  }

  function IndexAfter(fts: Index, writes: seq<Write>): Index
    decreases |writes|
  {
    if writes == [] then fts else IndexAfter(Indexed(fts, writes[0]), writes[1..])
  }

  /** After any history the SQLite index is the (id, data) projection of the entity table. */
  lemma {:induction false} EveryHistoryMirrors(fts: Index, t: Tables, writes: seq<Write>)
    requires RunsFrom(t, writes) && Mirrors(fts, t.entities)
    ensures Mirrors(IndexAfter(fts, writes), After(t, writes).entities)
    decreases |writes|
  {
    if writes != [] {
      StepMirrors(fts, t, writes[0]);
      EveryHistoryMirrors(Indexed(fts, writes[0]), Step(t, writes[0]), writes[1..]);
    }
  }

  /** The writes of a history that concern the content of a workspace. */
  ghost function ContentWrites(t: Tables, writes: seq<Write>, ws: Workspace): nat
    requires RunsFrom(t, writes)
    decreases |writes|
  {
    if writes == [] then 0
    else (if ws in ContentOf(t, writes[0]) then 1 else 0) + ContentWrites(Step(t, writes[0]), writes[1..], ws)
  }

  ghost function ProviderWrites(writes: seq<Write>, ws: Workspace): nat
    decreases |writes|
  {
    if writes == [] then 0 else (if ws in ProviderOf(writes[0]) then 1 else 0) + ProviderWrites(writes[1..], ws)
  }

  /** The revisions of a workspace count exactly the writes that concern it, moves in and out included. */
  lemma {:induction false} RevisionsCountWrites(t: Tables, writes: seq<Write>, ws: Workspace)
    requires RunsFrom(t, writes) && ws in t.revisions
    ensures ws in After(t, writes).revisions
    ensures After(t, writes).revisions[ws].content == t.revisions[ws].content + ContentWrites(t, writes, ws)
    ensures After(t, writes).revisions[ws].provider == t.revisions[ws].provider + ProviderWrites(writes, ws)
    decreases |writes|
  {
    if writes != [] { RevisionsCountWrites(Step(t, writes[0]), writes[1..], ws); }
  }

  /** What the embeddings of a workspace are computed from. */
  function Content(t: Tables, ws: Workspace): map<Id, (string, Id, string)>
  {
    map id | id in t.entities && t.entities[id].workspace == ws ::
      (t.entities[id].data, t.entities[id].schema, t.entities[id].entityType)
  }

  lemma {:induction false} UnconcernedContent(t: Tables, w: Write, ws: Workspace)
    requires Applicable(t, w) && ws !in ContentOf(t, w)
    ensures Content(Step(t, w), ws) == Content(t, ws)
  {
  }

  /** An unchanged content revision means that the embeddings of the workspace are still computed from the same rows. */
  lemma {:induction false} SameRevisionMeansSameContent(t: Tables, writes: seq<Write>, ws: Workspace)
    requires RunsFrom(t, writes) && ws in t.revisions
    requires ws in After(t, writes).revisions && After(t, writes).revisions[ws].content == t.revisions[ws].content
    ensures ContentWrites(t, writes, ws) == 0 && Content(After(t, writes), ws) == Content(t, ws)
    decreases |writes|
  {
    RevisionsCountWrites(t, writes, ws);
    if writes != [] {
      UnconcernedContent(t, writes[0], ws);
      RevisionsCountWrites(Step(t, writes[0]), writes[1..], ws);
      SameRevisionMeansSameContent(Step(t, writes[0]), writes[1..], ws);
    }
  }

  /** A history moves the key of `ws` to another workspace. */
  predicate MovesKeyAway(writes: seq<Write>, ws: Workspace)
  {
    exists k :: 0 <= k < |writes| && writes[k].ChangeKey? && writes[k].ws == ws && writes[k].to != ws
  }

  /** The provider revision misses one kind of write: a key that is moved away. With an unchanged revision the key of the
      workspace is the same exactly if no key was moved away from it. */
  lemma {:induction false} SameProviderRevisionMeansSameKeyExactlyWhen(t: Tables, writes: seq<Write>, ws: Workspace)
    requires RunsFrom(t, writes) && ws in t.revisions
    requires ws in After(t, writes).revisions && After(t, writes).revisions[ws].provider == t.revisions[ws].provider
    ensures KeyOf(After(t, writes), ws) == KeyOf(t, ws) <==> !MovesKeyAway(writes, ws)
    ensures KeyOf(After(t, writes), ws) == if MovesKeyAway(writes, ws) then None else KeyOf(t, ws)
    decreases |writes|
  {
    RevisionsCountWrites(t, writes, ws);
    if writes != [] {
      var next, rest := Step(t, writes[0]), writes[1..];
      RevisionsCountWrites(next, rest, ws);
      SameProviderRevisionMeansSameKeyExactlyWhen(next, rest, ws);
      MovesSplit(writes, ws);
    }
  }

  /** Workspace 1 loses its key to workspace 2, and its revisions do not show it. */
  lemma {:induction false} MovedKeyLeavesTheRevision(key: string)
    ensures var t := Tables(map[], map[1 := key], map[1 := Revision(0, 3, false), 2 := Revision(0, 0, false)]);
            var w := ChangeKey(1, 2, key);
            && Applicable(t, w) && Step(t, w).revisions[1] == t.revisions[1]
            && KeyOf(t, 1) == Some(key) && KeyOf(Step(t, w), 1) == None && Step(t, w).revisions[2].provider == 1
  {
  }

  lemma {:induction false} MovesSplit(writes: seq<Write>, ws: Workspace)
    requires writes != []
    ensures MovesKeyAway(writes, ws) <==>
              (writes[0].ChangeKey? && writes[0].ws == ws && writes[0].to != ws) || MovesKeyAway(writes[1..], ws)
  {
    if k :| 0 <= k < |writes[1..]| && writes[1..][k].ChangeKey? && writes[1..][k].ws == ws && writes[1..][k].to != ws {
      assert writes[k + 1] == writes[1..][k];
    }
    if k :| 0 < k < |writes| && writes[k].ChangeKey? && writes[k].ws == ws && writes[k].to != ws {
      assert writes[1..][k - 1] == writes[k];
    }
  }

  function KeyOf(t: Tables, ws: Workspace): Option<string>
  {
    if ws in t.keys then Some(t.keys[ws]) else None
  }
}
