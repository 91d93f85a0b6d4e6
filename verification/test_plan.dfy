/** The assignment plan of scripts/run_assigned_tests.py and its validation by `provenance`. */
module TestPlan {
  import opened Common

  datatype Target = Target(package: string, target: string, kind: string)

  datatype Test = Test(target: Target, name: string)

  /** An edition and a job: what one execution receipt is for. */
  datatype Cell = Cell(edition: string, job: string)

  datatype Identity = Identity(cell: Cell, test: Test)

  /** A compiled test binary; `validHash` says its hash has 64 hexadecimal digits. */
  datatype Artifact = Artifact(edition: string, target: Target, sha: string, validHash: bool, tests: seq<string>,
                               ignored: seq<string>, features: set<string>)

  datatype Assignment = Assignment(owner: string, test: Test, role: string, jobs: seq<string>, includeIgnored: bool)

  datatype Config = Config(database: string, queue: string, signedLicence: bool, manual: bool)

  datatype Helper = Helper(test: Test, owner: string, parent: string)

  /** A process binary; `valid` says its hash and its path have the required form. */
  datatype Program = Program(edition: string, valid: bool)

  datatype Fingerprints = Fingerprints(revision: string, assignments: string, manifest: string, programs: string, inventory: string)

  /** `fingerprints` are the hashes of the plan itself, `manifestHash` the manifest hash it names. */
  datatype Plan = Plan(schema: int, inventoryValid: bool, jobs: map<string, Config>, artifacts: seq<Artifact>,
                       assignments: seq<Assignment>, helpers: seq<Helper>, programs: seq<Program>,
                       matrix: Option<seq<(Cell, Config)>>, pendingSplits: bool, optionalJobs: bool,
                       manifestHash: Option<string>, fingerprints: Fingerprints)

  /** `declared` are the (name, source) pairs the manifest classifies. */
  datatype Manifest = Manifest(jobs: map<string, Config>, hash: string, optionalJobs: bool,
                               dedicated: Option<seq<(string, string)>>, declared: set<(string, string)>)

  ghost predicate Distinct<T>(s: seq<T>)
  {
    forall j, k :: 0 <= j < k < |s| ==> s[j] != s[k]
  }

  /** `len(s) == len(set(s))`. */
  method HasNoDuplicate<T(==)>(s: seq<T>) returns (b: bool)
    ensures b <==> Distinct(s)
  {
    for k := 0 to |s|
      invariant Distinct(s[..k])
    {
      if s[k] in s[..k] {
        var j :| 0 <= j < k && s[..k][j] == s[k];
        assert s[j] == s[k];
        return false;
      }
      assert forall j :: 0 <= j < k ==> s[..k][j] == s[..k + 1][j];
    }
    assert s[..|s|] == s;
    return true;
  }

  // ---------------------------------------------------------------- artifacts

  predicate ArtifactShape(a: Artifact)
  {
    && a.edition in {"ce", "ee"} && a.validHash
    && (forall t :: t in a.ignored ==> t in a.tests)
    && (a.target.package == "yorishiro" ==>
          "community" in a.features && ("enterprise" in a.features <==> a.edition == "ee"))
  }

  ghost predicate ArtifactsOk(rows: seq<Artifact>)
  {
    && (forall k :: 0 <= k < |rows| ==> ArtifactShape(rows[k]) && Distinct(rows[k].tests))
    && (forall j, k :: 0 <= j < k < |rows| ==> BinaryOf(rows[j]) != BinaryOf(rows[k]))
  }

  function BinaryOf(a: Artifact): (string, Target)
  {
    (a.edition, a.target)
  }

  type Artifacts = map<(string, Target), Artifact>

  /** The artifacts by edition and target. */
  function ArtifactsOf(rows: seq<Artifact>): (m: Artifacts)
    ensures forall k :: k in m <==> exists i :: 0 <= i < |rows| && BinaryOf(rows[i]) == k
    ensures forall k :: k in m ==> m[k] in rows && BinaryOf(m[k]) == k
    decreases |rows|
  {
    if rows == [] then map[]
    else
      var init, last := rows[..|rows| - 1], rows[|rows| - 1];
      var m := ArtifactsOf(init);
      assert forall i :: 0 <= i < |init| ==> init[i] == rows[i];
      assert rows[|rows| - 1] == last;
      m[BinaryOf(last) := last]
  }

  method CollectArtifacts(rows: seq<Artifact>) returns (r: Result<Artifacts>)
    ensures r.Ok? <==> ArtifactsOk(rows)
    ensures r.Ok? ==> r.value == ArtifactsOf(rows)
  {
    var artifacts: Artifacts := map[];
    for k := 0 to |rows|
      invariant ArtifactsOk(rows[..k]) && artifacts == ArtifactsOf(rows[..k])
    {
      var row := rows[k];
      assert rows[..k + 1] == rows[..k] + [row] && rows[..k + 1][..k] == rows[..k];
      if BinaryOf(row) in artifacts {
        var i :| 0 <= i < k && BinaryOf(rows[..k][i]) == BinaryOf(row);
        assert BinaryOf(rows[i]) == BinaryOf(rows[k]);
        return Err(Validation);
      }
      var distinct := HasNoDuplicate(row.tests);
      if !ArtifactShape(row) || !distinct { return Err(Validation); }
      artifacts := artifacts[BinaryOf(row) := row];
    }
    assert rows[..|rows|] == rows;
    return Ok(artifacts);
  }

  // ---------------------------------------------------------------- assignments

  /** The assignment requires the identity: one of its jobs, unless that job is opt-in. */
  predicate Demands(jobs: map<string, Config>, a: Assignment, i: Identity)
  {
    && i.cell.edition == a.owner && i.test == a.test
    && i.cell.job in a.jobs && i.cell.job in jobs && !jobs[i.cell.job].manual
  }

  function IdsOf(jobs: map<string, Config>, a: Assignment): (ids: set<Identity>)
    ensures forall i :: i in ids <==> Demands(jobs, a, i)
  {
    var ids := set job | job in a.jobs && job in jobs && !jobs[job].manual :: Identity(Cell(a.owner, job), a.test);
    assert forall i :: Demands(jobs, a, i) ==> i == Identity(Cell(a.owner, i.cell.job), a.test);
    ids
  }

  /** All required identities. */
  ghost function Required(plan: Plan): set<Identity>
  {
    set a, i | a in plan.assignments && i in IdsOf(plan.jobs, a) :: i
  }

  predicate AssignmentShape(plan: Plan, artifacts: Artifacts, a: Assignment)
  {
    && a.owner in {"ce", "ee"} && a.jobs != [] && a.role !in {"helper", "pending_split"}
    && (a.owner, a.test.target) in artifacts && a.test.name in artifacts[(a.owner, a.test.target)].tests
    && (forall job :: job in a.jobs ==> job in plan.jobs)
  }

  ghost predicate AssignmentsOk(plan: Plan, artifacts: Artifacts, rows: seq<Assignment>)
  {
    && (forall k :: 0 <= k < |rows| ==> AssignmentShape(plan, artifacts, rows[k]) && Distinct(rows[k].jobs))
    && (forall j, k, i :: 0 <= j < k < |rows| && Demands(plan.jobs, rows[j], i) ==> !Demands(plan.jobs, rows[k], i))
  }

  type Expected = map<Identity, Assignment>

  function ExpectedOf(jobs: map<string, Config>, rows: seq<Assignment>): (m: Expected)
    ensures forall i, k :: 0 <= k < |rows| && Demands(jobs, rows[k], i) ==> i in m
    ensures forall i :: i in m ==> m[i] in rows && Demands(jobs, m[i], i)
    decreases |rows|
  {
    if rows == [] then map[]
    else
      var init, last := rows[..|rows| - 1], rows[|rows| - 1];
      var m := ExpectedOf(jobs, init);
      assert forall i :: 0 <= i < |init| ==> init[i] == rows[i];
      assert rows[|rows| - 1] == last;
      m + map i | i in IdsOf(jobs, last) :: last
  }

  lemma {:induction false} ExpectedIsRequired(plan: Plan)
    ensures ExpectedOf(plan.jobs, plan.assignments).Keys == Required(plan)
    ensures forall i :: i in Required(plan) ==> ExpectedOf(plan.jobs, plan.assignments)[i].test == i.test
  {
    var m := ExpectedOf(plan.jobs, plan.assignments);
    forall i ensures i in m <==> i in Required(plan) {
      if i in m { assert m[i] in plan.assignments && i in IdsOf(plan.jobs, m[i]); }
      if i in Required(plan) {
        var a :| a in plan.assignments && i in IdsOf(plan.jobs, a);
        var k :| 0 <= k < |plan.assignments| && plan.assignments[k] == a;
      }
    }
  }

  /** The inner loop over the jobs of one assignment. */
  method AddJobs(jobs: map<string, Config>, row: Assignment, expected: Expected) returns (r: Result<Expected>)
    requires Distinct(row.jobs)
    ensures r.Ok? <==> (forall job :: job in row.jobs ==> job in jobs) && (forall i :: i in expected ==> !Demands(jobs, row, i))
    ensures r.Ok? ==> r.value == expected + map i | i in IdsOf(jobs, row) :: row
  {
    var m := expected;
    for k := 0 to |row.jobs|
      invariant forall j :: 0 <= j < k ==> row.jobs[j] in jobs
      invariant forall i :: i in m <==> i in expected || (Demands(jobs, row, i) && i.cell.job in row.jobs[..k])
      invariant forall i :: i in m ==> m[i] == if i in expected then expected[i] else row
      invariant forall i :: i in expected && i.cell.job in row.jobs[..k] ==> !Demands(jobs, row, i)
    {
      var job := row.jobs[k];
      assert row.jobs[..k + 1] == row.jobs[..k] + [job];
      if job !in jobs {
        assert job in row.jobs;
        return Err(Validation);
      }
      if jobs[job].manual { continue; }
      var identity := Identity(Cell(row.owner, job), row.test);
      assert Demands(jobs, row, identity) && job !in row.jobs[..k];
      if identity in m { return Err(Validation); }
      m := m[identity := row];
    }
    assert row.jobs[..|row.jobs|] == row.jobs;
    return Ok(m);
  }

  lemma {:induction false} OneMoreAssignment(plan: Plan, artifacts: Artifacts, rows: seq<Assignment>, k: nat)
    requires k < |rows| && AssignmentsOk(plan, artifacts, rows[..k])
    requires AssignmentShape(plan, artifacts, rows[k]) && Distinct(rows[k].jobs)
    requires forall i :: i in ExpectedOf(plan.jobs, rows[..k]) ==> !Demands(plan.jobs, rows[k], i)
    ensures AssignmentsOk(plan, artifacts, rows[..k + 1])
  {
    var now, next := rows[..k], rows[..k + 1];
    forall j, m, i | 0 <= j < m < k + 1 && Demands(plan.jobs, next[j], i) ensures !Demands(plan.jobs, next[m], i) {
      assert next[j] == now[j];
      if m < k { assert next[m] == now[m]; }
    }
  }

  lemma {:induction false} ExpectedGrows(jobs: map<string, Config>, rows: seq<Assignment>, k: nat)
    requires k < |rows|
    ensures ExpectedOf(jobs, rows[..k + 1]) == ExpectedOf(jobs, rows[..k]) + map i | i in IdsOf(jobs, rows[k]) :: rows[k]
  {
    assert rows[..k + 1][..k] == rows[..k];
  }

  lemma {:induction false} MisshapenAssignment(plan: Plan, artifacts: Artifacts, rows: seq<Assignment>, k: nat)
    requires k < |rows| && !(AssignmentShape(plan, artifacts, rows[k]) && Distinct(rows[k].jobs))
    ensures !AssignmentsOk(plan, artifacts, rows)
  {
  }

  lemma {:induction false} RepeatedAssignment(plan: Plan, artifacts: Artifacts, rows: seq<Assignment>, k: nat, i: Identity)
    requires k < |rows| && i in ExpectedOf(plan.jobs, rows[..k]) && Demands(plan.jobs, rows[k], i)
    ensures !AssignmentsOk(plan, artifacts, rows)
  {
    var a := ExpectedOf(plan.jobs, rows[..k])[i];
    var j :| 0 <= j < k && rows[..k][j] == a;
    assert Demands(plan.jobs, rows[j], i);
  }

  method CollectAssignments(plan: Plan, artifacts: Artifacts) returns (r: Result<Expected>)
    ensures r.Ok? <==> AssignmentsOk(plan, artifacts, plan.assignments)
    ensures r.Ok? ==> r.value == ExpectedOf(plan.jobs, plan.assignments)
  {
    var rows := plan.assignments;
    var expected: Expected := map[];
    for k := 0 to |rows|
      invariant AssignmentsOk(plan, artifacts, rows[..k]) && expected == ExpectedOf(plan.jobs, rows[..k])
    {
      var distinct := HasNoDuplicate(rows[k].jobs);
      if !distinct || !AssignmentShape(plan, artifacts, rows[k]) {
        MisshapenAssignment(plan, artifacts, rows, k);
        return Err(Validation);
      }
      var added := AddJobs(plan.jobs, rows[k], expected);
      if added.Err? {
        var i :| i in expected && Demands(plan.jobs, rows[k], i);
        RepeatedAssignment(plan, artifacts, rows, k, i);
        return Err(Validation);
      }
      OneMoreAssignment(plan, artifacts, rows, k);
      ExpectedGrows(plan.jobs, rows, k);
      expected := added.value;
    }
    assert rows[..|rows|] == rows;
    return Ok(expected);
  }

  // ---------------------------------------------------------------- the rest of the plan

  function PgNames(plan: Plan): set<string>
  {
    set a | a in plan.assignments && (exists job :: job in a.jobs && job in plan.jobs && plan.jobs[job].database == "postgres")
      :: a.test.name
  }

  function Entries(manifest: Manifest): seq<(string, string)>
  {
    if manifest.dedicated.Some? then manifest.dedicated.value else []
  }

  /** The names whose PostgreSQL tests get a database of their own. */
  function Dedicated(manifest: Manifest): set<string>
  {
    set e | e in Entries(manifest) :: e.0
  }

  function EntryNames(manifest: Manifest): seq<string>
  {
    seq(|Entries(manifest)|, k requires 0 <= k < |Entries(manifest)| => Entries(manifest)[k].0)
  }

  ghost predicate DedicatedOk(plan: Plan, manifest: Manifest)
  {
    && Distinct(EntryNames(manifest))
    && Dedicated(manifest) <= PgNames(plan)
    && (forall e :: e in Entries(manifest) ==> e in manifest.declared)
    && (PgNames(plan) != {} ==> manifest.dedicated.Some?)
  }

  predicate ProgramsOk(plan: Plan)
  {
    && |plan.programs| == 2 && (set p | p in plan.programs :: p.edition) == {"ce", "ee"}
    && forall p :: p in plan.programs ==> p.valid
  }

  function CellsOf(ids: set<Identity>): set<Cell>
  {
    set i | i in ids :: i.cell
  }

  /** The execution matrix, if given, lists every required cell once with its configuration. */
  ghost predicate MatrixOk(plan: Plan)
  {
    plan.matrix.Some? ==>
      && Distinct(plan.matrix.value)
      && forall m :: m in plan.matrix.value
                     <==> m.0 in CellsOf(Required(plan)) && m.0.job in plan.jobs && m.1 == plan.jobs[m.0.job]
  }

  predicate HelpersOk(plan: Plan)
  {
    forall h :: h in plan.helpers ==>
      && (forall a :: a in plan.assignments ==> a.test != h.test)
      && (exists a :: a in plan.assignments && a.owner == h.owner && a.test == Test(h.test.target, h.parent))
  }

  predicate HeadOk(plan: Plan, manifest: Manifest)
  {
    && plan.schema == 1 && plan.inventoryValid && plan.jobs == manifest.jobs
    && !plan.optionalJobs && !manifest.optionalJobs && plan.manifestHash == Some(manifest.hash)
  }

  /** The plan is one that may be executed and checked against. */
  ghost predicate Sound(plan: Plan, manifest: Manifest)
  {
    && HeadOk(plan, manifest)
    && ArtifactsOk(plan.artifacts)
    && AssignmentsOk(plan, ArtifactsOf(plan.artifacts), plan.assignments)
    && Required(plan) != {}
    && ProgramsOk(plan) && DedicatedOk(plan, manifest) && MatrixOk(plan) && HelpersOk(plan)
  }

  function FieldsOf(plan: Plan, manifest: Manifest): Fingerprints
  {
    plan.fingerprints.(manifest := manifest.hash)
  }

  /** What `provenance` returns: the fields every receipt repeats, the binaries and the required assignments. */
  datatype Inventory = Inventory(fields: Fingerprints, artifacts: Artifacts, expected: Expected)

  function InventoryOf(plan: Plan, manifest: Manifest): Inventory
  {
    Inventory(FieldsOf(plan, manifest), ArtifactsOf(plan.artifacts), ExpectedOf(plan.jobs, plan.assignments))
  }

  method CheckDedicated(plan: Plan, manifest: Manifest) returns (ok: bool)
    ensures ok <==> DedicatedOk(plan, manifest)
  {
    var distinct := HasNoDuplicate(EntryNames(manifest));
    ok := distinct && Dedicated(manifest) <= PgNames(plan)
          && (forall e :: e in Entries(manifest) ==> e in manifest.declared)
          && (PgNames(plan) != {} ==> manifest.dedicated.Some?);
  }

  method CheckMatrix(plan: Plan, expected: Expected) returns (ok: bool)
    requires expected.Keys == Required(plan)
    ensures ok <==> MatrixOk(plan)
  {
    if plan.matrix.None? { return true; }
    var cells := plan.matrix.value;
    var distinct := HasNoDuplicate(cells);
    var required := CellsOf(expected.Keys);
    ok := distinct
          && (forall m :: m in cells ==> m.0 in required && m.0.job in plan.jobs && m.1 == plan.jobs[m.0.job])
          && (forall c :: c in required ==> c.job in plan.jobs ==> (c, plan.jobs[c.job]) in cells);
  }

  /** `provenance` accepts exactly the sound plans. */
  method Provenance(plan: Plan, manifest: Manifest) returns (r: Result<Inventory>)
    ensures r.Ok? <==> Sound(plan, manifest)
    ensures r.Ok? ==> r.value == InventoryOf(plan, manifest)
  {
    if !HeadOk(plan, manifest) { return Err(Validation); }
    var artifacts := CollectArtifacts(plan.artifacts);
    if artifacts.Err? { return Err(Validation); }
    var expected := CollectAssignments(plan, artifacts.value);
    if expected.Err? { return Err(Validation); }
    ExpectedIsRequired(plan);
    if expected.value.Keys == {} { return Err(Validation); }
    if !ProgramsOk(plan) { return Err(Validation); }
    var dedicated := CheckDedicated(plan, manifest);
    if !dedicated { return Err(Validation); }
    var matrix := CheckMatrix(plan, expected.value);
    if !matrix { return Err(Validation); }
    if !HelpersOk(plan) { return Err(Validation); }
    return Ok(Inventory(FieldsOf(plan, manifest), artifacts.value, expected.value));
  }
}
