/** The receipts of scripts/run_assigned_tests.py written out: what an accepted set says about every test, and what the
    processes of a passed job did. Fixtures, topologies and hashes are spelled out here once more. */
module ReceiptLaws {
  import opened Common
  import opened NameOrder
  import opened TestPlan
  import opened TestReceipts
  import opened TestTopology
  import opened TestExecution
  import opened PlanLaws

  /** The manifest gives the test a database of its own. */
  predicate HasOwnDatabase(manifest: Manifest, name: string)
  {
    manifest.dedicated.Some? && exists e :: e in manifest.dedicated.value && e.0 == name
  }

  /** PostgreSQL tests run shared unless they have a database of their own; all others run in the default fixture. */
  function Fixture(database: string, manifest: Manifest, name: string): string
  {
    if database != "postgres" then "default" else if HasOwnDatabase(manifest, name) then "dedicated" else "shared"
  }

  lemma {:induction false} FixtureMeans(name: string, config: Config, manifest: Manifest)
    ensures FixtureOf(name, config, Dedicated(manifest)) == Fixture(config.database, manifest, name)
  {
    if HasOwnDatabase(manifest, name) {
      var e :| e in manifest.dedicated.value && e.0 == name;
      assert e in Entries(manifest);
    }
  }

  // ---------------------------------------------------------------- accepted receipts

  /** What the header of an accepted receipt says. */
  predicate GoodHeader(plan: Plan, manifest: Manifest, rc: Receipt)
  {
    && rc.schema == 1 && rc.passed && rc.tests != []
    && rc.fields.revision == plan.fingerprints.revision && rc.fields.assignments == plan.fingerprints.assignments
    && rc.fields.programs == plan.fingerprints.programs && rc.fields.inventory == plan.fingerprints.inventory
    && rc.fields.manifest == manifest.hash
    && rc.cell.job in plan.jobs && GoodTopology(plan.jobs[rc.cell.job], rc.topology)
  }

  predicate GoodTopology(config: Config, t: Topology)
  {
    && t.database == config.database && t.queue == config.queue && t.signedLicence == config.signedLicence && t.strict
    && t.locoEnv == (if config.queue == "redis" then "test_" + config.database + "_redis" else "test_" + config.database)
  }

  lemma {:induction false} TopologyMeans(config: Config, t: Topology)
    ensures t == TopologyOf(config) <==> GoodTopology(config, t)
  {
    assert "test_" + config.database + "" == "test_" + config.database;
  }

  lemma {:induction false} HeaderMeans(plan: Plan, manifest: Manifest, rc: Receipt)
    ensures HeaderOk(plan, InventoryOf(plan, manifest), rc) <==> GoodHeader(plan, manifest, rc)
  {
    if rc.cell.job in plan.jobs { TopologyMeans(plan.jobs[rc.cell.job], rc.topology); }
  }

  /** A binary of the edition for the target has this hash. */
  ghost predicate IsHashOf(plan: Plan, edition: string, target: Target, sha: string)
  {
    exists a :: a in plan.artifacts && a.edition == edition && a.target == target && a.sha == sha
  }

  lemma {:induction false} HashMeans(plan: Plan, edition: string, target: Target, sha: string)
    requires ArtifactsOk(plan.artifacts)
    ensures var m := ArtifactsOf(plan.artifacts);
            IsHashOf(plan, edition, target, sha) <==> (edition, target) in m && m[(edition, target)].sha == sha
  {
    var m, key := ArtifactsOf(plan.artifacts), (edition, target);
    if a :| a in plan.artifacts && a.edition == edition && a.target == target && a.sha == sha {
      var k :| 0 <= k < |plan.artifacts| && plan.artifacts[k] == a;
      assert BinaryOf(plan.artifacts[k]) == key;
      var k' :| 0 <= k' < |plan.artifacts| && plan.artifacts[k'] == m[key];
      assert k' == k;
    }
  }

  /** What an accepted test row says: the test passed for the edition and job of its receipt, with the planned binary, in the
      receipt's topology and within its time. */
  ghost predicate GoodRow(plan: Plan, rc: Receipt, row: TestRow)
  {
    && row.passed && row.owner == rc.cell.edition && row.job == rc.cell.job && row.topology == rc.topology
    && (exists a :: a in plan.assignments && a.owner == rc.cell.edition && a.test == row.test && Asks(plan, a, rc.cell.job))
    && IsHashOf(plan, rc.cell.edition, row.test.target, row.sha)
    && rc.started <= row.started && row.started <= row.finished && row.finished <= rc.finished
  }

  lemma {:induction false} RowMeans(plan: Plan, manifest: Manifest, rc: Receipt, row: TestRow)
    requires ArtifactsOk(plan.artifacts)
    ensures RowOk(InventoryOf(plan, manifest), rc, rc.topology, row) <==> GoodRow(plan, rc, row)
  {
    ExpectedIsRequired(plan);
    RequiredMeans(plan, Identity(rc.cell, row.test));
    HashMeans(plan, rc.cell.edition, row.test.target, row.sha);
  }

  lemma {:induction false} AcceptedParts(plan: Plan, manifest: Manifest, receipts: seq<Receipt>, k: nat)
    requires Accepts(plan, manifest, receipts) && k < |receipts|
    ensures ReceiptOk(plan, InventoryOf(plan, manifest), Dedicated(manifest), receipts[k]) && ArtifactsOk(plan.artifacts)
  {
  }

  /** Every receipt and every test row of an accepted set is good. */
  lemma {:induction false} AcceptedReceiptsAreGood(plan: Plan, manifest: Manifest, receipts: seq<Receipt>, k: nat, m: nat)
    requires Accepts(plan, manifest, receipts) && k < |receipts| && m < |receipts[k].tests|
    ensures GoodHeader(plan, manifest, receipts[k]) && GoodRow(plan, receipts[k], receipts[k].tests[m])
  {
    AcceptedParts(plan, manifest, receipts, k);
    GoodRowOf(plan, manifest, receipts[k], m);
  }

  lemma {:induction false} GoodRowOf(plan: Plan, manifest: Manifest, rc: Receipt, m: nat)
    requires ArtifactsOk(plan.artifacts) && m < |rc.tests|
    requires ReceiptOk(plan, InventoryOf(plan, manifest), Dedicated(manifest), rc)
    ensures GoodHeader(plan, manifest, rc) && GoodRow(plan, rc, rc.tests[m])
  {
    HeaderMeans(plan, manifest, rc);
    RowMeans(plan, manifest, rc, rc.tests[m]);
  }

  /** The database was observed during the whole process: the probe and the log query succeeded and were recorded. */
  predicate Observed(b: BinaryRow)
  {
    && b.ddl.Some? && b.ddl.value.passed && b.ddl.value.probeExit == 0 && b.ddl.value.logsExit == 0
    && |b.ddl.value.log| > 0 && |b.ddl.value.since| > 0
  }

  /** The binary row ran the test: it succeeded with the planned binary, in the test's fixture, and a shared one was observed. */
  ghost predicate RanIn(plan: Plan, manifest: Manifest, rc: Receipt, t: Test, b: BinaryRow)
    requires rc.cell.job in plan.jobs
  {
    && b.target == t.target && t.name in b.tests && b.listingExit == 0 && b.exit == 0
    && IsHashOf(plan, rc.cell.edition, b.target, b.sha)
    && b.fixture == Fixture(plan.jobs[rc.cell.job].database, manifest, t.name)
    && (plan.jobs[rc.cell.job].database == "postgres" && !HasOwnDatabase(manifest, t.name) ==> Observed(b))
  }

  lemma {:induction false} BinaryMeans(plan: Plan, manifest: Manifest, rc: Receipt, rows: seq<Test>, b: BinaryRow, t: Test)
    requires ArtifactsOk(plan.artifacts) && rc.cell.job in plan.jobs
    requires BinaryOk(InventoryOf(plan, manifest), rc.cell.edition, rows, plan.jobs[rc.cell.job], Dedicated(manifest), b)
    requires Runs(b, t, FixtureOf(t.name, plan.jobs[rc.cell.job], Dedicated(manifest)))
    ensures RanIn(plan, manifest, rc, t, b)
  {
    HashMeans(plan, rc.cell.edition, b.target, b.sha);
    FixtureMeans(t.name, plan.jobs[rc.cell.job], manifest);
  }

  /** Every test row of an accepted receipt has exactly one binary row that names it for its target, and that one ran it in
      its fixture: a shared PostgreSQL test under observation, a dedicated or other one without need of it. */
  lemma {:induction false} TestsRanInTheirFixture(plan: Plan, manifest: Manifest, receipts: seq<Receipt>, k: nat, m: nat)
    requires Accepts(plan, manifest, receipts) && k < |receipts| && m < |receipts[k].tests|
    ensures var rc, t := receipts[k], receipts[k].tests[m].test;
            rc.cell.job in plan.jobs && exists b :: 0 <= b < |rc.binaries| && RanIn(plan, manifest, rc, t, rc.binaries[b])
  {
    AcceptedParts(plan, manifest, receipts, k);
    RowRanInItsFixture(plan, manifest, receipts[k], m);
  }

  lemma {:induction false} RowRanInItsFixture(plan: Plan, manifest: Manifest, rc: Receipt, m: nat)
    requires ArtifactsOk(plan.artifacts) && m < |rc.tests|
    requires ReceiptOk(plan, InventoryOf(plan, manifest), Dedicated(manifest), rc)
    ensures rc.cell.job in plan.jobs && exists b :: 0 <= b < |rc.binaries| && RanIn(plan, manifest, rc, rc.tests[m].test, rc.binaries[b])
  {
    var inv, dedicated, config, rows := InventoryOf(plan, manifest), Dedicated(manifest), plan.jobs[rc.cell.job], TestsOf(rc);
    assert rows[m] == rc.tests[m].test;
    var b := FindBinary(inv, rc.cell.edition, rows, config, dedicated, rc.binaries, rc.tests[m].test);
    BinaryMeans(plan, manifest, rc, rows, rc.binaries[b], rc.tests[m].test);
  }

  /** The helper evidence names exactly the helpers of the edition whose parent test is among the rows. */
  lemma {:induction false} EvidenceMeans(helpers: seq<Helper>, edition: string, rows: set<Test>, r: HelperRow)
    ensures r in HelperEvidence(helpers, edition, rows) <==>
              exists h :: h in helpers && h.owner == edition && r == HelperRow(h.test, h.parent)
                          && Test(h.test.target, h.parent) in rows
    decreases |helpers|
  {
    if helpers != [] {
      assert helpers == [helpers[0]] + helpers[1..];
      EvidenceMeans(helpers[1..], edition, rows, r);
    }
  }

  lemma {:induction false} EvidenceOfAccepted(plan: Plan, manifest: Manifest, rc: Receipt, r: HelperRow)
    requires ReceiptOk(plan, InventoryOf(plan, manifest), Dedicated(manifest), rc)
    ensures r in rc.helpers <==>
              exists h :: h in plan.helpers && h.owner == rc.cell.edition && r == HelperRow(h.test, h.parent)
                          && exists m :: 0 <= m < |rc.tests| && rc.tests[m].test == Test(h.test.target, h.parent)
  {
    EvidenceMeans(plan.helpers, rc.cell.edition, Members(TestsOf(rc)), r);
    forall t ensures t in Members(TestsOf(rc)) <==> exists m :: 0 <= m < |rc.tests| && rc.tests[m].test == t {
      if t in TestsOf(rc) { var m :| 0 <= m < |rc.tests| && TestsOf(rc)[m] == t; }
      if m :| 0 <= m < |rc.tests| && rc.tests[m].test == t { assert TestsOf(rc)[m] == t; }
    }
  }

  // ---------------------------------------------------------------- passed jobs

  /** The processes of the group did what is asked: the listing is exactly the names, the tests passed, and a shared group
      was observed and neither created nor dropped a database. */
  predicate Behaves(o: Outcome, shared: bool, names: seq<string>, container: string)
  {
    && o.listingExit == 0 && o.listed == names && o.exit == 0 && o.passed
    && (shared ==> |container| > 0 && o.probeExit == 0 && o.logsExit == 0 && o.probeSeen && !o.ddlSeen)
  }

  lemma {:induction false} BehavesIsSucceeds(o: Outcome, fixture: string, names: seq<string>, env: Environment)
    ensures Succeeds(o, fixture, names, Get(env, PostgresContainer, "") != "") <==>
              Behaves(o, fixture == "shared", names, if PostgresContainer in env then env[PostgresContainer] else "")
  {
  }

  /** The assignment belongs to the job of the cell. */
  ghost predicate BelongsTo(plan: Plan, c: Cell, a: Assignment)
  {
    a in plan.assignments && a.owner == c.edition && Asks(plan, a, c.job)
  }

  lemma {:induction false} SelectedMeans(plan: Plan, c: Cell, a: Assignment)
    ensures a in Selected(plan.jobs, plan.assignments, c) <==> BelongsTo(plan, c, a)
  {
    DemandsAsks(plan, a, Identity(c, a.test));
  }

  /** A passed job ran every test that belongs to it in its fixture, and the process of that group behaved. */
  lemma {:induction false} PassedJobRanItsTests(plan: Plan, manifest: Manifest, c: Cell, machine: Machine, a: Assignment)
    requires Passes(plan, manifest, c, machine) && BelongsTo(plan, c, a)
    ensures var fixture := Fixture(plan.jobs[c.job].database, manifest, a.test.name);
            exists names ::
              Behaves(machine.outcome(Group(a.test.target, fixture)), fixture == "shared", names,
                      if PostgresContainer in machine.env then machine.env[PostgresContainer] else "")
              && a.test.name in names
  {
    var job := JobOf(plan, manifest, c, machine);
    var g := GroupOf(a.test, job.config, job.dedicated);
    SelectedMeans(plan, c, a);
    InTests(job.rows, a.test);
    FixtureMeans(a.test.name, job.config, manifest);
    assert g in GroupsOf(TestsIn(job.rows), job.config, job.dedicated);
    assert GroupSucceeds(job, g);
    var rows := RowsIn(job.rows, job.config, job.dedicated, g);
    var names := Sorted(NameList(rows));
    BehavesIsSucceeds(machine.outcome(g), g.fixture, names, machine.env);
    assert a in rows;
    NameIsListed(rows, a);
    SortedKeepsMembers(NameList(rows));
  }

  lemma {:induction false} NameIsListed(rows: seq<Assignment>, a: Assignment)
    requires a in rows
    ensures a.test.name in NameList(rows)
  {
    var k :| 0 <= k < |rows| && rows[k] == a;
    assert NameList(rows)[k] == a.test.name;
  }

  /** A PostgreSQL job with a test that has no database of its own fails if the process of that group shows a database being
      created or dropped, or if the group was not observed. */
  lemma {:induction false} SharedGroupMustNotTouchDatabases(plan: Plan, manifest: Manifest, c: Cell, machine: Machine, a: Assignment)
    requires BelongsTo(plan, c, a) && plan.jobs[c.job].database == "postgres" && !HasOwnDatabase(manifest, a.test.name)
    requires var o := machine.outcome(Group(a.test.target, "shared"));
             o.ddlSeen || !o.probeSeen || o.probeExit != 0 || o.logsExit != 0
    ensures !Passes(plan, manifest, c, machine)
  {
    if Passes(plan, manifest, c, machine) { PassedJobRanItsTests(plan, manifest, c, machine, a); }
  }

  /** A job can start exactly on a sound plan of the revision, for a known edition and job with tests of its own, in an
      environment that fits, with time and everything it needs. */
  lemma {:induction false} StartableMeans(plan: Plan, manifest: Manifest, c: Cell, machine: Machine)
    ensures Startable(plan, manifest, c, machine) <==>
              && Sound(plan, manifest) && machine.revision == plan.fingerprints.revision
              && (c.edition == "ce" || c.edition == "ee") && c.job in plan.jobs
              && TopologyEnvironment(plan.jobs[c.job], c.edition, machine.env, machine.resolve).Ok?
              && machine.timeout >= 1 && machine.ready && exists a :: BelongsTo(plan, c, a)
  {
    var rows := Selected(plan.jobs, plan.assignments, c);
    if rows != [] { SelectedMeans(plan, c, rows[0]); }
    if a :| BelongsTo(plan, c, a) { SelectedMeans(plan, c, a); }
  }
}
