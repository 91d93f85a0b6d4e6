/** The receipt checker of scripts/run_assigned_tests.py: `aggregate` accepts exactly a complete, duplicate-free cover of
    the plan. Times are numbers on one time line. */
module TestReceipts {
  import opened Common
  import opened NameOrder
  import opened TestPlan

  datatype Topology = Topology(database: string, queue: string, signedLicence: bool, locoEnv: string, strict: bool)

  datatype TestRow = TestRow(test: Test, owner: string, job: string, passed: bool, sha: string, started: int,
                             finished: int, topology: Topology)

  datatype HelperRow = HelperRow(test: Test, parent: string)

  datatype Observation = Observation(passed: bool, probeExit: int, logsExit: int, log: string, since: string)

  datatype BinaryRow = BinaryRow(target: Target, sha: string, fixture: string, tests: seq<string>, listingExit: int,
                                 exit: int, ddl: Option<Observation>)

  datatype Receipt = Receipt(schema: int, fields: Fingerprints, cell: Cell, topology: Topology, passed: bool, started: int,
                             finished: int, tests: seq<TestRow>, helpers: seq<HelperRow>, binaries: seq<BinaryRow>)

  /** A target and a fixture: the tests that one process runs. */
  datatype Group = Group(target: Target, fixture: string)

  // ---------------------------------------------------------------- what is expected of a receipt

  function TopologyOf(config: Config): Topology
  {
    Topology(config.database, config.queue, config.signedLicence,
             "test_" + config.database + (if config.queue == "redis" then "_redis" else ""), true)
  }

  function FixtureOf(name: string, config: Config, dedicated: set<string>): string
  {
    if config.database == "postgres" then (if name in dedicated then "dedicated" else "shared") else "default"
  }

  function GroupOf(t: Test, config: Config, dedicated: set<string>): Group
  {
    Group(t.target, FixtureOf(t.name, config, dedicated))
  }

  /** The helpers whose parent test is among the rows, in plan order. */
  function HelperEvidence(helpers: seq<Helper>, edition: string, rows: set<Test>): seq<HelperRow>
    decreases |helpers|
  {
    if helpers == [] then []
    else
      var h := helpers[0];
      (if h.owner == edition && Test(h.test.target, h.parent) in rows then [HelperRow(h.test, h.parent)] else [])
      + HelperEvidence(helpers[1..], edition, rows)
  }

  function TestsOf(rc: Receipt): seq<Test>
  {
    seq(|rc.tests|, k requires 0 <= k < |rc.tests| => rc.tests[k].test)
  }

  function Members(rows: seq<Test>): set<Test>
  {
    set t | t in rows
  }

  /** The names of the rows of a group, in row order. */
  function NamesIn(rows: seq<Test>, config: Config, dedicated: set<string>, g: Group): seq<string>
    decreases |rows|
  {
    if rows == [] then []
    else
      var init, last := rows[..|rows| - 1], rows[|rows| - 1];
      NamesIn(init, config, dedicated, g) + if GroupOf(last, config, dedicated) == g then [last.name] else []
  }

  function GroupsOf(rows: seq<Test>, config: Config, dedicated: set<string>): set<Group>
  {
    set t | t in rows :: GroupOf(t, config, dedicated)
  }

  predicate RowOk(inv: Inventory, rc: Receipt, topology: Topology, row: TestRow)
  {
    && Identity(rc.cell, row.test) in inv.expected
    && row.passed && row.owner == rc.cell.edition && row.job == rc.cell.job && row.topology == topology
    && (rc.cell.edition, row.test.target) in inv.artifacts && row.sha == inv.artifacts[(rc.cell.edition, row.test.target)].sha
    && rc.started <= row.started <= row.finished <= rc.finished
  }

  predicate ObservationOk(o: Option<Observation>)
  {
    o.Some? && o.value.passed && o.value.probeExit == 0 && o.value.logsExit == 0 && o.value.log != "" && o.value.since != ""
  }

  predicate BinaryOk(inv: Inventory, edition: string, rows: seq<Test>, config: Config, dedicated: set<string>, b: BinaryRow)
  {
    && (edition, b.target) in inv.artifacts && b.sha == inv.artifacts[(edition, b.target)].sha
    && b.listingExit == 0 && b.exit == 0
    && b.tests == Sorted(NamesIn(rows, config, dedicated, Group(b.target, b.fixture)))
    && (b.fixture == "shared" ==> ObservationOk(b.ddl))
  }

  function GroupsBuilt(binaries: seq<BinaryRow>): seq<Group>
  {
    seq(|binaries|, k requires 0 <= k < |binaries| => Group(binaries[k].target, binaries[k].fixture))
  }

  ghost predicate RowsOk(inv: Inventory, rc: Receipt, topology: Topology)
  {
    && (forall k :: 0 <= k < |rc.tests| ==> RowOk(inv, rc, topology, rc.tests[k]))
    && Distinct(TestsOf(rc))
  }

  ghost predicate BinariesOk(inv: Inventory, edition: string, rows: seq<Test>, config: Config, dedicated: set<string>,
                             binaries: seq<BinaryRow>)
  {
    && (forall k :: 0 <= k < |binaries| ==> BinaryOk(inv, edition, rows, config, dedicated, binaries[k]))
    && Distinct(GroupsBuilt(binaries))
    && (forall g :: g in GroupsBuilt(binaries) <==> g in GroupsOf(rows, config, dedicated))
  }

  predicate HeaderOk(plan: Plan, inv: Inventory, rc: Receipt)
  {
    && rc.schema == 1 && rc.passed && rc.fields == inv.fields
    && rc.cell.job in plan.jobs && rc.topology == TopologyOf(plan.jobs[rc.cell.job]) && rc.tests != []
  }

  /** One receipt passes every check that concerns it alone. */
  ghost predicate ReceiptOk(plan: Plan, inv: Inventory, dedicated: set<string>, rc: Receipt)
  {
    && HeaderOk(plan, inv, rc)
    && RowsOk(inv, rc, rc.topology)
    && rc.helpers == HelperEvidence(plan.helpers, rc.cell.edition, Members(TestsOf(rc)))
    && BinariesOk(inv, rc.cell.edition, TestsOf(rc), plan.jobs[rc.cell.job], dedicated, rc.binaries)
  }

  /** The identities a receipt has rows for. */
  function IdsIn(rc: Receipt): (ids: set<Identity>)
    ensures forall i :: i in ids <==> i.cell == rc.cell && i.test in TestsOf(rc)
  {
    var ids := set t | t in TestsOf(rc) :: Identity(rc.cell, t);
    assert forall i: Identity :: i.cell == rc.cell && i.test in TestsOf(rc) ==> i == Identity(rc.cell, i.test);
    ids
  }

  ghost predicate CellsDistinct(receipts: seq<Receipt>)
  {
    forall j, k :: 0 <= j < k < |receipts| ==> receipts[j].cell != receipts[k].cell
  }

  /** The identities of all rows of all receipts. */
  function AllIds(receipts: seq<Receipt>): (ids: set<Identity>)
    ensures forall i :: i in ids ==> exists k :: 0 <= k < |receipts| && i in IdsIn(receipts[k])
    ensures forall k :: 0 <= k < |receipts| ==> IdsIn(receipts[k]) <= ids
    decreases |receipts|
  {
    if receipts == [] then {} else AllIds(receipts[..|receipts| - 1]) + IdsIn(receipts[|receipts| - 1])
  }

  function AllCells(receipts: seq<Receipt>): (cells: set<Cell>)
    ensures forall c :: c in cells <==> exists k :: 0 <= k < |receipts| && receipts[k].cell == c
  {
    set k | 0 <= k < |receipts| :: receipts[k].cell
  }

  ghost predicate EachOk(plan: Plan, inv: Inventory, dedicated: set<string>, receipts: seq<Receipt>)
  {
    (forall k :: 0 <= k < |receipts| ==> ReceiptOk(plan, inv, dedicated, receipts[k])) && CellsDistinct(receipts)
  }

  /** What `aggregate` accepts: valid receipts for different cells that together cover every required identity. */
  ghost predicate Accepts(plan: Plan, manifest: Manifest, receipts: seq<Receipt>)
  {
    && Sound(plan, manifest) && !plan.pendingSplits
    && EachOk(plan, InventoryOf(plan, manifest), Dedicated(manifest), receipts)
    && Required(plan) <= AllIds(receipts)
  }

  // ---------------------------------------------------------------- the checker

  /** The loop over the test rows of one receipt. */
  method CheckRows(inv: Inventory, rc: Receipt, topology: Topology, seen: set<Identity>)
    returns (ok: bool, seen': set<Identity>, rows: seq<Test>)
    requires forall i :: i in seen ==> i.cell != rc.cell
    requires forall i :: i in inv.expected ==> inv.expected[i].test == i.test
    ensures ok <==> RowsOk(inv, rc, topology)
    ensures ok ==> seen' == seen + IdsIn(rc) && rows == TestsOf(rc)
  {
    seen', rows := seen, [];
    for k := 0 to |rc.tests|
      invariant forall j :: 0 <= j < k ==> RowOk(inv, rc, topology, rc.tests[j])
      invariant rows == TestsOf(rc)[..k] && Distinct(rows)
      invariant forall i :: i in seen' <==> i in seen || (i.cell == rc.cell && i.test in rows)
    {
      var row := rc.tests[k];
      var identity := Identity(rc.cell, row.test);
      assert TestsOf(rc)[k] == row.test && TestsOf(rc)[..k + 1] == rows + [row.test];
      if identity in seen' {
        assert row.test in TestsOf(rc)[..k];
        return false, seen, [];
      }
      if !RowOk(inv, rc, topology, row) { return false, seen, []; }
      seen' := seen' + {identity};
      rows := rows + [inv.expected[identity].test];
    }
    ok := true;
  }

  /** The loop over the binary rows of one receipt. */
  method CheckBinaries(inv: Inventory, edition: string, rows: seq<Test>, config: Config, dedicated: set<string>,
                       binaries: seq<BinaryRow>) returns (ok: bool)
    ensures ok <==> BinariesOk(inv, edition, rows, config, dedicated, binaries)
  {
    var built: set<Group> := {};
    for k := 0 to |binaries|
      invariant forall j :: 0 <= j < k ==> BinaryOk(inv, edition, rows, config, dedicated, binaries[j])
      invariant Distinct(GroupsBuilt(binaries)[..k])
      invariant forall g :: g in built <==> g in GroupsBuilt(binaries)[..k]
    {
      var b := binaries[k];
      var group := Group(b.target, b.fixture);
      var all := GroupsBuilt(binaries);
      assert all[k] == group && all[..k + 1] == all[..k] + [group];
      if group in built {
        assert group in all[..k];
        return false;
      }
      built := built + {group};
      if !BinaryOk(inv, edition, rows, config, dedicated, b) { return false; }
    }
    assert GroupsBuilt(binaries)[..|binaries|] == GroupsBuilt(binaries);
    ok := built == GroupsOf(rows, config, dedicated);
  }

  method CheckReceipt(plan: Plan, inv: Inventory, dedicated: set<string>, rc: Receipt, seen: set<Identity>)
    returns (ok: bool, seen': set<Identity>)
    requires forall i :: i in seen ==> i.cell != rc.cell
    requires forall i :: i in inv.expected ==> inv.expected[i].test == i.test
    ensures ok <==> ReceiptOk(plan, inv, dedicated, rc)
    ensures ok ==> seen' == seen + IdsIn(rc)
  {
    if !HeaderOk(plan, inv, rc) { return false, seen; }
    var config := plan.jobs[rc.cell.job];
    var rows;
    ok, seen', rows := CheckRows(inv, rc, rc.topology, seen);
    if !ok { return false, seen; }
    if rc.helpers != HelperEvidence(plan.helpers, rc.cell.edition, Members(rows)) { return false, seen; }
    ok := CheckBinaries(inv, rc.cell.edition, rows, config, dedicated, rc.binaries);
  }

  lemma {:induction false} OneMoreCell(receipts: seq<Receipt>, k: nat)
    requires k < |receipts| && CellsDistinct(receipts[..k]) && receipts[k].cell !in AllCells(receipts[..k])
    ensures CellsDistinct(receipts[..k + 1])
    ensures AllIds(receipts[..k + 1]) == AllIds(receipts[..k]) + IdsIn(receipts[k])
    ensures AllCells(receipts[..k + 1]) == AllCells(receipts[..k]) + {receipts[k].cell}
  {
    var now, next := receipts[..k], receipts[..k + 1];
    assert next[..k] == now && next[k] == receipts[k];
    forall j | 0 <= j < k ensures next[j] == now[j] && next[j].cell in AllCells(now) { }
  }

  lemma {:induction false} OneMoreReceipt(plan: Plan, inv: Inventory, dedicated: set<string>, receipts: seq<Receipt>, k: nat)
    requires k < |receipts| && EachOk(plan, inv, dedicated, receipts[..k])
    requires ReceiptOk(plan, inv, dedicated, receipts[k]) && CellsDistinct(receipts[..k + 1])
    ensures EachOk(plan, inv, dedicated, receipts[..k + 1])
  {
    var now, next := receipts[..k], receipts[..k + 1];
    forall j | 0 <= j < k + 1 ensures ReceiptOk(plan, inv, dedicated, next[j]) {
      if j < k { assert next[j] == now[j]; }
    }
  }

  lemma {:induction false} RefusedReceipt(plan: Plan, inv: Inventory, dedicated: set<string>, receipts: seq<Receipt>, k: nat)
    requires k < |receipts|
    requires !ReceiptOk(plan, inv, dedicated, receipts[k]) || receipts[k].cell in AllCells(receipts[..k])
    ensures !EachOk(plan, inv, dedicated, receipts)
  {
    if receipts[k].cell in AllCells(receipts[..k]) {
      var j :| 0 <= j < k && receipts[..k][j].cell == receipts[k].cell;
      assert receipts[j].cell == receipts[k].cell;
    }
  }

  /** The loop over the receipts. */
  method CheckReceipts(plan: Plan, inv: Inventory, dedicated: set<string>, receipts: seq<Receipt>)
    returns (ok: bool, seen: set<Identity>, jobs: set<Cell>)
    requires forall i :: i in inv.expected ==> inv.expected[i].test == i.test
    ensures ok <==> EachOk(plan, inv, dedicated, receipts)
    ensures ok ==> seen == AllIds(receipts) && jobs == AllCells(receipts)
  {
    seen, jobs := {}, {};
    for k := 0 to |receipts|
      invariant EachOk(plan, inv, dedicated, receipts[..k])
      invariant seen == AllIds(receipts[..k]) && jobs == AllCells(receipts[..k])
    {
      if receipts[k].cell in jobs {
        RefusedReceipt(plan, inv, dedicated, receipts, k);
        return false, seen, jobs;
      }
      assert forall i :: i in seen ==> i.cell in jobs;
      ok, seen := CheckReceipt(plan, inv, dedicated, receipts[k], seen);
      if !ok {
        RefusedReceipt(plan, inv, dedicated, receipts, k);
        return false, seen, jobs;
      }
      jobs := jobs + {receipts[k].cell};
      OneMoreCell(receipts, k);
      OneMoreReceipt(plan, inv, dedicated, receipts, k);
    }
    assert receipts[..|receipts|] == receipts;
    ok := true;
  }

  // ---------------------------------------------------------------- what acceptance means

  /** Every row of a valid receipt is required, and every valid receipt is for a required cell. */
  lemma {:induction false} RowsAreRequired(plan: Plan, manifest: Manifest, rc: Receipt)
    requires ReceiptOk(plan, InventoryOf(plan, manifest), Dedicated(manifest), rc)
    ensures IdsIn(rc) <= Required(plan) && rc.cell in CellsOf(Required(plan))
  {
    ExpectedIsRequired(plan);
    forall i | i in IdsIn(rc) ensures i in Required(plan) {
      var k :| 0 <= k < |rc.tests| && TestsOf(rc)[k] == i.test;
      assert RowOk(InventoryOf(plan, manifest), rc, rc.topology, rc.tests[k]);
    }
    var first := Identity(rc.cell, TestsOf(rc)[0]);
    assert first in IdsIn(rc) && first in Required(plan) && first.cell == rc.cell;
  }

  lemma {:induction false} CellIsCovered(ids: set<Identity>, receipts: seq<Receipt>, c: Cell)
    requires ids <= AllIds(receipts) && c in CellsOf(ids)
    ensures c in AllCells(receipts)
  {
    var i :| i in ids && i.cell == c;
    assert i in AllIds(receipts);
  }

  lemma {:induction false} NoOtherCell(cells: set<Cell>, receipts: seq<Receipt>)
    requires forall k :: 0 <= k < |receipts| ==> receipts[k].cell in cells
    ensures AllCells(receipts) <= cells
  {
  }

  lemma {:induction false} NoOtherId(ids: set<Identity>, receipts: seq<Receipt>)
    requires forall k :: 0 <= k < |receipts| ==> IdsIn(receipts[k]) <= ids
    ensures AllIds(receipts) <= ids
  {
  }

  lemma {:induction false} CoverIsExact(ids: set<Identity>, receipts: seq<Receipt>)
    requires AllIds(receipts) == ids && AllCells(receipts) <= CellsOf(ids)
    ensures AllCells(receipts) == CellsOf(ids)
  {
    forall c | c in CellsOf(ids) ensures c in AllCells(receipts) { CellIsCovered(ids, receipts, c); }
  }

  lemma {:induction false} ValidRowsAreRequired(plan: Plan, manifest: Manifest, receipts: seq<Receipt>)
    requires EachOk(plan, InventoryOf(plan, manifest), Dedicated(manifest), receipts)
    ensures AllIds(receipts) <= Required(plan) && AllCells(receipts) <= CellsOf(Required(plan))
  {
    forall k | 0 <= k < |receipts|
      ensures IdsIn(receipts[k]) <= Required(plan) && receipts[k].cell in CellsOf(Required(plan))
    { RowsAreRequired(plan, manifest, receipts[k]); }
    NoOtherId(Required(plan), receipts);
    NoOtherCell(CellsOf(Required(plan)), receipts);
  }

  lemma {:induction false} AcceptedRowsAreTheRequired(plan: Plan, manifest: Manifest, receipts: seq<Receipt>)
    requires Accepts(plan, manifest, receipts)
    ensures AllIds(receipts) == Required(plan) && AllCells(receipts) == CellsOf(Required(plan))
  {
    ValidRowsAreRequired(plan, manifest, receipts);
    CoverIsExact(Required(plan), receipts);
  }

  datatype Summary = Summary(testsPassed: nat, jobsPassed: nat)

  /** `aggregate` returns exactly for an acceptable set of receipts, and then counts required identities and cells. */
  method Aggregate(plan: Plan, receipts: seq<Receipt>, manifest: Manifest) returns (r: Result<Summary>)
    ensures r.Ok? <==> Accepts(plan, manifest, receipts)
    ensures r.Ok? ==> r.value == Summary(|Required(plan)|, |CellsOf(Required(plan))|)
  {
    var provenance := Provenance(plan, manifest);
    if provenance.Err? { return Err(Validation); }
    var inv := provenance.value;
    ExpectedIsRequired(plan);
    var ok, seen, jobs := CheckReceipts(plan, inv, Dedicated(manifest), receipts);
    if !ok { return Err(Validation); }
    if !plan.pendingSplits && Required(plan) <= AllIds(receipts) { AcceptedRowsAreTheRequired(plan, manifest, receipts); }
    if seen != inv.expected.Keys { return Err(Validation); }
    if plan.pendingSplits { return Err(Validation); }
    return Ok(Summary(|seen|, |jobs|));
  }

  lemma {:induction false} RowIsUnique(receipts: seq<Receipt>, k: int, m: int, i: Identity, k': int, m': int)
    requires CellsDistinct(receipts) && IsRow(receipts, k, m, i) && Distinct(TestsOf(receipts[k])) && IsRow(receipts, k', m', i)
    ensures k' == k && m' == m
  {
    assert receipts[k'].cell == receipts[k].cell;
    assert TestsOf(receipts[k])[m] == i.test;
    if k' == k { assert TestsOf(receipts[k])[m'] == i.test; }
  }

  lemma {:induction false} FindRow(receipts: seq<Receipt>, i: Identity) returns (k: int, m: int)
    requires i in AllIds(receipts)
    ensures IsRow(receipts, k, m, i)
  {
    k :| 0 <= k < |receipts| && i in IdsIn(receipts[k]);
    m :| 0 <= m < |receipts[k].tests| && TestsOf(receipts[k])[m] == i.test;
  }

  lemma {:induction false} AcceptedTestsAreDistinct(plan: Plan, manifest: Manifest, receipts: seq<Receipt>, k: nat)
    requires Accepts(plan, manifest, receipts) && k < |receipts|
    ensures Distinct(TestsOf(receipts[k])) && CellsDistinct(receipts)
  {
    assert ReceiptOk(plan, InventoryOf(plan, manifest), Dedicated(manifest), receipts[k]);
  }

  /** Row `m` of receipt `k` is for the identity, and no other row is. */
  ghost predicate IsOnlyRow(receipts: seq<Receipt>, k: int, m: int, i: Identity)
  {
    IsRow(receipts, k, m, i) && forall k', m' :: IsRow(receipts, k', m', i) ==> k' == k && m' == m
  }

  lemma {:induction false} FindOnlyRow(receipts: seq<Receipt>, i: Identity) returns (k: int, m: int)
    requires i in AllIds(receipts) && CellsDistinct(receipts)
    requires forall k :: 0 <= k < |receipts| ==> Distinct(TestsOf(receipts[k]))
    ensures IsOnlyRow(receipts, k, m, i)
  {
    k, m := FindRow(receipts, i);
    forall k', m' | IsRow(receipts, k', m', i) ensures k' == k && m' == m { RowIsUnique(receipts, k, m, i, k', m'); }
  }

  /** Soundness: every required identity has a row in exactly one place. */
  lemma {:induction false} EveryRequiredTestRanOnce(plan: Plan, manifest: Manifest, receipts: seq<Receipt>, i: Identity)
    requires Accepts(plan, manifest, receipts) && i in Required(plan)
    ensures exists k, m :: IsOnlyRow(receipts, k, m, i)
  {
    forall k | 0 <= k < |receipts| ensures Distinct(TestsOf(receipts[k])) {
      AcceptedTestsAreDistinct(plan, manifest, receipts, k);
    }
    var k, m := FindOnlyRow(receipts, i);
  }

  /** Row `m` of receipt `k` is for the identity. */
  predicate IsRow(receipts: seq<Receipt>, k: int, m: int, i: Identity)
  {
    0 <= k < |receipts| && 0 <= m < |receipts[k].tests| && Identity(receipts[k].cell, receipts[k].tests[m].test) == i
  }

  /** Soundness: no row is for anything else, and it says that the test passed with the right binary in the right topology. */
  lemma {:induction false} EveryRowIsRequired(plan: Plan, manifest: Manifest, receipts: seq<Receipt>, k: nat, m: nat)
    requires Accepts(plan, manifest, receipts) && k < |receipts| && m < |receipts[k].tests|
    ensures Identity(receipts[k].cell, receipts[k].tests[m].test) in Required(plan)
    ensures RowOk(InventoryOf(plan, manifest), receipts[k], TopologyOf(plan.jobs[receipts[k].cell.job]), receipts[k].tests[m])
  {
    var rc := receipts[k];
    assert ReceiptOk(plan, InventoryOf(plan, manifest), Dedicated(manifest), rc);
    RowsAreRequired(plan, manifest, rc);
    assert TestsOf(rc)[m] == rc.tests[m].test;
  }

  // ---------------------------------------------------------------- groups

  lemma {:induction false} NamesAreTheGroup(rows: seq<Test>, config: Config, dedicated: set<string>, g: Group)
    ensures forall n :: n in NamesIn(rows, config, dedicated, g)
                        <==> Test(g.target, n) in rows && FixtureOf(n, config, dedicated) == g.fixture
    ensures Distinct(rows) ==> forall n :: multiset(NamesIn(rows, config, dedicated, g))[n] <= 1
    decreases |rows|
  {
    if rows != [] {
      var init, last := rows[..|rows| - 1], rows[|rows| - 1];
      assert rows == init + [last];
      NamesAreTheGroup(init, config, dedicated, g);
      if Distinct(rows) {
        assert Distinct(init) && last !in init;
      }
    }
  }

  /** The binary row of a test. */
  lemma {:induction false} FindBinary(inv: Inventory, edition: string, rows: seq<Test>, config: Config,
                                      dedicated: set<string>,
                   binaries: seq<BinaryRow>, t: Test) returns (b: nat)
    requires BinariesOk(inv, edition, rows, config, dedicated, binaries) && t in rows && Distinct(rows)
    ensures b < |binaries| && Runs(binaries[b], t, FixtureOf(t.name, config, dedicated))
    ensures multiset(binaries[b].tests)[t.name] == 1
  {
    var g, groups := GroupOf(t, config, dedicated), GroupsBuilt(binaries);
    assert g in GroupsOf(rows, config, dedicated);
    b :| 0 <= b < |groups| && groups[b] == g;
    assert BinaryOk(inv, edition, rows, config, dedicated, binaries[b]);
    BinaryHoldsItsGroup(inv, edition, rows, config, dedicated, binaries[b]);
    NamesAreTheGroup(rows, config, dedicated, g);
    assert t.name in multiset(binaries[b].tests);
  }

  lemma {:induction false} GroupHasOneBinary(inv: Inventory, edition: string, rows: seq<Test>, config: Config,
                                             dedicated: set<string>,
                          binaries: seq<BinaryRow>, t: Test, b: nat, b': nat)
    requires BinariesOk(inv, edition, rows, config, dedicated, binaries) && b < |binaries| && b' < |binaries|
    requires Runs(binaries[b], t, FixtureOf(t.name, config, dedicated))
    requires binaries[b'].target == t.target && t.name in binaries[b'].tests
    ensures b' == b
  {
    BinaryHoldsItsGroup(inv, edition, rows, config, dedicated, binaries[b']);
    assert GroupsBuilt(binaries)[b] == GroupsBuilt(binaries)[b'];
  }

  /** The binary row `b` is the one that ran the test. */
  ghost predicate RanOnlyIn(binaries: seq<BinaryRow>, t: Test, fixture: string, b: int)
  {
    && 0 <= b < |binaries| && Runs(binaries[b], t, fixture) && multiset(binaries[b].tests)[t.name] == 1
    && forall o | 0 <= o < |binaries| && binaries[o].target == t.target && t.name in binaries[o].tests :: o == b
  }

  /** In an accepted receipt the binary rows partition the test rows by target and fixture: a test row has exactly one
      binary row, and that one lists its name once. */
  lemma {:induction false} BinariesPartitionTheRows(plan: Plan, inv: Inventory, dedicated: set<string>, rc: Receipt, m: nat)
    requires ReceiptOk(plan, inv, dedicated, rc) && m < |rc.tests|
    ensures var t := rc.tests[m].test;
            exists b :: RanOnlyIn(rc.binaries, t, FixtureOf(t.name, plan.jobs[rc.cell.job], dedicated), b)
  {
    var t, config, rows := rc.tests[m].test, plan.jobs[rc.cell.job], TestsOf(rc);
    assert rows[m] == t;
    var b := FindBinary(inv, rc.cell.edition, rows, config, dedicated, rc.binaries, t);
    forall o | 0 <= o < |rc.binaries| && rc.binaries[o].target == t.target && t.name in rc.binaries[o].tests ensures o == b {
      GroupHasOneBinary(inv, rc.cell.edition, rows, config, dedicated, rc.binaries, t, b, o);
    }
    assert RanOnlyIn(rc.binaries, t, FixtureOf(t.name, config, dedicated), b);
  }

  predicate Runs(b: BinaryRow, t: Test, fixture: string)
  {
    b.target == t.target && b.fixture == fixture && t.name in b.tests
  }

  /** A binary row lists exactly the tests of its target and fixture. */
  lemma {:induction false} BinaryHoldsItsGroup(inv: Inventory, edition: string, rows: seq<Test>, config: Config,
                                               dedicated: set<string>, b: BinaryRow)
    requires BinaryOk(inv, edition, rows, config, dedicated, b)
    ensures forall n :: n in b.tests <==> Test(b.target, n) in rows && FixtureOf(n, config, dedicated) == b.fixture
    ensures Ordered(b.tests)
  {
    var names := NamesIn(rows, config, dedicated, Group(b.target, b.fixture));
    NamesAreTheGroup(rows, config, dedicated, Group(b.target, b.fixture));
    SortedIsOrdered(names);
    forall n ensures n in b.tests <==> n in names {
      assert n in b.tests <==> n in multiset(b.tests);
    }
  }

  // ---------------------------------------------------------------- completeness

  /** The receipt has a row for every required identity of its cell. */
  ghost predicate Complete(plan: Plan, rc: Receipt)
  {
    forall i :: i in Required(plan) && i.cell == rc.cell ==> i in IdsIn(rc)
  }

  lemma {:induction false} CompleteCellsCover(plan: Plan, receipts: seq<Receipt>)
    requires forall k :: 0 <= k < |receipts| ==> Complete(plan, receipts[k])
    requires CellsOf(Required(plan)) <= AllCells(receipts)
    ensures Required(plan) <= AllIds(receipts)
  {
    forall i | i in Required(plan) ensures i in AllIds(receipts) {
      assert i.cell in AllCells(receipts);
      var k :| 0 <= k < |receipts| && receipts[k].cell == i.cell;
      assert i in IdsIn(receipts[k]);
    }
  }

  /** Completeness: valid and complete receipts for different cells, in any order, are accepted exactly if every
      required cell has one. */
  lemma {:induction false} CompleteReceiptsAreAccepted(plan: Plan, manifest: Manifest, receipts: seq<Receipt>)
    requires Sound(plan, manifest) && !plan.pendingSplits
    requires EachOk(plan, InventoryOf(plan, manifest), Dedicated(manifest), receipts)
    requires forall k :: 0 <= k < |receipts| ==> Complete(plan, receipts[k])
    ensures Accepts(plan, manifest, receipts) <==> AllCells(receipts) == CellsOf(Required(plan))
  {
    if AllCells(receipts) == CellsOf(Required(plan)) {
      CompleteCellsCover(plan, receipts);
    } else if Accepts(plan, manifest, receipts) {
      AcceptedRowsAreTheRequired(plan, manifest, receipts);
    }
  }
}
