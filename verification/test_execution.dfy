/** The receipt producer `execute_job` of scripts/run_assigned_tests.py: what it writes down is what the checker accepts. */
module TestExecution {
  import opened Common
  import opened NameOrder
  import opened TestPlan
  import opened TestReceipts
  import opened TestTopology

  /** What the processes of one group do: the listing, the probe and log query around a shared group, and the test run.
      `passed` says that the output shows every expected test as passed and no other. */
  datatype Outcome = Outcome(listingExit: int, listed: seq<string>, probeExit: int, logsExit: int, probeSeen: bool,
                             ddlSeen: bool, exit: int, passed: bool, log: string, since: string)

  /** `ready` stands for the checks of files: resources, relocated binaries and their hashes. */
  datatype Machine = Machine(env: Environment, resolve: string -> string, revision: string, timeout: int, ready: bool,
                             clock: nat -> int, outcome: Group -> Outcome)

  ghost predicate Monotone(clock: nat -> int)
  {
    forall i, j :: 0 <= i <= j ==> clock(i) <= clock(j)
  }

  // ---------------------------------------------------------------- the selected assignments

  /** The assignments that require a test in the cell, in plan order. */
  function Selected(jobs: map<string, Config>, rows: seq<Assignment>, c: Cell): (s: seq<Assignment>)
    ensures forall a :: a in s <==> a in rows && Demands(jobs, a, Identity(c, a.test))
    decreases |rows|
  {
    if rows == [] then []
    else
      var init, last := rows[..|rows| - 1], rows[|rows| - 1];
      assert rows == init + [last];
      Selected(jobs, init, c) + if Demands(jobs, last, Identity(c, last.test)) then [last] else []
  }

  function TestsIn(rows: seq<Assignment>): seq<Test>
  {
    seq(|rows|, k requires 0 <= k < |rows| => rows[k].test)
  }

  ghost predicate DistinctDemands(jobs: map<string, Config>, rows: seq<Assignment>)
  {
    forall j, k, i :: 0 <= j < k < |rows| && Demands(jobs, rows[j], i) ==> !Demands(jobs, rows[k], i)
  }

  lemma {:induction false} SelectedAreDistinct(jobs: map<string, Config>, rows: seq<Assignment>, c: Cell)
    requires DistinctDemands(jobs, rows)
    ensures Distinct(TestsIn(Selected(jobs, rows, c)))
    decreases |rows|
  {
    if rows != [] {
      var init, last := rows[..|rows| - 1], rows[|rows| - 1];
      assert DistinctDemands(jobs, init) by {
        forall j, k, i | 0 <= j < k < |init| && Demands(jobs, init[j], i) ensures !Demands(jobs, init[k], i) {
          assert init[j] == rows[j] && init[k] == rows[k];
        }
      }
      SelectedAreDistinct(jobs, init, c);
      var s := Selected(jobs, init, c);
      if Demands(jobs, last, Identity(c, last.test)) {
        forall k | 0 <= k < |s| ensures TestsIn(s)[k] != last.test {
          assert s[k] in init && Demands(jobs, s[k], Identity(c, s[k].test));
          var m :| 0 <= m < |init| && init[m] == s[k];
          assert rows[m] == s[k];
        }
        assert TestsIn(s + [last]) == TestsIn(s) + [last.test];
      } else {
        assert s + [] == s;
      }
    }
  }

  /** The selected tests are those of the required identities of the cell. */
  lemma {:induction false} SelectedAreRequired(plan: Plan, c: Cell)
    ensures forall t :: t in TestsIn(Selected(plan.jobs, plan.assignments, c)) <==> Identity(c, t) in Required(plan)
  {
    var s := Selected(plan.jobs, plan.assignments, c);
    forall t ensures t in TestsIn(s) <==> Identity(c, t) in Required(plan) {
      if t in TestsIn(s) {
        var k :| 0 <= k < |s| && TestsIn(s)[k] == t;
        assert s[k] in s && Identity(c, t) in IdsOf(plan.jobs, s[k]);
      }
      if Identity(c, t) in Required(plan) {
        var a :| a in plan.assignments && Identity(c, t) in IdsOf(plan.jobs, a);
        assert a in s;
        var k :| 0 <= k < |s| && s[k] == a;
        assert TestsIn(s)[k] == t;
      }
    }
  }

  // ---------------------------------------------------------------- groups

  function RowsIn(rows: seq<Assignment>, config: Config, dedicated: set<string>, g: Group): (s: seq<Assignment>)
    ensures forall a :: a in s <==> a in rows && GroupOf(a.test, config, dedicated) == g
    decreases |rows|
  {
    if rows == [] then []
    else
      var init, last := rows[..|rows| - 1], rows[|rows| - 1];
      assert rows == init + [last];
      RowsIn(init, config, dedicated, g) + if GroupOf(last.test, config, dedicated) == g then [last] else []
  }

  /** The loop that groups the selected rows by target and fixture. */
  method GroupRows(rows: seq<Assignment>, config: Config, dedicated: set<string>) returns (groups: map<Group,
                   seq<Assignment>>)
    ensures forall g :: g in groups <==> RowsIn(rows, config, dedicated, g) != []
    ensures forall g :: g in groups ==> groups[g] == RowsIn(rows, config, dedicated, g)
  {
    groups := map[];
    for k := 0 to |rows|
      invariant forall g :: g in groups <==> RowsIn(rows[..k], config, dedicated, g) != []
      invariant forall g :: g in groups ==> groups[g] == RowsIn(rows[..k], config, dedicated, g)
    {
      assert rows[..k + 1][..k] == rows[..k];
      var g := GroupOf(rows[k].test, config, dedicated);
      groups := groups[g := (if g in groups then groups[g] else []) + [rows[k]]];
    }
    assert rows[..|rows|] == rows;
  }

  function NameList(rows: seq<Assignment>): seq<string>
  {
    seq(|rows|, k requires 0 <= k < |rows| => rows[k].test.name)
  }

  lemma {:induction false} NamesOfTheGroup(rows: seq<Assignment>, config: Config, dedicated: set<string>, g: Group)
    ensures NameList(RowsIn(rows, config, dedicated, g)) == NamesIn(TestsIn(rows), config, dedicated, g)
    decreases |rows|
  {
    if rows != [] {
      var init := rows[..|rows| - 1];
      var last, s := rows[|rows| - 1], RowsIn(init, config, dedicated, g);
      NamesOfTheGroup(init, config, dedicated, g);
      assert TestsIn(rows)[..|rows| - 1] == TestsIn(init) && TestsIn(rows)[|rows| - 1] == last.test;
      assert NameList(s + [last]) == NameList(s) + [last.test.name] && s + [] == s && NameList(s) + [] == NameList(s);
    }
  }

  /** Reordering distinct rows does not change the sorted names of a group. */
  lemma {:induction false} SortedNamesIgnoreOrder(a: seq<Test>, b: seq<Test>, config: Config, dedicated: set<string>,
                                                  g: Group)
    requires Distinct(a) && Distinct(b) && forall t :: t in a <==> t in b
    ensures Sorted(NamesIn(a, config, dedicated, g)) == Sorted(NamesIn(b, config, dedicated, g))
  {
    var x, y := NamesIn(a, config, dedicated, g), NamesIn(b, config, dedicated, g);
    NamesAreTheGroup(a, config, dedicated, g);
    NamesAreTheGroup(b, config, dedicated, g);
    forall n ensures multiset(x)[n] == multiset(y)[n] {
      assert n in multiset(x) <==> n in x;
      assert n in multiset(y) <==> n in y;
    }
    assert multiset(x) == multiset(y);
    SortedByCount(x, y);
  }

  // ---------------------------------------------------------------- running one group

  /** The rows a group adds to the receipt. */
  function TestRows(rows: seq<Assignment>, c: Cell, sha: string, before: int, after: int, topology: Topology): seq<TestRow>
  {
    seq(|rows|, k requires 0 <= k < |rows| =>
      TestRow(rows[k].test, c.edition, c.job, true, sha, before, after, topology))
  }

  /** The processes of a group do what is asked of them. */
  predicate Succeeds(o: Outcome, fixture: string, names: seq<string>, container: bool)
  {
    && o.listingExit == 0 && o.listed == names && o.exit == 0 && o.passed
    && (fixture == "shared" ==> container && o.probeExit == 0 && o.logsExit == 0 && o.probeSeen && !o.ddlSeen)
  }

  /** The body of the loop over the groups: a binary row and the rows of its tests. */
  method RunGroup(g: Group, rows: seq<Assignment>, c: Cell, artifact: Artifact, topology: Topology, machine: Machine,
                  tick: nat)
    returns (r: Result<(BinaryRow, seq<TestRow>)>, tick': nat, ghost end: nat)
    requires machine.outcome(g).log != "" && machine.outcome(g).since != ""
    ensures r.Ok? <==> MaySelect(artifact, rows) && Succeeds(machine.outcome(g), g.fixture, Sorted(NameList(rows)),
                                                             Get(machine.env, PostgresContainer, "") != "")
    ensures tick <= end <= tick'
    ensures r.Ok? ==>
              && r.value.0.target == g.target && r.value.0.fixture == g.fixture && r.value.0.sha == artifact.sha
              && r.value.0.listingExit == 0 && r.value.0.exit == 0 && r.value.0.tests == Sorted(NameList(rows))
              && (g.fixture == "shared" ==> ObservationOk(r.value.0.ddl))
              && r.value.1 == TestRows(rows, c, artifact.sha, machine.clock(tick), machine.clock(end), topology)
  {
    tick', end := tick, tick;
    var flags := SelectionFlags(artifact, rows);
    if flags.Err? { r := Err(Validation); return; }
    var o := machine.outcome(g);
    var names := Sorted(NameList(rows));
    var before := machine.clock(tick);
    tick' := tick + 1;
    if o.listingExit != 0 || o.listed != names { r := Err(Validation); return; }
    var ddl: Option<Observation> := None;
    if g.fixture == "shared" {
      if Get(machine.env, PostgresContainer, "") == "" { r := Err(Validation); return; }
      tick' := tick' + 1;
      if o.probeExit != 0 || o.logsExit != 0 || !o.probeSeen || o.ddlSeen { r := Err(Validation); return; }
      ddl := Some(Observation(o.probeExit == 0, o.probeExit, o.logsExit, o.log, o.since));
    }
    tick' := tick' + 1;
    if o.exit != 0 || !o.passed { r := Err(Validation); return; }
    var after := machine.clock(tick');
    end := tick';
    tick' := tick' + 1;
    r := Ok((BinaryRow(g.target, artifact.sha, g.fixture, names, o.listingExit, o.exit, ddl),
             TestRows(rows, c, artifact.sha, before, after, topology)));
  }

  // ---------------------------------------------------------------- running all groups

  /** What does not change while the groups of a job run. */
  datatype Job = Job(cell: Cell, config: Config, dedicated: set<string>, topology: Topology, inv: Inventory,
                     rows: seq<Assignment>, machine: Machine)

  function RowTests(tests: seq<TestRow>): seq<Test>
  {
    seq(|tests|, k requires 0 <= k < |tests| => tests[k].test)
  }

  predicate RowGood(job: Job, row: TestRow)
  {
    && row.passed && row.owner == job.cell.edition && row.job == job.cell.job && row.topology == job.topology
    && (job.cell.edition, row.test.target) in job.inv.artifacts
    && row.sha == job.inv.artifacts[(job.cell.edition, row.test.target)].sha
  }

  predicate Timed(row: TestRow, first: int, last: int)
  {
    first <= row.started <= row.finished <= last
  }

  /** The tests recorded so far: each selected test of the groups in `done`, once. */
  ghost predicate RecordedOnce(job: Job, done: set<Group>, recorded: seq<Test>)
  {
    && Distinct(recorded)
    && forall t :: t in recorded <==> t in TestsIn(job.rows) && GroupOf(t, job.config, job.dedicated) in done
  }

  ghost predicate AllGood(job: Job, tests: seq<TestRow>)
  {
    forall k :: 0 <= k < |tests| ==> RowGood(job, tests[k])
  }

  /** If the clock never runs backwards, the times of the rows are in order. */
  ghost predicate TimesSoFar(clock: nat -> int, tests: seq<TestRow>, tick: nat)
  {
    Monotone(clock) ==> forall k :: 0 <= k < |tests| ==> Timed(tests[k], clock(0), clock(tick))
  }

  /** The test rows after the groups in `done`. */
  ghost predicate RowsSoFar(job: Job, done: set<Group>, tests: seq<TestRow>, tick: nat)
  {
    RecordedOnce(job, done, RowTests(tests)) && AllGood(job, tests) && TimesSoFar(job.machine.clock, tests, tick)
  }

  ghost predicate BinariesSoFar(job: Job, done: set<Group>, binaries: seq<BinaryRow>)
  {
    && (forall k :: 0 <= k < |binaries| ==>
          BinaryOk(job.inv, job.cell.edition, TestsIn(job.rows), job.config, job.dedicated, binaries[k]))
    && Distinct(GroupsBuilt(binaries))
    && (forall g :: g in GroupsBuilt(binaries) <==> g in done)
  }

  lemma {:induction false} OneMoreBinary(job: Job, done: set<Group>, binaries: seq<BinaryRow>, g: Group, b: BinaryRow)
    requires BinariesSoFar(job, done, binaries) && g !in done && b.target == g.target && b.fixture == g.fixture
    requires BinaryOk(job.inv, job.cell.edition, TestsIn(job.rows), job.config, job.dedicated, b)
    ensures BinariesSoFar(job, done + {g}, binaries + [b])
  {
    assert GroupsBuilt(binaries + [b]) == GroupsBuilt(binaries) + [g];
    forall k | 0 <= k < |binaries| ensures GroupsBuilt(binaries)[k] != g {
      assert GroupsBuilt(binaries)[k] in GroupsBuilt(binaries);
    }
  }

  lemma {:induction false} GroupTestsAreDistinct(rows: seq<Assignment>, config: Config, dedicated: set<string>, g: Group)
    requires Distinct(TestsIn(rows))
    ensures Distinct(TestsIn(RowsIn(rows, config, dedicated, g)))
    decreases |rows|
  {
    if rows != [] {
      var init, last := rows[..|rows| - 1], rows[|rows| - 1];
      assert TestsIn(init) == TestsIn(rows)[..|rows| - 1];
      GroupTestsAreDistinct(init, config, dedicated, g);
      var s := RowsIn(init, config, dedicated, g);
      if GroupOf(last.test, config, dedicated) == g {
        forall k | 0 <= k < |s| ensures TestsIn(s)[k] != last.test {
          assert s[k] in init;
          var m :| 0 <= m < |init| && init[m] == s[k];
          assert TestsIn(rows)[m] == s[k].test && TestsIn(rows)[|rows| - 1] == last.test;
        }
        assert TestsIn(s + [last]) == TestsIn(s) + [last.test];
      } else {
        assert s + [] == s;
      }
    }
  }

  lemma {:induction false} InTests(rows: seq<Assignment>, t: Test)
    ensures t in TestsIn(rows) <==> exists a :: a in rows && a.test == t
  {
    if t in TestsIn(rows) {
      var k :| 0 <= k < |rows| && TestsIn(rows)[k] == t;
      assert rows[k] in rows;
    }
    if a :| a in rows && a.test == t {
      var k :| 0 <= k < |rows| && rows[k] == a;
      assert TestsIn(rows)[k] == t;
    }
  }

  lemma {:induction false} GroupTests(rows: seq<Assignment>, config: Config, dedicated: set<string>, g: Group)
    ensures forall t :: t in TestsIn(RowsIn(rows, config, dedicated, g))
                        <==> t in TestsIn(rows) && GroupOf(t, config, dedicated) == g
  {
    var s := RowsIn(rows, config, dedicated, g);
    forall t ensures t in TestsIn(s) <==> t in TestsIn(rows) && GroupOf(t, config, dedicated) == g {
      InTests(s, t);
      InTests(rows, t);
    }
  }

  lemma {:induction false} JoinDistinct(a: seq<Test>, b: seq<Test>)
    requires Distinct(a) && Distinct(b) && forall t :: t in a ==> t !in b
    ensures Distinct(a + b)
  {
    forall j, k | 0 <= j < k < |a + b| ensures (a + b)[j] != (a + b)[k] {
      if j < |a| && |a| <= k { assert a[j] in a && b[k - |a|] in b; }
    }
  }

  lemma {:induction false} RecordOneMore(job: Job, done: set<Group>, recorded: seq<Test>, g: Group)
    requires RecordedOnce(job, done, recorded) && g !in done && Distinct(TestsIn(job.rows))
    ensures RecordedOnce(job, done + {g}, recorded + TestsIn(RowsIn(job.rows, job.config, job.dedicated, g)))
  {
    GroupTests(job.rows, job.config, job.dedicated, g);
    GroupTestsAreDistinct(job.rows, job.config, job.dedicated, g);
    JoinDistinct(recorded, TestsIn(RowsIn(job.rows, job.config, job.dedicated, g)));
  }

  lemma {:induction false} NewRowsAreGood(job: Job, g: Group, more: seq<TestRow>, sha: string, before: int, after: int)
    requires (job.cell.edition, g.target) in job.inv.artifacts && sha == job.inv.artifacts[(job.cell.edition, g.target)].sha
    requires more == TestRows(RowsIn(job.rows, job.config, job.dedicated, g), job.cell, sha, before, after, job.topology)
    ensures AllGood(job, more) && RowTests(more) == TestsIn(RowsIn(job.rows, job.config, job.dedicated, g))
  {
    var rows := RowsIn(job.rows, job.config, job.dedicated, g);
    forall k | 0 <= k < |more| ensures RowGood(job, more[k]) { assert rows[k] in rows; }
  }

  lemma {:induction false} JoinGood(job: Job, tests: seq<TestRow>, more: seq<TestRow>)
    requires AllGood(job, tests) && AllGood(job, more)
    ensures AllGood(job, tests + more) && RowTests(tests + more) == RowTests(tests) + RowTests(more)
  {
  }

  lemma {:induction false} TimesStayInOrder(clock: nat -> int, tests: seq<TestRow>, more: seq<TestRow>, tick: nat, m: nat,
                                            tick': nat)
    requires TimesSoFar(clock, tests, tick) && tick <= m <= tick'
    requires forall k :: 0 <= k < |more| ==> more[k].started == clock(tick) && more[k].finished == clock(m)
    ensures TimesSoFar(clock, tests + more, tick')
  {
  }

  lemma {:induction false} OneMoreGroup(job: Job, done: set<Group>, tests: seq<TestRow>, tick: nat, g: Group,
                                        more: seq<TestRow>,
                     sha: string, m: nat, tick': nat)
    requires RowsSoFar(job, done, tests, tick) && g !in done && tick <= m <= tick' && Distinct(TestsIn(job.rows))
    requires (job.cell.edition, g.target) in job.inv.artifacts && sha == job.inv.artifacts[(job.cell.edition, g.target)].sha
    requires more == TestRows(RowsIn(job.rows, job.config, job.dedicated, g), job.cell, sha,
                              job.machine.clock(tick), job.machine.clock(m), job.topology)
    ensures RowsSoFar(job, done + {g}, tests + more, tick')
  {
    NewRowsAreGood(job, g, more, sha, job.machine.clock(tick), job.machine.clock(m));
    RecordOneMore(job, done, RowTests(tests), g);
    JoinGood(job, tests, more);
    TimesStayInOrder(job.machine.clock, tests, more, tick, m, tick');
  }

  /** The artifacts and processes of the groups are there. */
  ghost predicate Runnable(job: Job, g: Group)
  {
    && (job.cell.edition, g.target) in job.inv.artifacts
    && job.machine.outcome(g).log != "" && job.machine.outcome(g).since != ""
  }

  /** The group selects tests it may select, and its processes succeed. */
  ghost predicate GroupSucceeds(job: Job, g: Group)
  {
    var rows := RowsIn(job.rows, job.config, job.dedicated, g);
    && (job.cell.edition, g.target) in job.inv.artifacts
    && MaySelect(job.inv.artifacts[(job.cell.edition, g.target)], rows)
    && Succeeds(job.machine.outcome(g), g.fixture, Sorted(NameList(rows)), Get(job.machine.env, PostgresContainer, "") != "")
  }

  /** A marker under which the success of one group is unfolded. */
  ghost predicate Asked(g: Group)
  {
    true
  }

  /** `good` are the groups of the job that succeed. */
  ghost predicate AreGood(job: Job, good: set<Group>)
  {
    forall g {:trigger Asked(g)} :: Asked(g) && Runnable(job, g) ==> (g in good <==> GroupSucceeds(job, g))
  }

  /** Runs one group and appends its rows. */
  method RunNext(job: Job, g: Group, rows: seq<Assignment>, tests: seq<TestRow>, binaries: seq<BinaryRow>, tick: nat,
                 ghost done: set<Group>, ghost good: set<Group>)
    returns (ok: bool, tests': seq<TestRow>, binaries': seq<BinaryRow>, tick': nat)
    requires Distinct(TestsIn(job.rows)) && Runnable(job, g) && g !in done && AreGood(job, good)
    requires rows == RowsIn(job.rows, job.config, job.dedicated, g)
    requires RowsSoFar(job, done, tests, tick) && BinariesSoFar(job, done, binaries)
    ensures ok <==> g in good
    ensures ok ==> RowsSoFar(job, done + {g}, tests', tick') && BinariesSoFar(job, done + {g}, binaries')
  {
    assert Asked(g);
    var artifact := job.inv.artifacts[(job.cell.edition, g.target)];
    var r, next, end := RunGroup(g, rows, job.cell, artifact, job.topology, job.machine, tick);
    if r.Err? { return false, tests, binaries, next; }
    NamesOfTheGroup(job.rows, job.config, job.dedicated, g);
    OneMoreBinary(job, done, binaries, g, r.value.0);
    OneMoreGroup(job, done, tests, tick, g, r.value.1, artifact.sha, end, next);
    return true, tests + r.value.1, binaries + [r.value.0], next;
  }

  lemma {:induction false} NoGroupYet(job: Job, tick: nat)
    ensures RowsSoFar(job, {}, [], tick) && BinariesSoFar(job, {}, [])
  {
  }

  /** The groups run one after the other, in some order; on failure what was recorded so far is returned. */
  method RunGroups(job: Job, groups: map<Group, seq<Assignment>>, ghost good: set<Group>)
    returns (ok: bool, tests: seq<TestRow>, binaries: seq<BinaryRow>, tick: nat)
    requires Distinct(TestsIn(job.rows))
    requires forall g :: g in groups ==> groups[g] == RowsIn(job.rows, job.config, job.dedicated, g)
    requires AreGood(job, good) && forall g :: g in groups ==> Runnable(job, g)
    ensures ok <==> groups.Keys <= good
    ensures ok ==> RowsSoFar(job, groups.Keys, tests, tick) && BinariesSoFar(job, groups.Keys, binaries)
  {
    ok, tests, binaries, tick := true, [], [], 1;
    NoGroupYet(job, 1);
    var left := groups.Keys;
    ghost var done: set<Group> := {};
    while left != {}
      invariant left <= groups.Keys && done == groups.Keys - left
      invariant RowsSoFar(job, done, tests, tick) && BinariesSoFar(job, done, binaries)
      invariant done <= good
      decreases left
    {
      var g :| g in left;
      ok, tests, binaries, tick := RunNext(job, g, groups[g], tests, binaries, tick, done, good);
      if !ok { return; }
      left, done := left - {g}, done + {g};
    }
    assert done == groups.Keys;
    ok := true;
  }

  // ---------------------------------------------------------------- the job

  /** The checker sees the rows in another order than the producer selected them. */
  lemma {:induction false} BinariesFitTheRows(job: Job, done: set<Group>, binaries: seq<BinaryRow>, rows: seq<Test>)
    requires BinariesSoFar(job, done, binaries) && Distinct(TestsIn(job.rows)) && Distinct(rows)
    requires forall t :: t in rows <==> t in TestsIn(job.rows)
    requires forall g :: g in done <==> g in GroupsOf(TestsIn(job.rows), job.config, job.dedicated)
    ensures BinariesOk(job.inv, job.cell.edition, rows, job.config, job.dedicated, binaries)
  {
    forall k | 0 <= k < |binaries|
      ensures BinaryOk(job.inv, job.cell.edition, rows, job.config, job.dedicated, binaries[k])
    {
      SortedNamesIgnoreOrder(rows, TestsIn(job.rows), job.config, job.dedicated, Group(binaries[k].target, binaries[k].fixture));
    }
    forall g ensures g in GroupsOf(rows, job.config, job.dedicated) <==> g in GroupsOf(TestsIn(job.rows), job.config, job.dedicated) {
    }
  }

  lemma {:induction false} SoundAssignments(plan: Plan, manifest: Manifest)
    requires Sound(plan, manifest)
    ensures DistinctDemands(plan.jobs, plan.assignments)
    ensures forall k :: 0 <= k < |plan.assignments| ==>
              (plan.assignments[k].owner, plan.assignments[k].test.target) in ArtifactsOf(plan.artifacts)
  {
    var m := ArtifactsOf(plan.artifacts);
    forall k | 0 <= k < |plan.assignments| ensures (plan.assignments[k].owner, plan.assignments[k].test.target) in m {
      assert AssignmentShape(plan, m, plan.assignments[k]);
    }
  }

  lemma {:induction false} SelectedHaveArtifacts(plan: Plan, artifacts: Artifacts, c: Cell, t: Test)
    requires forall k :: 0 <= k < |plan.assignments| ==> (plan.assignments[k].owner, plan.assignments[k].test.target) in artifacts
    requires t in TestsIn(Selected(plan.jobs, plan.assignments, c))
    ensures (c.edition, t.target) in artifacts
  {
    var rows := Selected(plan.jobs, plan.assignments, c);
    var k :| 0 <= k < |rows| && TestsIn(rows)[k] == t;
    assert rows[k] in rows;
    var m :| 0 <= m < |plan.assignments| && plan.assignments[m] == rows[k];
  }

  /** The selection of a cell of a sound plan. */
  lemma {:induction false} SelectionOfSound(plan: Plan, manifest: Manifest, c: Cell)
    requires Sound(plan, manifest)
    ensures var rows := Selected(plan.jobs, plan.assignments, c);
            && Distinct(TestsIn(rows))
            && (forall t :: t in TestsIn(rows) ==> (c.edition, t.target) in ArtifactsOf(plan.artifacts))
  {
    SoundAssignments(plan, manifest);
    SelectedAreDistinct(plan.jobs, plan.assignments, c);
    forall t | t in TestsIn(Selected(plan.jobs, plan.assignments, c))
      ensures (c.edition, t.target) in ArtifactsOf(plan.artifacts)
    { SelectedHaveArtifacts(plan, ArtifactsOf(plan.artifacts), c, t); }
  }

  function JobOf(plan: Plan, manifest: Manifest, c: Cell, machine: Machine): Job
    requires c.job in plan.jobs
  {
    Job(c, plan.jobs[c.job], Dedicated(manifest), TopologyOf(plan.jobs[c.job]), InventoryOf(plan, manifest),
        Selected(plan.jobs, plan.assignments, c), machine)
  }

  function Issued(plan: Plan, job: Job, tests: seq<TestRow>, binaries: seq<BinaryRow>, tick: nat, passed: bool): Receipt
  {
    Receipt(1, job.inv.fields, job.cell, job.topology, passed, job.machine.clock(0), job.machine.clock(tick), tests,
            if passed then HelperEvidence(plan.helpers, job.cell.edition, Members(TestsIn(job.rows))) else [], binaries)
  }

  lemma {:induction false} RowsOfIssued(plan: Plan, manifest: Manifest, job: Job, tests: seq<TestRow>,
                                        binaries: seq<BinaryRow>, tick: nat, done: set<Group>)
    requires job.cell.job in plan.jobs && job == JobOf(plan, manifest, job.cell, job.machine)
    requires RowsSoFar(job, done, tests, tick) && Monotone(job.machine.clock)
    ensures RowsOk(job.inv, Issued(plan, job, tests, binaries, tick, true), job.topology)
  {
    var rc := Issued(plan, job, tests, binaries, tick, true);
    assert TestsOf(rc) == RowTests(tests);
    SelectedAreRequired(plan, job.cell);
    ExpectedIsRequired(plan);
    forall k | 0 <= k < |tests| ensures RowOk(job.inv, rc, job.topology, tests[k]) {
      assert RowTests(tests)[k] in RowTests(tests);
      assert Identity(job.cell, tests[k].test) in Required(plan);
      assert RowGood(job, tests[k]) && Timed(tests[k], rc.started, rc.finished);
    }
  }

  ghost predicate IsJobOf(plan: Plan, manifest: Manifest, job: Job)
  {
    job.cell.job in plan.jobs && job == JobOf(plan, manifest, job.cell, job.machine) && Distinct(TestsIn(job.rows)) && job.rows != []
  }

  lemma {:induction false} AllRecorded(job: Job, done: set<Group>, recorded: seq<Test>)
    requires RecordedOnce(job, done, recorded) && done == GroupsOf(TestsIn(job.rows), job.config, job.dedicated)
    ensures Distinct(recorded) && forall t :: t in recorded <==> t in TestsIn(job.rows)
  {
    forall t | t in TestsIn(job.rows) ensures GroupOf(t, job.config, job.dedicated) in done { }
  }

  lemma {:induction false} IssuedIsComplete(plan: Plan, manifest: Manifest, job: Job, rc: Receipt)
    requires IsJobOf(plan, manifest, job) && rc.cell == job.cell
    requires forall t :: t in TestsOf(rc) <==> t in TestsIn(job.rows)
    ensures Complete(plan, rc)
  {
    SelectedAreRequired(plan, job.cell);
    forall i | i in Required(plan) && i.cell == job.cell ensures i in IdsIn(rc) { assert i == Identity(job.cell, i.test); }
  }

  /** A job that ran all its groups issues a receipt that is complete and, if the clock never ran backwards, valid. */
  lemma {:induction false} IssuedIsValid(plan: Plan, manifest: Manifest, job: Job, tests: seq<TestRow>,
                                         binaries: seq<BinaryRow>, tick: nat, done: set<Group>)
    requires IsJobOf(plan, manifest, job) && RowsSoFar(job, done, tests, tick) && BinariesSoFar(job, done, binaries)
    requires done == GroupsOf(TestsIn(job.rows), job.config, job.dedicated)
    ensures var rc := Issued(plan, job, tests, binaries, tick, true);
            && Complete(plan, rc)
            && (Monotone(job.machine.clock) ==> ReceiptOk(plan, job.inv, job.dedicated, rc))
  {
    var rc := Issued(plan, job, tests, binaries, tick, true);
    assert TestsOf(rc) == RowTests(tests);
    AllRecorded(job, done, RowTests(tests));
    IssuedIsComplete(plan, manifest, job, rc);
    if Monotone(job.machine.clock) {
      RowsOfIssued(plan, manifest, job, tests, binaries, tick, done);
      BinariesFitTheRows(job, done, binaries, RowTests(tests));
      assert Members(TestsOf(rc)) == Members(TestsIn(job.rows));
      assert TestsIn(job.rows)[0] in RowTests(tests);
    }
  }

  /** What the job needs before its first group runs. */
  ghost predicate Startable(plan: Plan, manifest: Manifest, c: Cell, machine: Machine)
  {
    && Sound(plan, manifest) && machine.revision == plan.fingerprints.revision
    && c.edition in {"ce", "ee"} && c.job in plan.jobs
    && TopologyEnvironment(plan.jobs[c.job], c.edition, machine.env, machine.resolve).Ok?
    && Selected(plan.jobs, plan.assignments, c) != [] && machine.timeout > 0 && machine.ready
  }

  /** Every group of the job succeeds. */
  ghost predicate AllSucceed(job: Job)
  {
    forall g :: g in GroupsOf(TestsIn(job.rows), job.config, job.dedicated) ==> GroupSucceeds(job, g)
  }

  ghost predicate Logged(machine: Machine)
  {
    forall g :: machine.outcome(g).log != "" && machine.outcome(g).since != ""
  }

  lemma {:induction false} GoodGroups(job: Job) returns (good: set<Group>)
    ensures AreGood(job, good)
    ensures GroupsOf(TestsIn(job.rows), job.config, job.dedicated) <= good <==> AllSucceed(job)
  {
    var groups := GroupsOf(TestsIn(job.rows), job.config, job.dedicated);
    good := set g | g in groups && GroupSucceeds(job, g);
    forall g | GroupSucceeds(job, g) ensures g in groups {
      var rows := RowsIn(job.rows, job.config, job.dedicated, g);
      GroupTests(job.rows, job.config, job.dedicated, g);
      assert TestsIn(rows)[0] in TestsIn(rows);
    }
  }

  /** The receipt is what the job issues after all its groups have run. */
  ghost predicate IssuedFrom(plan: Plan, job: Job, rc: Receipt)
  {
    var groups := GroupsOf(TestsIn(job.rows), job.config, job.dedicated);
    exists tests, binaries, tick ::
      && RowsSoFar(job, groups, tests, tick) && BinariesSoFar(job, groups, binaries)
      && rc == Issued(plan, job, tests, binaries, tick, true)
  }

  /** The receipt comes from a passed run of `execute_job` for its cell on this machine. */
  ghost predicate IssuedBy(plan: Plan, manifest: Manifest, machine: Machine, rc: Receipt)
  {
    && Startable(plan, manifest, rc.cell, machine)
    && AllSucceed(JobOf(plan, manifest, rc.cell, machine))
    && IssuedFrom(plan, JobOf(plan, manifest, rc.cell, machine), rc)
  }

  /** Runs the groups of a started job and issues its receipt. */
  method RunJob(plan: Plan, manifest: Manifest, job: Job) returns (ok: bool, rc: Receipt)
    requires IsJobOf(plan, manifest, job) && Logged(job.machine)
    requires forall t :: t in TestsIn(job.rows) ==> (job.cell.edition, t.target) in job.inv.artifacts
    ensures rc.cell == job.cell && rc.passed == ok
    ensures ok <==> AllSucceed(job)
    ensures ok ==> IssuedFrom(plan, job, rc) && Complete(plan, rc)
    ensures ok && Monotone(job.machine.clock) ==> ReceiptOk(plan, job.inv, job.dedicated, rc)
  {
    var groups := GroupRows(job.rows, job.config, job.dedicated);
    GroupsAreTheRows(job.rows, job.config, job.dedicated, groups.Keys);
    ghost var good := GoodGroups(job);
    assert forall g :: g in groups ==> Runnable(job, g);
    var tests, binaries, tick;
    ok, tests, binaries, tick := RunGroups(job, groups, good);
    if ok { IssuedIsValid(plan, manifest, job, tests, binaries, tick, groups.Keys); }
    rc := Issued(plan, job, tests, binaries, tick, ok);
  }

  /** The checks before the first group runs. */
  method StartJob(plan: Plan, c: Cell, manifest: Manifest, machine: Machine) returns (job: Option<Job>)
    ensures job.Some? <==> Startable(plan, manifest, c, machine)
    ensures job.Some? ==> job.value == JobOf(plan, manifest, c, machine)
  {
    var provenance := Provenance(plan, manifest);
    if provenance.Err? || machine.revision != plan.fingerprints.revision { return None; }
    if c.edition !in {"ce", "ee"} || c.job !in plan.jobs { return None; }
    var prepared := TopologyEnvironment(plan.jobs[c.job], c.edition, machine.env, machine.resolve);
    if prepared.Err? { return None; }
    var rows := Selected(plan.jobs, plan.assignments, c);
    if rows == [] || machine.timeout <= 0 || !machine.ready { return None; }
    return Some(Job(c, plan.jobs[c.job], Dedicated(manifest), prepared.value.1, provenance.value, rows, machine));
  }

  lemma {:induction false} StartedIsJobOf(plan: Plan, manifest: Manifest, c: Cell, machine: Machine)
    requires Startable(plan, manifest, c, machine)
    ensures var job := JobOf(plan, manifest, c, machine);
            IsJobOf(plan, manifest, job) && forall t :: t in TestsIn(job.rows) ==> (c.edition, t.target) in job.inv.artifacts
  {
    SelectionOfSound(plan, manifest, c);
  }

  /** `execute_job`. A passed receipt is for the cell, complete and, under a clock that never runs backwards, valid; it is
      issued exactly if the job could start and every group ran as asked. A failed run leaves a receipt marked as failed. */
  method ExecuteJob(plan: Plan, c: Cell, manifest: Manifest, machine: Machine) returns (ok: bool, rc: Option<Receipt>)
    requires Logged(machine)
    ensures rc.Some? <==> Startable(plan, manifest, c, machine)
    ensures ok <==> Startable(plan, manifest, c, machine) && AllSucceed(JobOf(plan, manifest, c, machine))
    ensures rc.Some? ==> rc.value.passed == ok && rc.value.cell == c
    ensures ok ==> IssuedBy(plan, manifest, machine, rc.value) && Complete(plan, rc.value)
    ensures ok && Monotone(machine.clock) ==> ReceiptOk(plan, InventoryOf(plan, manifest), Dedicated(manifest), rc.value)
  {
    var job := StartJob(plan, c, manifest, machine);
    if job.None? { return false, None; }
    StartedIsJobOf(plan, manifest, c, machine);
    var receipt;
    ok, receipt := RunJob(plan, manifest, job.value);
    rc := Some(receipt);
  }

  lemma {:induction false} GroupsAreTheRows(rows: seq<Assignment>, config: Config, dedicated: set<string>, groups: set<Group>)
    requires forall g :: g in groups <==> RowsIn(rows, config, dedicated, g) != []
    ensures groups == GroupsOf(TestsIn(rows), config, dedicated)
  {
    forall g ensures g in groups <==> g in GroupsOf(TestsIn(rows), config, dedicated) {
      var s := RowsIn(rows, config, dedicated, g);
      GroupTests(rows, config, dedicated, g);
      if g in groups { assert TestsIn(s)[0] in TestsIn(s); }
      if g in GroupsOf(TestsIn(rows), config, dedicated) {
        var t :| t in TestsIn(rows) && GroupOf(t, config, dedicated) == g;
        assert t in TestsIn(s);
      }
    }
  }

  // ---------------------------------------------------------------- producer and checker

  lemma {:induction false} IssuedReceiptIsValid(plan: Plan, manifest: Manifest, machine: Machine, rc: Receipt)
    requires IssuedBy(plan, manifest, machine, rc) && Monotone(machine.clock)
    ensures ReceiptOk(plan, InventoryOf(plan, manifest), Dedicated(manifest), rc) && Complete(plan, rc)
  {
    var job := JobOf(plan, manifest, rc.cell, machine);
    var groups := GroupsOf(TestsIn(job.rows), job.config, job.dedicated);
    StartedIsJobOf(plan, manifest, rc.cell, machine);
    var tests, binaries, tick :| RowsSoFar(job, groups, tests, tick) && BinariesSoFar(job, groups, binaries)
      && rc == Issued(plan, job, tests, binaries, tick, true);
    IssuedIsValid(plan, manifest, job, tests, binaries, tick, groups);
  }

  /** Producer and checker agree: receipts of passed runs of the plan, each on a machine whose clock never runs backwards and
      one for every required cell, are accepted in whatever order they come, and every required test ran exactly once. */
  lemma {:induction false} PassedJobsAreAccepted(plan: Plan, manifest: Manifest, receipts: seq<Receipt>, machines: seq<Machine>)
    requires Sound(plan, manifest) && !plan.pendingSplits && CellsDistinct(receipts) && |machines| == |receipts|
    requires forall k :: 0 <= k < |receipts| ==>
               IssuedBy(plan, manifest, machines[k], receipts[k]) && Monotone(machines[k].clock)
    requires AllCells(receipts) == CellsOf(Required(plan))
    ensures Accepts(plan, manifest, receipts)
    ensures forall i :: i in Required(plan) ==> exists k, m :: IsOnlyRow(receipts, k, m, i)
  {
    forall k | 0 <= k < |receipts|
      ensures ReceiptOk(plan, InventoryOf(plan, manifest), Dedicated(manifest), receipts[k]) && Complete(plan, receipts[k])
    { IssuedReceiptIsValid(plan, manifest, machines[k], receipts[k]); }
    CompleteReceiptsAreAccepted(plan, manifest, receipts);
    forall i | i in Required(plan) ensures exists k, m :: IsOnlyRow(receipts, k, m, i) {
      EveryRequiredTestRanOnce(plan, manifest, receipts, i);
    }
  }

  /** The job of a cell starts and passes. */
  ghost predicate Passes(plan: Plan, manifest: Manifest, c: Cell, machine: Machine)
  {
    Startable(plan, manifest, c, machine) && AllSucceed(JobOf(plan, manifest, c, machine))
  }

  /** A receipt that is marked as passed is valid and complete. */
  ghost predicate Honest(plan: Plan, manifest: Manifest, rc: Receipt)
  {
    rc.passed ==> ReceiptOk(plan, InventoryOf(plan, manifest), Dedicated(manifest), rc) && Complete(plan, rc)
  }

  lemma {:induction false} HonestReceiptsAreAcceptedExactlyWhen(plan: Plan, manifest: Manifest, receipts: seq<Receipt>)
    requires AllHonest(plan, manifest, receipts) && CellsDistinct(receipts)
    ensures Accepts(plan, manifest, receipts)
       <==> Sound(plan, manifest) && !plan.pendingSplits && AllCells(receipts) == CellsOf(Required(plan))
            && forall k :: 0 <= k < |receipts| ==> receipts[k].passed
  {
    if Accepts(plan, manifest, receipts) {
      AcceptedRowsAreTheRequired(plan, manifest, receipts);
      AcceptedHavePassed(plan, manifest, receipts);
    } else if Sound(plan, manifest) && !plan.pendingSplits && forall k :: 0 <= k < |receipts| ==> receipts[k].passed {
      assert forall k :: 0 <= k < |receipts| ==> Honest(plan, manifest, receipts[k]);
      CompleteReceiptsAreAccepted(plan, manifest, receipts);
    }
  }

  lemma {:induction false} AcceptedHavePassed(plan: Plan, manifest: Manifest, receipts: seq<Receipt>)
    requires EachOk(plan, InventoryOf(plan, manifest), Dedicated(manifest), receipts)
    ensures forall k :: 0 <= k < |receipts| ==> receipts[k].passed
  {
    forall k | 0 <= k < |receipts| ensures receipts[k].passed {
      assert ReceiptOk(plan, InventoryOf(plan, manifest), Dedicated(manifest), receipts[k]);
    }
  }

  /** The receipts left by the jobs of the first cells: receipt `m` is that of job `at[m]`; every job that `starts` left one,
      marked as passed if the job `passes`. */
  ghost predicate LeftBy(cells: seq<Cell>, starts: seq<bool>, passes: seq<bool>, at: seq<nat>, receipts: seq<Receipt>)
    requires |starts| == |passes| <= |cells|
  {
    && |at| == |receipts| && (forall i, j :: 0 <= i < j < |at| ==> at[i] < at[j])
    && (forall m :: 0 <= m < |at| ==> at[m] < |starts| && starts[at[m]])
    && (forall m :: 0 <= m < |at| ==> receipts[m].cell == cells[at[m]] && receipts[m].passed == passes[at[m]])
    && (forall k :: 0 <= k < |starts| && starts[k] ==> k in at)
  }

  lemma {:induction false} OneMoreLeft(cells: seq<Cell>, starts: seq<bool>, passes: seq<bool>, at: seq<nat>,
                                       receipts: seq<Receipt>, rc: Receipt, ok: bool)
    requires |starts| == |passes| < |cells| && LeftBy(cells, starts, passes, at, receipts)
    requires rc.cell == cells[|starts|] && rc.passed == ok
    ensures LeftBy(cells, starts + [true], passes + [ok], at + [|starts|], receipts + [rc])
  {
    var n, at' := |starts|, at + [|starts|];
    assert at'[|at|] == n;
    forall k | 0 <= k < n && starts[k] ensures k in at' { assert k in at; }
  }

  lemma {:induction false} NothingLeft(cells: seq<Cell>, starts: seq<bool>, passes: seq<bool>, at: seq<nat>, receipts: seq<Receipt>)
    requires |starts| == |passes| < |cells| && LeftBy(cells, starts, passes, at, receipts)
    ensures LeftBy(cells, starts + [false], passes + [false], at, receipts)
  {
  }

  lemma {:induction false} LeftAreDistinct(cells: seq<Cell>, starts: seq<bool>, passes: seq<bool>, at: seq<nat>, receipts: seq<Receipt>)
    requires |starts| == |passes| <= |cells| && LeftBy(cells, starts, passes, at, receipts) && Distinct(cells)
    ensures CellsDistinct(receipts)
  {
    forall j, k | 0 <= j < k < |receipts| ensures receipts[j].cell != receipts[k].cell { assert at[j] < at[k]; }
  }

  lemma {:induction false} AllPassedCovers(cells: seq<Cell>, starts: seq<bool>, passes: seq<bool>, at: seq<nat>,
                                           receipts: seq<Receipt>, c: Cell)
    requires |starts| == |passes| == |cells| && LeftBy(cells, starts, passes, at, receipts) && c in cells
    requires forall k :: 0 <= k < |cells| ==> starts[k]
    ensures c in AllCells(receipts)
  {
    var k :| 0 <= k < |cells| && cells[k] == c;
    assert starts[k] && k in at;
    var m :| 0 <= m < |at| && at[m] == k;
    assert receipts[m].cell == c;
  }

  lemma {:induction false} CoveredHasStarted(cells: seq<Cell>, starts: seq<bool>, passes: seq<bool>, at: seq<nat>,
                                             receipts: seq<Receipt>, k: nat)
    requires |starts| == |passes| == |cells| && LeftBy(cells, starts, passes, at, receipts) && Distinct(cells)
    requires k < |cells| && cells[k] in AllCells(receipts)
    ensures k in at
  {
    var m :| 0 <= m < |receipts| && receipts[m].cell == cells[k];
    assert cells[at[m]] == cells[k];
    assert at[m] == k;
  }

  /** What is left covers the cells and passes exactly if every job does. */
  lemma {:induction false} LeftCoversExactlyWhen(cells: seq<Cell>, starts: seq<bool>, passes: seq<bool>, at: seq<nat>,
                                                 receipts: seq<Receipt>, required: set<Cell>)
    requires |starts| == |passes| == |cells| && Distinct(cells) && LeftBy(cells, starts, passes, at, receipts)
    requires (forall c :: c in cells <==> c in required) && forall k :: 0 <= k < |cells| && passes[k] ==> starts[k]
    ensures AllCells(receipts) == required && (forall m :: 0 <= m < |receipts| ==> receipts[m].passed)
       <==> forall k :: 0 <= k < |cells| ==> passes[k]
  {
    if forall k :: 0 <= k < |cells| ==> passes[k] {
      forall c ensures c in AllCells(receipts) <==> c in required {
        if c in required { AllPassedCovers(cells, starts, passes, at, receipts, c); }
        if c in AllCells(receipts) {
          var m :| 0 <= m < |receipts| && receipts[m].cell == c;
          assert cells[at[m]] in cells;
        }
      }
    }
    if AllCells(receipts) == required && forall m :: 0 <= m < |receipts| ==> receipts[m].passed {
      forall k | 0 <= k < |cells| ensures passes[k] {
        assert cells[k] in cells;
        CoveredHasStarted(cells, starts, passes, at, receipts, k);
        var m :| 0 <= m < |at| && at[m] == k;
        assert receipts[m].passed;
      }
    }
  }

  /** A marker under which the verdict about one job is unfolded. */
  ghost predicate Told(k: int)
  {
    true
  }

  /** `passes` tells which of the first jobs start and pass. */
  ghost predicate AreVerdicts(plan: Plan, manifest: Manifest, cells: seq<Cell>, machines: seq<Machine>, passes: seq<bool>)
    requires |passes| <= |cells| == |machines|
  {
    forall k {:trigger Told(k)} :: Told(k) && 0 <= k < |passes| ==> (passes[k] <==> Passes(plan, manifest, cells[k], machines[k]))
  }

  lemma {:induction false} OneMoreVerdict(plan: Plan, manifest: Manifest, cells: seq<Cell>, machines: seq<Machine>,
                                          passes: seq<bool>, ok: bool)
    requires |passes| < |cells| == |machines| && AreVerdicts(plan, manifest, cells, machines, passes)
    requires ok <==> Passes(plan, manifest, cells[|passes|], machines[|passes|])
    ensures AreVerdicts(plan, manifest, cells, machines, passes + [ok])
  {
  }

  lemma {:induction false} VerdictsOfAll(plan: Plan, manifest: Manifest, cells: seq<Cell>, machines: seq<Machine>, passes: seq<bool>)
    requires |passes| == |cells| == |machines| && AreVerdicts(plan, manifest, cells, machines, passes)
    ensures (forall k :: 0 <= k < |cells| ==> passes[k])
       <==> forall k :: 0 <= k < |cells| ==> Passes(plan, manifest, cells[k], machines[k])
  {
    forall k | 0 <= k < |cells| ensures passes[k] <==> Passes(plan, manifest, cells[k], machines[k]) { assert Told(k); }
  }

  ghost predicate AllHonest(plan: Plan, manifest: Manifest, receipts: seq<Receipt>)
  {
    forall m :: 0 <= m < |receipts| ==> Honest(plan, manifest, receipts[m])
  }

  lemma {:induction false} OneMoreHonest(plan: Plan, manifest: Manifest, receipts: seq<Receipt>, rc: Receipt)
    requires AllHonest(plan, manifest, receipts) && Honest(plan, manifest, rc)
    ensures AllHonest(plan, manifest, receipts + [rc])
  {
    var more := receipts + [rc];
    forall m | 0 <= m < |more| ensures Honest(plan, manifest, more[m]) { if m < |receipts| { assert more[m] == receipts[m]; } }
  }

  ghost predicate Steady(machines: seq<Machine>)
  {
    forall k :: 0 <= k < |machines| ==> Logged(machines[k]) && Monotone(machines[k].clock)
  }

  /** One job, as its receipt tells: a passed one is valid and complete. */
  method RunCell(plan: Plan, manifest: Manifest, c: Cell, machine: Machine) returns (ok: bool, rc: Option<Receipt>)
    requires Logged(machine) && Monotone(machine.clock)
    ensures ok <==> Passes(plan, manifest, c, machine)
    ensures ok ==> rc.Some?
    ensures rc.Some? ==> rc.value.cell == c && rc.value.passed == ok && Honest(plan, manifest, rc.value)
  {
    ok, rc := ExecuteJob(plan, c, manifest, machine);
  }

  /** Runs the jobs of all cells and collects the receipts they leave. */
  method RunAll(plan: Plan, manifest: Manifest, cells: seq<Cell>, machines: seq<Machine>)
    returns (receipts: seq<Receipt>, ghost starts: seq<bool>, ghost passes: seq<bool>, ghost at: seq<nat>)
    requires |machines| == |cells| && Steady(machines)
    ensures |starts| == |passes| == |cells| && LeftBy(cells, starts, passes, at, receipts)
    ensures AreVerdicts(plan, manifest, cells, machines, passes) && AllHonest(plan, manifest, receipts)
    ensures forall k :: 0 <= k < |cells| && passes[k] ==> starts[k]
  {
    receipts, starts, passes, at := [], [], [], [];
    for n := 0 to |cells|
      invariant |starts| == |passes| == n && LeftBy(cells, starts, passes, at, receipts)
      invariant AreVerdicts(plan, manifest, cells, machines, passes) && AllHonest(plan, manifest, receipts)
      invariant forall k :: 0 <= k < n && passes[k] ==> starts[k]
    {
      var ok, rc := RunCell(plan, manifest, cells[n], machines[n]);
      OneMoreVerdict(plan, manifest, cells, machines, passes, ok);
      if rc.Some? {
        OneMoreLeft(cells, starts, passes, at, receipts, rc.value, ok);
        OneMoreHonest(plan, manifest, receipts, rc.value);
        receipts, at := receipts + [rc.value], at + [n];
      } else {
        NothingLeft(cells, starts, passes, at, receipts);
      }
      starts, passes := starts + [rc.Some?], passes + [ok];
    }
  }

  /** Running the jobs of exactly the required cells, in any order, and aggregating what they leave succeeds if and only if
      the plan is sound, no split is pending and every job passes; and then it counts identities and cells. */
  method RunAndAggregate(plan: Plan, manifest: Manifest, cells: seq<Cell>, machines: seq<Machine>) returns (r: Result<Summary>)
    requires |machines| == |cells| && Steady(machines)
    requires Distinct(cells) && forall c :: c in cells <==> c in CellsOf(Required(plan))
    ensures r.Ok? <==> Sound(plan, manifest) && !plan.pendingSplits
                       && forall k :: 0 <= k < |cells| ==> Passes(plan, manifest, cells[k], machines[k])
    ensures r.Ok? ==> r.value == Summary(|Required(plan)|, |CellsOf(Required(plan))|)
  {
    var receipts, starts, passes, at := RunAll(plan, manifest, cells, machines);
    LeftAreDistinct(cells, starts, passes, at, receipts);
    LeftCoversExactlyWhen(cells, starts, passes, at, receipts, CellsOf(Required(plan)));
    HonestReceiptsAreAcceptedExactlyWhen(plan, manifest, receipts);
    VerdictsOfAll(plan, manifest, cells, machines, passes);
    r := Aggregate(plan, receipts, manifest);
  }
}
