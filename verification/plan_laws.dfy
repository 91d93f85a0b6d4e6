/** The validation of assignment plans in scripts/run_assigned_tests.py, written out on the columns of the plan. */
module PlanLaws {
  import opened Common
  import opened TestPlan

  /** The binaries: known editions, valid hashes, tests without repeats, ignored tests among them, and the edition's features. */
  ghost predicate GoodArtifacts(plan: Plan)
  {
    && (forall k :: 0 <= k < |plan.artifacts| ==>
          var a := plan.artifacts[k];
          && (a.edition == "ce" || a.edition == "ee") && a.validHash && Distinct(a.tests)
          && (forall t :: t in a.ignored ==> t in a.tests)
          && (a.target.package == "yorishiro" && a.edition == "ee" ==> "community" in a.features && "enterprise" in a.features)
          && (a.target.package == "yorishiro" && a.edition == "ce" ==> "community" in a.features && "enterprise" !in a.features))
    && (forall j, k :: 0 <= j < k < |plan.artifacts| ==>
          plan.artifacts[j].edition != plan.artifacts[k].edition || plan.artifacts[j].target != plan.artifacts[k].target)
  }

  ghost predicate HasTest(plan: Plan, edition: string, test: Test)
  {
    exists a :: a in plan.artifacts && a.edition == edition && a.target == test.target && test.name in a.tests
  }

  /** The assignment asks for the job, and the job is not opt-in. */
  predicate Asks(plan: Plan, a: Assignment, job: string)
  {
    job in a.jobs && job in plan.jobs && !plan.jobs[job].manual
  }

  /** A known edition, jobs that exist and a role that is executed. */
  predicate GoodShape(plan: Plan, a: Assignment)
  {
    && (a.owner == "ce" || a.owner == "ee") && |a.jobs| > 0 && (forall job :: job in a.jobs ==> job in plan.jobs)
    && a.role != "helper" && a.role != "pending_split"
  }

  /** Every assignment is executable: a known edition, jobs that exist, each once, and a test of the edition's binary. */
  ghost predicate GoodRows(plan: Plan)
  {
    forall k :: 0 <= k < |plan.assignments| ==>
      var a := plan.assignments[k]; GoodShape(plan, a) && Distinct(a.jobs) && HasTest(plan, a.owner, a.test)
  }

  /** No test is required twice by one edition for one job. */
  ghost predicate RepeatsNothing(plan: Plan)
  {
    forall j, k, job | 0 <= j < k < |plan.assignments| && plan.assignments[j].owner == plan.assignments[k].owner
                       && plan.assignments[j].test == plan.assignments[k].test && Asks(plan, plan.assignments[j], job) ::
      !Asks(plan, plan.assignments[k], job)
  }

  ghost predicate GoodAssignments(plan: Plan)
  {
    GoodRows(plan) && RepeatsNothing(plan) && exists a, job :: a in plan.assignments && Asks(plan, a, job)
  }

  /** One valid process binary for each edition. */
  predicate GoodPrograms(plan: Plan)
  {
    && |plan.programs| == 2 && plan.programs[0].valid && plan.programs[1].valid
    && ((plan.programs[0].edition == "ce" && plan.programs[1].edition == "ee")
        || (plan.programs[0].edition == "ee" && plan.programs[1].edition == "ce"))
  }

  ghost predicate OnPostgres(plan: Plan, name: string)
  {
    exists a, job ::
      a in plan.assignments && a.test.name == name && job in a.jobs && job in plan.jobs && plan.jobs[job].database == "postgres"
  }

  /** The classification of PostgreSQL tests: without repeats, about assigned PostgreSQL tests only, declared in the
      manifest, and present if there is any such test. */
  ghost predicate GoodClassification(plan: Plan, manifest: Manifest)
  {
    && (manifest.dedicated.None? ==> forall name :: !OnPostgres(plan, name))
    && (manifest.dedicated.Some? ==>
          var entries := manifest.dedicated.value;
          && (forall j, k :: 0 <= j < k < |entries| ==> entries[j].0 != entries[k].0)
          && (forall e :: e in entries ==> OnPostgres(plan, e.0) && e in manifest.declared))
  }

  /** A cell that some assignment asks for. */
  ghost predicate Wanted(plan: Plan, c: Cell)
  {
    exists a :: a in plan.assignments && a.owner == c.edition && Asks(plan, a, c.job)
  }

  ghost predicate GoodMatrix(plan: Plan)
  {
    plan.matrix.Some? ==>
      && Distinct(plan.matrix.value)
      && forall m :: m in plan.matrix.value <==> Wanted(plan, m.0) && m.0.job in plan.jobs && m.1 == plan.jobs[m.0.job]
  }

  predicate GoodHelpers(plan: Plan)
  {
    forall h :: h in plan.helpers ==>
      && (forall a :: a in plan.assignments ==> a.test.target != h.test.target || a.test.name != h.test.name)
      && (exists a :: a in plan.assignments && a.owner == h.owner && a.test.target == h.test.target && a.test.name == h.parent)
  }

  predicate GoodHead(plan: Plan, manifest: Manifest)
  {
    && plan.schema == 1 && plan.inventoryValid && plan.jobs == manifest.jobs && !plan.optionalJobs && !manifest.optionalJobs
    && plan.manifestHash == Some(manifest.hash)
  }

  lemma {:induction false} SoundArtifacts(plan: Plan)
    ensures ArtifactsOk(plan.artifacts) <==> GoodArtifacts(plan)
  {
  }

  lemma {:induction false} TestsAreInBinaries(plan: Plan, edition: string, test: Test)
    requires ArtifactsOk(plan.artifacts)
    ensures var m := ArtifactsOf(plan.artifacts);
            HasTest(plan, edition, test) <==> (edition, test.target) in m && test.name in m[(edition, test.target)].tests
  {
    var m, key := ArtifactsOf(plan.artifacts), (edition, test.target);
    if a :| a in plan.artifacts && a.edition == edition && a.target == test.target && test.name in a.tests {
      var k :| 0 <= k < |plan.artifacts| && plan.artifacts[k] == a;
      assert BinaryOf(plan.artifacts[k]) == key;
      var k' :| 0 <= k' < |plan.artifacts| && plan.artifacts[k'] == m[key];
      assert k' == k;
    }
    if key in m && test.name in m[key].tests { assert m[key] in plan.artifacts; }
  }

  lemma {:induction false} DemandsAsks(plan: Plan, a: Assignment, i: Identity)
    ensures Demands(plan.jobs, a, i) <==> i.cell.edition == a.owner && i.test == a.test && Asks(plan, a, i.cell.job)
  {
  }

  /** The required identities are the tests that assignments ask for in jobs that are not opt-in. */
  lemma {:induction false} RequiredMeans(plan: Plan, i: Identity)
    ensures i in Required(plan) <==>
              exists a :: a in plan.assignments && a.owner == i.cell.edition && a.test == i.test && Asks(plan, a, i.cell.job)
  {
    if a :| a in plan.assignments && a.owner == i.cell.edition && a.test == i.test && Asks(plan, a, i.cell.job) {
      DemandsAsks(plan, a, i);
      assert i in IdsOf(plan.jobs, a);
    }
    if i in Required(plan) {
      var a :| a in plan.assignments && i in IdsOf(plan.jobs, a);
      DemandsAsks(plan, a, i);
    }
  }

  lemma {:induction false} SomethingIsRequired(plan: Plan)
    ensures Required(plan) != {} <==> exists a, job :: a in plan.assignments && Asks(plan, a, job)
  {
    if a, job :| a in plan.assignments && Asks(plan, a, job) { RequiredMeans(plan, Identity(Cell(a.owner, job), a.test)); }
    if Required(plan) != {} {
      var i :| i in Required(plan);
      RequiredMeans(plan, i);
    }
  }

  lemma {:induction false} WantedMeans(plan: Plan, c: Cell)
    ensures Wanted(plan, c) <==> c in CellsOf(Required(plan))
  {
    if a :| a in plan.assignments && a.owner == c.edition && Asks(plan, a, c.job) {
      RequiredMeans(plan, Identity(c, a.test));
      assert Identity(c, a.test) in Required(plan);
    }
    if c in CellsOf(Required(plan)) {
      var i :| i in Required(plan) && i.cell == c;
      RequiredMeans(plan, i);
    }
  }

  /** Two assignments require one identity exactly if they are for one edition and test and ask for one job. */
  lemma {:induction false} SharedDemand(plan: Plan, a: Assignment, b: Assignment)
    ensures (exists i :: Demands(plan.jobs, a, i) && Demands(plan.jobs, b, i))
       <==> a.owner == b.owner && a.test == b.test && exists job :: Asks(plan, a, job) && Asks(plan, b, job)
  {
    if i :| Demands(plan.jobs, a, i) && Demands(plan.jobs, b, i) {
      DemandsAsks(plan, a, i);
      DemandsAsks(plan, b, i);
    }
    if a.owner == b.owner && a.test == b.test && exists job :: Asks(plan, a, job) && Asks(plan, b, job) {
      var job :| Asks(plan, a, job) && Asks(plan, b, job);
      DemandsAsks(plan, a, Identity(Cell(a.owner, job), a.test));
      DemandsAsks(plan, b, Identity(Cell(a.owner, job), a.test));
    }
  }

  ghost predicate DemandsOnce(plan: Plan)
  {
    forall j, k, i :: 0 <= j < k < |plan.assignments| && Demands(plan.jobs, plan.assignments[j], i)
      ==> !Demands(plan.jobs, plan.assignments[k], i)
  }

  lemma {:induction false} NoRepeatedDemand(plan: Plan)
    ensures DemandsOnce(plan) <==> RepeatsNothing(plan)
  {
    var rows := plan.assignments;
    forall j, k | 0 <= j < k < |rows|
      ensures (exists i :: Demands(plan.jobs, rows[j], i) && Demands(plan.jobs, rows[k], i))
         <==> rows[j].owner == rows[k].owner && rows[j].test == rows[k].test && exists job :: Asks(plan, rows[j], job) && Asks(plan, rows[k], job)
    { SharedDemand(plan, rows[j], rows[k]); }
  }

  lemma {:induction false} ShapeMeans(plan: Plan, a: Assignment)
    requires ArtifactsOk(plan.artifacts)
    ensures AssignmentShape(plan, ArtifactsOf(plan.artifacts), a) <==> GoodShape(plan, a) && HasTest(plan, a.owner, a.test)
  {
    TestsAreInBinaries(plan, a.owner, a.test);
  }

  ghost predicate ShapesOk(plan: Plan)
  {
    forall k :: 0 <= k < |plan.assignments| ==>
      AssignmentShape(plan, ArtifactsOf(plan.artifacts), plan.assignments[k]) && Distinct(plan.assignments[k].jobs)
  }

  lemma {:induction false} SoundRows(plan: Plan)
    requires ArtifactsOk(plan.artifacts)
    ensures ShapesOk(plan) <==> GoodRows(plan)
  {
    var rows := plan.assignments;
    forall k | 0 <= k < |rows|
      ensures AssignmentShape(plan, ArtifactsOf(plan.artifacts), rows[k]) <==> GoodShape(plan, rows[k]) && HasTest(plan, rows[k].owner, rows[k].test)
    { ShapeMeans(plan, rows[k]); }
  }

  lemma {:induction false} AssignmentsSplit(plan: Plan)
    ensures AssignmentsOk(plan, ArtifactsOf(plan.artifacts), plan.assignments) <==> ShapesOk(plan) && DemandsOnce(plan)
  {
  }

  lemma {:induction false} SoundAssignments(plan: Plan)
    requires ArtifactsOk(plan.artifacts)
    ensures AssignmentsOk(plan, ArtifactsOf(plan.artifacts), plan.assignments) && Required(plan) != {} <==> GoodAssignments(plan)
  {
    AssignmentsSplit(plan);
    SoundRows(plan);
    NoRepeatedDemand(plan);
    SomethingIsRequired(plan);
  }

  lemma {:induction false} SoundPrograms(plan: Plan)
    ensures ProgramsOk(plan) <==> GoodPrograms(plan)
  {
    if |plan.programs| == 2 {
      var editions := set p | p in plan.programs :: p.edition;
      assert plan.programs[0] in plan.programs && plan.programs[1] in plan.programs;
      assert forall p :: p in plan.programs ==> p == plan.programs[0] || p == plan.programs[1];
      assert editions == {plan.programs[0].edition, plan.programs[1].edition};
      assert "ce" in {"ce", "ee"} && "ee" in {"ce", "ee"};
    }
  }

  lemma {:induction false} NamesOnPostgres(plan: Plan, name: string)
    ensures name in PgNames(plan) <==> OnPostgres(plan, name)
  {
    if a, job :| a in plan.assignments && a.test.name == name && job in a.jobs && job in plan.jobs
                 && plan.jobs[job].database == "postgres" {
      assert name in PgNames(plan);
    }
  }

  lemma {:induction false} SoundClassification(plan: Plan, manifest: Manifest)
    ensures DedicatedOk(plan, manifest) <==> GoodClassification(plan, manifest)
  {
    forall name ensures name in PgNames(plan) <==> OnPostgres(plan, name) { NamesOnPostgres(plan, name); }
    var entries, names := Entries(manifest), EntryNames(manifest);
    assert forall k :: 0 <= k < |entries| ==> names[k] == entries[k].0;
    assert forall e :: e in entries ==> e.0 in Dedicated(manifest);
  }

  lemma {:induction false} SoundMatrix(plan: Plan)
    ensures MatrixOk(plan) <==> GoodMatrix(plan)
  {
    if plan.matrix.Some? {
      forall c: Cell ensures Wanted(plan, c) <==> c in CellsOf(Required(plan)) { WantedMeans(plan, c); }
    }
  }

  lemma {:induction false} SoundHelpers(plan: Plan)
    ensures HelpersOk(plan) <==> GoodHelpers(plan)
  {
    forall a: Assignment, h: Helper ensures a.test == h.test <==> a.test.target == h.test.target && a.test.name == h.test.name { }
  }

  /** A plan is sound exactly if all of this holds of its columns. */
  lemma {:induction false} SoundMeans(plan: Plan, manifest: Manifest)
    ensures Sound(plan, manifest) <==>
              && GoodHead(plan, manifest) && GoodArtifacts(plan) && GoodAssignments(plan) && GoodPrograms(plan)
              && GoodClassification(plan, manifest) && GoodMatrix(plan) && GoodHelpers(plan)
  {
    SoundArtifacts(plan);
    if GoodArtifacts(plan) { SoundAssignments(plan); }
    SoundPrograms(plan);
    SoundClassification(plan, manifest);
    SoundMatrix(plan);
    SoundHelpers(plan);
  }
}
