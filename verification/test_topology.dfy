/** Preparing a test process, scripts/run_assigned_tests.py: the environment checks of `topology_environment` and the
    command-line filter of `selection_flags`. */
module TestTopology {
  import opened Common
  import opened NameOrder
  import opened TestPlan
  import opened TestReceipts

  /** The environment variables the checks read or set. */
  datatype Var = DatabaseUrl | QueueUrl | LocoEnv | TestEdition | TestTopology | TestQueue | QueueKind | LicenceKey
               | StrictTopology | PostgresTestUrl | RedisTestUrl | RedisBaseUrl | PostgresContainer | Other(name: string)

  type Environment = map<Var, string>

  predicate StartsWith(s: string, p: string)
  {
    |p| <= |s| && s[..|p|] == p
  }

  function WithoutPrefix(s: string, p: string): string
  {
    if StartsWith(s, p) then s[|p|..] else s
  }

  function UntilQuery(s: string): string
  {
    if s == [] || s[0] == '?' then [] else [s[0]] + UntilQuery(s[1..])
  }

  function BackendOf(url: string): string
  {
    if StartsWith(url, "sqlite:") then "sqlite"
    else if StartsWith(url, "postgres://") || StartsWith(url, "postgresql://") then "postgres"
    else if StartsWith(url, "redis://") || StartsWith(url, "rediss://") then "redis"
    else ""
  }

  function Get(env: Environment, v: Var, default: string): string
  {
    if v in env then env[v] else default
  }

  function KindOf(queue: string): string
  {
    if queue == "sqlite" then "Sqlite" else if queue == "postgres" then "Postgres" else "Redis"
  }

  predicate Supported(config: Config)
  {
    (config.database, config.queue) in {("sqlite", "sqlite"), ("postgres", "postgres"), ("sqlite", "redis"), ("postgres", "redis")}
  }

  /** `resolve` turns a path into its canonical form. */
  function SqlitePath(resolve: string -> string, url: string): string
  {
    resolve(UntilQuery(WithoutPrefix(WithoutPrefix(url, "sqlite://"), "sqlite:")))
  }

  predicate UrlsMatch(config: Config, env: Environment, resolve: string -> string)
  {
    && BackendOf(Get(env, DatabaseUrl, "")) == config.database
    && BackendOf(Get(env, QueueUrl, "")) == config.queue
    && (config.queue == "sqlite" ==>
          SqlitePath(resolve, Get(env, DatabaseUrl, "")) != SqlitePath(resolve, Get(env, QueueUrl, "")))
  }

  predicate NamesMatch(config: Config, edition: string, env: Environment)
  {
    && LocoEnv in env && env[LocoEnv] == TopologyOf(config).locoEnv
    && Get(env, TestEdition, edition) == edition
    && Get(env, TestTopology, config.database + "-" + config.queue) == config.database + "-" + config.queue
    && Get(env, TestQueue, config.queue) == config.queue
    && Get(env, QueueKind, KindOf(config.queue)) == KindOf(config.queue)
    && ((Get(env, LicenceKey, "") != "") <==> config.signedLicence)
    && (config.signedLicence ==> edition == "ee")
  }

  /** Helper URLs repeat the application's own URLs, and are absent where there is no such backend. */
  predicate HelpersMatch(config: Config, env: Environment)
  {
    var database, queue := Get(env, DatabaseUrl, ""), Get(env, QueueUrl, "");
    && (if config.database == "postgres" then Get(env, PostgresTestUrl, database) == database
        else Get(env, PostgresTestUrl, "") == "")
    && (if config.queue == "redis" then Get(env, RedisTestUrl, queue) == queue && Get(env, RedisBaseUrl, queue) == queue
        else Get(env, RedisTestUrl, "") == "" && Get(env, RedisBaseUrl, "") == "")
  }

  predicate Matches(config: Config, edition: string, env: Environment, resolve: string -> string)
  {
    Supported(config) && UrlsMatch(config, env, resolve) && NamesMatch(config, edition, env) && HelpersMatch(config, env)
  }

  function Prepared(config: Config, edition: string, env: Environment): Environment
  {
    var named := env[TestEdition := edition][TestTopology := config.database + "-" + config.queue]
                    [TestQueue := config.queue][StrictTopology := "true"];
    var database := if config.database == "postgres" then named[PostgresTestUrl := Get(env, DatabaseUrl, "")] else named;
    if config.queue == "redis"
    then database[RedisTestUrl := Get(env, QueueUrl, "")][RedisBaseUrl := Get(env, QueueUrl, "")] else database
  }

  /** `topology_environment`. */
  function TopologyEnvironment(config: Config, edition: string, env: Environment, resolve: string -> string)
    : Result<(Environment, Topology)>
  {
    if !Matches(config, edition, env, resolve) then Err(Validation)
    else
      Ok((Prepared(config, edition, env),
          Topology(config.database, config.queue, config.signedLicence,
                   "test_" + config.database + (if config.queue == "redis" then "_redis" else ""), true)))
  }

  lemma {:induction false} PreparedKeepsUrls(config: Config, edition: string, env: Environment)
    ensures var e := Prepared(config, edition, env);
            && (forall v :: v in {DatabaseUrl, QueueUrl, LocoEnv, QueueKind, LicenceKey} ==>
                  (v in e <==> v in env) && (v in env ==> e[v] == env[v]))
            && (config.database != "postgres" ==> Get(e, PostgresTestUrl, "") == Get(env, PostgresTestUrl, ""))
            && (config.queue != "redis" ==>
                  Get(e, RedisTestUrl, "") == Get(env, RedisTestUrl, "") && Get(e, RedisBaseUrl, "") == Get(env, RedisBaseUrl, ""))
  {
  }

  /** Checking again what was prepared succeeds and changes nothing, so a nested call sees the same topology; and the
      topology is the one a receipt is checked against. */
  lemma {:induction false} PreparingTwiceIsPreparingOnce(config: Config, edition: string, env: Environment,
                                                         resolve: string -> string)
    requires TopologyEnvironment(config, edition, env, resolve).Ok?
    ensures var e := TopologyEnvironment(config, edition, env, resolve).value.0;
            TopologyEnvironment(config, edition, e, resolve) == Ok((e, TopologyOf(config)))
  {
    var e := Prepared(config, edition, env);
    PreparedKeepsUrls(config, edition, env);
    assert UrlsMatch(config, e, resolve) && NamesMatch(config, edition, e) && HelpersMatch(config, e);
    assert Prepared(config, edition, e) == e;
  }

  // ---------------------------------------------------------------- the filter

  datatype Flag = Exact | Skip(name: string) | IncludeIgnored

  /** The tests libtest runs under exact skips: what is not skipped, and ignored tests only if they are included. */
  function Executed(a: Artifact, flags: seq<Flag>): set<string>
  {
    set t | t in a.tests && Skip(t) !in flags && (t in a.ignored ==> IncludeIgnored in flags)
  }

  function NamesOf(rows: seq<Assignment>): set<string>
  {
    set r | r in rows :: r.test.name
  }

  function Without(tests: seq<string>, names: set<string>): (others: seq<string>)
    ensures forall t :: t in others <==> t in tests && t !in names
    decreases |tests|
  {
    if tests == [] then []
    else
      assert tests == [tests[0]] + tests[1..];
      (if tests[0] in names then [] else [tests[0]]) + Without(tests[1..], names)
  }

  /** Ignored tests may be selected only by resource assignments that say so, and only among resource assignments. */
  predicate MaySelect(a: Artifact, rows: seq<Assignment>)
  {
    var names := NamesOf(rows);
    && names != {} && (forall n :: n in names ==> n in a.tests)
    && (forall r :: r in rows && r.test.name in a.ignored ==> r.role == "resource" && r.includeIgnored)
    && ((exists n :: n in names && n in a.ignored) ==> forall r :: r in rows ==> r.role == "resource")
  }

  lemma {:induction false} FilterSelects(a: Artifact, rows: seq<Assignment>, flags: seq<Flag>)
    requires MaySelect(a, rows)
    requires forall t :: Skip(t) in flags <==> t in a.tests && t !in NamesOf(rows)
    requires IncludeIgnored in flags <==> exists n :: n in NamesOf(rows) && n in a.ignored
    ensures Executed(a, flags) == NamesOf(rows)
  {
    forall t ensures t in Executed(a, flags) <==> t in NamesOf(rows) { }
  }

  lemma {:induction false} NamesOfRows(rows: seq<Assignment>)
    ensures forall t :: t in NamesOf(rows) <==> exists x :: x in rows && x.test.name == t
    ensures NamesOf(rows) != {} <==> |rows| > 0
  {
    if |rows| > 0 { assert rows[0] in rows && rows[0].test.name in NamesOf(rows); }
  }

  /** `selection_flags`: the filter makes the binary run exactly the selected tests. */
  method SelectionFlags(a: Artifact, rows: seq<Assignment>) returns (r: Result<seq<Flag>>)
    ensures r.Ok? <==> MaySelect(a, rows)
    ensures r.Ok? <==>
              && |rows| > 0 && (forall x :: x in rows ==> x.test.name in a.tests)
              && (forall x :: x in rows && x.test.name in a.ignored ==> x.role == "resource" && x.includeIgnored)
              && ((exists x :: x in rows && x.test.name in a.ignored) ==> forall x :: x in rows ==> x.role == "resource")
    ensures r.Ok? ==> Executed(a, r.value) == NamesOf(rows) && Exact in r.value
    ensures r.Ok? ==> forall t :: t in NamesOf(rows) <==> exists x :: x in rows && x.test.name == t
  {
    NamesOfRows(rows);
    if !MaySelect(a, rows) { return Err(Validation); }
    var names := NamesOf(rows);
    SortedKeepsMembers(Without(a.tests, names));
    var others := Sorted(Without(a.tests, names));
    var flags := [Exact];
    for k := 0 to |others|
      invariant forall t :: Skip(t) in flags <==> t in others[..k]
      invariant IncludeIgnored !in flags && Exact in flags
    {
      flags := flags + [Skip(others[k])];
    }
    assert others[..|others|] == others;
    if exists n :: n in names && n in a.ignored { flags := flags + [IncludeIgnored]; }
    FilterSelects(a, rows, flags);
    return Ok(flags);
  }
}
