/** The environment of a test process, scripts/run_assigned_tests.py, written out variable by variable. */
module TopologyLaws {
  import opened Common
  import opened TestPlan
  import opened TestReceipts
  import opened TestTopology

  predicate Begins(s: string, p: string)
  {
    p <= s
  }

  /** The URL is one of the backend. */
  predicate IsUrlOf(url: string, backend: string)
  {
    || (backend == "sqlite" && Begins(url, "sqlite:"))
    || (backend == "postgres" && (Begins(url, "postgres://") || Begins(url, "postgresql://")))
    || (backend == "redis" && (Begins(url, "redis://") || Begins(url, "rediss://")))
  }

  /** The variable is unset or has the value. */
  predicate UnsetOr(env: Environment, v: Var, value: string)
  {
    v !in env || env[v] == value
  }

  predicate UnsetOrEmpty(env: Environment, v: Var)
  {
    v !in env || |env[v]| == 0
  }

  predicate KnownPair(database: string, queue: string)
  {
    || (database == "sqlite" && queue == "sqlite") || (database == "postgres" && queue == "postgres")
    || (database == "sqlite" && queue == "redis") || (database == "postgres" && queue == "redis")
  }

  /** The URLs are those of the job's backends, and two SQLite databases are two files. */
  predicate GoodUrls(config: Config, env: Environment, resolve: string -> string)
  {
    && DatabaseUrl in env && IsUrlOf(env[DatabaseUrl], config.database)
    && QueueUrl in env && IsUrlOf(env[QueueUrl], config.queue)
    && (config.queue == "sqlite" ==> SqlitePath(resolve, env[DatabaseUrl]) != SqlitePath(resolve, env[QueueUrl]))
  }

  /** Every name that is given agrees with the job; a licence key is given exactly for a licensed job, which is an EE one. */
  predicate GoodNames(config: Config, edition: string, env: Environment)
  {
    && LocoEnv in env
    && env[LocoEnv] == (if config.queue == "redis" then "test_" + config.database + "_redis" else "test_" + config.database)
    && UnsetOr(env, TestEdition, edition) && UnsetOr(env, TestTopology, config.database + "-" + config.queue)
    && UnsetOr(env, TestQueue, config.queue)
    && UnsetOr(env, QueueKind, if config.queue == "sqlite" then "Sqlite" else if config.queue == "postgres" then "Postgres" else "Redis")
    && (config.signedLicence <==> LicenceKey in env && |env[LicenceKey]| > 0)
    && (config.signedLicence ==> edition == "ee")
  }

  /** The helper URLs repeat the application's, and there are none for a backend the job does not use. */
  predicate GoodHelpers(config: Config, env: Environment)
    requires DatabaseUrl in env && QueueUrl in env
  {
    && (if config.database == "postgres" then UnsetOr(env, PostgresTestUrl, env[DatabaseUrl]) else UnsetOrEmpty(env, PostgresTestUrl))
    && (if config.queue == "redis"
        then UnsetOr(env, RedisTestUrl, env[QueueUrl]) && UnsetOr(env, RedisBaseUrl, env[QueueUrl])
        else UnsetOrEmpty(env, RedisTestUrl) && UnsetOrEmpty(env, RedisBaseUrl))
  }

  lemma {:induction false} PrefixMeans(s: string, p: string)
    ensures StartsWith(s, p) <==> Begins(s, p)
  {
  }

  lemma {:induction false} BackendMeans(url: string, backend: string)
    requires backend in {"sqlite", "postgres", "redis"}
    ensures BackendOf(url) == backend <==> IsUrlOf(url, backend)
  {
    PrefixMeans(url, "sqlite:");
    PrefixMeans(url, "postgres://");
    PrefixMeans(url, "postgresql://");
    PrefixMeans(url, "redis://");
    PrefixMeans(url, "rediss://");
    if Begins(url, "sqlite:") { assert url[0] == 's'; }
    if Begins(url, "postgres://") || Begins(url, "postgresql://") { assert url[0] == 'p'; }
    if Begins(url, "redis://") || Begins(url, "rediss://") { assert url[0] == 'r'; }
    assert "sqlite"[0] == 's' && "postgres"[0] == 'p' && "redis"[0] == 'r';
  }

  lemma {:induction false} EmptyUrl(backend: string)
    requires backend in {"sqlite", "postgres", "redis"}
    ensures BackendOf("") != backend
  {
    BackendMeans("", backend);
  }

  lemma {:induction false} UrlsMean(config: Config, env: Environment, resolve: string -> string)
    requires KnownPair(config.database, config.queue)
    ensures UrlsMatch(config, env, resolve) <==> GoodUrls(config, env, resolve)
  {
    BackendMeans(Get(env, DatabaseUrl, ""), config.database);
    BackendMeans(Get(env, QueueUrl, ""), config.queue);
    EmptyUrl(config.database);
    EmptyUrl(config.queue);
  }

  lemma {:induction false} NamesMean(config: Config, edition: string, env: Environment)
    ensures NamesMatch(config, edition, env) <==> GoodNames(config, edition, env)
  {
    assert "test_" + config.database + "" == "test_" + config.database;
  }

  lemma {:induction false} SupportedMeans(config: Config)
    ensures Supported(config) <==> KnownPair(config.database, config.queue)
  {
    var pair := (config.database, config.queue);
    assert pair in {("sqlite", "sqlite"), ("postgres", "postgres"), ("sqlite", "redis"), ("postgres", "redis")}
      <==> pair == ("sqlite", "sqlite") || pair == ("postgres", "postgres") || pair == ("sqlite", "redis") || pair == ("postgres", "redis");
  }

  /** An environment is accepted exactly if its backends, URLs, names and helper URLs fit the job. */
  lemma {:induction false} EnvironmentMeans(config: Config, edition: string, env: Environment, resolve: string -> string)
    ensures TopologyEnvironment(config, edition, env, resolve).Ok? <==>
              && KnownPair(config.database, config.queue) && GoodUrls(config, env, resolve)
              && GoodNames(config, edition, env) && GoodHelpers(config, env)
  {
    SupportedMeans(config);
    if KnownPair(config.database, config.queue) { UrlsMean(config, env, resolve); }
    NamesMean(config, edition, env);
  }

  /** What is set: the four test variables always, and the helper URLs of the backends in use; nothing else changes. */
  lemma {:induction false} PreparedMeans(config: Config, edition: string, env: Environment, v: Var)
    requires DatabaseUrl in env && QueueUrl in env
    ensures var e := Prepared(config, edition, env);
            if v == TestEdition then v in e && e[v] == edition
            else if v == TestTopology then v in e && e[v] == config.database + "-" + config.queue
            else if v == TestQueue then v in e && e[v] == config.queue
            else if v == StrictTopology then v in e && e[v] == "true"
            else if v == PostgresTestUrl && config.database == "postgres" then v in e && e[v] == env[DatabaseUrl]
            else if (v == RedisTestUrl || v == RedisBaseUrl) && config.queue == "redis" then v in e && e[v] == env[QueueUrl]
            else (v in e <==> v in env) && (v in env ==> e[v] == env[v])
  {
  }

  function Scheme(slashes: bool): string
  {
    if slashes then "sqlite://" else "sqlite:"
  }

  /** The file of a SQLite URL is what stands after its scheme. */
  lemma {:induction false} SqlitePathMeans(resolve: string -> string, path: string, slashes: bool)
    requires '?' !in path && !Begins(path, "sqlite:") && (!slashes ==> !Begins(path, "//"))
    ensures SqlitePath(resolve, Scheme(slashes) + path) == resolve(path)
  {
    CutsAtTheQuery(path, "");
    assert path + "" == path;
    SchemeIsCut(path, slashes);
  }

  /** And a query after it does not count. */
  lemma {:induction false} SqlitePathIgnoresTheQuery(resolve: string -> string, path: string, query: string, slashes: bool)
    requires '?' !in path && !Begins(path, "sqlite:") && (!slashes ==> !Begins(path, "//"))
    ensures SqlitePath(resolve, Scheme(slashes) + (path + ("?" + query))) == resolve(path)
  {
    CutsAtTheQuery(path, "?" + query);
    QueryHidesNothing(path, "?" + query, "sqlite:");
    QueryHidesNothing(path, "?" + query, "//");
    SchemeIsCut(path + ("?" + query), slashes);
  }

  lemma {:induction false} QueryInside(path: string, rest: string, p: string)
    requires rest != "" && rest[0] == '?' && p <= path + rest && |path| < |p|
    ensures '?' in p
  {
    assert p[|path|] == (path + rest)[|path|];
  }

  lemma {:induction false} QueryHidesNothing(path: string, rest: string, p: string)
    requires rest != "" && rest[0] == '?' && '?' !in p
    ensures Begins(path + rest, p) <==> Begins(path, p)
  {
    var s := path + rest;
    if Begins(s, p) {
      assert |path| >= |p| by {
        if |path| < |p| { QueryInside(path, rest, p); }
      }
      assert path[..|p|] == s[..|p|];
    }
    if Begins(path, p) { assert s[..|p|] == path[..|p|]; }
  }

  lemma {:induction false} CutsAtTheQuery(path: string, rest: string)
    requires '?' !in path && (rest == "" || rest[0] == '?')
    ensures UntilQuery(path + rest) == path
    decreases |path|
  {
    if path == [] {
      assert path + rest == rest;
    } else {
      CutsAtTheQuery(path[1..], rest);
      assert (path + rest)[1..] == path[1..] + rest && path == [path[0]] + path[1..];
    }
  }

  lemma {:induction false} SchemeIsCut(rest: string, slashes: bool)
    requires !Begins(rest, "sqlite:") && (!slashes ==> !Begins(rest, "//"))
    ensures WithoutPrefix(WithoutPrefix(Scheme(slashes) + rest, "sqlite://"), "sqlite:") == rest
  {
    var url := Scheme(slashes) + rest;
    if slashes {
      assert url[..9] == "sqlite://" && url[9..] == rest;
    } else {
      assert url[..7] == "sqlite:" && url[7..] == rest;
      SlashesAreTheRests(rest);
    }
  }

  lemma {:induction false} SlashesAreTheRests(rest: string)
    ensures StartsWith("sqlite:" + rest, "sqlite://") <==> Begins(rest, "//")
  {
    var url := "sqlite:" + rest;
    if StartsWith(url, "sqlite://") {
      assert url[..9][7] == url[7] && url[..9][8] == url[8];
      assert rest[..2] == "//";
    }
    if Begins(rest, "//") { assert url[..9] == "sqlite:" + rest[..2]; }
  }
}
