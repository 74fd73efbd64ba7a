/**
 * What the `AppConfig` connection URLs promise: reading a URL back yields the
 * resolved parts, the port is always in canonical form, and the documented
 * defaults and overrides.
 */
module ConnectionUrls {
  import opened Wrappers
  import opened JavaInt
  import opened AppConfig

  // ----- Reading a connection URL back -----------------------------------

  /** Splits `s` around the first occurrence of `sep`, if there is one. */
  function SplitAt(s: string, sep: char): (r: Option<(string, string)>)
    ensures r.None? <==> sep !in s
    ensures r.Some? ==> s == r.value.0 + [sep] + r.value.1 && sep !in r.value.0
  {
    if s == [] then None
    else if s[0] == sep then Some(([], s[1..]))
    else
      match SplitAt(s[1..], sep)
      case None => None
      case Some((before, after)) =>
        assert s == [s[0]] + s[1..];
        Some(([s[0]] + before, after))
  }

  /** The first `sep` after a prefix free of `sep` is the one `SplitAt` finds. */
  lemma {:induction false} SplitAtFirst(before: string, sep: char, after: string)
    requires sep !in before
    ensures SplitAt(before + [sep] + after, sep) == Some((before, after))
  {
    var s := before + [sep] + after;
    if before == [] {
      assert s[1..] == after;
    } else {
      assert s[0] == before[0] != sep;
      assert s[1..] == before[1..] + [sep] + after;
      SplitAtFirst(before[1..], sep, after);
      assert [before[0]] + before[1..] == before;
    }
  }

  /** Splits `s` around the last occurrence of `sep`, if there is one. */
  function SplitAtLast(s: string, sep: char): (r: Option<(string, string)>)
    ensures r.None? <==> sep !in s
    ensures r.Some? ==> s == r.value.0 + [sep] + r.value.1 && sep !in r.value.1
  {
    if s == [] then None
    else if s[|s| - 1] == sep then Some((s[..|s| - 1], []))
    else
      match SplitAtLast(s[..|s| - 1], sep)
      case None => None
      case Some((before, after)) =>
        assert s == s[..|s| - 1] + [s[|s| - 1]];
        Some((before, after + [s[|s| - 1]]))
  }

  /** The last `sep` before a suffix free of `sep` is the one `SplitAtLast` finds. */
  lemma {:induction false} SplitAtLastFinal(before: string, sep: char, after: string)
    requires sep !in after
    ensures SplitAtLast(before + [sep] + after, sep) == Some((before, after))
  {
    var s := before + [sep] + after;
    if after == [] {
      assert s[..|s| - 1] == before;
    } else {
      var init := after[..|after| - 1];
      assert s[|s| - 1] == after[|after| - 1] != sep;
      assert s[..|s| - 1] == before + [sep] + init;
      SplitAtLastFinal(before, sep, init);
      assert init + [after[|after| - 1]] == after;
    }
  }

  /** Reads "jdbc:postgresql://host:port/db" back into its host, port and db. */
  function ParsePostgresUrl(url: string): Option<(string, int32, string)> {
    if JdbcScheme <= url then ParseHostPortDb(url[|JdbcScheme|..]) else None
  }

  /** Reads "host:port/db": the host ends at the first ':', the port at the next '/'. */
  function ParseHostPortDb(s: string): Option<(string, int32, string)> {
    match SplitAt(s, ':')
    case None => None
    case Some((host, rest)) =>
      match SplitAt(rest, '/')
      case None => None
      case Some((portText, db)) =>
        match ParseInt(portText)
        case Failure(_) => None
        case Success(port) => Some((host, port, db))
  }

  /** Reads "http://host:port" back into its host and port. */
  function ParseHttpOrigin(url: string): Option<(string, int32)> {
    if HttpScheme <= url then ParseHostPort(url[|HttpScheme|..]) else None
  }

  /** Reads "host:port": the port starts after the last ':', so the host may hold ':' itself. */
  function ParseHostPort(s: string): Option<(string, int32)> {
    match SplitAtLast(s, ':')
    case None => None
    case Some((host, portText)) =>
      match ParseInt(portText)
      case Failure(_) => None
      case Success(port) => Some((host, port))
  }

  /** The rendering of a port holds neither ':' nor '/'. */
  lemma RenderHasNoSeparator(n: int32)
    ensures ':' !in Render(n) && '/' !in Render(n)
  {
    var r := Render(n);
    assert forall i :: 0 <= i < |r| ==> r[i] != ':' && r[i] != '/';
  }

  /**
   * The Postgres URL is "jdbc:postgresql://" + host + ":" + port + "/" + db,
   * with each part as resolved and the port in canonical decimal form.
   */
  lemma PostgresUrlFrom(env: Env, host: string, port: int32, db: string)
    requires Get(env, PostgresHostVar, "localhost") == host
    requires GetInt(env, PostgresPortVar, 5432) == Success(port)
    requires Get(env, PostgresDbVar, "fraud_db") == db
    ensures PostgresUrl(env) == Success(JdbcScheme + host + ":" + Render(port) + "/" + db)
  {
  }

  /** The Elasticsearch URL is "http://" + host + ":" + port, the port in canonical decimal form. */
  lemma ElasticsearchUrlFrom(env: Env, host: string, port: int32)
    requires Get(env, ElasticsearchHostVar, "localhost") == host
    requires GetInt(env, ElasticsearchPortVar, 9200) == Success(port)
    ensures ElasticsearchUrl(env) == Success(HttpScheme + host + ":" + Render(port))
  {
  }

  /** `ParseHostPortDb` undoes the "host:port/db" layout for any host without ':' and any db. */
  lemma HostPortDbInverse(host: string, port: int32, db: string)
    requires ':' !in host
    ensures ParseHostPortDb(host + [':'] + (Render(port) + ['/'] + db)) == Some((host, port, db))
  {
    SplitAtFirst(host, ':', Render(port) + ['/'] + db);
    RenderHasNoSeparator(port);
    SplitAtFirst(Render(port), '/', db);
    ParseRender(port);
  }

  /** `ParsePostgresUrl` undoes the URL layout for any host without ':' and any db. */
  lemma JdbcUrlInverse(host: string, port: int32, db: string)
    requires ':' !in host
    ensures ParsePostgresUrl(JdbcScheme + host + ":" + Render(port) + "/" + db) == Some((host, port, db))
  {
    var tail := host + [':'] + (Render(port) + ['/'] + db);
    assert JdbcScheme + host + ":" + Render(port) + "/" + db == JdbcScheme + tail;
    assert (JdbcScheme + tail)[|JdbcScheme|..] == tail;
    HostPortDbInverse(host, port, db);
  }

  /** `ParseHostPort` undoes the "host:port" layout for every host, including one that holds ':'. */
  lemma HostPortInverse(host: string, port: int32)
    ensures ParseHostPort(host + [':'] + Render(port)) == Some((host, port))
  {
    RenderHasNoSeparator(port);
    SplitAtLastFinal(host, ':', Render(port));
    ParseRender(port);
  }

  /** `ParseHttpOrigin` undoes the URL layout for every host, an IPv6 literal such as "[::1]" included. */
  lemma HttpOriginInverse(host: string, port: int32)
    ensures ParseHttpOrigin(HttpScheme + host + ":" + Render(port)) == Some((host, port))
  {
    var tail := host + [':'] + Render(port);
    assert HttpScheme + host + ":" + Render(port) == HttpScheme + tail;
    assert (HttpScheme + tail)[|HttpScheme|..] == tail;
    HostPortInverse(host, port);
  }

  /**
   * The Postgres URL carries the resolved host, port and db verbatim: when the
   * host has no ':', reading the URL back gives exactly the three parts.
   */
  lemma PostgresUrlRoundTrip(env: Env)
    requires PostgresUrl(env).Success?
    requires ':' !in Get(env, PostgresHostVar, "localhost")
    ensures ParsePostgresUrl(PostgresUrl(env).value)
         == Some((Get(env, PostgresHostVar, "localhost"),
                  GetInt(env, PostgresPortVar, 5432).value,
                  Get(env, PostgresDbVar, "fraud_db")))
  {
    PostgresUrlFrom(env, Get(env, PostgresHostVar, "localhost"), GetInt(env, PostgresPortVar, 5432).value,
                    Get(env, PostgresDbVar, "fraud_db"));
    JdbcUrlInverse(Get(env, PostgresHostVar, "localhost"), GetInt(env, PostgresPortVar, 5432).value,
                   Get(env, PostgresDbVar, "fraud_db"));
  }

  /**
   * The Elasticsearch URL carries the resolved host and port verbatim:
   * reading the URL back gives exactly the two parts, whatever the host.
   */
  lemma ElasticsearchUrlRoundTrip(env: Env)
    requires ElasticsearchUrl(env).Success?
    ensures ParseHttpOrigin(ElasticsearchUrl(env).value)
         == Some((Get(env, ElasticsearchHostVar, "localhost"),
                  GetInt(env, ElasticsearchPortVar, 9200).value))
  {
    ElasticsearchUrlFrom(env, Get(env, ElasticsearchHostVar, "localhost"), GetInt(env, ElasticsearchPortVar, 9200).value);
    HttpOriginInverse(Get(env, ElasticsearchHostVar, "localhost"), GetInt(env, ElasticsearchPortVar, 9200).value);
  }

  /** Only POSTGRES_HOST, POSTGRES_PORT and POSTGRES_DB decide the Postgres URL. */
  lemma PostgresUrlReadsOnlyItsVariables(env1: Env, env2: Env)
    requires forall k :: k in {PostgresHostVar, PostgresPortVar, PostgresDbVar} ==> GetEnv(env1, k) == GetEnv(env2, k)
    ensures PostgresUrl(env1) == PostgresUrl(env2)
  {
    assert GetEnv(env1, PostgresHostVar) == GetEnv(env2, PostgresHostVar);
    assert GetEnv(env1, PostgresPortVar) == GetEnv(env2, PostgresPortVar);
    assert GetEnv(env1, PostgresDbVar) == GetEnv(env2, PostgresDbVar);
  }

  /**
   * Host and db are inserted without escaping, so two different
   * configurations can produce the same URL.
   */
  lemma PostgresUrlUnescaped(env1: Env, env2: Env)
    requires PostgresHostVar in env1 && env1[PostgresHostVar] == "h" && PostgresPortVar !in env1
    requires PostgresDbVar in env1 && env1[PostgresDbVar] == "x:1/y"
    requires PostgresHostVar in env2 && env2[PostgresHostVar] == "h:5432/x"
    requires PostgresPortVar in env2 && env2[PostgresPortVar] == "1"
    requires PostgresDbVar in env2 && env2[PostgresDbVar] == "y"
    ensures PostgresUrl(env1).Success? && PostgresUrl(env1) == PostgresUrl(env2)
    ensures Get(env1, PostgresHostVar, "localhost") != Get(env2, PostgresHostVar, "localhost")
  {
    assert JdbcScheme + "h" + ":" + "5432" + "/" + "x:1/y" == JdbcScheme + "h:5432/x" + ":" + "1" + "/" + "y";
    RenderDefaultPorts();
    PostgresUrlFrom(env1, "h", 5432, "x:1/y");
    assert Render(1) == "1";
    ParseRender(1);
    PostgresUrlFrom(env2, "h:5432/x", 1, "y");
  }

  // ----- Values with nothing set, and the documented examples ------------

  /** With its variable unset, every plain accessor returns its fixed default. */
  lemma Defaults(env: Env)
    requires KafkaBootstrapServersVar !in env && KafkaTopicVar !in env
    requires PostgresUserVar !in env && PostgresPasswordVar !in env
    requires RedisHostVar !in env && RedisPortVar !in env
    requires FlinkCheckpointDirVar !in env
    ensures KafkaBootstrapServers(env) == "localhost:9092"
    ensures KafkaTopic(env) == "risk.transactions"
    ensures PostgresUser(env) == "fraud_user"
    ensures PostgresPassword(env) == "fraud_pass"
    ensures RedisHost(env) == "localhost"
    ensures RedisPort(env) == Success(6379)
    ensures FlinkCheckpointDir(env) == "./checkpoint"
  {
  }

  /** With POSTGRES_HOST, POSTGRES_PORT and POSTGRES_DB unset the URL is jdbc:postgresql://localhost:5432/fraud_db. */
  lemma DefaultPostgresUrl(env: Env)
    requires PostgresHostVar !in env && PostgresPortVar !in env && PostgresDbVar !in env
    ensures PostgresUrl(env) == Success("jdbc:postgresql://localhost:5432/fraud_db")
  {
    assert JdbcScheme + "localhost" + ":" + "5432" + "/" + "fraud_db" == "jdbc:postgresql://localhost:5432/fraud_db";
    RenderDefaultPorts();
    PostgresUrlFrom(env, "localhost", 5432, "fraud_db");
  }

  /** With ELASTICSEARCH_HOST and ELASTICSEARCH_PORT unset the URL is http://localhost:9200. */
  lemma DefaultElasticsearchUrl(env: Env)
    requires ElasticsearchHostVar !in env && ElasticsearchPortVar !in env
    ensures ElasticsearchUrl(env) == Success("http://localhost:9200")
  {
    assert HttpScheme + "localhost" + ":" + "9200" == "http://localhost:9200";
    RenderDefaultPorts();
    ElasticsearchUrlFrom(env, "localhost", 9200);
  }

  /** A present but empty variable is returned as "", not replaced by the default. */
  lemma EmptyValueIsPresent(env: Env, key: string, defaultValue: string)
    requires key in env && env[key] == ""
    ensures Get(env, key, defaultValue) == ""
  {
  }

  /** With only POSTGRES_PORT=6543 among its variables, only the port segment changes. */
  lemma PostgresPortOverride(env: Env)
    requires PostgresHostVar !in env && PostgresDbVar !in env
    requires PostgresPortVar in env && env[PostgresPortVar] == "6543"
    ensures PostgresUrl(env) == Success("jdbc:postgresql://localhost:6543/fraud_db")
  {
    assert JdbcScheme + "localhost" + ":" + "6543" + "/" + "fraud_db" == "jdbc:postgresql://localhost:6543/fraud_db";
    RenderExamplePorts();
    PostgresUrlFrom(env, "localhost", 6543, "fraud_db");
  }

  /** POSTGRES_PORT=+05432 is accepted, and the URL shows the port as 5432. */
  lemma PostgresPortNormalised(env: Env)
    requires PostgresHostVar !in env && PostgresDbVar !in env
    requires PostgresPortVar in env && env[PostgresPortVar] == "+05432"
    ensures PostgresUrl(env) == Success("jdbc:postgresql://localhost:5432/fraud_db")
  {
    assert JdbcScheme + "localhost" + ":" + "5432" + "/" + "fraud_db" == "jdbc:postgresql://localhost:5432/fraud_db";
    ParsePlusLeadingZero();
    RenderDefaultPorts();
    PostgresUrlFrom(env, "localhost", 5432, "fraud_db");
  }

  /** POSTGRES_PORT=notanumber fails instead of falling back to 5432. */
  lemma PostgresPortMalformed(env: Env)
    requires PostgresPortVar in env && env[PostgresPortVar] == "notanumber"
    ensures PostgresUrl(env) == Failure(NumberFormat("notanumber"))
  {
    ParseRejectsExamples();
  }

  /** ELASTICSEARCH_HOST=es.internal with ELASTICSEARCH_PORT=9201 gives http://es.internal:9201. */
  lemma ElasticsearchOverride(env: Env)
    requires ElasticsearchHostVar in env && env[ElasticsearchHostVar] == "es.internal"
    requires ElasticsearchPortVar in env && env[ElasticsearchPortVar] == "9201"
    ensures ElasticsearchUrl(env) == Success("http://es.internal:9201")
  {
    assert HttpScheme + "es.internal" + ":" + "9201" == "http://es.internal:9201";
    RenderExamplePorts();
    ElasticsearchUrlFrom(env, "es.internal", 9201);
  }
}
