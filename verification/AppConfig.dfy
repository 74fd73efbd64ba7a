/**
 * The configuration resolver `AppConfig`: environment lookups with fixed
 * defaults and the connection URLs built from them. The process environment
 * is an explicit map; a key missing from it is what `System.getenv` reports
 * as `null`. A `Failure` result stands for the `NumberFormatException` that
 * `Integer.parseInt` throws and `AppConfig` lets propagate.
 */
module AppConfig {
  import opened Wrappers
  import opened JavaInt

  /** The process environment: variable name to value. */
  type Env = map<string, string>

  // Environment variables read by the accessors.
  const KafkaBootstrapServersVar := "KAFKA_BOOTSTRAP_SERVERS"
  const KafkaTopicVar := "KAFKA_TOPIC"
  const PostgresHostVar := "POSTGRES_HOST"
  const PostgresPortVar := "POSTGRES_PORT"
  const PostgresDbVar := "POSTGRES_DB"
  const PostgresUserVar := "POSTGRES_USER"
  const PostgresPasswordVar := "POSTGRES_PASSWORD"
  const RedisHostVar := "REDIS_HOST"
  const RedisPortVar := "REDIS_PORT"
  const ElasticsearchHostVar := "ELASTICSEARCH_HOST"
  const ElasticsearchPortVar := "ELASTICSEARCH_PORT"
  const FlinkCheckpointDirVar := "FLINK_CHECKPOINT_DIR"

  // The schemes the URL builders put in front of the host.
  const JdbcScheme := "jdbc:postgresql://"
  const HttpScheme := "http://"

  /** `System.getenv(key)`: the value, or `None` for Java's `null`. */
  function GetEnv(env: Env, key: string): Option<string> {
    if key in env then Some(env[key]) else None
  }

  /** `get`: the variable's value when it is set (even to ""), otherwise the default; it never fails. */
  function Get(env: Env, key: string, defaultValue: string): (r: string)
    ensures key in env ==> r == env[key]
    ensures key !in env ==> r == defaultValue
  {
    GetEnv(env, key).GetOr(defaultValue)
  }

  /**
   * `getInt`: the default when the variable is unset; otherwise the value
   * parsed by `Integer.parseInt`, whose failure propagates and is never
   * replaced by the default.
   */
  function GetInt(env: Env, key: string, defaultValue: int32): (r: Result<int32, ParseError>)
    ensures key !in env ==> r == Success(defaultValue)
    ensures key in env ==> r == ParseInt(env[key])
    ensures r.Failure? ==> key in env && r.error == NumberFormat(env[key])
  {
    match GetEnv(env, key)
    case None => Success(defaultValue)
    case Some(value) => ParseInt(value)
  }

  function KafkaBootstrapServers(env: Env): (r: string)
    ensures KafkaBootstrapServersVar !in env ==> r == "localhost:9092"
    ensures KafkaBootstrapServersVar in env ==> r == env[KafkaBootstrapServersVar]
  {
    Get(env, KafkaBootstrapServersVar, "localhost:9092")
  }

  function KafkaTopic(env: Env): (r: string)
    ensures KafkaTopicVar !in env ==> r == "risk.transactions"
    ensures KafkaTopicVar in env ==> r == env[KafkaTopicVar]
  {
    Get(env, KafkaTopicVar, "risk.transactions")
  }

  function PostgresUser(env: Env): (r: string)
    ensures PostgresUserVar !in env ==> r == "fraud_user"
    ensures PostgresUserVar in env ==> r == env[PostgresUserVar]
  {
    Get(env, PostgresUserVar, "fraud_user")
  }

  function PostgresPassword(env: Env): (r: string)
    ensures PostgresPasswordVar !in env ==> r == "fraud_pass"
    ensures PostgresPasswordVar in env ==> r == env[PostgresPasswordVar]
  {
    Get(env, PostgresPasswordVar, "fraud_pass")
  }

  function RedisHost(env: Env): (r: string)
    ensures RedisHostVar !in env ==> r == "localhost"
    ensures RedisHostVar in env ==> r == env[RedisHostVar]
  {
    Get(env, RedisHostVar, "localhost")
  }

  function RedisPort(env: Env): (r: Result<int32, ParseError>)
    ensures RedisPortVar !in env ==> r == Success(6379)
    ensures RedisPortVar in env ==> r == ParseInt(env[RedisPortVar])
  {
    GetInt(env, RedisPortVar, 6379)
  }

  function FlinkCheckpointDir(env: Env): (r: string)
    ensures FlinkCheckpointDirVar !in env ==> r == "./checkpoint"
    ensures FlinkCheckpointDirVar in env ==> r == env[FlinkCheckpointDirVar]
  {
    Get(env, FlinkCheckpointDirVar, "./checkpoint")
  }

  /**
   * `postgresUrl`: "jdbc:postgresql://" + host + ":" + port + "/" + db, each
   * part resolved with its own default. It fails exactly when POSTGRES_PORT
   * is set to text `Integer.parseInt` rejects, whatever the host and db are.
   */
  function PostgresUrl(env: Env): (r: Result<string, ParseError>)
    ensures r.Failure? <==> PostgresPortVar in env && ParseInt(env[PostgresPortVar]).Failure?
    ensures r.Failure? ==> r.error == NumberFormat(env[PostgresPortVar])
    ensures r.Success? ==> JdbcScheme <= r.value
  {
    var host := Get(env, PostgresHostVar, "localhost");
    var port :- GetInt(env, PostgresPortVar, 5432);
    var db := Get(env, PostgresDbVar, "fraud_db");
    Success(JdbcScheme + host + ":" + Render(port) + "/" + db)
  }

  /**
   * `elasticsearchUrl`: "http://" + host + ":" + port. It fails exactly when
   * ELASTICSEARCH_PORT is set to text `Integer.parseInt` rejects.
   */
  function ElasticsearchUrl(env: Env): (r: Result<string, ParseError>)
    ensures r.Failure? <==> ElasticsearchPortVar in env && ParseInt(env[ElasticsearchPortVar]).Failure?
    ensures r.Failure? ==> r.error == NumberFormat(env[ElasticsearchPortVar])
    ensures r.Success? ==> HttpScheme <= r.value
  {
    var host := Get(env, ElasticsearchHostVar, "localhost");
    var port :- GetInt(env, ElasticsearchPortVar, 9200);
    Success(HttpScheme + host + ":" + Render(port))
  }
}
