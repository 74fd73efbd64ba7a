# AppConfig: environment configuration of the fraud risk scoring engine

`AppConfig` is the static configuration resolver shared by the engine's Java
services. Each setting comes from one environment variable with a fixed
default:

- the Kafka bootstrap servers and topic;
- the Postgres host, port, database, user and password;
- the Redis host and port;
- the Elasticsearch host and port;
- the Flink checkpoint directory.

Integer settings go through `Integer.parseInt`, and a malformed value
propagates as a `NumberFormatException`; the default is not used instead.
Two accessors build connection URLs by string concatenation:

- the JDBC URL `jdbc:postgresql://host:port/db`;
- the Elasticsearch origin `http://host:port`.

The model has four modules:

- `Wrappers`: the `Option` and `Result` types.
- `JavaInt`: Java's 32-bit `int` at the text boundary. This is
  `Integer.parseInt` in radix 10 and the decimal rendering that `"..." + port`
  applies. Its round-trip lemmas cover both directions, rendering then parsing and
  canonical text then rendering, plus every rejection class.
- `AppConfig`: `get`, `getInt`, the fixed-key accessors and the two URL
  builders. The process environment is an explicit map, and an absent key is
  what `System.getenv` reports as `null`. A thrown `NumberFormatException` is
  a `Failure`.
- `ConnectionUrls`: decoders that read a URL back into its parts, and the
  lemmas that relate the URLs to the resolved parts. This covers the round trips,
  which variables matter, the missing escaping, the defaults and the documented
  examples.

## Model

| member | source | states |
|---|---|---|
| AppConfig.Get | common/src/main/java/com/riskengine/common/config/AppConfig.java:9-11 | a present key yields its value verbatim (even ""), an absent key the default; never fails |
| AppConfig.GetInt | common/src/main/java/com/riskengine/common/config/AppConfig.java:13-16 | absent key gives Success(default); present key gives exactly the parse of its value; any failure carries that value and the default is never substituted |
| JavaInt.ParseInt | common/src/main/java/com/riskengine/common/config/AppConfig.java:15 | failures are NumberFormat of the input; a success means the text after an optional sign is a non-empty digit string, and a negative result needs a leading '-' |
| JavaInt.ParseAcceptsInRange | common/src/main/java/com/riskengine/common/config/AppConfig.java:15 | an optional sign then digits whose signed value lies in [-2^31, 2^31-1] is accepted as that value |
| JavaInt.ParseRejectsNonDigit | common/src/main/java/com/riskengine/common/config/AppConfig.java:15 | a character that is not a digit, other than a leading sign (a blank, a letter), makes the parse fail |
| JavaInt.ParseRejectsNoDigits | common/src/main/java/com/riskengine/common/config/AppConfig.java:15 | the empty string and a bare '+' or '-' make the parse fail |
| JavaInt.ParseRejectsOutOfRange | common/src/main/java/com/riskengine/common/config/AppConfig.java:15 | well-formed text whose signed value is outside the 32-bit range makes the parse fail |
| JavaInt.PlusSign | common/src/main/java/com/riskengine/common/config/AppConfig.java:15 | a '+' in front of a digit string changes neither acceptance nor value |
| JavaInt.LeadingZero | common/src/main/java/com/riskengine/common/config/AppConfig.java:15 | a leading '0' changes neither acceptance nor value, with no sign or after a '-' |
| JavaInt.PlusAndLeadingZero | common/src/main/java/com/riskengine/common/config/AppConfig.java:15 | "+0" in front of a digit string changes neither acceptance nor value |
| JavaInt.LeadingZeroValue | common/src/main/java/com/riskengine/common/config/AppConfig.java:15 | a leading '0' does not change a digit string's value |
| JavaInt.ParsePlusLeadingZero | common/src/main/java/com/riskengine/common/config/AppConfig.java:15 | "+05432" is read as 5432 |
| JavaInt.ParseNegativeZero | common/src/main/java/com/riskengine/common/config/AppConfig.java:15 | "-0" is read as 0 |
| JavaInt.MaxValueText | common/src/main/java/com/riskengine/common/config/AppConfig.java:15 | 2^31-1 renders as "2147483647", which is accepted |
| JavaInt.MinValueText | common/src/main/java/com/riskengine/common/config/AppConfig.java:15 | -2^31 renders as "-2147483648", which is accepted |
| JavaInt.ParseRejectsExamples | common/src/main/java/com/riskengine/common/config/AppConfig.java:15 | "2147483648", "notanumber", " 5432", "" and "-" are all rejected |
| JavaInt.NatToDigits | common/src/main/java/com/riskengine/common/config/AppConfig.java:30 | the digits of a natural number have no superfluous leading zero and read back as that number |
| JavaInt.Render | common/src/main/java/com/riskengine/common/config/AppConfig.java:30 | the decimal text of an int is canonical (no leading zero, never "-0") and starts with '-' exactly when the int is negative |
| JavaInt.ParseRender | common/src/main/java/com/riskengine/common/config/AppConfig.java:28-30 | parsing the rendering of any int gives that int back |
| JavaInt.DigitsRoundTrip | common/src/main/java/com/riskengine/common/config/AppConfig.java:30 | a canonical digit string is the rendering of its own value |
| JavaInt.RenderParse | common/src/main/java/com/riskengine/common/config/AppConfig.java:30 | canonical text that parses is exactly the rendering of its value, so the port text in a URL is unique per port |
| JavaInt.RenderParseNegative | common/src/main/java/com/riskengine/common/config/AppConfig.java:30 | the negative case of RenderParse |
| JavaInt.RenderDefaultPorts | common/src/main/java/com/riskengine/common/config/AppConfig.java:28-30 | 5432 and 9200 render as "5432" and "9200" |
| JavaInt.RenderExamplePorts | common/src/main/java/com/riskengine/common/config/AppConfig.java:26-53 | 6543 and 9201 render as "6543" and "9201" and parse back |
| AppConfig.KafkaBootstrapServers | common/src/main/java/com/riskengine/common/config/AppConfig.java:18-20 | KAFKA_BOOTSTRAP_SERVERS verbatim when set, otherwise "localhost:9092" |
| AppConfig.KafkaTopic | common/src/main/java/com/riskengine/common/config/AppConfig.java:22-24 | KAFKA_TOPIC verbatim when set, otherwise "risk.transactions" |
| AppConfig.PostgresUser | common/src/main/java/com/riskengine/common/config/AppConfig.java:33-35 | POSTGRES_USER verbatim when set, otherwise "fraud_user" |
| AppConfig.PostgresPassword | common/src/main/java/com/riskengine/common/config/AppConfig.java:37-39 | POSTGRES_PASSWORD verbatim when set, otherwise "fraud_pass" |
| AppConfig.RedisHost | common/src/main/java/com/riskengine/common/config/AppConfig.java:41-43 | REDIS_HOST verbatim when set, otherwise "localhost" |
| AppConfig.RedisPort | common/src/main/java/com/riskengine/common/config/AppConfig.java:45-47 | Success(6379) when REDIS_PORT is unset, otherwise the parse of its value |
| AppConfig.FlinkCheckpointDir | common/src/main/java/com/riskengine/common/config/AppConfig.java:55-57 | FLINK_CHECKPOINT_DIR verbatim when set, otherwise "./checkpoint" |
| AppConfig.PostgresUrl | common/src/main/java/com/riskengine/common/config/AppConfig.java:26-31 | fails exactly when POSTGRES_PORT is set and unparsable, whatever host and db are, with that value as the error; a success always starts with "jdbc:postgresql://" |
| AppConfig.ElasticsearchUrl | common/src/main/java/com/riskengine/common/config/AppConfig.java:49-53 | fails exactly when ELASTICSEARCH_PORT is set and unparsable, with that value as the error; a success always starts with "http://" |
| ConnectionUrls.SplitAt | common/src/main/java/com/riskengine/common/config/AppConfig.java:30 | splitting around the first separator: none exactly when absent, otherwise the parts rebuild the input and the first part is separator-free |
| ConnectionUrls.SplitAtFirst | common/src/main/java/com/riskengine/common/config/AppConfig.java:30 | the first separator after a separator-free prefix is the one found |
| ConnectionUrls.RenderHasNoSeparator | common/src/main/java/com/riskengine/common/config/AppConfig.java:30 | a rendered port contains neither ':' nor '/' |
| ConnectionUrls.PostgresUrlFrom | common/src/main/java/com/riskengine/common/config/AppConfig.java:26-31 | the Postgres URL is "jdbc:postgresql://" + host + ":" + rendered port + "/" + db of the resolved parts |
| ConnectionUrls.ElasticsearchUrlFrom | common/src/main/java/com/riskengine/common/config/AppConfig.java:49-53 | the Elasticsearch URL is "http://" + host + ":" + rendered port of the resolved parts |
| ConnectionUrls.HostPortDbInverse | common/src/main/java/com/riskengine/common/config/AppConfig.java:30 | "host:port/db" reads back as its three parts for any host without ':' |
| ConnectionUrls.JdbcUrlInverse | common/src/main/java/com/riskengine/common/config/AppConfig.java:30 | the JDBC URL layout reads back as host, port and db for any host without ':' and any db |
| ConnectionUrls.SplitAtLast | common/src/main/java/com/riskengine/common/config/AppConfig.java:52 | splitting around the last separator: none exactly when absent, otherwise the parts rebuild the input and the second part is separator-free |
| ConnectionUrls.SplitAtLastFinal | common/src/main/java/com/riskengine/common/config/AppConfig.java:52 | the last separator before a separator-free suffix is the one found |
| ConnectionUrls.HostPortInverse | common/src/main/java/com/riskengine/common/config/AppConfig.java:52 | "host:port" reads back as its two parts for every host, one holding ':' included |
| ConnectionUrls.HttpOriginInverse | common/src/main/java/com/riskengine/common/config/AppConfig.java:52 | the http origin layout reads back as host and port for every host, an IPv6 literal included |
| ConnectionUrls.PostgresUrlRoundTrip | common/src/main/java/com/riskengine/common/config/AppConfig.java:26-31 | a built Postgres URL reads back as exactly the resolved host, port and db |
| ConnectionUrls.ElasticsearchUrlRoundTrip | common/src/main/java/com/riskengine/common/config/AppConfig.java:49-53 | a built Elasticsearch URL reads back as exactly the resolved host and port, whatever the host |
| ConnectionUrls.PostgresUrlReadsOnlyItsVariables | common/src/main/java/com/riskengine/common/config/AppConfig.java:26-31 | environments that agree on POSTGRES_HOST, POSTGRES_PORT and POSTGRES_DB give the same result |
| ConnectionUrls.PostgresUrlUnescaped | common/src/main/java/com/riskengine/common/config/AppConfig.java:30 | host and db are not escaped: host "h" with db "x:1/y" and host "h:5432/x" with port 1 and db "y" give the same URL |
| ConnectionUrls.Defaults | common/src/main/java/com/riskengine/common/config/AppConfig.java:18-57 | with nothing set the plain accessors give localhost:9092, risk.transactions, fraud_user, fraud_pass, localhost, 6379 and ./checkpoint |
| ConnectionUrls.DefaultPostgresUrl | common/src/main/java/com/riskengine/common/config/AppConfig.java:26-31 | with nothing set the URL is jdbc:postgresql://localhost:5432/fraud_db |
| ConnectionUrls.DefaultElasticsearchUrl | common/src/main/java/com/riskengine/common/config/AppConfig.java:49-53 | with nothing set the URL is http://localhost:9200 |
| ConnectionUrls.EmptyValueIsPresent | common/src/main/java/com/riskengine/common/config/AppConfig.java:9-11 | a variable set to "" yields "", not the default |
| ConnectionUrls.PostgresPortOverride | common/src/main/java/com/riskengine/common/config/AppConfig.java:26-31 | POSTGRES_PORT=6543 alone gives jdbc:postgresql://localhost:6543/fraud_db |
| ConnectionUrls.PostgresPortNormalised | common/src/main/java/com/riskengine/common/config/AppConfig.java:28-30 | POSTGRES_PORT=+05432 is accepted and shown as 5432 in the URL |
| ConnectionUrls.PostgresPortMalformed | common/src/main/java/com/riskengine/common/config/AppConfig.java:28 | POSTGRES_PORT=notanumber fails with that text instead of falling back to 5432 |
| ConnectionUrls.ElasticsearchOverride | common/src/main/java/com/riskengine/common/config/AppConfig.java:49-53 | host es.internal and port 9201 give http://es.internal:9201 |

## Left out

- `System.getenv` reads the process environment, which is I/O. The
  environment is an explicit `map<string, string>` parameter, and an absent key
  stands for the `null` that `System.getenv` returns.
- `Integer.parseInt` also accepts non-ASCII Unicode decimal digits, through
  `Character.digit`. Only '0'..'9' are digits in this model.
- The exception is modelled as `Failure(NumberFormat(s))`, which records the
  rejected input. The full text of Java's exception message and the stack trace
  are not modelled.
- The records `TransactionEvent` and `RiskScore` are not part of this model.
  They only hold fields, and their JSON encoding is done by Jackson, which is a library and not
  part of this repository.
- The Python settings module `src/config/settings.py` is not part of this
  model. Its lookup and coercion are done by pydantic. It also builds a
  different Postgres URL, with credentials and without the JDBC scheme.
- The decoders `ParsePostgresUrl` and `ParseHttpOrigin` are reference readers
  used to state the round trips. They are not part of the source.
- PostgresUrlRoundTrip: stated only for a host without ':'. The JDBC URL
  inserts host and db unescaped, so with a ':' in the host two configurations
  can give the same URL (`PostgresUrlUnescaped`), and no reader can recover
  both. The Elasticsearch round trip needs no such restriction.
