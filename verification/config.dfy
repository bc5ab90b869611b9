/**
 * The connection strings and flags derived from the loaded configuration.
 * Only the fields these derivations read are modelled.
 */
module Config {
  import opened Strings

  datatype App = App(name: string, port: int, host: string, env: string)
  datatype Postgres = Postgres(host: string, port: int, user: string, password: string,
                               dbName: string, sslMode: string, timeZone: string)
  datatype Redis = Redis(host: string, port: int, password: string, db: int)
  datatype Minio = Minio(host: string, rootUser: string, rootPassword: string, apiPort: int, consolePort: int)

  /** `addr` is `host`, a colon, then the decimal rendering of `port`, which reads back as `port`. */
  predicate SplitsAs(addr: string, host: string, port: int)
  {
    && |addr| > |host| + 1
    && addr[..|host|] == host
    && addr[|host|] == ':'
    && IsDecimal(addr[|host| + 1..])
    && ':' !in addr[|host| + 1..]
    && ParseInt(addr[|host| + 1..]) == port
  }

  /** `fmt.Sprintf("%s:%d", host, port)`. */
  function HostPort(host: string, port: int): (addr: string)
    ensures SplitsAs(addr, host, port)
  {
    IntRoundTrip(port);
    var addr := host + ":" + IntToString(port);
    assert addr[|host| + 1..] == IntToString(port);
    addr
  }

  /** `App.GetDSN`. */
  function AppDsn(a: App): (addr: string)
    ensures SplitsAs(addr, a.host, a.port)
  {
    HostPort(a.host, a.port)
  }

  /** `App.IsDev`: the comparison is exact, so `"Development"` or an empty env is not development. */
  function IsDev(a: App): (dev: bool)
    ensures dev <==> a.env == "development"
  {
    a.env == "development"
  }

  /** `Redis.GetAddr`. */
  function RedisAddr(r: Redis): (addr: string)
    ensures SplitsAs(addr, r.host, r.port)
  {
    HostPort(r.host, r.port)
  }

  /** `Minio.GetAddr`: the API port, never the console port. */
  function MinioAddr(m: Minio): (addr: string)
    ensures SplitsAs(addr, m.host, m.apiPort)
  {
    HostPort(m.host, m.apiPort)
  }

  /** The console port has no influence on the MinIO address. */
  lemma MinioIgnoresConsolePort(m: Minio, other: int)
    ensures MinioAddr(m.(consolePort := other)) == MinioAddr(m)
  {
  }

  /** The address determines the port: two ports give two different addresses. */
  lemma HostPortInjective(host: string, p: int, q: int)
    requires HostPort(host, p) == HostPort(host, q)
    ensures p == q
  {
    var a := HostPort(host, p);
    assert ParseInt(a[|host| + 1..]) == p && ParseInt(a[|host| + 1..]) == q;
  }

  /** The seven `key=value` settings of the Postgres DSN, in the order they are written. */
  function PgSettings(p: Postgres): seq<string>
  {
    ["host=" + p.host, "user=" + p.user, "password=" + p.password, "dbname=" + p.dbName,
     "port=" + IntToString(p.port), "sslmode=" + p.sslMode, "TimeZone=" + p.timeZone]
  }

  /**
   * `Postgres.GetDSN`: the format
   * `host=%s user=%s password=%s dbname=%s port=%d sslmode=%s TimeZone=%s`,
   * which is the seven settings separated by single spaces. When no value
   * contains a space, splitting the DSN on spaces gives back exactly the
   * seven settings in their fixed order.
   */
  function PostgresDsn(p: Postgres): (dsn: string)
    ensures HasPrefix(dsn, "host=" + p.host)
    ensures (&& ' ' !in p.host && ' ' !in p.user && ' ' !in p.password && ' ' !in p.dbName
             && ' ' !in p.sslMode && ' ' !in p.timeZone) ==> Split(dsn, ' ') == PgSettings(p)
  {
    var s := PgSettings(p);
    IntRoundTrip(p.port);
    assert s[4][5..] == IntToString(p.port);
    assert Join(s, " ") == s[0] + " " + Join(s[1..], " ");
    if ' ' !in p.host && ' ' !in p.user && ' ' !in p.password && ' ' !in p.dbName
       && ' ' !in p.sslMode && ' ' !in p.timeZone then
      assert forall i :: 0 <= i < |s| ==> ' ' !in s[i];
      SplitJoin(s, ' ');
      Join(s, " ")
    else
      Join(s, " ")
  }
}
