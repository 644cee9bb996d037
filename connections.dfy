/** The connections of the sync engine: the cached Firebird (source) connection
    with its active DSN (`con_fb`, `con_fb_dsn`, `FB_ACTIVE_DSN` and the helpers
    that update them), `connect_fb` trying four connection strings, the retrying
    `fb_select_all`, and the retrying `connect_pg`. Drivers are injected: a
    connection attempt's reply for a connection string, a query's outcome for an
    attempt. Sleeps between attempts are not modelled. */
module Connections {
  import opened Wrappers
  import opened Text

  /** `FB_CFG`: where the Firebird database lives. `database` is `None` when
      `FB_DB` is unset. */
  datatype FbConfig = FbConfig(host: string, port: nat, database: Option<string>, charset: string)

  /** What the ODBC driver does with one connection string. Only
      `pyodbc.Error` (`DriverError`) makes `connect_fb` try the next one. */
  datatype DriverReply = Accepted | DriverError(msg: string) | OtherError(msg: string)

  /** An open source connection: the DSN it was opened for, the connection
      string that worked, and which connection of the process it is. */
  datatype Connection = Connection(dsn: string, connString: string, serial: nat)

  /** `normalize_fb_path`: back slashes become forward slashes. */
  function NormalizeFbPath(path: string): (r: string)
    ensures |r| == |path|
    ensures '\\' !in r
    ensures forall k :: 0 <= k < |path| && path[k] != '\\' ==> r[k] == path[k]
  {
    if path == [] then []
    else [if path[0] == '\\' then '/' else path[0]] + NormalizeFbPath(path[1..])
  }

  /** Normalising twice is normalising once. */
  lemma NormalizeFbPathIdempotent(path: string)
    ensures NormalizeFbPath(NormalizeFbPath(path)) == NormalizeFbPath(path)
  {
    var n := NormalizeFbPath(path);
    var nn := NormalizeFbPath(n);
    assert forall k :: 0 <= k < |n| ==> nn[k] == n[k];
  }

  /** The four connection strings `connect_fb` tries, in order: the DSN with
      and without a charset, then two driver-based strings naming the database
      file directly. */
  function ConnStrings(dsn: string, cfg: FbConfig): (cs: seq<string>)
    ensures |cs| == 4
  {
    var dbPath := NormalizeFbPath(cfg.database.GetOr(""));
    var target := cfg.host + "/" + ShowNat(cfg.port) + ":" + dbPath;
    [ "DSN=" + dsn + ";CHARSET=" + cfg.charset + ";",
      "DSN=" + dsn + ";",
      "DRIVER=FirebirdODBC;DBNAME=" + target + ";CHARSET=" + cfg.charset + ";",
      "DRIVER=/usr/lib/libOdbcFb.so;DBNAME=" + target + ";CHARSET=" + cfg.charset + ";" ]
  }

  /** The outcome of trying `strs` in order after the failures so far, whose
      last message is `lastErr`: the first string the driver accepts; a
      non-driver error ends the search; when every string fails, the last
      driver error is raised. */
  function FirstAccepted(strs: seq<string>, driver: string -> DriverReply, lastErr: Option<string>): (r: Result<string, string>)
  {
    if strs == [] then
      (if lastErr.Some? then Err(lastErr.value) else Err("ODBC connect failed without exception"))
    else
      match driver(strs[0])
      case Accepted => Ok(strs[0])
      case DriverError(m) => FirstAccepted(strs[1..], driver, Some(m))
      case OtherError(m) => Err(m)
  }

  /** A connection string comes back only when the driver accepted it and
      every string before it failed with a driver error. */
  lemma {:induction false} FirstAcceptedOk(strs: seq<string>, driver: string -> DriverReply, lastErr: Option<string>)
    requires FirstAccepted(strs, driver, lastErr).Ok?
    ensures exists k :: (0 <= k < |strs| && strs[k] == FirstAccepted(strs, driver, lastErr).value
      && driver(strs[k]).Accepted?
      && forall j :: 0 <= j < k ==> driver(strs[j]).DriverError?)
  {
    var r := FirstAccepted(strs, driver, lastErr);
    if driver(strs[0]).Accepted? {
      assert strs[0] == r.value;
    } else {
      assert driver(strs[0]).DriverError?;
      var m := driver(strs[0]).msg;
      assert r == FirstAccepted(strs[1..], driver, Some(m));
      FirstAcceptedOk(strs[1..], driver, Some(m));
      var k :| 0 <= k < |strs[1..]| && strs[1..][k] == r.value && driver(strs[1..][k]).Accepted?
        && forall j :: 0 <= j < k ==> driver(strs[1..][j]).DriverError?;
      assert strs[k + 1] == r.value;
      assert forall j :: 0 <= j < k + 1 ==> driver(strs[j]).DriverError? by {
        forall j | 0 <= j < k + 1 ensures driver(strs[j]).DriverError? {
          if j > 0 {
            assert strs[j] == strs[1..][j - 1];
          }
        }
      }
    }
  }

  /** When every string fails with a driver error, the error raised is the
      last string's. */
  lemma {:induction false} FirstAcceptedAllFail(strs: seq<string>, driver: string -> DriverReply, lastErr: Option<string>)
    requires strs != []
    requires forall k :: 0 <= k < |strs| ==> driver(strs[k]).DriverError?
    ensures FirstAccepted(strs, driver, lastErr) == Err(driver(strs[|strs| - 1]).msg)
  {
    var m := driver(strs[0]).msg;
    if |strs| > 1 {
      FirstAcceptedAllFail(strs[1..], driver, Some(m));
      assert strs[1..][|strs[1..]| - 1] == strs[|strs| - 1];
    }
  }

  /** `connect_fb(dsn)`: the loop over the four connection strings. */
  method ConnectFb(dsn: string, cfg: FbConfig, driver: string -> DriverReply) returns (r: Result<string, string>)
    ensures r == FirstAccepted(ConnStrings(dsn, cfg), driver, None)
  {
    var strs := ConnStrings(dsn, cfg);
    var lastErr: Option<string> := None;
    var i := 0;
    while i < |strs|
      invariant 0 <= i <= |strs|
      invariant FirstAccepted(strs[i..], driver, lastErr) == FirstAccepted(strs, driver, None)
    {
      assert strs[i..][1..] == strs[i + 1..];
      var reply := driver(strs[i]);
      if reply.Accepted? {
        return Ok(strs[i]);
      } else if reply.OtherError? {
        return Err(reply.msg);
      }
      lastErr := Some(reply.msg);
      i := i + 1;
    }
    if lastErr.Some? {
      return Err(lastErr.value);
    }
    return Err("ODBC connect failed without exception");
  }

  /** The cached source connection and the DSN it should use. */
  class FirebirdLink {
    var conn: Option<Connection>
    var connDsn: Option<string>
    var activeDsn: string
    var connects: nat
    const cfg: FbConfig

    /** The cache and its DSN are set and cleared together. */
    predicate Valid()
      reads this
    {
      (conn.Some? <==> connDsn.Some?) && (conn.Some? ==> conn.value.dsn == connDsn.value)
    }

    /** `ensure_fb` must (re)connect: nothing is cached, or the cache was
        opened for a DSN other than the active one. */
    predicate NeedsConnect()
      reads this
    {
      conn.None? || connDsn != Some(activeDsn)
    }

    /** Module start-up: no connection, the live DSN active. */
    constructor (liveDsn: string, config: FbConfig)
      ensures Valid() && conn == None && activeDsn == liveDsn && connects == 0 && cfg == config
    {
      conn := None;
      connDsn := None;
      activeDsn := liveDsn;
      connects := 0;
      cfg := config;
    }

    /** `ensure_fb`: reconnects exactly when `NeedsConnect()`; a failed
        connect raises and leaves the cache as it was. */
    method EnsureFb(driver: string -> DriverReply) returns (r: Result<Connection, string>)
      requires Valid()
      modifies this
      ensures Valid() && activeDsn == old(activeDsn)
      ensures connects == old(connects) + (if old(NeedsConnect()) then 1 else 0)
      ensures !old(NeedsConnect()) ==> r == Ok(old(conn).value) && conn == old(conn) && connDsn == old(connDsn)
      ensures old(NeedsConnect()) ==>
        match FirstAccepted(ConnStrings(activeDsn, cfg), driver, None)
        case Ok(s) =>
          r == Ok(Connection(activeDsn, s, old(connects))) && conn == Some(r.value) && connDsn == Some(activeDsn)
        case Err(e) =>
          r == Err(e) && conn == old(conn) && connDsn == old(connDsn)
    {
      if conn.None? || connDsn != Some(activeDsn) {
        var c := ConnectFb(activeDsn, cfg, driver);
        connects := connects + 1;
        if c.Err? {
          return Err(c.error);
        }
        conn := Some(Connection(activeDsn, c.value, connects - 1));
        connDsn := Some(activeDsn);
      }
      r := Ok(conn.value);
    }

    /** `close_fb`: drops the cached connection (errors while closing are
        swallowed). */
    method CloseFb()
      modifies this
      ensures Valid() && conn == None && connDsn == None
      ensures activeDsn == old(activeDsn) && connects == old(connects)
    {
      conn := None;
      connDsn := None;
    }

    /** `set_fb_dsn`: switching to another DSN closes the cache; setting the
        active DSN again keeps it. */
    method SetFbDsn(dsn: string)
      requires Valid()
      modifies this
      ensures Valid() && activeDsn == dsn && connects == old(connects)
      ensures dsn != old(activeDsn) ==> conn == None && connDsn == None
      ensures dsn == old(activeDsn) ==> conn == old(conn) && connDsn == old(connDsn)
    {
      if dsn != activeDsn {
        activeDsn := dsn;
        CloseFb();
      }
    }

    /** `with use_fb_dsn(dsn): body`. The body's effect on the link is given
        as the cache it leaves (`bodyConn`, opened for `dsn` if at all, since
        bodies reach the source only through `ensure_fb`); the previous DSN is
        restored afterwards whatever the body did. */
    method UseFbDsn(dsn: string, bodyConn: Option<Connection>, bodyConnects: nat)
      requires Valid()
      requires bodyConn.Some? ==> bodyConn.value.dsn == dsn
      modifies this
      ensures Valid() && activeDsn == old(activeDsn)
      ensures connects == old(connects) + bodyConnects
      ensures dsn != old(activeDsn) ==> conn == None
      ensures dsn == old(activeDsn) ==> conn == bodyConn
    {
      var prev := activeDsn;
      SetFbDsn(dsn);
      conn := bodyConn;
      connDsn := if bodyConn.Some? then Some(dsn) else None;
      connects := connects + bodyConnects;
      SetFbDsn(prev);
    }

    /** `fb_select_all(sql, params, retries)`: every failure, while connecting
        or querying, closes the connection and tries again, up to `retries`
        attempts; then `RuntimeError`. Attempt `k` connects through the driver
        `driver(k)` (so a connect that fails once may work on the next try) and
        fetches `query(k)`, `None` when the query raises. */
    method FbSelectAll<R>(retries: int, query: int -> Option<seq<R>>, driver: int -> string -> DriverReply)
      returns (r: Result<seq<R>, string>)
      requires Valid()
      modifies this
      ensures Valid() && activeDsn == old(activeDsn) && connects >= old(connects)
      ensures r == SelectFrom(1, retries, !old(NeedsConnect()), activeDsn, cfg, driver, query)
      ensures r.Ok? ==> conn.Some? && connDsn == Some(activeDsn)
      ensures r.Err? && retries >= 1 ==> conn == None
      ensures r.Err? && retries < 1 ==> conn == old(conn)
    {
      var attempt := 1;
      while attempt <= retries
        invariant Valid() && activeDsn == old(activeDsn) && connects >= old(connects)
        invariant 1 <= attempt && (attempt == 1 || attempt <= retries + 1)
        invariant attempt == 1 ==> conn == old(conn) && connDsn == old(connDsn)
        invariant attempt > 1 ==> conn == None
        invariant SelectFrom(1, retries, !old(NeedsConnect()), activeDsn, cfg, driver, query)
          == SelectFrom(attempt, retries, attempt == 1 && !old(NeedsConnect()), activeDsn, cfg, driver, query)
        decreases retries - attempt
      {
        var c := EnsureFb(driver(attempt));
        if c.Ok? && query(attempt).Some? {
          return Ok(query(attempt).value);
        }
        CloseFb();
        attempt := attempt + 1;
      }
      return Err("Firebird select failed");
    }
  }

  /** `connect_fb` succeeds for `dsn`. */
  predicate Connectable(dsn: string, cfg: FbConfig, driver: string -> DriverReply) {
    FirstAccepted(ConnStrings(dsn, cfg), driver, None).Ok?
  }

  /** The outcome of `fb_select_all` from attempt `k` on. Attempt `k` has a
      usable cached connection iff `cached`; otherwise it connects through
      `driver(k)`. After a failed attempt the cache is closed, so every later
      attempt connects afresh. */
  function SelectFrom<R>(k: int, retries: int, cached: bool, dsn: string, cfg: FbConfig,
                         driver: int -> string -> DriverReply, query: int -> Option<seq<R>>): (r: Result<seq<R>, string>)
    decreases retries - k
  {
    if k > retries then Err("Firebird select failed")
    else if (cached || Connectable(dsn, cfg, driver(k))) && query(k).Some? then Ok(query(k).value)
    else SelectFrom(k + 1, retries, false, dsn, cfg, driver, query)
  }

  /** A result of `fb_select_all` is what some attempt within the budget
      fetched over a connection it had. */
  lemma {:induction false} SelectFromOk<R>(k: int, retries: int, cached: bool, dsn: string, cfg: FbConfig,
                                           driver: int -> string -> DriverReply, query: int -> Option<seq<R>>)
    requires SelectFrom(k, retries, cached, dsn, cfg, driver, query).Ok?
    ensures exists j :: (k <= j <= retries && query(j) == Some(SelectFrom(k, retries, cached, dsn, cfg, driver, query).value)
      && ((cached && j == k) || Connectable(dsn, cfg, driver(j))))
    decreases retries - k
  {
    if !((cached || Connectable(dsn, cfg, driver(k))) && query(k).Some?) {
      SelectFromOk(k + 1, retries, false, dsn, cfg, driver, query);
    }
  }

  /** Retrying on every exception: the first attempt that both connects and
      fetches within the budget gives the result, whatever failed before it,
      a failed connect as much as a failed query. */
  lemma {:induction false} SelectFromRetries<R>(k: int, retries: int, cached: bool, dsn: string, cfg: FbConfig,
                                                driver: int -> string -> DriverReply, query: int -> Option<seq<R>>, found: int)
    requires k <= found <= retries && query(found).Some?
    requires (cached && found == k) || Connectable(dsn, cfg, driver(found))
    requires found > k && cached ==> query(k).None?
    requires forall j :: k <= j < found ==> query(j).None? || !Connectable(dsn, cfg, driver(j))
    ensures SelectFrom(k, retries, cached, dsn, cfg, driver, query) == Ok(query(found).value)
    decreases found - k
  {
    if k < found {
      SelectFromRetries(k + 1, retries, false, dsn, cfg, driver, query, found);
    }
  }

  /** A connect that fails on the first attempt and works on the second does
      not make the select fail. */
  lemma SelectRecoversFromConnectFailure<R>(retries: int, dsn: string, cfg: FbConfig,
                                            driver: int -> string -> DriverReply, query: int -> Option<seq<R>>)
    requires retries >= 2 && !Connectable(dsn, cfg, driver(1))
    requires Connectable(dsn, cfg, driver(2)) && query(2).Some?
    ensures SelectFrom(1, retries, false, dsn, cfg, driver, query) == Ok(query(2).value)
  {
    SelectFromRetries(1, retries, false, dsn, cfg, driver, query, 2);
  }

  /** With no attempt allowed, or no cached connection and no attempt able to
      connect, `fb_select_all` raises. */
  lemma {:induction false} SelectFromFails<R>(k: int, retries: int, dsn: string, cfg: FbConfig,
                                              driver: int -> string -> DriverReply, query: int -> Option<seq<R>>)
    requires forall j :: k <= j <= retries ==> !Connectable(dsn, cfg, driver(j))
    ensures SelectFrom(k, retries, false, dsn, cfg, driver, query).Err?
    decreases retries - k
  {
    if k <= retries {
      SelectFromFails(k + 1, retries, dsn, cfg, driver, query);
    }
  }

  /** What `psycopg2.connect` does on one attempt. Only `OperationalError` is
      retried. */
  datatype PgReply = PgConnected | OperationalError(msg: string) | PgOtherError(msg: string)

  /** The outcome of `connect_pg` from attempt `k` on: the attempt number
      that connected, or the error raised. */
  function PgConnectFrom(k: int, retries: int, reply: int -> PgReply): (r: Result<int, string>)
    decreases retries - k
  {
    if k > retries then Err("Postgres connection retries exhausted")
    else
      match reply(k)
      case PgConnected => Ok(k)
      case OperationalError(m) => if k >= retries then Err(m) else PgConnectFrom(k + 1, retries, reply)
      case PgOtherError(m) => Err(m)
  }

  /** `connect_pg()`: at most `retries` attempts, the last one's error
      re-raised. */
  method ConnectPg(retries: int, reply: int -> PgReply) returns (r: Result<int, string>)
    ensures r == PgConnectFrom(1, retries, reply)
  {
    var attempt := 1;
    while attempt <= retries
      invariant 1 <= attempt
      invariant PgConnectFrom(attempt, retries, reply) == PgConnectFrom(1, retries, reply)
      decreases retries - attempt
    {
      var rep := reply(attempt);
      if rep.PgConnected? {
        return Ok(attempt);
      } else if rep.PgOtherError? {
        return Err(rep.msg);
      }
      if attempt >= retries {
        return Err(rep.msg);
      }
      attempt := attempt + 1;
    }
    return Err("Postgres connection retries exhausted");
  }

  /** A connection comes from an attempt within the budget that connected
      after only `OperationalError`s. */
  lemma {:induction false} PgConnectOk(k: int, retries: int, reply: int -> PgReply)
    requires PgConnectFrom(k, retries, reply).Ok?
    ensures var n := PgConnectFrom(k, retries, reply).value;
      k <= n <= retries && reply(n).PgConnected?
      && forall j :: k <= j < n ==> reply(j).OperationalError?
    decreases retries - k
  {
    if !reply(k).PgConnected? {
      PgConnectOk(k + 1, retries, reply);
    }
  }

  /** When every attempt fails with `OperationalError`, the last attempt's
      error is raised; `RuntimeError` only when no attempt is allowed. */
  lemma {:induction false} PgConnectAllFail(k: int, retries: int, reply: int -> PgReply)
    requires forall j :: k <= j <= retries ==> reply(j).OperationalError?
    ensures k <= retries ==> PgConnectFrom(k, retries, reply) == Err(reply(retries).msg)
    ensures k > retries ==> PgConnectFrom(k, retries, reply) == Err("Postgres connection retries exhausted")
    decreases retries - k
  {
    if k < retries {
      PgConnectAllFail(k + 1, retries, reply);
    }
  }
}
