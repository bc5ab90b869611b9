/**
 * How the application wires its configuration into the two components whose
 * behaviour depends on the environment: gin's mode, which decides whether
 * `response.Error` shows error text, and the level of gorm's logger.
 */
module Wiring {
  import opened Base
  import Config
  import Response
  import Codes
  import GormAdapter

  /** The slow-query threshold the database logger is built with: 200 ms, in nanoseconds. */
  const SlowThreshold: int := 200_000_000

  /**
   * gin's mode once `InitRouter` has run. gin starts in the mode its
   * environment variable names (`startsInRelease`); `InitRouter` only ever
   * switches to release mode, which it does unless the app runs in development.
   */
  function ReleaseMode(a: Config.App, startsInRelease: bool): (release: bool)
    ensures !Config.IsDev(a) ==> release
    ensures Config.IsDev(a) ==> (release <==> startsInRelease)
  {
    startsInRelease || !Config.IsDev(a)
  }

  /** `postgres.New`: the adapter at the 200 ms threshold, at Info level in development and Error otherwise. */
  function DbLogger(a: Config.App): (g: GormAdapter.Adapter)
    ensures g.slowThreshold == SlowThreshold
    ensures g.logLevel == GormAdapter.InfoLevel <==> Config.IsDev(a)
    ensures g.logLevel == GormAdapter.ErrorLevel <==> !Config.IsDev(a)
  {
    var mode := if Config.IsDev(a) then GormAdapter.InfoLevel else GormAdapter.ErrorLevel;
    GormAdapter.LogMode(GormAdapter.NewAdapter(SlowThreshold), mode)
  }

  /** In development every statement is logged: failed, slow, or as a plain query. */
  lemma DevLogsEveryStatement(a: Config.App, elapsed: int, err: GormAdapter.DbError)
    requires Config.IsDev(a)
    ensures GormAdapter.Trace(DbLogger(a), elapsed, err).entry.Some?
  {
  }

  /**
   * Outside development no plain query is logged; a statement is logged
   * exactly when it failed or took longer than 200 ms.
   */
  lemma ProductionLogsOnlyFailuresAndSlow(a: Config.App, elapsed: int, err: GormAdapter.DbError)
    requires !Config.IsDev(a)
    ensures var t := GormAdapter.Trace(DbLogger(a), elapsed, err);
      && t.entry != Some(GormAdapter.SqlQuery)
      && (t.entry.Some? <==> err.OtherError? || elapsed > SlowThreshold)
  {
  }

  /**
   * Outside development the reply never carries the error text; in
   * development it carries it as given unless gin was started in release mode.
   */
  lemma ErrorTextOnlyInDevelopment<D>(a: Config.App, startsInRelease: bool, r: Response.Request, code: Codes.Code,
                                      err: Option<string>)
    ensures var s := Response.Error<D>(r, code, err, ReleaseMode(a, startsInRelease));
      && (!Config.IsDev(a) ==> s.body.error == None)
      && (Config.IsDev(a) && !startsInRelease ==> s.body.error == err)
      && (startsInRelease ==> s.body.error == None)
  {
  }

  /**
   * The environment name is compared exactly: "Development" runs as
   * production, so error text is hidden and only failed or slow statements
   * are logged.
   */
  lemma MisspelledEnvIsProduction<D>(a: Config.App, startsInRelease: bool, r: Response.Request, code: Codes.Code,
                                     err: Option<string>, elapsed: int, dbErr: GormAdapter.DbError)
    requires a.env == "Development"
    ensures !Config.IsDev(a)
    ensures Response.Error<D>(r, code, err, ReleaseMode(a, startsInRelease)).body.error == None
    ensures GormAdapter.Trace(DbLogger(a), elapsed, dbErr).entry != Some(GormAdapter.SqlQuery)
  {
    assert a.env != "development" by {
      assert a.env[0] != "development"[0];
    }
    ProductionLogsOnlyFailuresAndSlow(a, elapsed, dbErr);
  }
}
