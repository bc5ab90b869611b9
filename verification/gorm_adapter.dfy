/**
 * The adapter that routes gorm's log calls into the application logger:
 * level gating for the three message methods and the routing decision of
 * `Trace`, which emits at most one entry per SQL statement.
 */
module GormAdapter {
  import opened Base

  /** gorm's `LogLevel` values. Any other integer is possible and is compared as a number. */
  const Silent: int := 1
  const ErrorLevel: int := 2
  const WarnLevel: int := 3
  const InfoLevel: int := 4

  /** The adapter's two settings; durations are nanosecond counts. */
  datatype Adapter = Adapter(slowThreshold: int, logLevel: int)

  /** `NewGormAdapter`: starts at the Info level. */
  function NewAdapter(slowThreshold: int): (a: Adapter)
    ensures a.logLevel == InfoLevel && a.slowThreshold == slowThreshold
  {
    Adapter(slowThreshold, InfoLevel)
  }

  /** `LogMode`: a copy at the new level; the receiver itself is a value and stays as it was. */
  function LogMode(a: Adapter, level: int): (b: Adapter)
    ensures b.logLevel == level && b.slowThreshold == a.slowThreshold
  {
    a.(logLevel := level)
  }

  /** Only the last `LogMode` call matters. */
  lemma LogModeLastWins(a: Adapter, x: int, y: int)
    ensures LogMode(LogMode(a, x), y) == LogMode(a, y)
  {
  }

  datatype Severity = Info | Warn | Error

  /** The level a message method needs: `Info`, `Warn` and `Error` emit at or above their own level. */
  function Threshold(s: Severity): int
  {
    match s
    case Info => InfoLevel
    case Warn => WarnLevel
    case Error => ErrorLevel
  }

  /** Whether the adapter's `Info`/`Warn`/`Error` method forwards a message. */
  predicate Emits(a: Adapter, s: Severity)
  {
    a.logLevel >= Threshold(s)
  }

  /** A more verbose level forwards everything a quieter one does. */
  lemma EmitsMonotone(a: Adapter, s: Severity, level: int)
    requires Emits(a, s) && level >= a.logLevel
    ensures Emits(LogMode(a, level), s)
  {
  }

  /** The error gorm hands to `Trace`. */
  datatype DbError = NoError | RecordNotFound | OtherError(text: string)

  /** The one entry `Trace` may write: "Database Error", "Slow SQL Detected" or "SQL Query". */
  datatype Entry = DatabaseError | SlowSql | SqlQuery

  /** What one `Trace` call does: whether it ran the SQL-text callback, and what it logged. */
  datatype Traced = Traced(callbackRan: bool, entry: Option<Entry>, severity: Option<Severity>)

  predicate IsSlow(a: Adapter, elapsed: int)
  {
    a.slowThreshold != 0 && elapsed > a.slowThreshold
  }

  /** `Trace` for a statement that took `elapsed` nanoseconds and ended with `err`. */
  function Trace(a: Adapter, elapsed: int, err: DbError): (t: Traced)
    ensures t.callbackRan <==> a.logLevel > Silent
    ensures t.entry == Some(DatabaseError) <==> a.logLevel > Silent && err.OtherError?
    ensures t.entry == Some(SlowSql) <==> a.logLevel > Silent && !err.OtherError? && IsSlow(a, elapsed)
    ensures t.entry == Some(SqlQuery) <==> a.logLevel == InfoLevel && !err.OtherError? && !IsSlow(a, elapsed)
    ensures t.entry.None? <==> t.severity.None?
    ensures t.entry == Some(DatabaseError) ==> t.severity == Some(Error)
    ensures t.entry == Some(SlowSql) ==> t.severity == Some(Warn)
    ensures t.entry == Some(SqlQuery) ==> t.severity == Some(Info)
  {
    if a.logLevel <= Silent then Traced(false, None, None)
    else if err.OtherError? then Traced(true, Some(DatabaseError), Some(Error))
    else if IsSlow(a, elapsed) then Traced(true, Some(SlowSql), Some(Warn))
    else if a.logLevel == InfoLevel then Traced(true, Some(SqlQuery), Some(Info))
    else Traced(true, None, None)
  }

  /** A record-not-found error is treated exactly like success. */
  lemma NotFoundIsNotAnError(a: Adapter, elapsed: int)
    ensures Trace(a, elapsed, RecordNotFound) == Trace(a, elapsed, NoError)
  {
  }

  /** With no threshold set, no statement is ever reported as slow. */
  lemma ZeroThresholdNeverSlow(a: Adapter, elapsed: int, err: DbError)
    requires a.slowThreshold == 0
    ensures Trace(a, elapsed, err).entry != Some(SlowSql)
  {
  }

  /**
   * `Trace` does not apply the message methods' gating: at the Error level a
   * slow statement is still written as a warning, although the adapter's own
   * `Warn` calls are dropped at that level.
   */
  lemma TraceBypassesGating(threshold: int)
    requires threshold > 0
    ensures var a := Adapter(threshold, ErrorLevel);
      && !Emits(a, Warn)
      && Trace(a, threshold + 1, NoError).severity == Some(Warn)
  {
  }
}
