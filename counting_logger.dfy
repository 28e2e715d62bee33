/**
 * The Log4NetLogger of the Logging project: the same guards as Log4NetCore's
 * logger, plus four process-wide diagnostic counters of type `int` that the
 * constructor, `BeginScope`, `IsEnabled` and `Log` increment. The counters
 * are static in the source, so every logger here shares one `CallCounters`
 * object.
 */
module CountingLogger {
  import opened Wrappers
  import opened Int32
  import M = MsLogLevel
  import S = Sink
  import LevelGate
  import opened Dispatch
  import StaticAsyncLog
  import CoreLogger

  /** The values of the four counters. */
  datatype Counts = Counts(instanceCtor: int32, beginScope: int32, isEnabled: int32, log: int32)

  /** `CountCalls_InstanceCtor`, `CountCalls_BeginScope`, `CountCalls_IsEnabled` and `CountCalls_Log`. */
  class CallCounters {
    var instanceCtor: int32
    var beginScope: int32
    var isEnabled: int32
    var log: int32

    function Values(): Counts
      reads this
    {
      Counts(instanceCtor, beginScope, isEnabled, log)
    }

    /** All four counters start at zero. */
    constructor ()
      ensures Values() == Counts(0, 0, 0, 0)
    {
      instanceCtor, beginScope, isEnabled, log := 0, 0, 0, 0;
    }
  }

  class Logger {
    const name: string
    const counters: CallCounters

    /** `Log4NetLogger(name)`: counts the construction and keeps the name. */
    constructor (name: string, counters: CallCounters)
      modifies counters
      ensures this.name == name && this.counters == counters
      ensures counters.Values() == old(counters.Values()).(instanceCtor := Inc(old(counters.instanceCtor)))
    {
      this.name := name;
      this.counters := counters;
      new;
      counters.instanceCtor := Inc(counters.instanceCtor);
    }

    /** `BeginScope(state)`: counts the call and returns no scope (null). */
    method BeginScope(state: Option<string>) returns (r: Option<CoreLogger.Scope>)
      modifies counters
      ensures r.None?
      ensures counters.Values() == old(counters.Values()).(beginScope := Inc(old(counters.beginScope)))
    {
      counters.beginScope := Inc(counters.beginScope);
      r := None;
    }

    /**
     * `IsEnabled(logLevel)`: counts the call, whether or not it then throws,
     * and answers as the level gate does.
     */
    method IsEnabled(flags: S.EnabledFlags, level: M.LogLevel) returns (r: Result<bool, Fault>)
      modifies counters
      ensures r == LevelGate.IsEnabled(level, flags)
      ensures counters.Values() == old(counters.Values()).(isEnabled := Inc(old(counters.isEnabled)))
    {
      counters.isEnabled := Inc(counters.isEnabled);
      match level
      case Critical => r := Success(flags.fatal);
      case Debug => r := Success(flags.debug);
      case Trace => r := Success(flags.debug);
      case Error => r := Success(flags.error);
      case Information => r := Success(flags.info);
      case Warning => r := Success(flags.warn);
      case _ => r := Failure(ArgumentOutOfRange);
    }

    /**
     * `Log(logLevel, eventId, state, exception, formatter)`: counts the call
     * and, through IsEnabled, one enabled query, on every path; then does
     * what Log4NetCore's logger decides for a logger of this name, enqueueing
     * into the dispatcher under `name` at most once.
     */
    method Log(dispatcher: StaticAsyncLog.AsyncLog, flags: S.EnabledFlags, level: M.LogLevel, eventId: int,
               state: Option<string>, exception: Option<string>, formatter: Option<Formatter>, caller: Caller)
      returns (r: Result<(), Fault>)
      modifies counters, dispatcher
      ensures var o := CoreLogger.Decide(CoreLogger.Logger(name), flags, level, eventId, state, exception, formatter);
        (r.Failure? <==> o.Threw?) && (o.Threw? ==> r.error == o.fault)
        && dispatcher.State()
           == if o.Enqueued? then AfterEnqueue(old(dispatcher.State()), o.request, name, caller)
              else old(dispatcher.State())
      ensures counters.Values()
        == old(counters.Values()).(isEnabled := Inc(old(counters.isEnabled)), log := Inc(old(counters.log)))
    {
      counters.log := Inc(counters.log);
      var enabled := IsEnabled(flags, level);
      if enabled.Failure? {
        return Failure(enabled.error);
      }
      if !enabled.value {
        return Success(());
      }
      if formatter.None? {
        return Failure(ArgumentNull);
      }
      if state.Some? || exception.Some? {
        if state.None? {
          return Failure(NullReference);
        }
        dispatcher.Enqueue(Request(level, eventId, state, exception, formatter), name, caller);
      }
      r := Success(());
    }
  }
}
