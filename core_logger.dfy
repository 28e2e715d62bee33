/**
 * Log4NetCore's Log4NetLogger: the `ILogger` a category name is logged
 * through. It keeps only its class name; `Log` runs a fixed sequence of
 * guards and then hands the call to the process-wide dispatcher.
 */
module CoreLogger {
  import opened Wrappers
  import M = MsLogLevel
  import S = Sink
  import LevelGate
  import opened Dispatch
  import StaticAsyncLog

  /** A logger for one category; the name is passed on with every record it enqueues. */
  datatype Logger = Logger(className: string)

  /** The scope object `BeginScope` hands out. */
  datatype Scope = Scope

  /** `BeginScope(state)`: scopes are not supported, so no scope object (null) is returned. */
  function BeginScope(logger: Logger, state: Option<string>): (r: Option<Scope>)
    ensures r.None?
  {
    None
  }

  /** What one `Log` call does: nothing, throw, or enqueue one request under the logger's name. */
  datatype LogOutcome =
    | Skipped
    | Threw(fault: Fault)
    | Enqueued(request: Request, name: string)

  /** A recognised level whose sink query, the one its records are later written at, answers true. */
  predicate Enabled(flags: S.EnabledFlags, level: M.LogLevel)
  {
    LevelGate.Recognised(level) && S.EnabledAt(flags, LevelGate.SinkLevel(level))
  }

  /**
   * The guards of `Log`, in the order the source applies them: `IsEnabled`
   * (which throws for an unknown level) and a disabled level return first,
   * before the formatter is looked at; then a null formatter throws; then a
   * call with neither state nor exception does nothing; then `state.GetType()`
   * throws on a null state; otherwise the request is enqueued once.
   */
  function Decide(logger: Logger, flags: S.EnabledFlags, level: M.LogLevel, eventId: int,
                  state: Option<string>, exception: Option<string>, formatter: Option<Formatter>): (o: LogOutcome)
    ensures o == Threw(ArgumentOutOfRange) <==> !LevelGate.Recognised(level)
    ensures o == Skipped <==>
      (LevelGate.Recognised(level) && (!Enabled(flags, level) || (formatter.Some? && state.None? && exception.None?)))
    ensures o == Threw(ArgumentNull) <==> (Enabled(flags, level) && formatter.None?)
    ensures o == Threw(NullReference) <==> (Enabled(flags, level) && formatter.Some? && state.None? && exception.Some?)
    ensures o.Enqueued? <==> (Enabled(flags, level) && formatter.Some? && state.Some?)
    ensures o.Enqueued? ==> o.request == Request(level, eventId, state, exception, formatter) && o.name == logger.className
  {
    match LevelGate.IsEnabled(level, flags)
    case Failure(f) => Threw(f)
    case Success(enabled) =>
      if !enabled then Skipped
      else if formatter.None? then Threw(ArgumentNull)
      else if state.None? && exception.None? then Skipped
      else if state.None? then Threw(NullReference)
      else Enqueued(Request(level, eventId, state, exception, formatter), logger.className)
  }

  /**
   * A request that gets past the guards always carries a formatter, so the
   * worker can always render it: records logged through a logger never end a
   * drain early.
   */
  lemma LoggedRecordsRender(logger: Logger, flags: S.EnabledFlags, level: M.LogLevel, eventId: int,
                            state: Option<string>, exception: Option<string>, formatter: Option<Formatter>,
                            enqueueData: string)
    ensures var o := Decide(logger, flags, level, eventId, state, exception, formatter);
      o.Enqueued? ==> Renderable(Record(o.request, enqueueData))
  {
  }

  /**
   * `Log(logLevel, eventId, state, exception, formatter)`: the dispatcher
   * receives exactly the enqueue Decide calls for, under the logger's name,
   * and is untouched otherwise; a thrown exception comes back as a Failure.
   * The enabled flags are those the dispatcher's log4net logger reports.
   */
  method Log(logger: Logger, dispatcher: StaticAsyncLog.AsyncLog, flags: S.EnabledFlags, level: M.LogLevel,
             eventId: int, state: Option<string>, exception: Option<string>, formatter: Option<Formatter>,
             caller: Caller)
    returns (r: Result<(), Fault>)
    modifies dispatcher
    ensures var o := Decide(logger, flags, level, eventId, state, exception, formatter);
      (r.Failure? <==> o.Threw?) && (o.Threw? ==> r.error == o.fault)
      && dispatcher.State()
         == if o.Enqueued? then AfterEnqueue(old(dispatcher.State()), o.request, o.name, caller)
            else old(dispatcher.State())
  {
    var o := Decide(logger, flags, level, eventId, state, exception, formatter);
    match o
    case Skipped =>
      r := Success(());
    case Threw(f) =>
      r := Failure(f);
    case Enqueued(req, name) =>
      dispatcher.Enqueue(req, name, caller);
      r := Success(());
  }

  /**
   * `MyFormatter(t, ex)`: the state's text (empty for null), one space, then
   * the exception's text when there is one.
   */
  function MyFormatter(t: Option<string>, ex: Option<string>): (s: string)
    ensures var tt := if t.Some? then t.value else "";
      var et := if ex.Some? then ex.value else "";
      |s| == |tt| + 1 + |et| && s[..|tt|] == tt && s[|tt|] == ' ' && s[|tt| + 1..] == et
  {
    (if t.Some? then t.value else "") + " " + (if ex.Some? then ex.value else "")
  }

  /**
   * When the state's text has no space, MyFormatter's output splits back at
   * its first space into that text and the exception's text (empty when
   * there is none); a null state and an empty state read back alike.
   */
  lemma MyFormatterSplitsBack(t: Option<string>, ex: Option<string>)
    requires t.Some? ==> ' ' !in t.value
    ensures SplitAt(MyFormatter(t, ex), ' ')
      == Some((if t.Some? then t.value else "", if ex.Some? then ex.value else ""))
  {
    var tt := if t.Some? then t.value else "";
    var et := if ex.Some? then ex.value else "";
    assert MyFormatter(t, ex) == tt + [' '] + et;
    SplitAtOf(tt, ' ', et);
  }
}
