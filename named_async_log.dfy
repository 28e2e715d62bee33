/**
 * The Logging copy of Log4NetAsyncLog: one dispatcher per name, each with its
 * own queue, thresholds, flags and log4net logger (its sink). Two members are
 * static in that copy and so are shared by every dispatcher: the registry of
 * dispatchers by name and the pad width of queue depths. `Shared` holds them.
 */
module NamedAsyncLog {
  import opened Wrappers
  import M = MsLogLevel
  import S = Sink
  import opened Dispatch

  const InstanceCtorPrefix := "Log4NetAsyncLog() [INSTANCE CTOR] - "

  function StartLines(name: string): seq<S.Entry>
  {
    [S.Entry(S.Info, InstanceCtorPrefix + "About to start " + name + " logging Thread...", None),
     S.Entry(S.Info, InstanceCtorPrefix + "Thread " + name + " started...", None)]
  }

  function StopLine(name: string): S.Entry
  {
    S.Entry(S.Info, "Stop() - Graceful Shutdown - Log Thread [" + name + "] has signalled that it has stopped.", None)
  }

  /** The static members of the class: `_registry` and `_qSizeFormatter` (as its pad width, initially 8). */
  class Shared {
    var logs: map<string, AsyncLog>
    var qSizeWidth: nat

    constructor ()
      ensures logs == map[] && qSizeWidth == 8
    {
      logs := map[];
      qSizeWidth := 8;
    }

    /** `GetLog4NetAsyncLogByName`: the dispatcher registered under `name`, or null. */
    function GetByName(name: string): (r: AsyncLog?)
      reads this
      ensures r == null <==> name !in logs
      ensures r != null ==> r == logs[name]
    {
      if name in logs then logs[name] else null
    }
  }

  class AsyncLog {
    const name: string
    const shared: Shared
    var queue: seq<Record>
    var warnThreshold: int
    var errorThreshold: int
    var warnPassed: bool
    var errorPassed: bool
    var running: bool
    var sink: seq<S.Entry>

    /** The dispatcher's state; its pad width is the shared one. */
    function State(): DispatchState
      reads this, shared
    {
      DispatchState(queue, warnThreshold, errorThreshold, warnPassed, errorPassed, shared.qSizeWidth, running, sink)
    }

    /**
     * The instance constructor: defaults 10000 and 1000000, flags clear,
     * the shared pad width recomputed from this dispatcher's error threshold,
     * registration under `name` unless that name is already taken (the first
     * registration stays), and the two start-up lines.
     */
    constructor (name: string, shared: Shared)
      modifies shared
      ensures this.name == name && this.shared == shared
      ensures State() == DispatchState(
        [], DefaultWarnThreshold, DefaultErrorThreshold, false, false,
        QSizeWidth(DefaultErrorThreshold), true, StartLines(name))
      ensures shared.logs == if name in old(shared.logs) then old(shared.logs) else old(shared.logs)[name := this]
    {
      this.name := name;
      this.shared := shared;
      queue := [];
      warnThreshold := DefaultWarnThreshold;
      errorThreshold := DefaultErrorThreshold;
      warnPassed := false;
      errorPassed := false;
      running := true;
      sink := [];
      new;
      SetQSizeFormatter();
      if name !in shared.logs {
        shared.logs := shared.logs[name := this];
      }
      sink := sink + [StartLines(name)[0]];
      sink := sink + [StartLines(name)[1]];
    }

    /** `Stop`: clears the running flag and writes the graceful-shutdown line naming this dispatcher. */
    method Stop()
      modifies this
      ensures State() == old(State()).(running := false, sink := old(sink) + [StopLine(name)])
    {
      running := false;
      sink := sink + [StopLine(name)];
    }

    /** `checkCapacity`. */
    method CheckCapacity(countQueued: int) returns (ok: bool)
      modifies this
      ensures (ok, State()) == Capacity(old(State()), countQueued)
    {
      if countQueued > warnThreshold && !warnPassed {
        warnPassed := true;
        sink := sink + [ThresholdNotice(S.Warn, warnThreshold)];
      }
      if countQueued > errorThreshold {
        if !errorPassed {
          errorPassed := true;
          sink := sink + [ThresholdNotice(S.Error, errorThreshold)];
        }
        return false;
      }
      return true;
    }

    /** `Enqueue(loglevel, eventid, tstate, ex, formatter, tstatetype)`: the enqueue data ends with this dispatcher's name. */
    method Enqueue(req: Request, caller: Caller)
      modifies this
      ensures State() == AfterEnqueue(old(State()), req, name, caller)
    {
      var countQueued := |queue|;
      var ok := CheckCapacity(countQueued);
      if ok {
        var wrapper := Record(req, EnqueueData(|queue|, shared.qSizeWidth, caller, name));
        queue := queue + [wrapper];
      }
    }

    /** `Fatal(message, ex)`: event id 0, no formatter, and `ex` is dropped. */
    method Fatal(message: Option<string>, ex: Option<string>, caller: Caller)
      modifies this
      ensures State() == AfterEnqueue(old(State()), Request(M.Critical, 0, message, None, None), name, caller)
    {
      Enqueue(Request(M.Critical, 0, message, None, None), caller);
    }

    /** `Debug(message, ex)`: as Fatal, at Debug. */
    method Debug(message: Option<string>, ex: Option<string>, caller: Caller)
      modifies this
      ensures State() == AfterEnqueue(old(State()), Request(M.Debug, 0, message, None, None), name, caller)
    {
      Enqueue(Request(M.Debug, 0, message, None, None), caller);
    }

    /** `Info(message, ex)`: as Fatal, at Information. */
    method Info(message: Option<string>, ex: Option<string>, caller: Caller)
      modifies this
      ensures State() == AfterEnqueue(old(State()), Request(M.Information, 0, message, None, None), name, caller)
    {
      Enqueue(Request(M.Information, 0, message, None, None), caller);
    }

    /** `Warn(message, ex)`: as Fatal, at Warning. */
    method Warn(message: Option<string>, ex: Option<string>, caller: Caller)
      modifies this
      ensures State() == AfterEnqueue(old(State()), Request(M.Warning, 0, message, None, None), name, caller)
    {
      Enqueue(Request(M.Warning, 0, message, None, None), caller);
    }

    /** `Error(message, ex)`: as Fatal, at Error. */
    method Error(message: Option<string>, ex: Option<string>, caller: Caller)
      modifies this
      ensures State() == AfterEnqueue(old(State()), Request(M.Error, 0, message, None, None), name, caller)
    {
      Enqueue(Request(M.Error, 0, message, None, None), caller);
    }

    /** `processQueuedItem`: writes the record's entry, or reports that rendering it threw. */
    method ProcessQueuedItem(wrapper: Record, countQueued: int) returns (ok: bool)
      modifies this
      ensures ok == Renderable(wrapper)
      ensures sink == old(sink) + if ok then [Process(wrapper, countQueued, shared.qSizeWidth).value] else []
      ensures State() == old(State()).(sink := sink)
    {
      var e := Process(wrapper, countQueued, shared.qSizeWidth);
      ok := e.Some?;
      if ok {
        sink := sink + [e.value];
      }
    }

    /** `consumeQueue`: as in the static copy, with this dispatcher's queue and sink and the shared pad width. */
    method ConsumeQueue() returns (faulted: bool)
      modifies this
      ensures State() == AfterDrain(old(State()))
      ensures faulted == Faulting(old(queue), RenderAt(shared.qSizeWidth))
    {
      ghost var q0 := queue;
      ghost var render := RenderAt(shared.qSizeWidth);
      faulted := false;
      while |queue| > 0
        invariant warnThreshold == old(warnThreshold) && errorThreshold == old(errorThreshold)
        invariant warnPassed == old(warnPassed) && errorPassed == old(errorPassed) && running == old(running)
        invariant old(sink) + Drained(q0, render) == sink + Drained(queue, render)
        invariant Remaining(q0, render) == Remaining(queue, render)
        invariant Faulting(q0, render) == Faulting(queue, render)
        decreases |queue|
      {
        ghost var acc := sink;
        var wrapper := queue[0];
        assert queue == [wrapper] + queue[1..];
        queue := queue[1..];
        DrainStep(q0, wrapper, queue, old(sink), acc, render);
        var ok := ProcessQueuedItem(wrapper, |queue|);
        if !ok {
          faulted := true;
          break;
        }
      }
    }

    /** `WarnFlag(value)`. */
    method WarnFlag(value: bool) returns (r: bool)
      modifies this
      ensures r == value && State() == old(State()).(warnPassed := value)
    {
      warnPassed := value;
      r := warnPassed;
    }

    /** `ErrorFlag(value)`. */
    method ErrorFlag(value: bool) returns (r: bool)
      modifies this
      ensures r == value && State() == old(State()).(errorPassed := value)
    {
      errorPassed := value;
      r := errorPassed;
    }

    /** `ThresholdLevelWarn(qSize)`. */
    method SetThresholdLevelWarn(qSize: int) returns (r: int)
      modifies this
      ensures r == qSize && State() == old(State()).(warnThreshold := qSize)
    {
      warnThreshold := qSize;
      r := warnThreshold;
    }

    /** `ThresholdLevelWarn()`. */
    function ThresholdLevelWarn(): int
      reads this
    {
      warnThreshold
    }

    /**
     * `ThresholdLevelError(qSize)`: stores and returns it, and recomputes the
     * pad width from it, which changes the width every dispatcher uses.
     */
    method SetThresholdLevelError(qSize: int) returns (r: int)
      modifies this, shared
      ensures r == qSize && State() == old(State()).(errorThreshold := qSize, width := QSizeWidth(qSize))
      ensures shared.logs == old(shared.logs)
    {
      errorThreshold := qSize;
      SetQSizeFormatter();
      r := errorThreshold;
    }

    /** `ThresholdLevelError()`. */
    function ThresholdLevelError(): int
      reads this
    {
      errorThreshold
    }

    /** `setQSizeFormatter`: writes the shared pad width. */
    method SetQSizeFormatter()
      modifies shared
      ensures shared.qSizeWidth == QSizeWidth(errorThreshold) && shared.logs == old(shared.logs)
    {
      shared.qSizeWidth := QSizeWidth(errorThreshold);
    }
  }

  /**
   * Setting the error threshold on one dispatcher changes the pad width of
   * another that shares the static members, and nothing else about it.
   */
  method ThresholdWidthIsShared(a: AsyncLog, b: AsyncLog, qSize: int)
    requires a != b && a.shared == b.shared
    modifies a, a.shared
    ensures b.State() == old(b.State()).(width := QSizeWidth(qSize))
  {
    var _ := a.SetThresholdLevelError(qSize);
  }

  /**
   * Two dispatchers created under one fresh name: lookup by that name finds
   * the first, whose start-up lines are its own, and the second is not
   * registered at all.
   */
  method FirstRegistrationWins(shared: Shared, name: string) returns (a: AsyncLog, b: AsyncLog)
    requires name !in shared.logs
    modifies shared
    ensures a != b && shared.GetByName(name) == a
    ensures forall n :: n in shared.logs ==> shared.logs[n] != b
    ensures a.sink == StartLines(name) && b.sink == StartLines(name)
  {
    a := new AsyncLog(name, shared);
    b := new AsyncLog(name, shared);
  }
}
