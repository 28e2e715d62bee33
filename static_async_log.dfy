/**
 * Log4NetCore's Log4NetAsyncLog: one process-wide dispatcher whose static
 * fields are the fields of the single `AsyncLog` object here. The worker
 * thread, its wait handles and the blocking part of Stop are not modelled;
 * ConsumeQueue is one drain as the worker runs it.
 */
module StaticAsyncLog {
  import opened Wrappers
  import M = MsLogLevel
  import S = Sink
  import opened Dispatch

  const StaticCtorPrefix := "Log4NetAsyncLog() [STATIC CTOR] - "
  const StopLine := "Stop() - Graceful Shutdown - Log Thread has signalled that it has stopped."

  class AsyncLog {
    var queue: seq<Record>
    var warnThreshold: int
    var errorThreshold: int
    var warnPassed: bool
    var errorPassed: bool
    var width: nat
    var running: bool
    var sink: seq<S.Entry>

    function State(): DispatchState
      reads this
    {
      DispatchState(queue, warnThreshold, errorThreshold, warnPassed, errorPassed, width, running, sink)
    }

    /**
     * The static constructor: defaults 10000 and 1000000, both flags clear,
     * the pad width derived from the error threshold, running, and the two
     * start-up lines written to the sink.
     */
    constructor ()
      ensures State() == DispatchState(
        [], DefaultWarnThreshold, DefaultErrorThreshold, false, false,
        QSizeWidth(DefaultErrorThreshold), true,
        [S.Entry(S.Info, StaticCtorPrefix + "About to start Logging Thread...", None),
         S.Entry(S.Info, StaticCtorPrefix + "Logging Thread started...", None)])
    {
      queue := [];
      warnThreshold := DefaultWarnThreshold;
      errorThreshold := DefaultErrorThreshold;
      warnPassed := false;
      errorPassed := false;
      width := 8;
      running := true;
      sink := [];
      new;
      SetQSizeFormatter();
      sink := sink + [S.Entry(S.Info, StaticCtorPrefix + "About to start Logging Thread...", None)];
      sink := sink + [S.Entry(S.Info, StaticCtorPrefix + "Logging Thread started...", None)];
    }

    /**
     * `Stop`: clears the running flag, waits for the worker to signal its exit
     * and writes the graceful-shutdown line (the wait has no timeout, so the
     * bad-shutdown line is never written). The queue may still hold records.
     */
    method Stop()
      modifies this
      ensures State() == old(State()).(running := false, sink := old(sink) + [S.Entry(S.Info, StopLine, None)])
    {
      running := false;
      sink := sink + [S.Entry(S.Info, StopLine, None)];
    }

    /** `checkCapacity`. */
    method CheckCapacity(countQueued: int) returns (ok: bool)
      modifies this
      ensures (ok, State()) == Capacity(old(State()), countQueued)
    {
      if countQueued > warnThreshold && !warnPassed {
        warnPassed := true;
        sink := sink + [ThresholdNotice(S.Warn, warnThreshold)];
      }
      if countQueued > errorThreshold {
        if !errorPassed {
          errorPassed := true;
          sink := sink + [ThresholdNotice(S.Error, errorThreshold)];
        }
        return false;
      }
      return true;
    }

    /** `Enqueue(loglevel, eventid, tstate, ex, formatter, tstatetype, name)`; the running flag is not consulted. */
    method Enqueue(req: Request, name: string, caller: Caller)
      modifies this
      ensures State() == AfterEnqueue(old(State()), req, name, caller)
    {
      var countQueued := |queue|;
      var ok := CheckCapacity(countQueued);
      if ok {
        var wrapper := Record(req, EnqueueData(|queue|, width, caller, name));
        queue := queue + [wrapper];
      }
    }

    /** `Fatal(message, ex)`: event id 0, no formatter, default name "!", and `ex` is dropped. */
    method Fatal(message: Option<string>, ex: Option<string>, caller: Caller)
      modifies this
      ensures State() == AfterEnqueue(old(State()), Request(M.Critical, 0, message, None, None), "!", caller)
    {
      Enqueue(Request(M.Critical, 0, message, None, None), "!", caller);
    }

    /** `Debug(message, ex)`: as Fatal, at Debug. */
    method Debug(message: Option<string>, ex: Option<string>, caller: Caller)
      modifies this
      ensures State() == AfterEnqueue(old(State()), Request(M.Debug, 0, message, None, None), "!", caller)
    {
      Enqueue(Request(M.Debug, 0, message, None, None), "!", caller);
    }

    /** `Info(message, ex)`: as Fatal, at Information. */
    method Info(message: Option<string>, ex: Option<string>, caller: Caller)
      modifies this
      ensures State() == AfterEnqueue(old(State()), Request(M.Information, 0, message, None, None), "!", caller)
    {
      Enqueue(Request(M.Information, 0, message, None, None), "!", caller);
    }

    /** `Warn(message, ex)`: as Fatal, at Warning. */
    method Warn(message: Option<string>, ex: Option<string>, caller: Caller)
      modifies this
      ensures State() == AfterEnqueue(old(State()), Request(M.Warning, 0, message, None, None), "!", caller)
    {
      Enqueue(Request(M.Warning, 0, message, None, None), "!", caller);
    }

    /** `Error(message, ex)`: as Fatal, at Error. */
    method Error(message: Option<string>, ex: Option<string>, caller: Caller)
      modifies this
      ensures State() == AfterEnqueue(old(State()), Request(M.Error, 0, message, None, None), "!", caller)
    {
      Enqueue(Request(M.Error, 0, message, None, None), "!", caller);
    }

    /** `processQueuedItem`: writes the record's entry, or reports that rendering it threw. */
    method ProcessQueuedItem(wrapper: Record, countQueued: int) returns (ok: bool)
      modifies this
      ensures ok == Renderable(wrapper)
      ensures sink == old(sink) + if ok then [Process(wrapper, countQueued, width).value] else []
      ensures State() == old(State()).(sink := sink)
    {
      var e := Process(wrapper, countQueued, width);
      ok := e.Some?;
      if ok {
        sink := sink + [e.value];
      }
    }

    /**
     * `consumeQueue`: dequeues until the queue is empty, processing each record
     * with the count left behind it. `faulted` reports that a record threw
     * while being rendered. In the source that exception escapes the worker
     * thread unhandled and so ends the whole process; the model instead ends
     * the drain there and leaves the records behind it queued.
     */
    method ConsumeQueue() returns (faulted: bool)
      modifies this
      ensures State() == AfterDrain(old(State()))
      ensures faulted == Faulting(old(queue), RenderAt(width))
    {
      ghost var q0 := queue;
      ghost var render := RenderAt(width);
      faulted := false;
      while |queue| > 0
        invariant width == old(width) && warnThreshold == old(warnThreshold) && errorThreshold == old(errorThreshold)
        invariant warnPassed == old(warnPassed) && errorPassed == old(errorPassed) && running == old(running)
        invariant old(sink) + Drained(q0, render) == sink + Drained(queue, render)
        invariant Remaining(q0, render) == Remaining(queue, render)
        invariant Faulting(q0, render) == Faulting(queue, render)
        decreases |queue|
      {
        ghost var acc := sink;
        var wrapper := queue[0];
        assert queue == [wrapper] + queue[1..];
        queue := queue[1..];
        DrainStep(q0, wrapper, queue, old(sink), acc, render);
        var ok := ProcessQueuedItem(wrapper, |queue|);
        if !ok {
          faulted := true;
          break;
        }
      }
    }

    /** `WarnFlag(value)`: stores and returns the value. */
    method WarnFlag(value: bool) returns (r: bool)
      modifies this
      ensures r == value && State() == old(State()).(warnPassed := value)
    {
      warnPassed := value;
      r := warnPassed;
    }

    /** `ErrorFlag(value)`: stores and returns the value; clearing it re-arms the error notice. */
    method ErrorFlag(value: bool) returns (r: bool)
      modifies this
      ensures r == value && State() == old(State()).(errorPassed := value)
    {
      errorPassed := value;
      r := errorPassed;
    }

    /** `ThresholdLevelWarn(qSize)`: stores and returns it; the pad width is left alone. */
    method SetThresholdLevelWarn(qSize: int) returns (r: int)
      modifies this
      ensures r == qSize && State() == old(State()).(warnThreshold := qSize)
    {
      warnThreshold := qSize;
      r := warnThreshold;
    }

    /** `ThresholdLevelWarn()`. */
    function ThresholdLevelWarn(): int
      reads this
    {
      warnThreshold
    }

    /** `ThresholdLevelError(qSize)`: stores and returns it, and recomputes the pad width from it. */
    method SetThresholdLevelError(qSize: int) returns (r: int)
      modifies this
      ensures r == qSize && State() == old(State()).(errorThreshold := qSize, width := QSizeWidth(qSize))
    {
      errorThreshold := qSize;
      SetQSizeFormatter();
      r := errorThreshold;
    }

    /** `ThresholdLevelError()`. */
    function ThresholdLevelError(): int
      reads this
    {
      errorThreshold
    }

    /** `setQSizeFormatter`. */
    method SetQSizeFormatter()
      modifies this
      ensures State() == old(State()).(width := QSizeWidth(errorThreshold))
    {
      width := QSizeWidth(errorThreshold);
    }
  }
}
