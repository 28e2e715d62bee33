/**
 * Log4NetCore's Log4NetProvider: the `ILoggerProvider` that hands out
 * loggers until it is disposed. Its logger registry is looked up but never
 * written, so it stays empty and every logger handed out is a new one for
 * its category. The three diagnostic counters are static in the source and
 * so live in one `ProviderCounters` object shared by all providers.
 */
module Provider {
  import opened Wrappers
  import opened Int32
  import CoreLogger

  /** The values of `CountCalls_InstanceCtor`, `CountCalls_CreateLogger` and `CountCalls_Dispose`. */
  datatype Counts = Counts(instanceCtor: int32, createLogger: int32, dispose: int32)

  class ProviderCounters {
    var instanceCtor: int32
    var createLogger: int32
    var dispose: int32

    function Values(): Counts
      reads this
    {
      Counts(instanceCtor, createLogger, dispose)
    }

    /** All three counters start at zero. */
    constructor ()
      ensures Values() == Counts(0, 0, 0)
    {
      instanceCtor, createLogger, dispose := 0, 0, 0;
    }
  }

  class LoggerProvider {
    var registry: map<string, CoreLogger.Logger>
    var running: bool
    const counters: ProviderCounters

    /** The registry is empty in every reachable state, since nothing ever adds to it. */
    predicate Valid()
      reads this
    {
      registry == map[]
    }

    /** `Log4NetProvider(name)`: counts the construction; the name is not used. */
    constructor (name: string, counters: ProviderCounters)
      modifies counters
      ensures Valid() && running && this.counters == counters
      ensures counters.Values() == old(counters.Values()).(instanceCtor := Inc(old(counters.instanceCtor)))
    {
      registry := map[];
      running := true;
      this.counters := counters;
      new;
      counters.instanceCtor := Inc(counters.instanceCtor);
    }

    /**
     * `CreateLogger(categoryName)`: counts the call, also after disposal;
     * returns null once disposed, otherwise the registered logger for the
     * category or, when there is none (always, in a valid provider), a new
     * logger for it. The provider itself does not change.
     */
    method CreateLogger(categoryName: string) returns (r: Option<CoreLogger.Logger>)
      modifies counters
      ensures !running ==> r.None?
      ensures running && categoryName in registry ==> r == Some(registry[categoryName])
      ensures running && Valid() ==> r == Some(CoreLogger.Logger(categoryName))
      ensures counters.Values() == old(counters.Values()).(createLogger := Inc(old(counters.createLogger)))
    {
      counters.createLogger := Inc(counters.createLogger);
      if !running {
        return None;
      }
      if categoryName in registry {
        r := Some(registry[categoryName]);
      } else {
        r := Some(CoreLogger.Logger(categoryName));
      }
    }

    /**
     * `Dispose()`: counts the call, stops handing out loggers and empties the
     * registry. The resulting state does not depend on the state before, so a
     * second Dispose changes nothing but the counter.
     */
    method Dispose()
      modifies this, counters
      ensures Valid() && !running
      ensures counters.Values() == old(counters.Values()).(dispose := Inc(old(counters.dispose)))
    {
      counters.dispose := Inc(counters.dispose);
      running := false;
      registry := map[];
    }
  }

  /**
   * A provider's life: loggers for any category until Dispose, null after it,
   * and the create-logger counter advanced by one per call throughout.
   */
  method CreateDisposeCreate(counters: ProviderCounters, category: string)
    returns (before: Option<CoreLogger.Logger>, after: Option<CoreLogger.Logger>)
    modifies counters
    ensures before == Some(CoreLogger.Logger(category)) && after.None?
    ensures counters.createLogger == Inc(Inc(old(counters.createLogger)))
  {
    var p := new LoggerProvider("log4net.config", counters);
    before := p.CreateLogger(category);
    p.Dispose();
    after := p.CreateLogger(category);
  }
}
