# Log4NetCore asynchronous log dispatcher, modelled in Dafny

This project models the core of Log4NetCore. Application code logs through an `ILogger`. The record does not go straight to log4net: it goes to a queue, and one background thread drains that queue into the log4net logger (the *sink*). The model covers these parts:

- **The dispatcher (`Log4NetAsyncLog`), in both of the repository's copies.**
  - In the `Log4NetCore` copy everything is static, so there is one dispatcher per process (`StaticAsyncLog`).
  - In the `Logging` copy each dispatcher is an instance with its own name. The name registry and the pad width of queue depths are static, so all dispatchers share them (`NamedAsyncLog`).
  - Both copies are classes whose methods are proved against one value-level specification (`Dispatch`).
  - That specification covers:
    - admission of a record against a warn threshold and an error threshold, with sticky one-shot notices;
    - the `getEnqueueData` and `DQ=…,EVT=…,` message layout, with read-back lemmas;
    - routing of a dequeued record to a sink level, including the "Unrecognised logLevel" fallback;
    - the FIFO drain.
- **`Log4NetManager`** (`LevelManager`): the tables between integer codes, level names and log4net levels, and the root-level get and set.
- **The loggers.**
  - The `Log4NetCore` logger (`CoreLogger`) has the level gate, the guard sequence of `Log` and `MyFormatter`.
  - The `Logging` logger (`CountingLogger`) has the same guards plus its static call counters.
- **The `Log4NetCore` provider** (`Provider`): `CreateLogger` until `Dispose`, then null.

The sink is the sequence of entries written to it, in order. Each entry is a level, a text and an optional exception text. Several things become explicit inputs:

- the log4net logger's five `IsXEnabled` answers (`Sink.EnabledFlags`);
- the UTC time text, managed thread id and thread name of the calling thread (`Dispatch.Caller`);
- the log4net repository.

Behaviour of the code worth knowing, which the model follows:

- **Warn notice.** The warn notice trips when the sampled depth is strictly greater than the warn threshold. With warn threshold 2, it is the fourth enqueue (depth 3) that trips it (`Dispatch.SevenEnqueues`).
- **Enqueue after Stop.** A stopped dispatcher still accepts records, because `Enqueue` never reads the running flag (`Dispatch.EnqueueIgnoresRunning`).
- **No drain on Stop.** `Stop` does not drain the queue. The worker leaves its loop without a final drain, so records may remain queued after `Stop`.
- **Shutdown line.** `Stop` waits for the worker's exit event with no timeout. The wait can only return true, so the graceful-shutdown line is the one written, and the "Bad Shutdown" branch is unreachable.

## Model

| member | source | states |
|---|---|---|
| Int32.Inc | Logging/log4Net/Log4NetLogger.cs:22 | `++` on a C# `int` counter adds one, wrapping from int.MaxValue to int.MinValue |
| Int32.IncNCounts | Logging/log4Net/Log4NetLogger.cs:15-18 | after n increments a counter has grown by n modulo 2^32, and by exactly n while it does not pass int.MaxValue |
| Decimal.DigitsReadBack | Log4NetCore/Log4NetCore/Logging/log4Net/Log4NetAsyncLog.cs:152 | the decimal text of a number is a digit string whose value is the number, with no leading zero |
| Decimal.ZeroPad | Log4NetCore/Log4NetCore/Logging/log4Net/Log4NetAsyncLog.cs:152 | a number in "D<width>" format is exactly max(width, digit count) characters long |
| Decimal.ZeroPadReadsBack | Log4NetCore/Log4NetCore/Logging/log4Net/Log4NetAsyncLog.cs:152 | zero padding is harmless: the padded text is all digits and reads back as the number |
| Decimal.FormatDReadsBack | Log4NetCore/Log4NetCore/Logging/log4Net/Log4NetAsyncLog.cs:152 | any integer written in "D<width>" format parses back to itself and contains no comma |
| Decimal.CeilLog10 | Log4NetCore/Log4NetCore/Logging/log4Net/Log4NetAsyncLog.cs:290-291 | the ceiling of log10 e is the least k with e <= 10^k |
| LevelGate.SinkLevel | Log4NetCore/Log4NetCore/Logging/log4Net/Log4NetAsyncLog.cs:164-186 | Debug and Trace go to Debug, Information to Info, Warning to Warn, Critical to Fatal, Error and every unrecognised level to Error (one iff per sink level) |
| LevelGate.Marker | Log4NetCore/Log4NetCore/Logging/log4Net/Log4NetAsyncLog.cs:182-183 | the "[Unrecognised logLevel X] " prefix is written exactly for the levels the switch does not name |
| LevelGate.IsEnabled | Log4NetCore/Log4NetCore/Logging/log4Net/Log4NetLogger.cs:32-52 | an ArgumentOutOfRange failure exactly for `None` and for every value with no name; otherwise the enabled query of the very level the record is later written at |
| Dispatch.QSizeWidth | Log4NetCore/Log4NetCore/Logging/log4Net/Log4NetAsyncLog.cs:288-296 | the pad width is 4 for thresholds up to 1, otherwise the least w with threshold <= 10^w |
| Dispatch.DepthFieldWidth | Log4NetCore/Log4NetCore/Logging/log4Net/Log4NetAsyncLog.cs:288-296 | every depth below the error threshold is written in exactly the pad width |
| Dispatch.DepthAtPowerOfTenThreshold | Log4NetCore/Log4NetCore/Logging/log4Net/Log4NetAsyncLog.cs:288-296 | a depth equal to a power-of-ten threshold 10^k, which is still admitted, is written in k+1 characters, one more than the pad width |
| Dispatch.DecodeFieldOf | Log4NetCore/Log4NetCore/Logging/log4Net/Log4NetAsyncLog.cs:216-218 | a `TAG=<number>,` field reads back exactly, whatever follows it |
| Dispatch.EnqueueDataReadsBack | Log4NetCore/Log4NetCore/Logging/log4Net/Log4NetAsyncLog.cs:214-222 | the enqueue data is `NQ=` with the depth in the dispatcher's "D<width>" format, `NQUTC=` with the time, `NQTHR=` with the thread id in "D3" format, `THRNM=` with the thread name when there is one, and the logger name, each closed by a comma; a non-negative depth is zero-padded to the width, and the depth reads back off the data |
| Dispatch.DecodeHeaderOf | Log4NetCore/Log4NetCore/Logging/log4Net/Log4NetAsyncLog.cs:152 | the remaining-count and the event id read back off the `DQ=…,EVT=…,` header, whatever the pad width |
| Dispatch.Body | Log4NetCore/Log4NetCore/Logging/log4Net/Log4NetAsyncLog.cs:150-162 | the body is the formatter's output if there is a formatter, else the payload text; rendering throws exactly when both are null |
| Dispatch.Process | Log4NetCore/Log4NetCore/Logging/log4Net/Log4NetAsyncLog.cs:146-188 | a record yields no entry exactly when rendering throws; otherwise one entry at the routed level carrying the record's exception |
| Dispatch.ProcessReadsBack | Log4NetCore/Log4NetCore/Logging/log4Net/Log4NetAsyncLog.cs:152-183 | the written text is the level marker, then `DQ=` with the remaining-count in the dispatcher's "D<width>" format (zero-padded when non-negative), then `EVT=` with the event id in "D4" format, each closed by a comma, then the enqueue data and body; the count and the event id read back off it |
| Dispatch.ProcessDepthField | Log4NetCore/Log4NetCore/Logging/log4Net/Log4NetAsyncLog.cs:152 | with the width set from the error threshold, a remaining-count below that threshold is written after `DQ=` as exactly that many digits, whose value is the count |
| Dispatch.MessageLayout | Log4NetCore/Log4NetCore/Logging/log4Net/Log4NetAsyncLog.cs:152-153 | a message is `DQ=<count in D<width>>,EVT=<id in D4>,` followed by the rest, and both numbers read back off it |
| Dispatch.Capacity | Log4NetCore/Log4NetCore/Logging/log4Net/Log4NetAsyncLog.cs:224-250 | accept iff depth <= error threshold; each flag becomes true once the depth exceeds its threshold, the warn flag even on a rejected call; a notice is written exactly when a flag moves from false to true; queue, thresholds and width unchanged |
| Dispatch.AfterEnqueue | Log4NetCore/Log4NetCore/Logging/log4Net/Log4NetAsyncLog.cs:197-206 | an admitted record goes to the tail with enqueue data taken at the sampled depth; a rejected call leaves the queue unchanged; flags and sink as the capacity check says |
| Dispatch.EnqueueIgnoresRunning | Log4NetCore/Log4NetCore/Logging/log4Net/Log4NetAsyncLog.cs:197-206 | admission does not depend on the running flag, so records are accepted after Stop |
| Dispatch.Drained | Log4NetCore/Log4NetCore/Logging/log4Net/Log4NetAsyncLog.cs:136-143 | a drain writes at most one entry per queued record |
| Dispatch.Remaining | Log4NetCore/Log4NetCore/Logging/log4Net/Log4NetAsyncLog.cs:136-143 | what a drain leaves queued is never longer than the queue it started with |
| Dispatch.DrainStep | Log4NetCore/Log4NetCore/Logging/log4Net/Log4NetAsyncLog.cs:139-142 | popping the head and rendering it with the count left behind it preserves the entries still to come; a throwing record ends the drain with the rest still queued |
| Dispatch.FaultingIff | Log4NetCore/Log4NetCore/Logging/log4Net/Log4NetAsyncLog.cs:136-143 | a drain faults iff some record, rendered with the count behind it, throws |
| Dispatch.FaultingIffUnrenderable | Log4NetCore/Log4NetCore/Logging/log4Net/Log4NetAsyncLog.cs:146-162 | for a dispatcher, a drain faults iff the queue holds a record with neither formatter nor payload |
| Dispatch.DrainIsFifo | Log4NetCore/Log4NetCore/Logging/log4Net/Log4NetAsyncLog.cs:136-143 | when every record renders, the drain empties the queue and writes one entry per record in enqueue order, the k-th record seeing the count of records behind it |
| Dispatch.CheckAll | Log4NetCore/Log4NetCore/Logging/log4Net/Log4NetAsyncLog.cs:224-250 | a series of capacity checks leaves queue and thresholds alone and only appends to the sink |
| Dispatch.AnyAboveSplit | Log4NetCore/Log4NetCore/Logging/log4Net/Log4NetAsyncLog.cs:228 | some depth of a series exceeds a threshold iff the first does or one of the rest does |
| Dispatch.CapacityNotices | Log4NetCore/Log4NetCore/Logging/log4Net/Log4NetAsyncLog.cs:228-247 | one check writes the error notice iff the error flag was clear and the depth exceeds the error threshold, and likewise the warn notice |
| Dispatch.CheckAllSplit | Log4NetCore/Log4NetCore/Logging/log4Net/Log4NetAsyncLog.cs:224-250 | the notices of a series of checks are those of its first check plus those of the rest |
| Dispatch.ErrorNoticeOnce | Log4NetCore/Log4NetCore/Logging/log4Net/Log4NetAsyncLog.cs:236-247 | over any series of checks the error notice is written once if the flag starts clear and some depth exceeds the error threshold, and never otherwise |
| Dispatch.WarnNoticeOnce | Log4NetCore/Log4NetCore/Logging/log4Net/Log4NetAsyncLog.cs:228-234 | over any series of checks the warn notice is written once if the flag starts clear and some depth exceeds the warn threshold, and never otherwise |
| Dispatch.EnqueueAll | Log4NetCore/Log4NetCore/Logging/log4Net/Log4NetAsyncLog.cs:197-206 | a series of enqueues only ever adds to the queue and leaves thresholds and width alone |
| Dispatch.QueueFillsToErrorThreshold | Log4NetCore/Log4NetCore/Logging/log4Net/Log4NetAsyncLog.cs:236-249 | without a drain the queue grows by one per call up to error threshold + 1 records and then stops growing; a queue already longer than the threshold (after the threshold was lowered) admits nothing |
| Dispatch.EnqueueAllStep | Log4NetCore/Log4NetCore/Logging/log4Net/Log4NetAsyncLog.cs:197-206 | a series of enqueues is one enqueue followed by the rest |
| Dispatch.EnqueueAllAppend | Log4NetCore/Log4NetCore/Logging/log4Net/Log4NetAsyncLog.cs:197-206 | a series of enqueues split in two is the second part run from where the first left off |
| Dispatch.ScenarioStart | Log4NetCore/Log4NetCore/Logging/log4Net/Log4NetAsyncLog.cs:60-66 | a dispatcher with warn threshold 2 and error threshold 5 starts with an empty queue and sink and both flags clear |
| Dispatch.WarnPhase | Log4NetCore/Log4NetCore/Logging/log4Net/Log4NetAsyncLog.cs:228-234 | with thresholds 2 and 5, four enqueues are all admitted in order and the fourth (depth 3) writes the only warn notice |
| Dispatch.ErrorPhase | Log4NetCore/Log4NetCore/Logging/log4Net/Log4NetAsyncLog.cs:236-249 | from there, depths 4 and 5 are admitted and depth 6 is rejected, writing the only error notice |
| Dispatch.SevenEnqueues | Log4NetCore/Log4NetCore/Logging/log4Net/Log4NetAsyncLog.cs:224-250 | with thresholds 2 and 5, seven enqueues admit the first six in call order and write exactly a warn notice then an error notice |
| Dispatch.SevenEnqueuesThenDrain | Log4NetCore/Log4NetCore/Logging/log4Net/Log4NetAsyncLog.cs:136-143 | a drain after those seven enqueues empties the queue and leaves eight sink entries |
| StaticAsyncLog.AsyncLog.constructor | Log4NetCore/Log4NetCore/Logging/log4Net/Log4NetAsyncLog.cs:70-91 | defaults 10000 and 1000000, flags clear, width from the error threshold, running, and the two start-up lines |
| StaticAsyncLog.AsyncLog.Stop | Log4NetCore/Log4NetCore/Logging/log4Net/Log4NetAsyncLog.cs:94-104 | clears the running flag and writes the graceful-shutdown line; the queue is left as it was |
| StaticAsyncLog.AsyncLog.CheckCapacity | Log4NetCore/Log4NetCore/Logging/log4Net/Log4NetAsyncLog.cs:224-250 | returns and leaves exactly what Dispatch.Capacity describes |
| StaticAsyncLog.AsyncLog.Enqueue | Log4NetCore/Log4NetCore/Logging/log4Net/Log4NetAsyncLog.cs:197-206 | the new state is Dispatch.AfterEnqueue of the old one |
| StaticAsyncLog.AsyncLog.Fatal | Log4NetCore/Log4NetCore/Logging/log4Net/Log4NetAsyncLog.cs:208 | enqueues the message at Critical with event id 0, no formatter, name "!", and the exception dropped |
| StaticAsyncLog.AsyncLog.Debug | Log4NetCore/Log4NetCore/Logging/log4Net/Log4NetAsyncLog.cs:209 | as Fatal, at Debug |
| StaticAsyncLog.AsyncLog.Info | Log4NetCore/Log4NetCore/Logging/log4Net/Log4NetAsyncLog.cs:210 | as Fatal, at Information |
| StaticAsyncLog.AsyncLog.Warn | Log4NetCore/Log4NetCore/Logging/log4Net/Log4NetAsyncLog.cs:211 | as Fatal, at Warning |
| StaticAsyncLog.AsyncLog.Error | Log4NetCore/Log4NetCore/Logging/log4Net/Log4NetAsyncLog.cs:212 | as Fatal, at Error |
| StaticAsyncLog.AsyncLog.ProcessQueuedItem | Log4NetCore/Log4NetCore/Logging/log4Net/Log4NetAsyncLog.cs:146-188 | succeeds iff the record renders, then appends exactly its processed entry; nothing else changes |
| StaticAsyncLog.AsyncLog.ConsumeQueue | Log4NetCore/Log4NetCore/Logging/log4Net/Log4NetAsyncLog.cs:136-143 | the new state is Dispatch.AfterDrain of the old one, and it reports a fault iff the drain meets a record that throws |
| StaticAsyncLog.AsyncLog.WarnFlag | Log4NetCore/Log4NetCore/Logging/log4Net/Log4NetAsyncLog.cs:252-256 | stores and returns the value; nothing else changes |
| StaticAsyncLog.AsyncLog.ErrorFlag | Log4NetCore/Log4NetCore/Logging/log4Net/Log4NetAsyncLog.cs:258-262 | stores and returns the value, so clearing it re-arms the error notice; nothing else changes |
| StaticAsyncLog.AsyncLog.SetThresholdLevelWarn | Log4NetCore/Log4NetCore/Logging/log4Net/Log4NetAsyncLog.cs:269-273 | stores and returns the threshold; the pad width is unchanged |
| StaticAsyncLog.AsyncLog.SetThresholdLevelError | Log4NetCore/Log4NetCore/Logging/log4Net/Log4NetAsyncLog.cs:278-283 | stores and returns the threshold and recomputes the pad width from it |
| StaticAsyncLog.AsyncLog.SetQSizeFormatter | Log4NetCore/Log4NetCore/Logging/log4Net/Log4NetAsyncLog.cs:288-296 | the pad width becomes Dispatch.QSizeWidth of the error threshold |
| NamedAsyncLog.Shared.constructor | Logging/log4Net/Log4NetAsyncLog.cs:50 | the registry starts empty and the shared pad width at 8 ("D8") |
| NamedAsyncLog.Shared.GetByName | Logging/log4Net/Log4NetAsyncLog.cs:120-126 | null exactly for a name never registered, otherwise the registered dispatcher |
| NamedAsyncLog.AsyncLog.constructor | Logging/log4Net/Log4NetAsyncLog.cs:76-99 | defaults, the shared width recomputed, registration under the name only if it is free, and the two start-up lines naming the dispatcher |
| NamedAsyncLog.AsyncLog.Stop | Logging/log4Net/Log4NetAsyncLog.cs:107-117 | clears the running flag and writes the graceful-shutdown line naming the dispatcher |
| NamedAsyncLog.AsyncLog.CheckCapacity | Logging/log4Net/Log4NetAsyncLog.cs:237-263 | returns and leaves exactly what Dispatch.Capacity describes |
| NamedAsyncLog.AsyncLog.Enqueue | Logging/log4Net/Log4NetAsyncLog.cs:210-219 | the new state is Dispatch.AfterEnqueue of the old one under the dispatcher's own name |
| NamedAsyncLog.AsyncLog.Fatal | Logging/log4Net/Log4NetAsyncLog.cs:221 | enqueues the message at Critical with event id 0 and no formatter, dropping the exception |
| NamedAsyncLog.AsyncLog.Debug | Logging/log4Net/Log4NetAsyncLog.cs:222 | as Fatal, at Debug |
| NamedAsyncLog.AsyncLog.Info | Logging/log4Net/Log4NetAsyncLog.cs:223 | as Fatal, at Information |
| NamedAsyncLog.AsyncLog.Warn | Logging/log4Net/Log4NetAsyncLog.cs:224 | as Fatal, at Warning |
| NamedAsyncLog.AsyncLog.Error | Logging/log4Net/Log4NetAsyncLog.cs:225 | as Fatal, at Error |
| NamedAsyncLog.AsyncLog.ProcessQueuedItem | Logging/log4Net/Log4NetAsyncLog.cs:159-201 | succeeds iff the record renders, then appends exactly its processed entry at the shared width |
| NamedAsyncLog.AsyncLog.ConsumeQueue | Logging/log4Net/Log4NetAsyncLog.cs:149-156 | the new state is Dispatch.AfterDrain of the old one, and it reports a fault iff the drain meets a record that throws |
| NamedAsyncLog.AsyncLog.WarnFlag | Logging/log4Net/Log4NetAsyncLog.cs:265-269 | stores and returns the value |
| NamedAsyncLog.AsyncLog.ErrorFlag | Logging/log4Net/Log4NetAsyncLog.cs:271-275 | stores and returns the value |
| NamedAsyncLog.AsyncLog.SetThresholdLevelWarn | Logging/log4Net/Log4NetAsyncLog.cs:282-286 | stores and returns the threshold; the pad width is unchanged |
| NamedAsyncLog.AsyncLog.SetThresholdLevelError | Logging/log4Net/Log4NetAsyncLog.cs:291-296 | stores and returns the threshold and recomputes the shared pad width; the registry is unchanged |
| NamedAsyncLog.AsyncLog.SetQSizeFormatter | Logging/log4Net/Log4NetAsyncLog.cs:301-309 | the shared pad width becomes Dispatch.QSizeWidth of this dispatcher's error threshold |
| NamedAsyncLog.ThresholdWidthIsShared | Logging/log4Net/Log4NetAsyncLog.cs:68 | setting the error threshold on one dispatcher changes the pad width of every other one, and nothing else about it |
| NamedAsyncLog.FirstRegistrationWins | Logging/log4Net/Log4NetAsyncLog.cs:91 | of two dispatchers created under one free name, lookup finds the first and the second is not registered; each has written its own start-up lines to its own sink |
| LevelManager.Repository.constructor | Log4NetCore/Log4NetCore/Logging/log4Net/Log4NetManager.cs:30-31 | a repository with a given root level, not yet configured, no change events raised |
| LevelManager.LevelFromInt | Log4NetCore/Log4NetCore/Logging/log4Net/Log4NetManager.cs:65-76 | always a canonical level, and Info exactly for code 5 and every code outside 2 to 6 |
| LevelManager.IntFromLevel | Log4NetCore/Log4NetCore/Logging/log4Net/Log4NetManager.cs:101-115 | always a code from 2 to 6; levels are compared by value, so a level with the value of a canonical level gets that level's code, and any other level gets 5 |
| LevelManager.IntRoundTrip | Log4NetCore/Log4NetCore/Logging/log4Net/Log4NetManager.cs:65-115 | codes 2 to 6 survive the trip through a level; every other code comes back as 5 |
| LevelManager.LevelRoundTrip | Log4NetCore/Log4NetCore/Logging/log4Net/Log4NetManager.cs:65-115 | canonical levels survive the trip through a code, and distinct canonical levels have distinct codes |
| LevelManager.Upper | Log4NetCore/Log4NetCore/Logging/log4Net/Log4NetManager.cs:80 | the result is never an ASCII lower-case letter: a lower-case letter becomes the upper-case letter at the same position in the alphabet, and every other character is left alone |
| LevelManager.UpperString | Log4NetCore/Log4NetCore/Logging/log4Net/Log4NetManager.cs:80 | the result has the same length, contains no ASCII lower-case letter, and still equals the input ignoring case |
| LevelManager.LevelFromString | Log4NetCore/Log4NetCore/Logging/log4Net/Log4NetManager.cs:78-94 | Debug iff "DEBUG", Warn iff "WARN" or "WARNING", Error iff "ERROR", Fatal iff "FATAL" or "CRITICAL", ignoring case; anything else, null included, is Info |
| LevelManager.FirstLetterDecides | Log4NetCore/Log4NetCore/Logging/log4Net/Log4NetManager.cs:80-91 | two names with different first letters never both match one string |
| LevelManager.ParseIgnoresCase | Log4NetCore/Log4NetCore/Logging/log4Net/Log4NetManager.cs:78-94 | a name parses the same as its upper-cased form |
| LevelManager.UpperIdempotent | Log4NetCore/Log4NetCore/Logging/log4Net/Log4NetManager.cs:80 | upper-casing twice is upper-casing once |
| LevelManager.ConvertIntLogLevelToString | Log4NetCore/Log4NetCore/Logging/log4Net/Log4NetManager.cs:117-128 | one of the five names, and parsing it gives the level the code selects |
| LevelManager.NameRoundTrip | Log4NetCore/Log4NetCore/Logging/log4Net/Log4NetManager.cs:117-128 | a code's name parses back to the same code for 2 to 6, and to 5 otherwise |
| LevelManager.FineReadsAsDebug | Log4NetCore/Log4NetCore/Logging/log4Net/Log4NetManager.cs:101-115 | a level named FINE with DEBUG's value 30000 reads back as code 6, because log4net's `==` on levels compares values |
| LevelManager.CodeReadBackIsStable | Log4NetCore/Log4NetCore/Logging/log4Net/Log4NetManager.cs:101-115 | setting the level for the code read gives the same code; it gives back the same level iff the level is canonical, and a level of the same value iff the level's value is a canonical one |
| LevelManager.GetLogLevel | Log4NetCore/Log4NetCore/Logging/log4Net/Log4NetManager.cs:28-37 | -1 exactly when there is no repository, otherwise the root level's code, from 2 to 6 |
| LevelManager.SetLevel | Log4NetCore/Log4NetCore/Logging/log4Net/Log4NetManager.cs:43-57 | -1 with no repository; otherwise the root is set, marked configured, one change event raised, and the new level's code returned |
| LevelManager.SetLogLevelString | Log4NetCore/Log4NetCore/Logging/log4Net/Log4NetManager.cs:16-20 | sets the parsed level and returns what GetLogLevel then reads |
| LevelManager.SetLogLevelInt | Log4NetCore/Log4NetCore/Logging/log4Net/Log4NetManager.cs:22-26 | returns the code for 2 to 6 and 5 otherwise, which GetLogLevel then reads |
| LevelManager.ReapplyLogLevel | Log4NetCore/Log4NetCore/Logging/log4Net/Log4NetManager.cs:22-37 | setting the level read returns the same code and keeps a canonical root level; a root level with a canonical value is replaced by the canonical level of that value, and any other root level becomes Info |
| CoreLogger.BeginScope | Log4NetCore/Log4NetCore/Logging/log4Net/Log4NetLogger.cs:26-30 | no scope object is returned (null) |
| CoreLogger.Decide | Log4NetCore/Log4NetCore/Logging/log4Net/Log4NetLogger.cs:54-68 | the outcome of each guard as an iff: unknown level throws ArgumentOutOfRange; a disabled level returns before the formatter is checked; a null formatter throws ArgumentNull; no state and no exception does nothing; a null state with an exception throws NullReference; otherwise exactly this request is enqueued under the class name |
| CoreLogger.LoggedRecordsRender | Log4NetCore/Log4NetCore/Logging/log4Net/Log4NetLogger.cs:60-66 | a request that passes the guards always renders, so it never ends a drain early |
| CoreLogger.Log | Log4NetCore/Log4NetCore/Logging/log4Net/Log4NetLogger.cs:54-68 | the dispatcher receives exactly the one enqueue Decide calls for and is untouched otherwise; thrown faults are returned |
| CoreLogger.MyFormatter | Log4NetCore/Log4NetCore/Logging/log4Net/Log4NetLogger.cs:71-81 | the state text (empty for null), one space, then the exception text when there is one |
| CoreLogger.MyFormatterSplitsBack | Log4NetCore/Log4NetCore/Logging/log4Net/Log4NetLogger.cs:71-81 | for a state text without spaces, the output splits back at its first space into the state text and the exception text |
| CountingLogger.CallCounters.constructor | Logging/log4Net/Log4NetLogger.cs:15-18 | the four counters start at zero |
| CountingLogger.Logger.constructor | Logging/log4Net/Log4NetLogger.cs:20-24 | keeps the name and counts one construction; the other counters are unchanged |
| CountingLogger.Logger.BeginScope | Logging/log4Net/Log4NetLogger.cs:26 | returns no scope and counts one call |
| CountingLogger.Logger.IsEnabled | Logging/log4Net/Log4NetLogger.cs:28-47 | answers as LevelGate.IsEnabled and counts one call, also when it throws |
| CountingLogger.Logger.Log | Logging/log4Net/Log4NetLogger.cs:62-74 | counts one Log call and one IsEnabled call on every path, and does what CoreLogger.Decide says for a logger of this name |
| Provider.ProviderCounters.constructor | Log4NetCore/Log4NetCore/Logging/log4Net/Log4NetProvider.cs:20-22 | the three counters start at zero |
| Provider.LoggerProvider.constructor | Log4NetCore/Log4NetCore/Logging/log4Net/Log4NetProvider.cs:16-29 | running, empty registry, one construction counted, name ignored |
| Provider.LoggerProvider.CreateLogger | Log4NetCore/Log4NetCore/Logging/log4Net/Log4NetProvider.cs:31-43 | counts every call; null once disposed; otherwise the registered logger, which in a reachable state means a new logger for the category |
| Provider.LoggerProvider.Dispose | Log4NetCore/Log4NetCore/Logging/log4Net/Log4NetProvider.cs:45-50 | counts the call, stops the provider and empties the registry, whatever the state before, so a second Dispose changes only the counter |
| Provider.CreateDisposeCreate | Log4NetCore/Log4NetCore/Logging/log4Net/Log4NetProvider.cs:31-50 | a logger for the category before Dispose, null after it, two calls counted |

## Left out

- Threads and wait handles are not modelled. This covers `RunThread`, the `AutoResetEvent` signals and timeouts, the blocking handshake in `Stop`, and the finalizer that calls `Stop`. `ConsumeQueue` is one drain as the worker runs it, and `Stop` is its effect on the state. A second `Stop` would block forever on the consumed exit event; that is not modelled.
- Concurrent queue and dictionary semantics are not modelled. The race between sampling the depth and pushing the record is also out. Queue and registry are a sequential `seq` and `map`.
- log4net setup is not modelled: repository creation, XML configuration, `parseLog4NetConfigFile` and file reading. The sink is a list of entries, and its `IsXEnabled` answers are a parameter.
- `DateTime.UtcNow`, the managed thread id and the thread name are inputs (`Dispatch.Caller`). The time text is taken as already formatted.
- Payloads are carried as their text. `Convert.ChangeType` and `state.GetType()` are reduced to "null or not", and a formatter is a function from payload text and exception text. An exception thrown inside a caller's formatter is not modelled.
- `Math.Log10` and `Math.Ceiling` are replaced by an integer ceiling of log10, which is exact where floating point might round.
- The framework's `LogLevel` is its seven named members plus `Undefined(n)` for a value with no name; `n` lies outside 0..6 (`MsLogLevel.Unnamed`), and such a value prints as its number.
- Case-insensitive matching folds ASCII letters only, not the rest of Unicode.
- Logger identity is not modelled: loggers are values, so "a new logger object on every call" is stated as "a logger for that category".
- The `ThresholdLevelWarn()` and `ThresholdLevelError()` getters are plain reads of the thresholds, with no contract of their own.
- The `Logging` logger calls `Enqueue` and the `IsXEnabled` queries as static members, but the `Logging` dispatcher only has them as instance members. The model sends that logger's records to the static dispatcher, whose `Enqueue` has exactly the called signature.
- Logging/log4Net/Log4NetProvider.cs is not part of this model. It parses a configuration file and calls a logger constructor that its project does not define.
- The two Log4NetExtensions.cs files are dependency-injection registration only. The controllers, start-up code and demo classes are not part of this model.
- Dispatch.DrainStep, StaticAsyncLog.AsyncLog.ConsumeQueue, NamedAsyncLog.AsyncLog.ConsumeQueue: when a record throws while being rendered, the source's exception escapes the worker thread unhandled and ends the whole process. Process termination is not modelled; the model stops the drain at that record. The record that threw has already been dequeued; the records behind it stay queued.
- Null names and categories are not modelled. In the source a null dispatcher name or category throws `ArgumentNullException` from the registry's `GetOrAdd` or `TryGetValue` (Logging/log4Net/Log4NetAsyncLog.cs:91 and :123, Log4NetCore/Log4NetCore/Logging/log4Net/Log4NetProvider.cs:39); in the model a name is a `string`, which cannot be null.
- A null root level is not modelled. The lookups only ever set a canonical level, and log4net's root logger refuses a null level, so `LevelManager.Repository.root` is a plain `Level`.
