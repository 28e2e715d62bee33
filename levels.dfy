/** Microsoft.Extensions.Logging's `LogLevel`, as the loggers and the dispatcher receive it. */
module MsLogLevel {
  import Decimal

  /** The integers that name no member of the enum (its members are numbered 0 to 6). */
  type Unnamed = v: int | v < 0 || v > 6 witness -1

  /**
   * The named members of the framework enum; `Undefined` stands for a value
   * cast from an integer that names no member.
   */
  datatype LogLevel = Trace | Debug | Information | Warning | Error | Critical | None | Undefined(value: Unnamed)

  /** The enum's `ToString()`: the member name, or the number for an undefined value. */
  function Name(l: LogLevel): string
  {
    match l
    case Trace => "Trace"
    case Debug => "Debug"
    case Information => "Information"
    case Warning => "Warning"
    case Error => "Error"
    case Critical => "Critical"
    case None => "None"
    case Undefined(v) => Decimal.FormatD(v, 0)
  }
}

/** The log4net side: its levels, the entries a logger records and its per-level enabled queries. */
module Sink {
  import opened Wrappers

  /**
   * log4net's `Level`: the five levels the core uses, and any other level
   * (ALL, OFF, NOTICE, FINE, ...) with its name and numeric value.
   */
  datatype Level = Debug | Info | Warn | Error | Fatal | Other(name: string, value: int)

  predicate IsCanonical(l: Level) { !l.Other? }

  /** A level's numeric value; log4net's `==` on levels compares these values, not names. */
  function Value(l: Level): int
  {
    match l
    case Debug => 30000
    case Info => 40000
    case Warn => 60000
    case Error => 70000
    case Fatal => 110000
    case Other(_, v) => v
  }

  /** Whether a level compares equal (by value) to one of the five. */
  predicate HasCanonicalValue(l: Level)
  {
    Value(l) == Value(Debug) || Value(l) == Value(Info) || Value(l) == Value(Warn)
    || Value(l) == Value(Error) || Value(l) == Value(Fatal)
  }

  /** One call of `ILog.Debug/Info/Warn/Error/Fatal(text, exception)`. */
  datatype Entry = Entry(level: Level, text: string, exception: Option<string>)

  /** `IsFatalEnabled`, `IsErrorEnabled`, `IsWarnEnabled`, `IsInfoEnabled`, `IsDebugEnabled` of the log4net logger. */
  datatype EnabledFlags = EnabledFlags(fatal: bool, error: bool, warn: bool, info: bool, debug: bool)

  /** The enabled query for one of the five canonical levels. */
  function EnabledAt(f: EnabledFlags, l: Level): bool
    requires IsCanonical(l)
  {
    match l
    case Debug => f.debug
    case Info => f.info
    case Warn => f.warn
    case Error => f.error
    case Fatal => f.fatal
  }
}

/** How a framework level is routed to the sink when dispatched, and how it is gated before enqueueing. */
module LevelGate {
  import opened Wrappers
  import M = MsLogLevel
  import S = Sink

  /** The six levels the dispatcher's switch names; everything else reaches its default branch. */
  predicate Recognised(l: M.LogLevel) { !l.None? && !l.Undefined? }

  /**
   * The sink method a dequeued record of level `l` is written with: Debug and
   * Trace to Debug, Information to Info, Warning to Warn, Error to Error,
   * Critical to Fatal, and anything unrecognised to Error.
   */
  function SinkLevel(l: M.LogLevel): (r: S.Level)
    ensures S.IsCanonical(r)
    ensures r == S.Debug <==> l == M.Debug || l == M.Trace
    ensures r == S.Info <==> l == M.Information
    ensures r == S.Warn <==> l == M.Warning
    ensures r == S.Fatal <==> l == M.Critical
    ensures r == S.Error <==> l == M.Error || !Recognised(l)
  {
    match l
    case Debug => S.Debug
    case Trace => S.Debug
    case Information => S.Info
    case Warning => S.Warn
    case Error => S.Error
    case Critical => S.Fatal
    case _ => S.Error
  }

  /** The text put in front of the message: empty for a recognised level, a marker naming the level otherwise. */
  function Marker(l: M.LogLevel): (m: string)
    ensures Recognised(l) <==> m == ""
    ensures !Recognised(l) ==> m == "[Unrecognised logLevel " + M.Name(l) + "] "
  {
    match l
    case None => "[Unrecognised logLevel " + M.Name(l) + "] "
    case Undefined(_) => "[Unrecognised logLevel " + M.Name(l) + "] "
    case _ => ""
  }

  /**
   * `ILogger.IsEnabled`: the sink's enabled query for the level, or an
   * ArgumentOutOfRangeException for a level the switch does not name. It asks
   * exactly the query of the level a record is later written at.
   */
  function IsEnabled(l: M.LogLevel, f: S.EnabledFlags): (r: Result<bool, Fault>)
    ensures r.Failure? <==> !Recognised(l)
    ensures r.Failure? ==> r.error == ArgumentOutOfRange
    ensures r.Success? ==> r.value == S.EnabledAt(f, SinkLevel(l))
  {
    match l
    case Critical => Success(f.fatal)
    case Debug => Success(f.debug)
    case Trace => Success(f.debug)
    case Error => Success(f.error)
    case Information => Success(f.info)
    case Warning => Success(f.warn)
    case _ => Failure(ArgumentOutOfRange)
  }
}
