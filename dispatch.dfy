/**
 * The value-level specification shared by both copies of Log4NetAsyncLog:
 * the queued record, the prefix a dequeued record is written with, the
 * admission check against the two thresholds, one enqueue, and one drain of
 * the queue. The two classes that model the copies prove their methods
 * against these functions.
 */
module Dispatch {
  import opened Wrappers
  import Decimal
  import M = MsLogLevel
  import S = Sink
  import LevelGate

  /** A caller-supplied formatter: (payload, exception) to text. */
  type Formatter = (Option<string>, Option<string>) -> string

  /**
   * The arguments of one Enqueue call. The payload is carried as its text
   * (None for a null object); the exception as its `ToString()` text.
   */
  datatype Request = Request(
    level: M.LogLevel,
    eventId: int,
    payload: Option<string>,
    exception: Option<string>,
    formatter: Option<Formatter>)

  /** What the producing thread contributes: the UTC time text, its managed id and its name (null if unnamed). */
  datatype Caller = Caller(utcTime: string, threadId: int, threadName: Option<string>)

  /** `Log4NetAsyncQueueWrapper`: the request plus the enqueue data computed at admission. */
  datatype Record = Record(request: Request, enqueueData: string)

  /** The fields of one dispatcher, with the sink as the list of entries written to it so far. */
  datatype DispatchState = DispatchState(
    queue: seq<Record>,
    warnThreshold: int,
    errorThreshold: int,
    warnPassed: bool,
    errorPassed: bool,
    width: nat,
    running: bool,
    sink: seq<S.Entry>)

  const DefaultWarnThreshold: int := 10000
  const DefaultErrorThreshold: int := 1000000

  /**
   * `setQSizeFormatter`: the pad width of queue depths is the ceiling of
   * log10 of the error threshold, or 4 when that ceiling is not positive.
   */
  function QSizeWidth(errorThreshold: int): (w: nat)
    ensures errorThreshold <= 1 ==> w == 4
    ensures errorThreshold > 1 ==> 1 <= w && Decimal.Pow10(w - 1) < errorThreshold <= Decimal.Pow10(w)
  {
    if errorThreshold <= 1 then 4 else Decimal.CeilLog10(errorThreshold)
  }

  /** Every depth below the error threshold is written in exactly the pad width. */
  lemma DepthFieldWidth(errorThreshold: int, depth: nat)
    requires depth < errorThreshold
    ensures |Decimal.ZeroPad(depth, QSizeWidth(errorThreshold))| == QSizeWidth(errorThreshold)
  {
    var w := QSizeWidth(errorThreshold);
    if errorThreshold > 1 {
      Decimal.DigitsBelowPow10(depth, w);
    }
  }

  /**
   * A depth equal to a power-of-ten threshold (which is still admitted) takes
   * one character more than the pad width.
   */
  lemma {:induction false} DepthAtPowerOfTenThreshold(k: nat)
    requires k >= 1
    ensures var e := Decimal.Pow10(k);
      QSizeWidth(e) == k && |Decimal.ZeroPad(e, QSizeWidth(e))| == k + 1
  {
    var e := Decimal.Pow10(k);
    var w := QSizeWidth(e);
    if w < k { Pow10Monotone(w, k - 1); }
    if w > k { Pow10Monotone(k, w - 1); }
    DigitsOfPow10(k);
  }

  lemma {:induction false} Pow10Monotone(i: nat, j: nat)
    requires i <= j
    ensures Decimal.Pow10(i) <= Decimal.Pow10(j)
  {
    if i < j { Pow10Monotone(i, j - 1); }
  }

  lemma {:induction false} DigitsOfPow10(k: nat)
    ensures |Decimal.Digits(Decimal.Pow10(k))| == k + 1
  {
    if k > 0 {
      DigitsOfPow10(k - 1);
      assert Decimal.Pow10(k) / 10 == Decimal.Pow10(k - 1);
      assert Decimal.Pow10(k) % 10 == 0;
    }
  }

  // ---------------------------------------------------------------------
  // Field layout and its decoding

  /** Splits `s` at the first occurrence of `sep`. */
  function SplitAt(s: string, sep: char): (r: Option<(string, string)>)
    ensures r.None? <==> sep !in s
    ensures r.Some? ==> s == r.value.0 + [sep] + r.value.1 && sep !in r.value.0
  {
    if s == [] then None
    else if s[0] == sep then Some(([], s[1..]))
    else match SplitAt(s[1..], sep)
      case None => None
      case Some(p) => Some(([s[0]] + p.0, p.1))
  }

  lemma {:induction false} SplitAtOf(a: string, sep: char, b: string)
    requires sep !in a
    ensures SplitAt(a + [sep] + b, sep) == Some((a, b))
  {
    var s := a + [sep] + b;
    if a == [] {
      assert s[0] == sep && s[1..] == b;
    } else {
      assert s[0] == a[0] && a[0] != sep;
      assert s[1..] == a[1..] + [sep] + b;
      SplitAtOf(a[1..], sep, b);
      assert [a[0]] + a[1..] == a;
    }
  }

  /** `tag`, a number in "D<width>" format, and a comma. */
  function Field(tag: string, v: int, width: nat): string
  {
    tag + Decimal.FormatD(v, width) + ","
  }

  /** Reads `tag`, a decimal number and a comma off the front of `s`. */
  function DecodeField(tag: string, s: string): Option<(int, string)>
  {
    if |tag| <= |s| && s[..|tag|] == tag then
      match SplitAt(s[|tag|..], ',')
      case None => None
      case Some(p) =>
        match Decimal.ParseInt(p.0)
        case None => None
        case Some(v) => Some((v, p.1))
    else None
  }

  /** A field is read back exactly, whatever follows it. */
  lemma DecodeFieldOf(tag: string, v: int, width: nat, rest: string)
    ensures DecodeField(tag, Field(tag, v, width) + rest) == Some((v, rest))
  {
    var f := Decimal.FormatD(v, width);
    var s := Field(tag, v, width) + rest;
    assert s == tag + (f + "," + rest);
    assert s[..|tag|] == tag;
    assert s[|tag|..] == f + "," + rest;
    Decimal.FormatDReadsBack(v, width);
    SplitAtOf(f, ',', rest);
  }

  /** The fields `getEnqueueData` writes after the depth: time, thread id and, for a named thread, its name. */
  function CallerFields(caller: Caller): string
  {
    ("NQUTC=" + caller.utcTime + ",")
      + (Field("NQTHR=", caller.threadId, 3)
         + (if caller.threadName.Some? then "THRNM=" + caller.threadName.value + "," else ""))
  }

  /**
   * `getEnqueueData`: NQ=<depth>, NQUTC=<time>, NQTHR=<thread id>,
   * THRNM=<thread name> (when the thread has one), then the logger name,
   * each followed by a comma.
   */
  function EnqueueData(depth: int, width: nat, caller: Caller, name: string): string
  {
    Field("NQ=", depth, width) + (CallerFields(caller) + (name + ","))
  }

  /**
   * The enqueue data is the depth zero-padded to the dispatcher's width, the
   * time, the thread id padded to three digits, the thread name when there
   * is one, and the logger name, each as a tagged field closed by a comma;
   * the depth reads back off it.
   */
  lemma EnqueueDataReadsBack(depth: int, width: nat, caller: Caller, name: string)
    ensures DecodeField("NQ=", EnqueueData(depth, width, caller, name))
      == Some((depth, CallerFields(caller) + (name + ",")))
    ensures EnqueueData(depth, width, caller, name)
      == ("NQ=" + Decimal.FormatD(depth, width) + ",") + ("NQUTC=" + caller.utcTime + ",")
         + ("NQTHR=" + Decimal.FormatD(caller.threadId, 3) + ",")
         + (if caller.threadName.Some? then "THRNM=" + caller.threadName.value + "," else "") + (name + ",")
    ensures depth >= 0 ==> "NQ=" + Decimal.ZeroPad(depth, width) + "," <= EnqueueData(depth, width, caller, name)
  {
    var nq := Field("NQ=", depth, width);
    var thrnm := if caller.threadName.Some? then "THRNM=" + caller.threadName.value + "," else "";
    Regroup(nq, "NQUTC=" + caller.utcTime + ",", Field("NQTHR=", caller.threadId, 3), thrnm, name + ",");
    DecodeFieldOf("NQ=", depth, width, CallerFields(caller) + (name + ","));
    StartsWith(nq, CallerFields(caller) + (name + ","));
  }

  /** `a + ((b + (c + x)) + y)` regrouped from the left. */
  lemma Regroup<T>(a: seq<T>, b: seq<T>, c: seq<T>, x: seq<T>, y: seq<T>)
    ensures a + ((b + (c + x)) + y) == a + b + c + x + y
  {
  }

  lemma StartsWith<T>(a: seq<T>, b: seq<T>)
    ensures a <= a + b
  {
    assert (a + b)[..|a|] == a;
  }

  /** "DQ=<remaining>,EVT=<event id>," */
  function Header(countQueued: int, eventId: int, width: nat): string
  {
    Field("DQ=", countQueued, width) + Field("EVT=", eventId, 4)
  }

  /** Reads the remaining-count and the event id back off a written message. */
  function DecodeHeader(msg: string): Option<(int, int, string)>
  {
    match DecodeField("DQ=", msg)
    case None => None
    case Some(p) =>
      match DecodeField("EVT=", p.1)
      case None => None
      case Some(q) => Some((p.0, q.0, q.1))
  }

  lemma DecodeHeaderOf(countQueued: int, eventId: int, width: nat, tail: string)
    ensures DecodeHeader(Header(countQueued, eventId, width) + tail) == Some((countQueued, eventId, tail))
  {
    var evt := Field("EVT=", eventId, 4) + tail;
    assert Header(countQueued, eventId, width) + tail == Field("DQ=", countQueued, width) + evt;
    DecodeFieldOf("DQ=", countQueued, width, evt);
    DecodeFieldOf("EVT=", eventId, 4, tail);
  }

  lemma HeaderLayout(countQueued: int, eventId: int, width: nat)
    ensures Header(countQueued, eventId, width)
      == "DQ=" + Decimal.FormatD(countQueued, width) + ",EVT=" + Decimal.FormatD(eventId, 4) + ","
  {
    var a, b := Decimal.FormatD(countQueued, width), Decimal.FormatD(eventId, 4);
    assert "," + "EVT=" == ",EVT=";
    assert "DQ=" + a + "," + ("EVT=" + b + ",") == "DQ=" + a + ("," + "EVT=") + b + ",";
  }

  /** The message of a dequeued record: the header, then the enqueue data and body. */
  function Message(countQueued: int, eventId: int, width: nat, rest: string): string
  {
    Header(countQueued, eventId, width) + rest
  }

  /**
   * A message is "DQ=" and the remaining-count in "D<width>" format, then
   * "EVT=" and the event id in "D4" format, each closed by a comma, then the
   * rest; both numbers read back off it.
   */
  lemma MessageLayout(countQueued: int, eventId: int, width: nat, rest: string)
    ensures Message(countQueued, eventId, width, rest)
      == "DQ=" + Decimal.FormatD(countQueued, width) + ",EVT=" + Decimal.FormatD(eventId, 4) + "," + rest
    ensures DecodeHeader(Message(countQueued, eventId, width, rest)) == Some((countQueued, eventId, rest))
  {
    HeaderLayout(countQueued, eventId, width);
    DecodeHeaderOf(countQueued, eventId, width, rest);
  }

  /** A message opens with "DQ=", the zero-padded count and a comma. */
  lemma MessageOpensWithDepth(countQueued: nat, eventId: int, width: nat, rest: string)
    ensures "DQ=" + Decimal.ZeroPad(countQueued, width) + "," <= Message(countQueued, eventId, width, rest)
  {
    var p := Field("DQ=", countQueued, width);
    assert Message(countQueued, eventId, width, rest) == p + (Field("EVT=", eventId, 4) + rest);
    StartsWith(p, Field("EVT=", eventId, 4) + rest);
  }

  // ---------------------------------------------------------------------
  // Processing one dequeued record

  /**
   * The message body: the formatter's output when there is a formatter,
   * otherwise the payload's text. None when there is neither: `t.ToString()`
   * on a null payload throws.
   */
  function Body(r: Record): (b: Option<string>)
    ensures b.None? <==> r.request.formatter.None? && r.request.payload.None?
    ensures r.request.formatter.None? ==> b == r.request.payload
    ensures r.request.formatter.Some? ==> b == Some(r.request.formatter.value(r.request.payload, r.request.exception))
  {
    match r.request.formatter
    case Some(f) => Some(f(r.request.payload, r.request.exception))
    case None => r.request.payload
  }

  predicate Renderable(r: Record) { Body(r).Some? }

  /**
   * `processQueuedItem(wrapper, countQueued)`: the entry written for a
   * dequeued record, or None when rendering it throws. The entry goes to the
   * level LevelGate.SinkLevel routes to, carries the record's exception, and
   * its text is the level marker followed by the message (ProcessReadsBack).
   */
  function Process(r: Record, countQueued: int, width: nat): (e: Option<S.Entry>)
    ensures e.None? <==> !Renderable(r)
    ensures e.Some? ==> e.value.level == LevelGate.SinkLevel(r.request.level)
    ensures e.Some? ==> e.value.exception == r.request.exception
  {
    match Body(r)
    case None => None
    case Some(b) =>
      var msg := Message(countQueued, r.request.eventId, width, r.enqueueData + b);
      Some(S.Entry(LevelGate.SinkLevel(r.request.level), LevelGate.Marker(r.request.level) + msg, r.request.exception))
  }

  /**
   * The text of a processed record is the level marker, then "DQ=" and the
   * remaining-count zero-padded to the dispatcher's width, then "EVT=" and
   * the event id padded to four digits, each closed by a comma, then the
   * enqueue data and the body; the count and the event id read back off the
   * text after the marker.
   */
  lemma ProcessReadsBack(r: Record, countQueued: int, width: nat)
    requires Renderable(r)
    ensures var t := Process(r, countQueued, width).value.text;
      var m := LevelGate.Marker(r.request.level);
      |m| <= |t| && t[..|m|] == m
      && DecodeHeader(t[|m|..]) == Some((countQueued, r.request.eventId, r.enqueueData + Body(r).value))
    ensures Process(r, countQueued, width).value.text
      == LevelGate.Marker(r.request.level)
         + ("DQ=" + Decimal.FormatD(countQueued, width) + ",EVT=" + Decimal.FormatD(r.request.eventId, 4) + ",")
         + (r.enqueueData + Body(r).value)
    ensures countQueued >= 0 ==>
      LevelGate.Marker(r.request.level) + ("DQ=" + Decimal.ZeroPad(countQueued, width) + ",")
      <= Process(r, countQueued, width).value.text
  {
    var m := LevelGate.Marker(r.request.level);
    var rest := r.enqueueData + Body(r).value;
    var msg := Message(countQueued, r.request.eventId, width, rest);
    assert Process(r, countQueued, width).value.text == m + msg;
    MessageLayout(countQueued, r.request.eventId, width, rest);
    var h := "DQ=" + Decimal.FormatD(countQueued, width) + ",EVT=" + Decimal.FormatD(r.request.eventId, 4) + ",";
    assert msg == h + rest;
    assert m + msg == m + h + rest;
    assert (m + msg)[..|m|] == m && (m + msg)[|m|..] == msg;
    if countQueued >= 0 {
      MessageOpensWithDepth(countQueued, r.request.eventId, width, rest);
      PrefixAfter(m, "DQ=" + Decimal.ZeroPad(countQueued, width) + ",", msg);
    }
  }

  lemma PrefixAfter<T>(m: seq<T>, p: seq<T>, s: seq<T>)
    requires p <= s
    ensures m + p <= m + s
  {
    assert (m + s)[..|m + p|] == m + s[..|p|];
  }

  /**
   * In a dispatcher whose width was set from its error threshold, the
   * remaining-count of a processed record, when below that threshold, is
   * written right after the marker and "DQ=" as exactly `QSizeWidth` digits
   * whose value is the count, closed by a comma.
   */
  lemma ProcessDepthField(r: Record, countQueued: nat, errorThreshold: int)
    requires Renderable(r) && countQueued < errorThreshold
    ensures var w := QSizeWidth(errorThreshold);
      var z := Decimal.ZeroPad(countQueued, w);
      LevelGate.Marker(r.request.level) + ("DQ=" + z + ",") <= Process(r, countQueued, w).value.text
      && |z| == w && Decimal.AllDigits(z) && Decimal.Value(z) == countQueued
  {
    var w := QSizeWidth(errorThreshold);
    ProcessReadsBack(r, countQueued, w);
    Decimal.ZeroPadReadsBack(countQueued, w);
    DepthFieldWidth(errorThreshold, countQueued);
  }

  // ---------------------------------------------------------------------
  // Admission

  /** "checkCapacity() - The logging message queue has passed <threshold> messages." */
  function ThresholdNotice(level: S.Level, threshold: int): S.Entry
  {
    S.Entry(level, "checkCapacity() - The logging message queue has passed " + Decimal.FormatD(threshold, 0) + " messages.", None)
  }

  /** The notice written when a sticky flag moves from false to true, and nothing otherwise. */
  function Tripped(before: bool, after: bool, notice: S.Entry): seq<S.Entry>
  {
    if !before && after then [notice] else []
  }

  /**
   * `checkCapacity(countQueued)`: accepts iff the sampled depth is at most the
   * error threshold. Each sticky flag becomes true when the depth exceeds its
   * threshold (the warn flag even when the record is then rejected) and is
   * never cleared here; a notice is written to the sink exactly when a flag
   * moves from false to true. The queue is not touched.
   */
  function Capacity(s: DispatchState, countQueued: int): (r: (bool, DispatchState))
    ensures r.0 <==> countQueued <= s.errorThreshold
    ensures r.1.warnPassed == (s.warnPassed || countQueued > s.warnThreshold)
    ensures r.1.errorPassed == (s.errorPassed || countQueued > s.errorThreshold)
    ensures r.1.sink == s.sink
      + Tripped(s.warnPassed, r.1.warnPassed, ThresholdNotice(S.Warn, s.warnThreshold))
      + Tripped(s.errorPassed, r.1.errorPassed, ThresholdNotice(S.Error, s.errorThreshold))
    ensures r.1.queue == s.queue && r.1.width == s.width && r.1.running == s.running
    ensures r.1.warnThreshold == s.warnThreshold && r.1.errorThreshold == s.errorThreshold
  {
    var s1 :=
      if countQueued > s.warnThreshold && !s.warnPassed
      then s.(warnPassed := true, sink := s.sink + [ThresholdNotice(S.Warn, s.warnThreshold)])
      else s;
    if countQueued > s1.errorThreshold then
      var s2 :=
        if !s1.errorPassed
        then s1.(errorPassed := true, sink := s1.sink + [ThresholdNotice(S.Error, s1.errorThreshold)])
        else s1;
      (false, s2)
    else
      (true, s1)
  }

  /**
   * `Enqueue`: the record is appended at the tail iff the depth sampled before
   * the push is at most the error threshold, with the enqueue data taken at
   * that depth; otherwise the queue is unchanged. Flags and sink change as
   * Capacity says; thresholds, width and the running flag never change (and
   * the running flag is not consulted).
   */
  function AfterEnqueue(s: DispatchState, req: Request, name: string, caller: Caller): (r: DispatchState)
    ensures |s.queue| <= s.errorThreshold ==>
      r.queue == s.queue + [Record(req, EnqueueData(|s.queue|, s.width, caller, name))]
    ensures |s.queue| > s.errorThreshold ==> r.queue == s.queue
    ensures r.warnThreshold == s.warnThreshold && r.errorThreshold == s.errorThreshold
    ensures r.width == s.width && r.running == s.running
    ensures var c := Capacity(s, |s.queue|).1;
      r.warnPassed == c.warnPassed && r.errorPassed == c.errorPassed && r.sink == c.sink
  {
    var (ok, s1) := Capacity(s, |s.queue|);
    if ok then s1.(queue := s1.queue + [Record(req, EnqueueData(|s1.queue|, s1.width, caller, name))])
    else s1
  }

  /** Whether the running flag is set has no influence on admission. */
  lemma EnqueueIgnoresRunning(s: DispatchState, req: Request, name: string, caller: Caller, running: bool)
    ensures AfterEnqueue(s.(running := running), req, name, caller) == AfterEnqueue(s, req, name, caller).(running := running)
  {
  }

  // ---------------------------------------------------------------------
  // Draining

  /**
   * How a dequeued record becomes a sink entry, given the number of records
   * left behind it; None when rendering it throws. The drain below is stated
   * for any such rendering, and a dispatcher uses `RenderAt(width)`.
   */
  type Renderer = (Record, int) -> Option<S.Entry>

  /** `processQueuedItem` as a renderer, at a given pad width. */
  function RenderAt(width: nat): Renderer
  {
    (r: Record, countQueued: int) => Process(r, countQueued, width)
  }

  /**
   * The entries one drain writes: records in queue order, each with the
   * number of records left after its own removal, up to (not including) the
   * first record whose rendering throws.
   */
  function Drained(q: seq<Record>, render: Renderer): (es: seq<S.Entry>)
    ensures |es| <= |q|
    decreases |q|
  {
    if |q| == 0 then []
    else match render(q[0], |q| - 1)
      case None => []
      case Some(e) => [e] + Drained(q[1..], render)
  }

  /**
   * What is left in the queue after a drain: nothing, or what follows the
   * record that threw (in the source that exception ends the process, so
   * this state is where the model stops, not one the program goes on from).
   */
  function Remaining(q: seq<Record>, render: Renderer): (rest: seq<Record>)
    ensures |rest| <= |q|
    decreases |q|
  {
    if |q| == 0 then []
    else if render(q[0], |q| - 1).None? then q[1..]
    else Remaining(q[1..], render)
  }

  /** Whether the drain meets a record whose rendering throws. */
  predicate Faulting(q: seq<Record>, render: Renderer)
    decreases |q|
  {
    |q| > 0 && (render(q[0], |q| - 1).None? || Faulting(q[1..], render))
  }

  /**
   * One step of a drain, stated on the facts a drain loop keeps: the entries
   * written so far plus what the rest of the queue will produce equal what
   * the whole queue produces. `r` is the record at the head, `rest` the
   * records behind it.
   */
  lemma DrainStep(q0: seq<Record>, r: Record, rest: seq<Record>, base: seq<S.Entry>, acc: seq<S.Entry>, render: Renderer)
    requires base + Drained(q0, render) == acc + Drained([r] + rest, render)
    requires Remaining(q0, render) == Remaining([r] + rest, render)
    requires Faulting(q0, render) == Faulting([r] + rest, render)
    ensures render(r, |rest|).Some? ==>
      base + Drained(q0, render) == (acc + [render(r, |rest|).value]) + Drained(rest, render)
      && Remaining(q0, render) == Remaining(rest, render)
      && Faulting(q0, render) == Faulting(rest, render)
    ensures render(r, |rest|).None? ==>
      base + Drained(q0, render) == acc && Remaining(q0, render) == rest && Faulting(q0, render)
  {
    var q := [r] + rest;
    assert q[0] == r && q[1..] == rest;
    if render(r, |rest|).Some? {
      var e := render(r, |rest|).value;
      assert Drained(q, render) == [e] + Drained(rest, render);
      assert acc + ([e] + Drained(rest, render)) == (acc + [e]) + Drained(rest, render);
    } else {
      assert Drained(q, render) == [];
      assert acc + [] == acc;
    }
  }

  /** A drain faults iff some record, rendered with the count behind it, throws. */
  lemma {:induction false} FaultingIff(q: seq<Record>, render: Renderer)
    ensures Faulting(q, render) <==> exists k :: 0 <= k < |q| && render(q[k], |q| - 1 - k).None?
  {
    if |q| > 0 {
      var t := q[1..];
      FaultingIff(t, render);
      if !Faulting(q, render) {
        forall k | 0 <= k < |q| ensures render(q[k], |q| - 1 - k).Some? {
          if k > 0 { assert q[k] == t[k - 1] && |q| - 1 - k == |t| - 1 - (k - 1); }
        }
      } else if render(q[0], |q| - 1).Some? {
        var k :| 0 <= k < |t| && render(t[k], |t| - 1 - k).None?;
        assert q[k + 1] == t[k] && |q| - 1 - (k + 1) == |t| - 1 - k;
      }
    }
  }

  /** For a dispatcher, a drain faults iff the queue holds a record whose rendering throws, whatever its position. */
  lemma FaultingIffUnrenderable(q: seq<Record>, width: nat)
    ensures Faulting(q, RenderAt(width)) <==> exists k :: 0 <= k < |q| && !Renderable(q[k])
  {
    FaultingIff(q, RenderAt(width));
    if exists k :: 0 <= k < |q| && !Renderable(q[k]) {
      var k :| 0 <= k < |q| && !Renderable(q[k]);
      assert RenderAt(width)(q[k], |q| - 1 - k).None?;
    }
  }

  /** `consumeQueue`: the state after one drain. */
  function AfterDrain(s: DispatchState): DispatchState
  {
    s.(queue := Remaining(s.queue, RenderAt(s.width)), sink := s.sink + Drained(s.queue, RenderAt(s.width)))
  }

  /**
   * FIFO: when every record renders, a drain empties the queue and writes one
   * entry per record, the k-th entry being the k-th record rendered with the
   * count of records behind it.
   */
  lemma {:induction false} DrainIsFifo(q: seq<Record>, render: Renderer)
    requires forall k :: 0 <= k < |q| ==> render(q[k], |q| - 1 - k).Some?
    ensures Remaining(q, render) == [] && |Drained(q, render)| == |q|
    ensures forall k :: 0 <= k < |q| ==> render(q[k], |q| - 1 - k) == Some(Drained(q, render)[k])
  {
    if |q| > 0 {
      var t := q[1..];
      forall k | 0 <= k < |t| ensures render(t[k], |t| - 1 - k).Some? {
        assert t[k] == q[k + 1] && |t| - 1 - k == |q| - 1 - (k + 1);
      }
      DrainIsFifo(t, render);
      var e := render(q[0], |q| - 1).value;
      assert Drained(q, render) == [e] + Drained(t, render);
      forall k | 0 <= k < |q|
        ensures render(q[k], |q| - 1 - k) == Some(Drained(q, render)[k])
      {
        if k == 0 {
          assert Drained(q, render)[0] == e;
        } else {
          var j := k - 1;
          assert q[k] == t[j] && |q| - 1 - k == |t| - 1 - j;
          assert Drained(q, render)[k] == Drained(t, render)[j];
        }
      }
    }
  }

  // ---------------------------------------------------------------------
  // Several calls

  /** Capacity checks at a series of sampled depths (the depth is advisory: any values may be seen). */
  function CheckAll(s: DispatchState, depths: seq<int>): (r: DispatchState)
    ensures r.queue == s.queue && r.warnThreshold == s.warnThreshold && r.errorThreshold == s.errorThreshold
    ensures |s.sink| <= |r.sink| && r.sink[..|s.sink|] == s.sink
    decreases |depths|
  {
    if |depths| == 0 then s else CheckAll(Capacity(s, depths[0]).1, depths[1..])
  }

  function NoticeCount(es: seq<S.Entry>, notice: S.Entry): nat
  {
    multiset(es)[notice]
  }

  /** Whether some sampled depth exceeds `threshold`. */
  predicate AnyAbove(depths: seq<int>, threshold: int)
  {
    exists k :: 0 <= k < |depths| && depths[k] > threshold
  }

  lemma AnyAboveSplit(depths: seq<int>, threshold: int)
    requires |depths| > 0
    ensures AnyAbove(depths, threshold) <==> depths[0] > threshold || AnyAbove(depths[1..], threshold)
  {
    var rest := depths[1..];
    if AnyAbove(depths, threshold) {
      var k :| 0 <= k < |depths| && depths[k] > threshold;
      if k > 0 { assert rest[k - 1] == depths[k]; }
    }
    if AnyAbove(rest, threshold) {
      var k :| 0 <= k < |rest| && rest[k] > threshold;
      assert depths[k + 1] == rest[k];
    }
  }

  /** One check writes the error notice iff the flag was clear and the depth is above the error threshold; likewise the warn notice. */
  lemma CapacityNotices(s: DispatchState, depth: int)
    ensures var s1 := Capacity(s, depth).1;
      |s.sink| <= |s1.sink|
      && NoticeCount(s1.sink[|s.sink|..], ThresholdNotice(S.Error, s.errorThreshold))
         == (if !s.errorPassed && depth > s.errorThreshold then 1 else 0)
      && NoticeCount(s1.sink[|s.sink|..], ThresholdNotice(S.Warn, s.warnThreshold))
         == (if !s.warnPassed && depth > s.warnThreshold then 1 else 0)
  {
    var s1 := Capacity(s, depth).1;
    var w := Tripped(s.warnPassed, s1.warnPassed, ThresholdNotice(S.Warn, s.warnThreshold));
    var e := Tripped(s.errorPassed, s1.errorPassed, ThresholdNotice(S.Error, s.errorThreshold));
    assert s1.sink[|s.sink|..] == w + e;
    assert multiset(w + e) == multiset(w) + multiset(e);
  }

  /** The new entries of a series of checks are those of its first check followed by those of the rest. */
  lemma CheckAllSplit(s: DispatchState, depths: seq<int>)
    requires |depths| > 0
    ensures var s1 := Capacity(s, depths[0]).1;
      var r := CheckAll(s, depths);
      |s.sink| <= |s1.sink| <= |r.sink|
      && r == CheckAll(s1, depths[1..])
      && multiset(r.sink[|s.sink|..]) == multiset(s1.sink[|s.sink|..]) + multiset(r.sink[|s1.sink|..])
  {
    var s1 := Capacity(s, depths[0]).1;
    var r := CheckAll(s1, depths[1..]);
    assert s1.sink[..|s.sink|] == s.sink;
    PrefixSplit(s.sink, s1.sink, r.sink);
  }

  /** For prefixes a of m and m of r, what r adds to a is what m adds to a followed by what r adds to m. */
  lemma PrefixSplit<T>(a: seq<T>, m: seq<T>, r: seq<T>)
    requires |a| <= |m| <= |r| && m[..|a|] == a && r[..|m|] == m
    ensures multiset(r[|a|..]) == multiset(m[|a|..]) + multiset(r[|m|..])
  {
    assert r[|a|..] == m[|a|..] + r[|m|..];
  }

  /**
   * The error notice is written at most once: exactly once over a series of
   * checks that starts with the flag clear and sees some depth above the
   * error threshold, and never while the flag stays set.
   */
  lemma {:induction false} ErrorNoticeOnce(s: DispatchState, depths: seq<int>)
    ensures var r := CheckAll(s, depths);
      NoticeCount(r.sink[|s.sink|..], ThresholdNotice(S.Error, s.errorThreshold))
      == if !s.errorPassed && AnyAbove(depths, s.errorThreshold) then 1 else 0
    decreases |depths|
  {
    if |depths| > 0 {
      var s1 := Capacity(s, depths[0]).1;
      ErrorNoticeOnce(s1, depths[1..]);
      CapacityNotices(s, depths[0]);
      CheckAllSplit(s, depths);
      AnyAboveSplit(depths, s.errorThreshold);
    }
  }

  /** The warn notice likewise: once per series that starts with the flag clear and sees a depth above the warn threshold. */
  lemma {:induction false} WarnNoticeOnce(s: DispatchState, depths: seq<int>)
    ensures var r := CheckAll(s, depths);
      NoticeCount(r.sink[|s.sink|..], ThresholdNotice(S.Warn, s.warnThreshold))
      == if !s.warnPassed && AnyAbove(depths, s.warnThreshold) then 1 else 0
    decreases |depths|
  {
    if |depths| > 0 {
      var s1 := Capacity(s, depths[0]).1;
      WarnNoticeOnce(s1, depths[1..]);
      CapacityNotices(s, depths[0]);
      CheckAllSplit(s, depths);
      AnyAboveSplit(depths, s.warnThreshold);
    }
  }

  /** A series of Enqueue calls with no drain in between. */
  function EnqueueAll(s: DispatchState, reqs: seq<Request>, name: string, caller: Caller): (r: DispatchState)
    ensures s.queue <= r.queue
    ensures r.errorThreshold == s.errorThreshold && r.warnThreshold == s.warnThreshold && r.width == s.width
    decreases |reqs|
  {
    if |reqs| == 0 then s else EnqueueAll(AfterEnqueue(s, reqs[0], name, caller), reqs[1..], name, caller)
  }

  function Min(a: int, b: int): int { if a <= b then a else b }

  /**
   * Without a drain the queue fills up to one record past the error threshold
   * and then stops growing; a queue already longer than the threshold (after
   * the threshold was lowered) admits nothing.
   */
  lemma {:induction false} QueueFillsToErrorThreshold(s: DispatchState, reqs: seq<Request>, name: string, caller: Caller)
    ensures |EnqueueAll(s, reqs, name, caller).queue|
      == if |s.queue| > s.errorThreshold then |s.queue| else Min(|s.queue| + |reqs|, s.errorThreshold + 1)
    decreases |reqs|
  {
    if |reqs| > 0 {
      QueueFillsToErrorThreshold(AfterEnqueue(s, reqs[0], name, caller), reqs[1..], name, caller);
    }
  }

  lemma EnqueueAllStep(s: DispatchState, reqs: seq<Request>, i: nat, next: DispatchState, name: string, caller: Caller)
    requires i < |reqs| && next == AfterEnqueue(s, reqs[i], name, caller)
    ensures EnqueueAll(s, reqs[i..], name, caller) == EnqueueAll(next, reqs[i + 1..], name, caller)
  {
    assert reqs[i..][0] == reqs[i] && reqs[i..][1..] == reqs[i + 1..];
  }

  /** The starting state of the scenario below: warn threshold 2, error threshold 5, nothing queued. */
  function ScenarioStart(): (s: DispatchState)
    ensures s.queue == [] && s.sink == [] && !s.warnPassed && !s.errorPassed
  {
    DispatchState([], 2, 5, false, false, QSizeWidth(5), true, [])
  }

  /** A series of enqueues split in two is the second part run from where the first part left off. */
  lemma {:induction false} EnqueueAllAppend(s: DispatchState, a: seq<Request>, b: seq<Request>, name: string, caller: Caller)
    ensures EnqueueAll(s, a + b, name, caller) == EnqueueAll(EnqueueAll(s, a, name, caller), b, name, caller)
    decreases |a|
  {
    if |a| == 0 {
      assert a + b == b;
    } else {
      assert (a + b)[0] == a[0] && (a + b)[1..] == a[1..] + b;
      EnqueueAllAppend(AfterEnqueue(s, a[0], name, caller), a[1..], b, name, caller);
    }
  }

  /** The first four of the scenario's enqueues: all admitted, and the fourth (depth 3) trips the warn notice. */
  lemma WarnPhase(reqs: seq<Request>, name: string, caller: Caller)
    requires |reqs| == 4
    ensures var s4 := EnqueueAll(ScenarioStart(), reqs, name, caller);
      |s4.queue| == 4 && (forall k :: 0 <= k < 4 ==> s4.queue[k].request == reqs[k])
      && s4.sink == [ThresholdNotice(S.Warn, 2)] && s4.warnPassed && !s4.errorPassed
  {
    var s0 := ScenarioStart();
    var s1 := AfterEnqueue(s0, reqs[0], name, caller);
    var s2 := AfterEnqueue(s1, reqs[1], name, caller);
    var s3 := AfterEnqueue(s2, reqs[2], name, caller);
    assert |s3.queue| == 3 && s3.sink == [] && !s3.warnPassed;
    var s4 := AfterEnqueue(s3, reqs[3], name, caller);
    assert |s4.queue| == 4 && s4.sink == [ThresholdNotice(S.Warn, 2)] && s4.warnPassed;
    assert forall k :: 0 <= k < 4 ==> s4.queue[k].request == reqs[k];
    assert EnqueueAll(s3, reqs[3..], name, caller) == s4 by {
      assert reqs[3..][1..] == [];
    }
    EnqueueAllStep(s2, reqs, 2, s3, name, caller);
    EnqueueAllStep(s1, reqs, 1, s2, name, caller);
    EnqueueAllStep(s0, reqs, 0, s1, name, caller);
    assert reqs[0..] == reqs;
  }

  /** The last three: two more admitted (depths 4 and 5), and the third (depth 6) rejected, tripping the error notice. */
  lemma ErrorPhase(s: DispatchState, reqs: seq<Request>, name: string, caller: Caller)
    requires s.warnThreshold == 2 && s.errorThreshold == 5 && s.warnPassed && !s.errorPassed
    requires |s.queue| == 4 && |reqs| == 3
    ensures var s7 := EnqueueAll(s, reqs, name, caller);
      |s7.queue| == 6 && s7.queue[..4] == s.queue
      && s7.queue[4].request == reqs[0] && s7.queue[5].request == reqs[1]
      && s7.sink == s.sink + [ThresholdNotice(S.Error, 5)]
  {
    var s5 := AfterEnqueue(s, reqs[0], name, caller);
    var s6 := AfterEnqueue(s5, reqs[1], name, caller);
    assert |s6.queue| == 6 && s6.sink == s.sink && !s6.errorPassed;
    var s7 := AfterEnqueue(s6, reqs[2], name, caller);
    assert s7.queue == s6.queue && s7.sink == s.sink + [ThresholdNotice(S.Error, 5)];
    assert EnqueueAll(s6, reqs[2..], name, caller) == s7 by {
      assert reqs[2..][1..] == [];
    }
    EnqueueAllStep(s5, reqs, 1, s6, name, caller);
    EnqueueAllStep(s, reqs, 0, s5, name, caller);
    assert reqs[0..] == reqs;
  }

  /**
   * With warn threshold 2 and error threshold 5 and no drain, seven enqueues
   * admit six records, in call order: the fourth call (depth 3) trips the
   * warn notice, the seventh (depth 6) is rejected and trips the error notice.
   */
  lemma SevenEnqueues(reqs: seq<Request>, name: string, caller: Caller)
    requires |reqs| == 7
    ensures var s7 := EnqueueAll(ScenarioStart(), reqs, name, caller);
      |s7.queue| == 6
      && (forall k :: 0 <= k < 6 ==> s7.queue[k].request == reqs[k])
      && s7.sink == [ThresholdNotice(S.Warn, 2), ThresholdNotice(S.Error, 5)]
  {
    var a, b := reqs[..4], reqs[4..];
    assert reqs == a + b;
    EnqueueAllAppend(ScenarioStart(), a, b, name, caller);
    WarnPhase(a, name, caller);
    var s4 := EnqueueAll(ScenarioStart(), a, name, caller);
    ErrorPhase(s4, b, name, caller);
  }

  /** After the seven enqueues above, a drain writes the six records: eight sink entries in all, and an empty queue. */
  lemma SevenEnqueuesThenDrain(reqs: seq<Request>, name: string, caller: Caller)
    requires |reqs| == 7
    requires forall k :: 0 <= k < 7 ==> reqs[k].payload.Some?
    ensures var s7 := EnqueueAll(ScenarioStart(), reqs, name, caller);
      AfterDrain(s7).queue == [] && |AfterDrain(s7).sink| == 8
  {
    var s7 := EnqueueAll(ScenarioStart(), reqs, name, caller);
    SevenEnqueues(reqs, name, caller);
    forall k | 0 <= k < |s7.queue| ensures RenderAt(s7.width)(s7.queue[k], |s7.queue| - 1 - k).Some? {
      assert s7.queue[k].request == reqs[k];
      assert Renderable(s7.queue[k]);
    }
    DrainIsFifo(s7.queue, RenderAt(s7.width));
  }
}
