/** `JBossLoggerAdapter`: how each facade logging call becomes at most one
    call into the wrapped JBoss Logging logger.

    The JBoss logger is abstracted to the set of levels it reports enabled
    and the sequence of calls the adapter has made into it; whether the
    backend then publishes a record is its own business. The slf4j
    `MessageFormatter` is an uninterpreted parameter `fmt`, standing for
    `arrayFormat`; the one- and two-argument `format` overloads are
    `arrayFormat` over a one- and two-element array. The location-aware
    `log` reaches the backend through `Logger.trace(fqcn, message, t)` …
    `error(fqcn, message, t)`, the entry points through
    `log(level, fqcn, message, t)`; both are taken to make the same backend
    record at their level. Markers are ignored by the adapter and are left
    out of the signatures. */
module LoggerAdapter {
  import opened Wrappers

  /** `org.jboss.logging.Logger.Level`. */
  datatype Level = FATAL | ERROR | WARN | INFO | DEBUG | TRACE

  /** The level numbers of slf4j's `LocationAwareLogger`. */
  const TRACE_INT: int := 0
  const DEBUG_INT: int := 10
  const INFO_INT: int := 20
  const WARN_INT: int := 30
  const ERROR_INT: int := 40

  /** The caller identity the adapter hands to the backend so that location
      reporting skips the adapter's own frames. */
  const LOGGER_FQCN: string := "org.jboss.slf4j.JBossLoggerAdapter"

  /** A `Throwable`, known only by its identity. */
  datatype Throwable = Throwable(id: nat)

  /** An argument to a message template. */
  datatype Arg = NullArg | StrArg(s: string) | ThrowableArg(t: Throwable) | OtherArg(id: nat)

  /** `org.slf4j.helpers.FormattingTuple`: the rendered message and the
      throwable the formatter detached from the arguments, if any. */
  datatype FormattingTuple = FormattingTuple(message: string, throwable: Option<Throwable>)

  /** `MessageFormatter.arrayFormat(template, arguments)`. */
  type Formatter = (string, seq<Arg>) -> FormattingTuple

  /** One call the adapter makes into the JBoss logger: level, caller
      identity, message, and attached throwable (`None` for null). */
  datatype BackendCall = BackendCall(level: Level, fqcn: string, message: string, thrown: Option<Throwable>)

  /** The wrapped JBoss logger: the levels it reports enabled and the calls
      made into it so far. */
  datatype Backend = Backend(enabled: set<Level>, calls: seq<BackendCall>)
  {
    /** `Logger.isEnabled(level)`. */
    predicate LevelEnabled(level: Level)
    {
      level in enabled
    }

    /** `Logger.isTraceEnabled()`, `isDebugEnabled()`, `isInfoEnabled()`:
        JBoss Logging defines each as `isEnabled` of its level. */
    predicate IsTraceEnabled()
    {
      LevelEnabled(TRACE)
    }

    predicate IsDebugEnabled()
    {
      LevelEnabled(DEBUG)
    }

    predicate IsInfoEnabled()
    {
      LevelEnabled(INFO)
    }
  }

  /** The five severities of the facade's per-level entry points. */
  datatype Severity = Trace | Debug | Info | Warn | Error

  /** The JBoss level each facade severity is forwarded at. */
  function LevelOf(s: Severity): Level
  {
    match s
    case Trace => TRACE
    case Debug => DEBUG
    case Info => INFO
    case Warn => WARN
    case Error => ERROR
  }

  /** slf4j's number for each severity. */
  function SeverityInt(s: Severity): int
  {
    match s
    case Trace => TRACE_INT
    case Debug => DEBUG_INT
    case Info => INFO_INT
    case Warn => WARN_INT
    case Error => ERROR_INT
  }

  /** `isTraceEnabled()` … `isErrorEnabled()`: trace, debug and info ask the
      backend's dedicated predicate, warn and error ask `isEnabled` with the
      level; either way the gate is the backend's view of that level. */
  function IsEnabled(b: Backend, s: Severity): (r: bool)
    ensures r <==> LevelOf(s) in b.enabled
  {
    match s
    case Trace => b.IsTraceEnabled()
    case Debug => b.IsDebugEnabled()
    case Info => b.IsInfoEnabled()
    case Warn => b.LevelEnabled(WARN)
    case Error => b.LevelEnabled(ERROR)
  }

  /** True when `after` is `before` with exactly one more call made into it. */
  predicate Emitted(before: Backend, after: Backend)
  {
    && after.enabled == before.enabled
    && |after.calls| == |before.calls| + 1
    && after.calls[..|before.calls|] == before.calls
  }

  /** The last call made into a backend. */
  function LastCall(b: Backend): BackendCall
    requires |b.calls| > 0
  {
    b.calls[|b.calls| - 1]
  }

  /** The private `log(level, fqcn, message, t)`: hand one message to the
      JBoss logger, with no check of its own. */
  function Log(b: Backend, level: Level, fqcn: string, message: string, t: Option<Throwable>): (r: Backend)
    ensures Emitted(b, r)
    ensures LastCall(r) == BackendCall(level, fqcn, message, t)
  {
    Backend(b.enabled, b.calls + [BackendCall(level, fqcn, message, t)])
  }

  /** The shapes of the per-level entry points `x(...)` for x in trace,
      debug, info, warn, error. */
  datatype Call =
    | Message(msg: string)                                  // x(String msg)
    | OneArg(format: string, arg: Arg)                      // x(String format, Object arg)
    | TwoArgs(format: string, arg1: Arg, arg2: Arg)         // x(String format, Object arg1, Object arg2)
    | VarArgs(format: string, arguments: seq<Arg>)          // x(String format, Object... arguments)
    | WithThrowable(msg: string, t: Option<Throwable>)      // x(String msg, Throwable t)

  /** True for the one entry point that forwards without asking whether its
      level is enabled: `trace(String)`. */
  predicate Ungated(s: Severity, c: Call)
  {
    s == Trace && c.Message?
  }

  /** A per-level entry point: unless it is `trace(String)`, ask whether the
      level is enabled and do nothing if not; otherwise format (only the
      template shapes do) and forward one call at the severity's level with
      `LOGGER_FQCN`. */
  function Invoke(b: Backend, fmt: Formatter, s: Severity, c: Call): (r: Backend)
    // at most one call, and exactly when the gate lets it through
    ensures Emitted(b, r) <==> Ungated(s, c) || IsEnabled(b, s)
    ensures !Ungated(s, c) && !IsEnabled(b, s) ==> r == b
    ensures Emitted(b, r) ==> LastCall(r).level == LevelOf(s) && LastCall(r).fqcn == LOGGER_FQCN
    // literal messages go out verbatim, with a null throwable
    ensures Emitted(b, r) && c.Message? ==> LastCall(r).message == c.msg && LastCall(r).thrown == None
    // a message with a throwable goes out verbatim, unformatted, with that throwable
    ensures Emitted(b, r) && c.WithThrowable? ==> LastCall(r).message == c.msg && LastCall(r).thrown == c.t
    // templates go out as the formatter renders them, with the throwable it detached
    ensures Emitted(b, r) && c.OneArg? ==>
              FormattingTuple(LastCall(r).message, LastCall(r).thrown) == fmt(c.format, [c.arg])
    ensures Emitted(b, r) && c.TwoArgs? ==>
              FormattingTuple(LastCall(r).message, LastCall(r).thrown) == fmt(c.format, [c.arg1, c.arg2])
    ensures Emitted(b, r) && c.VarArgs? ==>
              FormattingTuple(LastCall(r).message, LastCall(r).thrown) == fmt(c.format, c.arguments)
  {
    if !Ungated(s, c) && !IsEnabled(b, s) then
      b
    else
      var level := LevelOf(s);
      match c
      case Message(msg) => Log(b, level, LOGGER_FQCN, msg, None)
      case OneArg(format, arg) =>
        var tuple := fmt(format, [arg]);
        Log(b, level, LOGGER_FQCN, tuple.message, tuple.throwable)
      case TwoArgs(format, arg1, arg2) =>
        var tuple := fmt(format, [arg1, arg2]);
        Log(b, level, LOGGER_FQCN, tuple.message, tuple.throwable)
      case VarArgs(format, arguments) =>
        var tuple := fmt(format, arguments);
        Log(b, level, LOGGER_FQCN, tuple.message, tuple.throwable)
      case WithThrowable(msg, t) => Log(b, level, LOGGER_FQCN, msg, t)
  }

  /** When the level is disabled a gated entry point performs no formatting:
      its outcome is the same whatever the formatter would have done. */
  lemma DisabledIgnoresFormatter(b: Backend, fmt1: Formatter, fmt2: Formatter, s: Severity, c: Call)
    requires !IsEnabled(b, s)
    ensures Invoke(b, fmt1, s, c) == Invoke(b, fmt2, s, c)
    ensures !Ungated(s, c) ==> Invoke(b, fmt1, s, c) == b
  {
  }

  /** `trace(String)` reaches the backend even when TRACE is disabled, while
      the literal-message entry points of every other severity do not. */
  lemma LiteralMessageGating(b: Backend, fmt: Formatter, s: Severity, msg: string)
    requires LevelOf(s) !in b.enabled
    ensures Emitted(b, Invoke(b, fmt, s, Message(msg))) <==> s == Trace
  {
  }

  /** The level-number switch of the location-aware `log`: the five slf4j
      numbers, and nothing else, name a JBoss level. */
  function LevelOfInt(level: int): (r: Option<Level>)
    ensures r.Some? <==> level in {TRACE_INT, DEBUG_INT, INFO_INT, WARN_INT, ERROR_INT}
    ensures r != Some(FATAL)
  {
    if level == TRACE_INT then Some(TRACE)
    else if level == DEBUG_INT then Some(DEBUG)
    else if level == INFO_INT then Some(INFO)
    else if level == WARN_INT then Some(WARN)
    else if level == ERROR_INT then Some(ERROR)
    else None
  }

  /** The switch is one to one: each severity's number leads to that
      severity's JBoss level, and each recognised number is a severity's
      number. */
  lemma LevelOfIntInverse(s: Severity, level: int)
    ensures LevelOfInt(SeverityInt(s)) == Some(LevelOf(s))
    ensures LevelOfInt(level) == Some(LevelOf(s)) ==> level == SeverityInt(s)
  {
  }

  /** Thrown for a level number the switch does not recognise. */
  datatype Exception = IllegalState(levelNumber: int)

  /** The location-aware `log(marker, fqcn, level, message, argArray, t)`:
      format, then forward at the JBoss level the number names, with the
      caller's `fqcn` and the caller's `t` (not the formatter's throwable),
      without asking whether that level is enabled; an unknown number throws
      `IllegalStateException` and makes no call. */
  function LocationAwareLog(b: Backend, fmt: Formatter, fqcn: string, level: int,
                            message: string, argArray: seq<Arg>, t: Option<Throwable>)
    : (r: Result<Backend, Exception>)
    ensures r.Failure? <==> LevelOfInt(level).None?
    ensures r.Failure? ==> r.error == IllegalState(level)
    ensures r.Success? ==> Emitted(b, r.value)
    ensures r.Success? ==>
              LastCall(r.value) == BackendCall(LevelOfInt(level).value, fqcn, fmt(message, argArray).message, t)
  {
    var result := fmt(message, argArray);
    match LevelOfInt(level)
    case Some(lvl) => Success(Log(b, lvl, fqcn, result.message, t))
    case None => Failure(IllegalState(level))
  }

  /** The location-aware `log` never consults the enabled levels: two
      backends that differ only in them receive the same call. */
  lemma LocationAwareIgnoresEnablement(b1: Backend, b2: Backend, fmt: Formatter, fqcn: string, level: int,
                                       message: string, argArray: seq<Arg>, t: Option<Throwable>)
    requires b1.calls == b2.calls
    ensures var r1 := LocationAwareLog(b1, fmt, fqcn, level, message, argArray, t);
            var r2 := LocationAwareLog(b2, fmt, fqcn, level, message, argArray, t);
            && r1.Success? == r2.Success?
            && (r1.Success? ==> r1.value.calls == r2.value.calls)
  {
  }

  /** Logging through the location-aware `log` at a severity's number, with
      the adapter's own `LOGGER_FQCN`, makes the same backend call as that
      severity's enabled vararg entry point. */
  lemma LocationAwareMatchesEntryPoint(b: Backend, fmt: Formatter, s: Severity, format: string, arguments: seq<Arg>)
    requires IsEnabled(b, s)
    requires fmt(format, arguments).throwable == None
    ensures LocationAwareLog(b, fmt, LOGGER_FQCN, SeverityInt(s), format, arguments, None)
              == Success(Invoke(b, fmt, s, VarArgs(format, arguments)))
  {
  }
}
