/** The PHP error and exception handlers of the debug configuration: the
    reporting-mask gate, the error-type table, the message formats, and the
    forwarding of each message to the default error log and to the custom
    logger. */
module ErrorHandlers {
  import opened Wrappers
  import opened Text
  import opened DebugLogger

  /** A PHP integer: a 64-bit word, on which `&` acts bit by bit. */
  type Level = bv64

  // PHP's error-level constants: one bit each.
  const E_ERROR: Level := 1
  const E_WARNING: Level := 2
  const E_PARSE: Level := 4
  const E_NOTICE: Level := 8
  const E_CORE_ERROR: Level := 16
  const E_CORE_WARNING: Level := 32
  const E_COMPILE_ERROR: Level := 64
  const E_COMPILE_WARNING: Level := 128
  const E_USER_ERROR: Level := 256
  const E_USER_WARNING: Level := 512
  const E_USER_NOTICE: Level := 1024
  const E_STRICT: Level := 2048
  const E_RECOVERABLE_ERROR: Level := 4096
  const E_DEPRECATED: Level := 8192
  const E_USER_DEPRECATED: Level := 16384
  /** Every level above, as set by `error_reporting(E_ALL)`. */
  const E_ALL: Level := 32767
  /** The reporting level PHP 8 puts in force inside an `@`-silenced expression. */
  const SILENCED: Level := 4437

  /** The handler's `$error_types` table: the name listed for a level, if any. */
  function ErrorTypes(errno: Level): (r: Option<string>)
    ensures r.Some? <==> errno in {E_ERROR, E_WARNING, E_PARSE, E_NOTICE, E_CORE_ERROR, E_CORE_WARNING,
                                   E_COMPILE_ERROR, E_COMPILE_WARNING, E_USER_ERROR, E_USER_WARNING,
                                   E_USER_NOTICE, E_STRICT, E_RECOVERABLE_ERROR, E_DEPRECATED,
                                   E_USER_DEPRECATED}
    ensures r.Some? ==> r.value != "UNKNOWN"
  {
    if errno == E_ERROR then Some("ERROR")
    else if errno == E_WARNING then Some("WARNING")
    else if errno == E_PARSE then Some("PARSE")
    else if errno == E_NOTICE then Some("NOTICE")
    else if errno == E_CORE_ERROR then Some("CORE_ERROR")
    else if errno == E_CORE_WARNING then Some("CORE_WARNING")
    else if errno == E_COMPILE_ERROR then Some("COMPILE_ERROR")
    else if errno == E_COMPILE_WARNING then Some("COMPILE_WARNING")
    else if errno == E_USER_ERROR then Some("USER_ERROR")
    else if errno == E_USER_WARNING then Some("USER_WARNING")
    else if errno == E_USER_NOTICE then Some("USER_NOTICE")
    else if errno == E_STRICT then Some("STRICT")
    else if errno == E_RECOVERABLE_ERROR then Some("RECOVERABLE_ERROR")
    else if errno == E_DEPRECATED then Some("DEPRECATED")
    else if errno == E_USER_DEPRECATED then Some("USER_DEPRECATED")
    else None
  }

  /** `error_reporting() & $errno` is non-zero: the handler goes on. */
  predicate Reportable(reporting: Level, errno: Level): (b: bool)
    ensures b ==> reporting != 0 && errno != 0
    ensures errno != 0 && reporting & errno == errno ==> b
  {
    reporting & errno != 0
  }

  /** Every listed level is a single bit inside `E_ALL`, so under
      `error_reporting(E_ALL)` every listed level is reported; with a
      reporting level of 0 none is. */
  lemma AllLevelsReportedUnderEAll(errno: Level)
    requires ErrorTypes(errno).Some?
    ensures errno != 0 && errno & (errno - 1) == 0 && errno & E_ALL == errno
    ensures Reportable(E_ALL, errno)
    ensures !Reportable(0, errno)
  {
  }

  /** Inside `@`, only the fatal levels get through the gate. */
  lemma SilencedLevels(errno: Level)
    requires ErrorTypes(errno).Some?
    ensures Reportable(SILENCED, errno) <==>
            errno in {E_ERROR, E_PARSE, E_CORE_ERROR, E_COMPILE_ERROR, E_USER_ERROR, E_RECOVERABLE_ERROR}
  {
  }


  /** The level a name stands for, the inverse of the table. */
  function ErrorNumber(name: string): Option<Level>
  {
    match name
    case "ERROR" => Some(E_ERROR)
    case "WARNING" => Some(E_WARNING)
    case "PARSE" => Some(E_PARSE)
    case "NOTICE" => Some(E_NOTICE)
    case "CORE_ERROR" => Some(E_CORE_ERROR)
    case "CORE_WARNING" => Some(E_CORE_WARNING)
    case "COMPILE_ERROR" => Some(E_COMPILE_ERROR)
    case "COMPILE_WARNING" => Some(E_COMPILE_WARNING)
    case "USER_ERROR" => Some(E_USER_ERROR)
    case "USER_WARNING" => Some(E_USER_WARNING)
    case "USER_NOTICE" => Some(E_USER_NOTICE)
    case "STRICT" => Some(E_STRICT)
    case "RECOVERABLE_ERROR" => Some(E_RECOVERABLE_ERROR)
    case "DEPRECATED" => Some(E_DEPRECATED)
    case "USER_DEPRECATED" => Some(E_USER_DEPRECATED)
    case _ => None
  }

  /** Each listed level has its own name: the name gives the level back. */
  lemma TableInverse(errno: Level)
    requires ErrorTypes(errno).Some?
    ensures ErrorNumber(ErrorTypes(errno).value) == Some(errno)
  {
  }

  /** The name of an error level, `UNKNOWN` for a level not in the table. */
  function ErrorTypeName(errno: Level): (r: string)
    ensures r == "UNKNOWN" <==> ErrorTypes(errno).None?
    ensures ErrorTypes(errno).Some? ==> ErrorNumber(r) == Some(errno)
  {
    match ErrorTypes(errno)
    case Some(name) => TableInverse(errno); name
    case None => "UNKNOWN"
  }

  /** As a consequence, two different listed levels never share a name. */
  lemma ErrorTypeNamesDistinct(a: Level, b: Level)
    requires ErrorTypes(a).Some? && ErrorTypes(b).Some? && a != b
    ensures ErrorTypeName(a) != ErrorTypeName(b)
  {
  }

  /** A handler message `[ts]`, a middle part and a line number: the
      timestamp opens it, the number closes it and reads back, and it is one
      line when the timestamp and the middle are. */
  lemma Stamped(ts: string, mid: string, line: int)
    ensures var m := "[" + ts + "]" + mid + IntToDecimal(line); var d := IntToDecimal(line);
      && |m| > |ts| + 2 && m[..|ts| + 2] == "[" + ts + "]"
      && |m| >= |d| && ParseInt(m[|m| - |d|..]) == Some(line)
      && ('\n' !in ts && '\n' !in mid ==> '\n' !in m)
  {
    var d := IntToDecimal(line);
    var head := "[" + ts + "]" + mid;
    assert "[" + ts + "]" + mid + d == head + d;
    assert (head + d)[|head + d| - |d|..] == d;
    assert (head + d)[..|ts| + 2] == "[" + ts + "]";
    IntDecimalRoundTrip(line);
  }

  /** `[ts] PHP TYPE: errstr in errfile on line N`: it opens with the
      bracketed timestamp, ends with the line number, and is one line whenever
      the texts it quotes are. */
  function HandlerMessage(ts: string, errorType: string, errstr: string, errfile: string, errline: int): (m: string)
    ensures |m| > |ts| + 2 && m[..|ts| + 2] == "[" + ts + "]"
    ensures var d := IntToDecimal(errline); |m| >= |d| && ParseInt(m[|m| - |d|..]) == Some(errline)
    ensures '\n' !in ts && '\n' !in errorType && '\n' !in errstr && '\n' !in errfile ==> '\n' !in m
  {
    var mid := " PHP " + errorType + ": " + errstr + " in " + errfile + " on line ";
    assert '\n' !in errorType && '\n' !in errstr && '\n' !in errfile ==> '\n' !in mid;
    Stamped(ts, mid, errline);
    "[" + ts + "]" + mid + IntToDecimal(errline)
  }

  /** What an uncaught exception reports about itself. */
  datatype Exception = Exception(message: string, file: string, line: int)

  /** `[ts] Uncaught Exception: message in file on line N`, with the same
      shape as the error handler's message. */
  function ExceptionMessage(ts: string, ex: Exception): (m: string)
    ensures |m| > |ts| + 2 && m[..|ts| + 2] == "[" + ts + "]"
    ensures var d := IntToDecimal(ex.line); |m| >= |d| && ParseInt(m[|m| - |d|..]) == Some(ex.line)
    ensures '\n' !in ts && '\n' !in ex.message && '\n' !in ex.file ==> '\n' !in m
  {
    var mid := " Uncaught Exception: " + ex.message + " in " + ex.file + " on line ";
    assert '\n' !in ex.message && '\n' !in ex.file ==> '\n' !in mid;
    Stamped(ts, mid, ex.line);
    "[" + ts + "]" + mid + IntToDecimal(ex.line)
  }

  /** A forwarded message becomes a custom-log entry at level ERROR whose text
      is the whole message, so it carries two timestamps. */
  lemma ForwardedEntryShape(entryTs: string, caller: string, ts: string, msgTail: string)
    ensures Entry(entryTs, "error", caller, "[" + ts + "]" + msgTail)
         == "[" + entryTs + "] [ERROR] [" + caller + "] [" + ts + "]" + msgTail + "\n"
  {
  }

  /** A one-line handler message forwarded to a newline-terminated custom log
      is what `get_debug_logs(2)` returns afterwards. */
  lemma ForwardedMessageVisible(content: string, entryTs: string, caller: string, msg: string)
    requires LineTerminated(content)
    requires '\n' !in entryTs && '\n' !in caller && '\n' !in msg
    ensures var e := Entry(entryTs, "error", caller, msg); Tail(content + e, 2) == e
  {
    var e := Entry(entryTs, "error", caller, msg);
    EntryNewlines(entryTs, "error", caller, msg);
    var line := e[..|e| - 1];
    assert e == line + "\n";
    CountConcat(line, "\n", '\n');
    LatestEntryVisible(content, line);
  }

  /** The effect of a handler that got through the gate with message `msg`:
      the message goes to the default log, then, when `write_log` exists,
      through `write_log` at level `error`. */
  twostate predicate Reported(log: DebugLog, msg: string, entryTs: string, frame: Option<Frame>, writeLogExists: bool)
    reads log
  {
    var e := Entry(entryTs, "error", CallerLabel(frame, log.basename), msg);
    var forwarded := writeLogExists && log.LoggingEnabled();
    && log.defaultLog == old(log.defaultLog) + [msg] + (if forwarded then [e] else [])
    && log.customLog == old(log.customLog) + (if forwarded then e else "")
    && log.customExists == (old(log.customExists) || forwarded)
    && log.dirExists == (old(log.dirExists) || forwarded)
  }

  /** The tail both handlers share: `error_log($message)`, then
      `write_log($message, 'error')` when that function exists. */
  method Forward(log: DebugLog, message: string, entryTs: string, frame: Option<Frame>, writeLogExists: bool)
    requires log.Valid()
    modifies log
    ensures log.Valid()
    ensures Reported(log, message, entryTs, frame, writeLogExists)
  {
    log.AppendDefault(message);
    if writeLogExists {
      log.WriteLog(Str(message), "error", entryTs, frame);
    }
  }

  /** `custom_error_handler($errno, $errstr, $errfile, $errline)`, with
      `error_reporting()`, the two clock readings (`date` here, `current_time`
      in `write_log`) and the handler's own frame, which `write_log` always
      finds as its caller, as inputs. Returns false, and touches neither log,
      when the level is masked out. */
  method CustomErrorHandler(log: DebugLog, writeLogExists: bool, reporting: Level,
                            errno: Level, errstr: string, errfile: string, errline: int,
                            ts: string, entryTs: string, frame: Frame)
    returns (handled: bool)
    requires log.Valid()
    modifies log
    ensures log.Valid()
    ensures handled == Reportable(reporting, errno)
    ensures !handled ==> unchanged(log)
    ensures handled ==>
              Reported(log, HandlerMessage(ts, ErrorTypeName(errno), errstr, errfile, errline),
                       entryTs, Some(frame), writeLogExists)
  {
    if !Reportable(reporting, errno) {
      return false;
    }
    var errorType := ErrorTypeName(errno);
    var message := HandlerMessage(ts, errorType, errstr, errfile, errline);
    Forward(log, message, entryTs, Some(frame), writeLogExists);
    return true;
  }

  /** `custom_exception_handler($exception)`: no gate, no result. The engine
      calls it from internal code, so the frame `write_log` sees has neither
      file nor line, and the forwarded entry's caller is `:`. */
  method CustomExceptionHandler(log: DebugLog, writeLogExists: bool, ex: Exception,
                                ts: string, entryTs: string)
    requires log.Valid()
    modifies log
    ensures log.Valid()
    ensures Reported(log, ExceptionMessage(ts, ex), entryTs, Some(InternalFrame), writeLogExists)
    ensures CallerLabel(Some(InternalFrame), log.basename) == ":"
  {
    var message := ExceptionMessage(ts, ex);
    Forward(log, message, entryTs, Some(InternalFrame), writeLogExists);
    InternalCallerLabel(log.basename);
  }

  /** The closing lines of the configuration: announce it through `write_log` when that exists. */
  method ConfigurationLoaded(log: DebugLog, writeLogExists: bool, ts: string, frame: Option<Frame>)
    requires log.Valid()
    modifies log
    ensures log.Valid()
    ensures writeLogExists ==>
              log.Appended(Entry(ts, "info", CallerLabel(frame, log.basename), "Debug configuration loaded"))
    ensures !writeLogExists ==> unchanged(log)
  {
    if writeLogExists {
      log.WriteLog(Str("Debug configuration loaded"), "info", ts, frame);
    }
  }
}
