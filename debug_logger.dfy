/** The custom debug logger plugin: the entry format, the state of the two
    log destinations (the plugin's own `debug-logs/custom-debug.log` and PHP's
    default error log), and the operations that append to, truncate and
    read back the plugin's file. */
module DebugLogger {
  import opened Wrappers
  import opened Text

  // ---------------------------------------------------------------------------
  // Payloads

  /** An array key: PHP arrays are keyed by integers or strings. */
  datatype Key = IntKey(i: int) | StrKey(s: string)

  /** A PHP value handed to the logger. */
  datatype Value =
    | Str(s: string)
    | Int(i: int)
    | Bool(b: bool)
    | Null
    | Arr(entries: seq<(Key, Value)>)
    | Obj(className: string, props: seq<(string, Value)>)

  /** The constant `WP_DEBUG_LOG`, `WP_DEBUG` or `SAVEQUERIES` is defined and truthy. */
  predicate IsOn(flag: Option<bool>)
  {
    flag == Some(true)
  }

  /** PHP's string conversion of a scalar, as `%s` performs it. */
  function ScalarText(v: Value): string
    requires !v.Arr? && !v.Obj?
  {
    match v
    case Str(s) => s
    case Int(i) => IntToDecimal(i)
    case Bool(b) => if b then "1" else ""
    case Null => ""
  }

  /** The text of a payload: arrays and objects go through `print_r`, every
      other value through PHP's string conversion. */
  function Render(v: Value, printR: Value -> string): (r: string)
    ensures v.Str? ==> r == v.s
    ensures v.Arr? || v.Obj? ==> r == printR(v)
    ensures v.Int? ==> ParseInt(r) == Some(v.i)
    ensures v.Null? || v == Bool(false) ==> r == ""
    ensures v == Bool(true) ==> r == "1"
  {
    if v.Arr? || v.Obj? then printR(v)
    else
      if v.Int? then IntDecimalRoundTrip(v.i); ScalarText(v)
      else ScalarText(v)
  }

  /** A PHP list: the values keyed 0, 1, 2, ... */
  function List(vs: seq<Value>): (r: Value)
    ensures r.Arr? && |r.entries| == |vs|
    ensures forall i :: 0 <= i < |vs| ==> r.entries[i] == (IntKey(i), vs[i])
  {
    Arr(seq(|vs|, i requires 0 <= i < |vs| => (IntKey(i), vs[i])))
  }

  /** The keys of an array, in order. */
  function Keys(entries: seq<(Key, Value)>): seq<Key>
  {
    seq(|entries|, i requires 0 <= i < |entries| => entries[i].0)
  }

  /** The value stored under key `k`, if any. */
  function Lookup(entries: seq<(Key, Value)>, k: Key): Option<Value>
  {
    if entries == [] then None
    else if entries[0].0 == k then Some(entries[0].1)
    else Lookup(entries[1..], k)
  }

  /** The value at position i is found under its key when no earlier entry has that key. */
  lemma {:induction false} LookupAt(entries: seq<(Key, Value)>, i: nat)
    requires i < |entries|
    requires forall j :: 0 <= j < i ==> entries[j].0 != entries[i].0
    ensures Lookup(entries, entries[i].0) == Some(entries[i].1)
  {
    if i > 0 {
      LookupAt(entries[1..], i - 1);
    }
  }

  // ---------------------------------------------------------------------------
  // Entry format

  /** The calling frame found by `debug_backtrace`: its `file` and `line`
      entries. Both are absent for a function the engine called from internal
      code (an error handler reached through an internal function, an
      exception handler, a hook callback run through `call_user_func_array`). */
  datatype Frame = Frame(file: Option<string>, line: Option<int>)

  /** The frame of a function called from internal code. */
  const InternalFrame: Frame := Frame(None, None)

  /** `$backtrace[1]['file']`: an absent entry reads as null, which `basename` takes as "". */
  function FrameFile(f: Frame): string
  {
    if f.file.Some? then f.file.value else ""
  }

  /** `$backtrace[1]['line']` as concatenation renders it: an absent entry reads as null, that is "". */
  function FrameLine(f: Frame): string
  {
    if f.line.Some? then IntToDecimal(f.line.value) else ""
  }

  /** `basename(file):line` of the frame, or `unknown` when there is none. */
  function CallerLabel(frame: Option<Frame>, basename: string -> string): (l: string)
    ensures frame.None? ==> l == "unknown"
    ensures frame.Some? ==>
              var b := basename(FrameFile(frame.value));
              |l| > |b| && l[..|b|] == b && l[|b|] == ':'
    ensures frame.Some? && frame.value.line.Some? ==>
              ParseInt(l[|basename(FrameFile(frame.value))| + 1..]) == Some(frame.value.line.value)
    ensures frame.Some? && frame.value.line.None? ==> l == basename(FrameFile(frame.value)) + ":"
  {
    match frame
    case None => "unknown"
    case Some(f) =>
      var b := basename(FrameFile(f));
      var l := b + ":" + FrameLine(f);
      assert l[|b| + 1..] == FrameLine(f);
      if f.line.Some? then IntDecimalRoundTrip(f.line.value); l else l
  }

  /** The label says `unknown` exactly when the backtrace had no calling frame. */
  lemma CallerLabelUnknown(frame: Option<Frame>, basename: string -> string)
    ensures CallerLabel(frame, basename) == "unknown" <==> frame.None?
  {
    if frame.Some? {
      var b := basename(FrameFile(frame.value));
      assert CallerLabel(frame, basename)[|b|] == ':';
      assert ':' !in "unknown";
    }
  }

  /** A caller called from internal code is labelled `:` alone, since `basename("")` is "". */
  lemma InternalCallerLabel(basename: string -> string)
    requires basename("") == ""
    ensures CallerLabel(Some(InternalFrame), basename) == ":"
  {
  }

  /** One custom-log entry: `[ts] [LEVEL] [caller] text` and a newline. */
  function Entry(ts: string, level: string, caller: string, text: string): (e: string)
    ensures |e| > 0 && e[|e| - 1] == '\n'
  {
    "[" + ts + "] [" + Upper(level) + "] [" + caller + "] " + text + "\n"
  }

  /** An entry adds one newline to those of its text: a multi-line `print_r`
      rendering becomes several lines of the file. */
  lemma EntryNewlines(ts: string, level: string, caller: string, text: string)
    requires '\n' !in ts && '\n' !in level && '\n' !in caller
    ensures Count(Entry(ts, level, caller, text), '\n') == Count(text, '\n') + 1
  {
    UpperKeepsAbsent(level, '\n');
    var head := "[" + ts + "] [" + Upper(level) + "] [" + caller + "] ";
    assert '\n' !in head;
    assert Entry(ts, level, caller, text) == head + text + "\n";
    CountConcat(head, text, '\n');
    CountConcat(head + text, "\n", '\n');
  }

  /** The entry's level is the upper-cased level: upper-casing it again changes nothing. */
  lemma EntryLevelUpperCased(ts: string, level: string, caller: string, text: string)
    ensures Entry(ts, level, caller, text) == Entry(ts, Upper(level), caller, text)
  {
    UpperIdempotent(level);
  }

  // ---------------------------------------------------------------------------
  // Reading the file back

  const NoLogsMessage: string := "No debug logs found."

  /** Where `array_slice($a, $offset)` starts in an array of `n` elements. */
  function SliceStart(n: nat, offset: int): (k: nat)
    ensures k <= n
    ensures offset >= 0 ==> k == (if offset <= n then offset else n)
    ensures offset < 0 ==> n - k == (if -offset <= n then -offset else n)
  {
    if offset >= 0 then (if offset <= n then offset else n)
    else if n + offset >= 0 then n + offset else 0
  }

  /** `implode("\n", array_slice(explode("\n", $content), -$lines))`: the
      result explodes into exactly the pieces the slice keeps, and is empty
      when it keeps none. */
  function Tail(content: string, lines: int): (r: string)
    ensures var parts := Split(content, '\n'); var k := SliceStart(|parts|, -lines);
      && (k < |parts| ==> Split(r, '\n') == parts[k..])
      && (k == |parts| ==> r == "")
  {
    var parts := Split(content, '\n');
    var k := SliceStart(|parts|, -lines);
    if k < |parts| then SplitJoin(parts[k..], '\n'); Join(parts[k..], '\n')
    else Join(parts[k..], '\n')
  }

  /** File content that is empty or ends in a newline, as every write leaves it. */
  predicate LineTerminated(s: string)
  {
    s == [] || s[|s| - 1] == '\n'
  }

  /** Asking for 0 lines (offset `-0`, that is 0) or for at least as many
      lines as there are pieces returns the whole content. */
  lemma TailWhole(content: string, lines: int)
    requires lines == 0 || lines >= |Split(content, '\n')|
    ensures Tail(content, lines) == content
  {
    var parts := Split(content, '\n');
    assert parts[SliceStart(|parts|, -lines)..] == parts;
    JoinSplit(content, '\n');
  }

  /** Whatever is asked for, the result is a suffix of the content. */
  lemma TailSuffix(content: string, lines: int)
    ensures IsSuffix(Tail(content, lines), content)
  {
    var parts := Split(content, '\n');
    JoinTailSuffix(parts, SliceStart(|parts|, -lines), '\n');
    JoinSplit(content, '\n');
  }

  /** The number of newlines in the result: for `lines >= 1` there are
      `min(lines, pieces) - 1` of them, so fewer than `lines`; a negative
      count drops that many leading pieces instead. */
  lemma TailNewlines(content: string, lines: int)
    ensures var n := |Split(content, '\n')|;
      var k := Count(Tail(content, lines), '\n');
      && (lines >= 1 ==> k == (if lines < n then lines else n) - 1)
      && (lines < 0 && -lines < n ==> k == n + lines - 1)
      && (lines < 0 && -lines >= n ==> Tail(content, lines) == "")
  {
    var parts := Split(content, '\n');
    var rest := parts[SliceStart(|parts|, -lines)..];
    if |rest| >= 1 {
      SplitJoin(rest, '\n');
      SplitCount(Join(rest, '\n'), '\n');
    }
  }

  /** The pieces of content that ends in a newline: the last one is empty. */
  lemma SplitTerminated(content: string)
    requires content != [] && content[|content| - 1] == '\n'
    ensures var parts := Split(content, '\n'); |parts| >= 2 && parts[|parts| - 1] == ""
  {
    var body := content[..|content| - 1];
    assert content == body + ['\n'] + "";
    SplitAround(body, "", '\n');
  }

  /** `get_debug_logs(1)` on newline-terminated content is always empty:
      the one piece it keeps is the empty one after the final newline. */
  lemma TailOneIsEmpty(content: string)
    requires LineTerminated(content)
    ensures Tail(content, 1) == ""
  {
    if content != [] {
      SplitTerminated(content);
      var parts := Split(content, '\n');
      assert parts[SliceStart(|parts|, -1)..] == [""];
    }
  }

  /** Pieces whose last one is empty join to "" or to text ending in a newline. */
  lemma JoinEndsEmpty(rest: seq<string>)
    requires |rest| >= 1 && rest[|rest| - 1] == ""
    ensures LineTerminated(Join(rest, '\n'))
  {
    if |rest| >= 2 {
      JoinAt(rest, |rest| - 1, '\n');
      assert rest[|rest| - 1..] == [""];
    }
  }

  /** On newline-terminated content the result is empty or ends in a
      newline, so it is never the "no logs" message. */
  lemma TailNotMissing(content: string, lines: int)
    requires LineTerminated(content)
    ensures Tail(content, lines) != NoLogsMessage
  {
    var parts := Split(content, '\n');
    var rest := parts[SliceStart(|parts|, -lines)..];
    assert NoLogsMessage[|NoLogsMessage| - 1] == '.';
    if rest == [] {
      assert Join(rest, '\n') == "";
    } else {
      if content == [] {
        assert parts == [""];
      } else {
        SplitTerminated(content);
      }
      assert rest[|rest| - 1] == parts[|parts| - 1];
      JoinEndsEmpty(rest);
    }
  }

  /** A line and its newline split into the line and the empty piece. */
  lemma SplitOneLine(line: string)
    requires '\n' !in line
    ensures Split(line + "\n", '\n') == [line, ""]
  {
    SplitSingle(line, '\n');
    assert line + "\n" == line + ['\n'] + "";
    SplitAround(line, "", '\n');
  }

  /** Asking for 2 lines keeps the last two pieces. */
  lemma TailTwo(content: string)
    requires |Split(content, '\n')| >= 2
    ensures var parts := Split(content, '\n'); Tail(content, 2) == Join(parts[|parts| - 2..], '\n')
  {
  }

  /** After appending a one-line entry to newline-terminated content, the
      last two pieces are that entry's line and the empty piece, so
      `get_debug_logs(2)` returns exactly the entry. */
  lemma LatestEntryVisible(content: string, line: string)
    requires LineTerminated(content)
    requires '\n' !in line
    ensures Tail(content + (line + "\n"), 2) == line + "\n"
  {
    var e := line + "\n";
    SplitOneLine(line);
    var parts := Split(content + e, '\n');
    if content == [] {
      assert content + e == e;
    } else {
      var body := content[..|content| - 1];
      assert content + e == body + ['\n'] + e;
      SplitAround(body, e, '\n');
    }
    assert parts[|parts| - 2..] == [line, ""];
    TailTwo(content + e);
    assert Join([line, ""], '\n') == e;
  }

  /** Content holding one newline, at its end, reads back whole for 0 or at
      least 2 lines and as "" for 1 line. */
  lemma OneLineRead(e: string, lines: int)
    requires LineTerminated(e) && Count(e, '\n') == 1
    ensures lines == 0 || lines >= 2 ==> Tail(e, lines) == e
    ensures lines == 1 ==> Tail(e, lines) == ""
  {
    SplitCount(e, '\n');
    if lines == 0 || lines >= 2 {
      TailWhole(e, lines);
    }
    TailOneIsEmpty(e);
  }

  /** An empty file reads back as "" whatever is asked for. */
  lemma EmptyRead(lines: int)
    ensures Tail("", lines) == ""
  {
    assert Split("", '\n') == [""];
  }

  /** The facts about `Tail` that `get_debug_logs` relies on, gathered. */
  lemma TailFacts(content: string, lines: int)
    ensures IsSuffix(Tail(content, lines), content)
    ensures lines == 0 || lines >= |Split(content, '\n')| ==> Tail(content, lines) == content
    ensures lines >= 1 ==> Count(Tail(content, lines), '\n') < lines
    ensures LineTerminated(content) ==> Tail(content, lines) != NoLogsMessage
  {
    TailSuffix(content, lines);
    TailNewlines(content, lines);
    if lines == 0 || lines >= |Split(content, '\n')| {
      TailWhole(content, lines);
    }
    if LineTerminated(content) {
      TailNotMissing(content, lines);
    }
  }

  // ---------------------------------------------------------------------------
  // Payload builders

  /** The five-key map that `write_error_log` logs; a missing request field reads `unknown`. */
  function ErrorPayload(message: Value, context: Value, userId: int,
                        requestUri: Option<string>, userAgent: Option<string>): (r: Value)
    ensures r.Arr?
    ensures Keys(r.entries) == [StrKey("message"), StrKey("context"), StrKey("user_id"),
                                StrKey("request_uri"), StrKey("user_agent")]
    ensures Lookup(r.entries, StrKey("message")) == Some(message)
    ensures Lookup(r.entries, StrKey("context")) == Some(context)
    ensures Lookup(r.entries, StrKey("user_id")) == Some(Int(userId))
    ensures Lookup(r.entries, StrKey("request_uri")) ==
            Some(Str(if requestUri.Some? then requestUri.value else "unknown"))
    ensures Lookup(r.entries, StrKey("user_agent")) ==
            Some(Str(if userAgent.Some? then userAgent.value else "unknown"))
  {
    var entries :=
      [(StrKey("message"), message),
       (StrKey("context"), context),
       (StrKey("user_id"), Int(userId)),
       (StrKey("request_uri"), Str(if requestUri.Some? then requestUri.value else "unknown")),
       (StrKey("user_agent"), Str(if userAgent.Some? then userAgent.value else "unknown"))];
    LookupAt(entries, 2);
    LookupAt(entries, 3);
    LookupAt(entries, 4);
    Arr(entries)
  }

  /** The map that `log_database_queries` logs. */
  function QueriesPayload(queries: seq<Value>): (r: Value)
    ensures r.Arr? && Keys(r.entries) == [StrKey("total_queries"), StrKey("queries")]
    ensures Lookup(r.entries, StrKey("total_queries")) == Some(Int(|queries|))
    ensures Lookup(r.entries, StrKey("queries")) == Some(List(queries))
  {
    Arr([(StrKey("total_queries"), Int(|queries|)), (StrKey("queries"), List(queries))])
  }

  /** One registered hook: its name and the number of entries of its
      `callbacks` array (one per priority). */
  datatype Hook = Hook(name: string, callbacks: nat)

  /** The sum of the callback counts of all hooks. */
  function HookTotal(hooks: seq<Hook>): nat
  {
    if hooks == [] then 0 else HookTotal(hooks[..|hooks| - 1]) + hooks[|hooks| - 1].callbacks
  }

  /** The total over two runs of hooks is the sum of their totals. */
  lemma {:induction false} HookTotalAppend(a: seq<Hook>, b: seq<Hook>)
    ensures HookTotal(a + b) == HookTotal(a) + HookTotal(b)
  {
    if b != [] {
      assert (a + b)[..|a + b| - 1] == a + b[..|b| - 1];
      HookTotalAppend(a, b[..|b| - 1]);
    } else {
      assert a + b == a;
    }
  }

  /** Every hook's count is part of the total. */
  lemma {:induction false} HookTotalCovers(hooks: seq<Hook>, i: nat)
    requires i < |hooks|
    ensures hooks[i].callbacks <= HookTotal(hooks)
  {
    if i < |hooks| - 1 {
      HookTotalCovers(hooks[..|hooks| - 1], i);
    }
  }

  /** The `foreach` of `log_wp_hooks`: adds up the callback counts. */
  method CountCallbacks(hooks: seq<Hook>) returns (hookCount: nat)
    ensures hookCount == HookTotal(hooks)
  {
    hookCount := 0;
    var i := 0;
    while i < |hooks|
      invariant 0 <= i <= |hooks|
      invariant hookCount == HookTotal(hooks[..i])
    {
      assert hooks[..i + 1][..i] == hooks[..i];
      hookCount := hookCount + hooks[i].callbacks;
      i := i + 1;
    }
    assert hooks[..i] == hooks;
  }

  /** The names of the hooks, in order (`array_keys($wp_filter)`). */
  function HookNames(hooks: seq<Hook>): (r: seq<Value>)
    ensures |r| == |hooks|
    ensures forall i :: 0 <= i < |hooks| ==> r[i] == Str(hooks[i].name)
  {
    seq(|hooks|, i requires 0 <= i < |hooks| => Str(hooks[i].name))
  }

  /** The map that `log_wp_hooks` logs. */
  function HooksPayload(hookCount: nat, hooks: seq<Hook>): (r: Value)
    ensures r.Arr? && Keys(r.entries) == [StrKey("total_hooks"), StrKey("hook_names")]
    ensures Lookup(r.entries, StrKey("total_hooks")) == Some(Int(hookCount))
    ensures Lookup(r.entries, StrKey("hook_names")) == Some(List(HookNames(hooks)))
  {
    Arr([(StrKey("total_hooks"), Int(hookCount)), (StrKey("hook_names"), List(HookNames(hooks)))])
  }

  const ClearedText: string := "Debug logs cleared"

  /** What `get_debug_logs` shows right after `clear_debug_logs`: the single
      "cleared" entry for 0 or at least 2 lines, the empty final piece for 1
      line, and nothing at all when logging was off and the file was left empty. */
  lemma ClearedLogRead(ts: string, caller: string, lines: int)
    requires '\n' !in ts && '\n' !in caller
    ensures var e := Entry(ts, "info", caller, ClearedText);
      && (lines == 0 || lines >= 2 ==> Tail(e, lines) == e)
      && (lines == 1 ==> Tail(e, lines) == "")
      && Tail("", lines) == ""
  {
    var e := Entry(ts, "info", caller, ClearedText);
    assert '\n' !in ClearedText && '\n' !in "info";
    EntryNewlines(ts, "info", caller, ClearedText);
    OneLineRead(e, lines);
    EmptyRead(lines);
  }

  // ---------------------------------------------------------------------------
  // The log state

  /** The two log destinations and the configuration constants the plugin reads.
      `print_r` and `basename` are library functions whose workings are not
      modelled; they are fixed per logger. */
  class DebugLog {
    const wpDebugLog: Option<bool>
    const wpDebug: Option<bool>
    const saveQueries: Option<bool>
    const printR: Value -> string
    const basename: string -> string

    /** `WP_CONTENT_DIR/debug-logs` exists. */
    var dirExists: bool
    /** `debug-logs/custom-debug.log` exists, and its content. */
    var customExists: bool
    var customLog: string
    /** The messages sent to PHP's default error log, oldest first. */
    var defaultLog: seq<string>

    /** A file exists only inside an existing directory, a missing file has no
        content, and `basename("")` is "", as in PHP. */
    ghost predicate Valid()
      reads this
    {
      && (customExists ==> dirExists) && (!customExists ==> customLog == [])
      && basename("") == ""
    }

    constructor (wpDebugLog: Option<bool>, wpDebug: Option<bool>, saveQueries: Option<bool>,
                 printR: Value -> string, basename: string -> string,
                 dirExists: bool, customExists: bool, customLog: string, defaultLog: seq<string>)
      requires customExists ==> dirExists
      requires !customExists ==> customLog == []
      requires basename("") == ""
      ensures Valid()
      ensures this.wpDebugLog == wpDebugLog && this.wpDebug == wpDebug && this.saveQueries == saveQueries
      ensures this.printR == printR && this.basename == basename
      ensures this.dirExists == dirExists && this.customExists == customExists
      ensures this.customLog == customLog && this.defaultLog == defaultLog
    {
      this.wpDebugLog, this.wpDebug, this.saveQueries := wpDebugLog, wpDebug, saveQueries;
      this.printR, this.basename := printR, basename;
      this.dirExists, this.customExists := dirExists, customExists;
      this.customLog, this.defaultLog := customLog, defaultLog;
    }

    /** `write_log` does anything at all. */
    predicate LoggingEnabled()
    {
      IsOn(wpDebugLog)
    }

    /** The effect of one `write_log` call with entry `e`: when enabled, the
        directory and file exist, `e` is appended to the file (earlier content
        is kept as a prefix) and sent to the default log; when disabled,
        nothing changes. */
    twostate predicate Appended(e: string)
      reads this
    {
      if LoggingEnabled() then
        && dirExists && customExists
        && customLog == old(customLog) + e
        && defaultLog == old(defaultLog) + [e]
      else
        && dirExists == old(dirExists) && customExists == old(customExists)
        && customLog == old(customLog) && defaultLog == old(defaultLog)
    }

    /** `write_log($log, $level)`, with the clock reading `ts` and the calling
        frame `frame` as inputs. */
    method WriteLog(log: Value, level: string, ts: string, frame: Option<Frame>)
      requires Valid()
      modifies this
      ensures Valid()
      ensures Appended(Entry(ts, level, CallerLabel(frame, basename), Render(log, printR)))
      ensures old(LineTerminated(customLog)) ==> LineTerminated(customLog)
    {
      if !LoggingEnabled() {
        return;
      }
      if !dirExists {
        dirExists := true;
      }
      var caller := CallerLabel(frame, basename);
      var text := Render(log, printR);
      var entry := Entry(ts, level, caller, text);
      // error_log type 3 appends to the file, creating it when missing
      customLog := customLog + entry;
      customExists := true;
      if LoggingEnabled() {
        defaultLog := defaultLog + [entry];
      }
    }

    /** `error_log($message)`: one message to the default error log. */
    method AppendDefault(message: string)
      modifies this`defaultLog
      ensures defaultLog == old(defaultLog) + [message]
    {
      defaultLog := defaultLog + [message];
    }

    /** `write_error_log($message, $context)`, with the current user id and
        the request's URI and user agent (absent when unset) as inputs. */
    method WriteErrorLog(message: Value, context: Value, userId: int,
                         requestUri: Option<string>, userAgent: Option<string>,
                         ts: string, frame: Option<Frame>)
      requires Valid()
      modifies this
      ensures Valid()
      ensures Appended(Entry(ts, "error", CallerLabel(frame, basename),
                             Render(ErrorPayload(message, context, userId, requestUri, userAgent), printR)))
    {
      var logData := ErrorPayload(message, context, userId, requestUri, userAgent);
      WriteLog(logData, "error", ts, frame);
    }

    /** `log_database_queries()`: logs the saved queries only when
        `WP_DEBUG` and `SAVEQUERIES` are on and there is at least one query. */
    method LogDatabaseQueries(queries: seq<Value>, ts: string, frame: Option<Frame>)
      requires Valid()
      modifies this
      ensures Valid()
      ensures IsOn(wpDebug) && IsOn(saveQueries) && |queries| > 0 ==>
              Appended(Entry(ts, "debug", CallerLabel(frame, basename), Render(QueriesPayload(queries), printR)))
      ensures !(IsOn(wpDebug) && IsOn(saveQueries) && |queries| > 0) ==> unchanged(this)
    {
      if IsOn(wpDebug) && IsOn(saveQueries) {
        if |queries| > 0 {
          WriteLog(QueriesPayload(queries), "debug", ts, frame);
        }
      }
    }

    /** `log_wp_hooks()`: when `WP_DEBUG` is on, logs the total callback
        count and the hook names. */
    method LogWpHooks(hooks: seq<Hook>, ts: string, frame: Option<Frame>)
      requires Valid()
      modifies this
      ensures Valid()
      ensures IsOn(wpDebug) ==>
              Appended(Entry(ts, "debug", CallerLabel(frame, basename),
                             Render(HooksPayload(HookTotal(hooks), hooks), printR)))
      ensures !IsOn(wpDebug) ==> unchanged(this)
    {
      if IsOn(wpDebug) {
        var hookCount := CountCallbacks(hooks);
        WriteLog(HooksPayload(hookCount, hooks), "debug", ts, frame);
      }
    }

    /** `clear_debug_logs()`: when the file exists it is truncated and then
        the "cleared" entry is logged; when it does not, nothing happens. */
    method ClearDebugLogs(ts: string, frame: Option<Frame>)
      requires Valid()
      modifies this
      ensures Valid()
      ensures !old(customExists) ==> unchanged(this)
      ensures old(customExists) ==>
                var e := Entry(ts, "info", CallerLabel(frame, basename), ClearedText);
                && customExists && dirExists
                && customLog == (if LoggingEnabled() then e else "")
                && defaultLog == old(defaultLog) + (if LoggingEnabled() then [e] else [])
      ensures LineTerminated(customLog) || !old(customExists)
    {
      if customExists {
        customLog := "";
        WriteLog(Str(ClearedText), "info", ts, frame);
      }
    }

    /** `get_debug_logs($lines)`: the "no logs" message when the file is
        missing, otherwise the last `$lines` pieces of its content. */
    function GetDebugLogs(lines: int): (r: string)
      reads this
      ensures !customExists ==> r == NoLogsMessage
      ensures customExists ==> IsSuffix(r, customLog)
      ensures customExists && (lines == 0 || lines >= |Split(customLog, '\n')|) ==> r == customLog
      ensures customExists && lines >= 1 ==> Count(r, '\n') < lines
      ensures LineTerminated(customLog) ==> (r == NoLogsMessage <==> !customExists)
    {
      if !customExists then NoLogsMessage
      else TailFacts(customLog, lines); Tail(customLog, lines)
    }
  }
}
