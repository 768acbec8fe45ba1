# Custom debug logger — a Dafny model

This project models the debug-logging core of a WordPress debug bundle. It has two parts.

The **Custom Debug Logger** plugin (`wp-content/plugins/custom-debug-logger.php`):

- `write_log` is gated on `WP_DEBUG_LOG`. It formats one entry, `[ts] [LEVEL] [caller] text\n`.
  It appends that entry to `WP_CONTENT_DIR/debug-logs/custom-debug.log`, creating the directory
  first when it is missing, and sends the entry to PHP's default error log too.
- Three helpers build payloads for `write_log`: `write_error_log`, `log_database_queries` and
  `log_wp_hooks`.
- `clear_debug_logs` truncates the file and then logs a "cleared" entry.
- `get_debug_logs` returns the last N pieces of the file, split on newlines.

The **PHP error and exception handlers** of `debug-config.php`:

- The error handler tests the error level against `error_reporting()`. It looks the level's
  name up in a table, falling back to `UNKNOWN`.
- Both handlers format a fixed message. They write it to the default log and, when
  `write_log` exists, pass it to `write_log` at level `error`.

Files:

- `wrappers.dfy` (module `Wrappers`): `Option`.
- `text.dfy` (module `Text`): PHP's `explode`/`implode` on one separator, ASCII `strtoupper`
  and the `%d` rendering of integers, with the round trips between them.
- `debug_logger.dfy` (module `DebugLogger`): the payload values, the entry format, the
  `get_debug_logs` pipeline as the pure function `Tail`, and the class `DebugLog`.
  - The class holds the file state: `dirExists`, `customExists`, `customLog` and
    `defaultLog`, the last being the messages sent to the default log.
  - It also holds the configuration constants `WP_DEBUG_LOG`, `WP_DEBUG` and `SAVEQUERIES`.
    Each is an `Option<bool>`; `None` means undefined.
  - `print_r` and `basename` are fixed functions of the logger whose workings are not modelled.
  - The clock readings and the calling frame found by `debug_backtrace` are inputs of each call.
- `debug_config.dfy` (module `ErrorHandlers`): the levels, the type table, the message formats
  and the handlers. The handlers act on a `DebugLog`.

Facts the model makes explicit:

- `get_debug_logs(0)` returns the whole file, because the slice offset `-0` is 0.
- A file written only by `write_log` ends in a newline, so its last piece is empty.
  - `get_debug_logs(1)` is therefore always `""`.
  - `get_debug_logs(N)` shows at most N−1 complete lines.
- "No debug logs found." is returned exactly when the file is missing, provided the content
  is empty or newline-terminated. Every write and every clear leaves it that way. A file
  created by other means could contain exactly that text.
- In `write_log`, the second `WP_DEBUG_LOG` test (the one guarding the default-log write) can
  only be true: the function has returned earlier otherwise.
- PHP never passes `E_ERROR`, `E_PARSE`, `E_CORE_ERROR`, `E_CORE_WARNING`, `E_COMPILE_ERROR` or
  `E_COMPILE_WARNING` to a user error handler. Their table entries can never be used by
  `custom_error_handler`, and of the six levels that get past the `@` mask only `E_USER_ERROR`
  and `E_RECOVERABLE_ERROR` can actually reach it.
- A forwarded handler message becomes a custom-log entry at level `ERROR` that carries two
  timestamps: `write_log`'s own, then the handler's.

- The caller label comes from the frame `debug_backtrace` reports. A function the engine called
  from internal code has a frame with no file and no line; the label is then `:`. This is always
  so for the exception handler, and for the error handler when the error came from inside an
  internal function such as `trigger_error`.

The code has no rotation, retention, locking, level filtering or newline escaping, and neither
has the model.

## Model

| member | source | states |
|---|---|---|
| `Text.Split` | wp-content/plugins/custom-debug-logger.php:174 | `explode` always yields at least one piece, and no piece contains the separator |
| `Text.Join` | wp-content/plugins/custom-debug-logger.php:179 | `implode` puts at least one separator between each two pieces; for separator-free pieces the result has exactly one separator fewer than there are pieces |
| `Text.JoinSplit` | wp-content/plugins/custom-debug-logger.php:174-179 | `implode("\n", explode("\n", s))` is `s` for every string |
| `Text.SplitJoin` | wp-content/plugins/custom-debug-logger.php:174-179 | exploding the implosion of newline-free pieces gives back the pieces |
| `Text.SplitCount` | wp-content/plugins/custom-debug-logger.php:174 | `explode` yields one piece more than there are newlines |
| `Text.Upper` | wp-content/plugins/custom-debug-logger.php:47 | `strtoupper` keeps the length, turns each lower-case ASCII letter into its capital (32 code points lower), leaves no lower-case letter and changes nothing else |
| `Text.UpperIdempotent` | wp-content/plugins/custom-debug-logger.php:47 | upper-casing an upper-cased level changes nothing |
| `Text.IntToDecimal` | debug-config.php:76 | the `%d` rendering is non-empty, starts with `-` exactly for negative numbers, and holds no `:` and no newline |
| `Text.IntDecimalRoundTrip` | debug-config.php:76 | the `%d` rendering of any integer, negative ones included, is a canonical numeral (optional `-`, no leading zero, never `-0` or empty) that reads back as that integer |
| `DebugLogger.Render` | wp-content/plugins/custom-debug-logger.php:38-41 | arrays and objects become their `print_r` text; strings pass unchanged; integers become their canonical decimal numeral, which reads back as the integer; true becomes "1"; null and false become "" |
| `DebugLogger.CallerLabel` | wp-content/plugins/custom-debug-logger.php:35-36 | no calling frame gives `unknown`; otherwise the label is the basename of the frame's file (of "" when the file is absent), a `:`, and then the line, which reads back as the frame's line, or nothing when the line is absent |
| `DebugLogger.CallerLabelUnknown` | wp-content/plugins/custom-debug-logger.php:35-36 | the caller label is `unknown` exactly when the backtrace has no calling frame |
| `DebugLogger.InternalCallerLabel` | wp-content/plugins/custom-debug-logger.php:36 | a frame with neither file nor line, as for a function called from internal code, is labelled `:` |
| `DebugLogger.Entry` | wp-content/plugins/custom-debug-logger.php:44-50 | every entry is non-empty and ends in a newline |
| `DebugLogger.EntryNewlines` | wp-content/plugins/custom-debug-logger.php:44-50 | an entry has exactly one newline more than its text, so a multi-line `print_r` rendering spans several lines |
| `DebugLogger.EntryLevelUpperCased` | wp-content/plugins/custom-debug-logger.php:47 | the level in an entry is already upper-case: an upper-case level gives the same entry |
| `DebugLogger.SliceStart` | wp-content/plugins/custom-debug-logger.php:177 | `array_slice` with offset ≥ 0 skips that many elements, at most all; with a negative offset it keeps the last −offset elements, at most all |
| `DebugLogger.Tail` | wp-content/plugins/custom-debug-logger.php:173-179 | the result explodes into exactly the pieces the slice keeps, and is "" when the slice keeps none |
| `DebugLogger.TailWhole` | wp-content/plugins/custom-debug-logger.php:174-179 | asking for 0 lines, or for at least as many as there are pieces, returns the whole content |
| `DebugLogger.TailSuffix` | wp-content/plugins/custom-debug-logger.php:174-179 | for every line count, positive, zero or negative, the result is a suffix of the content |
| `DebugLogger.TailNewlines` | wp-content/plugins/custom-debug-logger.php:176-177 | for N ≥ 1 the result keeps min(N, pieces) pieces, so it has fewer than N newlines; a negative N drops −N leading pieces, and gives "" when that is all of them |
| `DebugLogger.TailOneIsEmpty` | wp-content/plugins/custom-debug-logger.php:174-179 | on newline-terminated content, asking for 1 line returns "" |
| `DebugLogger.TailNotMissing` | wp-content/plugins/custom-debug-logger.php:169-179 | on newline-terminated content the result is never the "No debug logs found." message |
| `DebugLogger.LatestEntryVisible` | wp-content/plugins/custom-debug-logger.php:54 | after a one-line entry is appended to newline-terminated content, asking for 2 lines returns exactly that entry |
| `DebugLogger.ClearedLogRead` | wp-content/plugins/custom-debug-logger.php:152-160 | after a clear, the file reads back as the one "cleared" entry (for 0 or ≥ 2 lines), as "" for 1 line, and as "" when it was left empty |
| `DebugLogger.ErrorPayload` | wp-content/plugins/custom-debug-logger.php:70-76 | the map has exactly the keys message, context, user_id, request_uri and user_agent, in that order, with the given values; a missing request field is `unknown` |
| `DebugLogger.QueriesPayload` | wp-content/plugins/custom-debug-logger.php:89-92 | the map holds `total_queries`, the number of queries, and `queries`, the queries as a list |
| `DebugLogger.HookTotalAppend` | wp-content/plugins/custom-debug-logger.php:104-107 | the hook total of two runs of hooks is the sum of their totals |
| `DebugLogger.HookTotalCovers` | wp-content/plugins/custom-debug-logger.php:104-107 | every hook's callback count is included in the total |
| `DebugLogger.CountCallbacks` | wp-content/plugins/custom-debug-logger.php:104-107 | the `foreach` loop returns the sum of the callback counts of all hooks |
| `DebugLogger.HooksPayload` | wp-content/plugins/custom-debug-logger.php:109-112 | the map holds `total_hooks` and `hook_names`, the list of hook names in order |
| `DebugLogger.DebugLog.WriteLog` | wp-content/plugins/custom-debug-logger.php:21-60 | disabled: nothing changes. Enabled: the directory and file exist afterwards; the file is the old content plus the entry; the default log gets the same entry; a newline-terminated file stays so |
| `DebugLogger.DebugLog.AppendDefault` | debug-config.php:79 | `error_log($message)` adds the message to the end of the default log and changes nothing else |
| `DebugLogger.DebugLog.WriteErrorLog` | wp-content/plugins/custom-debug-logger.php:69-79 | logs the five-key payload at level `error`, with the same effect as `write_log` |
| `DebugLogger.DebugLog.LogDatabaseQueries` | wp-content/plugins/custom-debug-logger.php:84-95 | writes the query payload at level `debug` exactly when `WP_DEBUG`, `SAVEQUERIES` and a non-empty query list all hold; otherwise nothing changes |
| `DebugLogger.DebugLog.LogWpHooks` | wp-content/plugins/custom-debug-logger.php:100-114 | when `WP_DEBUG` is on, logs at level `debug` a payload whose `total_hooks` is the sum of the callback counts; otherwise nothing changes |
| `DebugLogger.DebugLog.ClearDebugLogs` | wp-content/plugins/custom-debug-logger.php:152-160 | missing file: nothing changes, no file is created. Existing file: it holds only the INFO "Debug logs cleared" entry when logging is on, or is empty when off; earlier content is gone |
| `DebugLogger.DebugLog.GetDebugLogs` | wp-content/plugins/custom-debug-logger.php:165-180 | missing file gives the "no logs" message. Otherwise the result is a suffix of the content; it is the whole content for 0 lines or enough lines; it has fewer than N newlines for N ≥ 1. On newline-terminated content the message appears iff the file is missing |
| `ErrorHandlers.Reportable` | debug-config.php:46 | a level passes only when both it and the reporting level are non-zero; every non-zero level whose bits all lie in the reporting level passes |
| `ErrorHandlers.ErrorTypes` | debug-config.php:50-66 | the table lists exactly the fifteen `E_*` levels, and no listed name is `UNKNOWN` |
| `ErrorHandlers.AllLevelsReportedUnderEAll` | debug-config.php:46-48 | each listed level is one bit inside `E_ALL`, so it passes the gate under `E_ALL`; a reporting level of 0 masks every level |
| `ErrorHandlers.SilencedLevels` | debug-config.php:46-48 | under the `@` operator's reporting level, exactly the six fatal levels pass the gate; of these, PHP only ever hands `E_USER_ERROR` and `E_RECOVERABLE_ERROR` to a user error handler |
| `ErrorHandlers.TableInverse` | debug-config.php:50-66 | every listed level's name maps back to that level |
| `ErrorHandlers.ErrorTypeName` | debug-config.php:68 | the name is `UNKNOWN` exactly for levels not in the table; a listed level's name identifies the level |
| `ErrorHandlers.ErrorTypeNamesDistinct` | debug-config.php:50-68 | two different listed levels have different names |
| `ErrorHandlers.HandlerMessage` | debug-config.php:70-77 | the message opens with `[ts]`, ends with the `%d` line number, which reads back as `errline`, and is one line when the timestamp, type, text and file are |
| `ErrorHandlers.ExceptionMessage` | debug-config.php:94-100 | the message opens with `[ts]`, ends with the exception's line number, which reads back, and is one line when the timestamp, message and file are |
| `ErrorHandlers.ForwardedEntryShape` | debug-config.php:82-84 | a forwarded message becomes `[ts2] [ERROR] [caller] [ts1]…` plus a newline: level ERROR, two timestamps |
| `ErrorHandlers.ForwardedMessageVisible` | debug-config.php:79-84 | a one-line forwarded message appended to a newline-terminated custom log is what reading 2 lines returns |
| `ErrorHandlers.Forward` | debug-config.php:79-84 | the message is appended to the default log; when `write_log` exists and is enabled, its ERROR entry also goes to the custom file (created if missing) and again to the default log; otherwise the custom file is untouched |
| `ErrorHandlers.CustomErrorHandler` | debug-config.php:45-87 | returns true iff the level passes the mask. Masked: neither log changes. Otherwise: the message goes to the default log; when `write_log` exists and is enabled, its ERROR entry, labelled from the handler's own frame (always present, with or without file and line), also goes to the custom file and again to the default log |
| `ErrorHandlers.CustomExceptionHandler` | debug-config.php:93-108 | no gate: the exception message always reaches the default log, and is forwarded through `write_log` exactly as in the error handler, with the caller label `:` of a frame called from internal code |
| `ErrorHandlers.ConfigurationLoaded` | debug-config.php:113-116 | when `write_log` exists, logs "Debug configuration loaded" at level `info` with `write_log`'s effect; otherwise nothing changes |

## Left out

- The admin page, its menu registration, the capability and nonce checks, and the HTML output (custom-debug-logger.php:182-223): user interface.
- `add_action` and `is_admin` registration, `init_debug_logging`, and the example functions (custom-debug-logger.php:116-147, 225-258): framework wiring and demo calls of the modelled operations.
- `wp-content/plugins/test-debug-logging.php`: an HTML smoke page that calls functions other than the ones modelled.
- The `define`, `ini_set` and `error_reporting` calls and the handler registration in debug-config.php (lines 9-42, 90, 111): configuration. The flags and `error_reporting()` are inputs.
- `print_r`'s layout and `basename`: functions fixed per logger whose workings are not modelled. The clock (`current_time`, `date`) and `debug_backtrace` are inputs.
- The calling frame: which frame `debug_backtrace` reports is the caller's business, and the model takes it as given.
- `wp_mkdir_p` and `error_log` failures: the model assumes that directory creation and the append succeed.
- `DebugLogger.DebugLog.ClearDebugLogs`: a failed truncation (`file_put_contents` at custom-debug-logger.php:157 returning false) is not modelled; the file is always emptied.
- `DebugLogger.DebugLog.GetDebugLogs`: a failed read is not modelled. In PHP `file_get_contents` then returns false, `explode` turns it into `[""]`, and the result is `""`; the model always reads the content.
- Default arguments: `$level = 'info'` of `write_log` (line 21), `$context = []` of `write_error_log` (line 69) and `$lines = 100` of `get_debug_logs` (line 165). `WriteLog`, `WriteErrorLog` and `GetDebugLogs` take every argument explicitly.
- `DebugLogger.DebugLog.WriteLog`: when the frame has no file or no line, PHP raises an "Undefined array key" warning for each missing entry, and from PHP 8.1 a deprecation notice for `basename(null)`. These go to whichever error handler is in force and are not modelled; the model writes only the label.
- `ErrorHandlers.CustomErrorHandler`: when the error came from inside an internal function, the frame has no file or line. The warnings `write_log` then raises go to PHP's standard handler, which writes them to the default log (`log_errors` is on), and the model does not record them. The model's default log gets exactly the message and the entry.
- `ErrorHandlers.CustomExceptionHandler`: the frame never has a file or line here. The warnings `write_log` raises pass through `custom_error_handler`, which adds its own ERROR entries to both logs before the exception's entry. The model records only the exception's message and entry.
- The default log's own formatting: `error_log` type 0 adds its own timestamp and newline. The model records the message as handed over.
- What PHP does after the error handler returns false: its standard handler runs. That is engine behaviour outside these files.
- Concurrent requests appending to the same file: the code does no locking.
- Payload values of other PHP types (floats, resources): only strings, integers, booleans, null, arrays and objects are modelled.
- `WP_DEBUG_LOG` given as a path string: it is truthy, and the model writes it as `Some(true)`. Writing to such a custom path is not modelled.
- `-$lines` for `PHP_INT_MIN`: the negation overflows to a float in PHP. Integers here are unbounded.
- `Text.Upper`: uses ASCII upper-casing, as PHP 8.2 and later do. Older PHP versions follow the locale.
