# A verified model of the `log` module

`index.js` exports one shared `log` object. It holds three settings: `logLevel`, `logDir` and `basePath`. It offers these logging functions:

- `debug`, `info` and `warn` print one console line each.
- `error` renders an error record and writes it to the console and to a dated log file. On the way it creates the log directory when needed, and it can end the process.
- `write` appends a message to a dated file. Every line after the first gets a timestamp.
- `request` appends an Apache-style access-log line for an HTTP request. Script and style-sheet requests are skipped.

Both `write` and `request` first ensure the directory exists through the private `makeLogDir`.

The model is split into these modules:

- `Strings` (`strings.dfy`): the JavaScript string built-ins the module relies on. These are `indexOf`, `replace` with a string pattern (first occurrence only), `split` on one character, `trim` and `startsWith`, plus the decimal rendering of a number. Each is proved against its meaning: `split`/`join` round-trip, `trim` removes only whitespace, and the decimal rendering reads back as the number.
- `Format` (`format.dfy`): the pure text of `index.js`. This covers base-path stripping, the file and console renderings of an error record, `write`'s per-line timestamps (with their inverse), the date-only string `ds(true)`, `apacheTimeStamp`, the log file name and path, and the access-log line.
- `Effects` (`effects.dfy`): the environment the logger acts on. It holds the existing directories, the text of each file, the console lines on standard output and standard error, and an exit flag. Each logging call is described as the sequence of effects it performs. After `process.exit(1)` nothing takes effect.
- `Operations` (`operations.dfy`): for every logging function, the effect sequence it prescribes, given the settings, the clock and which file-system calls fail.
- `Logging` (`logger.dfy`): the `log` object as a class `Logger`. Its settings and environment are fields. Each method follows the source statement by statement and is proved to leave exactly the environment that running its effect sequence gives.
- `Properties` (`properties.dfy`): what the logging functions promise, proved over those effect sequences. Topics:
  - which stream a message reaches;
  - that `exit(1)` is the last effect exactly when asked;
  - what ends up in each log file;
  - that directory creation is idempotent;
  - that a missing directory is created before the append;
  - that `write` and `request` still attempt the append when the directory could not be created, its outcome coming from `Faults.badFiles`.

The clock, the file-system failures and the caller location printed in debug mode are inputs:

- A `Clock` carries the `toISOString` text, the month abbreviation of `toDateString`, and the prefix the debug branch of `prefix()` builds.
- A `Faults` value names the directories whose `mkdirSync` throws (with the error thrown) and the files whose append fails (with the message).

Some behaviour of `index.js` is easy to misread. The model keeps it as the code has it:

- With no log directory and `exit` false, `error` does not stop after the console line (index.js:61-67). It goes on to the directory check, prints the `[error]` line a second time, and appends to the bare file name.
- When the directory cannot be created and `exit` is set, the process exits before the `[error]` line is printed (index.js:77-79).
- The single-line file record keeps the space after ". " when there is no exit note (index.js:56-57). Only the console text is trimmed.
- Only the first occurrence of the base path is stripped (index.js:14).
- The log path is built with `path.join` (index.js:45), so a directory that already ends in `/` gets no second one.

## Model

| member | source | states |
|---|---|---|
| Strings.IndexOf | index.js:14 | the result is -1 exactly when the pattern never occurs; otherwise it is the first position where it occurs |
| Strings.ReplaceFirst | index.js:14 | with no occurrence the string is unchanged; otherwise only the first occurrence is replaced and everything before and after it is kept |
| Strings.ReplaceFirstKeepsLater | index.js:14 | an occurrence after the first one survives the replacement, shifted by the length difference |
| Strings.Split | index.js:49 | `split` on one character gives one more piece than there are separators, and no piece holds the separator |
| Strings.JoinSplit | index.js:49 | joining the pieces of a split with the separator gives back the string |
| Strings.CountConcat | index.js:105 | occurrences of a character add up over a concatenation |
| Strings.SplitNone | index.js:150 | a string without the separator splits into itself alone |
| Strings.SplitAt | index.js:150 | a separator after a separator-free head splits off exactly that head |
| Strings.TrimStartSpec | index.js:58 | the leading-whitespace cut of `trim`: a suffix of the string, everything removed is whitespace, and it does not start with whitespace |
| Strings.TrimEndSpec | index.js:58 | the trailing-whitespace cut of `trim`: a prefix of the string, everything removed is whitespace, and it does not end with whitespace |
| Strings.Trim | index.js:58 | `trim` gives an infix of the string whose removed ends are all whitespace and whose own ends are not whitespace |
| Strings.TrimNoOp | index.js:58 | a string that neither starts nor ends with whitespace is its own trim |
| Strings.TrimDotSpace | index.js:56-58 | trimming a message followed by ". " drops the message's leading whitespace and the final space, and keeps the dot |
| Strings.NatToString | index.js:132-133 | the decimal rendering of a number is a non-empty digit string without a leading zero |
| Strings.NatToStringValue | index.js:132-133 | the decimal rendering reads back as the number |
| Format.Strip | index.js:14 | without `relativePaths` the message is unchanged; with it, only the first occurrence of the base path is cut out |
| Format.StripKeepsSecondOccurrence | index.js:20 | a second occurrence of the base path is left in the message |
| Format.MessageText | index.js:34-42 | a string message is kept; an error object gives its `.message`, or "No error message provided." when that is empty |
| Format.MultiLineIff | index.js:49 | the multi-line test holds exactly when the message contains a line feed |
| Format.FileRecord | index.js:46-57 | a multi-line record is prefix, line feed and message, plus the exit note on its own line iff `exit`; a single-line record is prefix, space, message, ". " and the note inline |
| Format.ConsoleRecord | index.js:49-58 | a multi-line message is framed between `---` lines and names the log file; a single-line message is shown trimmed after " Error: " |
| Format.RenderKeepsMessage | index.js:49-57 | the file record is the prefix, one separator and then the message verbatim; the separator is a line feed exactly for a multi-line message |
| Format.RenderTrailer | index.js:46-57 | with `exit` the file record ends with the exit note; a single-line record ends with it exactly when `exit` is set, and without `exit` it ends with the space of ". "; a multi-line record without `exit` is prefix, line feed and message |
| Format.RenderConsoleTrimmed | index.js:56-58 | for every single-line message and no exit, the console text is " Error: ", the message without its leading whitespace, and ".": the trailing space that the file record keeps is gone |
| Format.Expand | index.js:105 | the timestamped text is longer by `ts + " "` for every line feed |
| Format.CollapseExpand | index.js:105 | removing the inserted timestamps gives back the message |
| Format.ExpandLines | index.js:105 | the timestamped text has the same line count, the first line is unchanged and every later line is the original line after `ts + " "` |
| Format.SplitHead | index.js:185 | the first piece of a split is the string up to its first separator |
| Format.DateOnly | index.js:182-188 | `ds(true)` is the part of the ISO string before its first `T`; for a well-formed timestamp it is `YYYY-MM-DD` |
| Format.RemoveMillis | index.js:151 | dropping the milliseconds removes four characters or nothing, and removing nothing leaves the string unchanged |
| Format.RemoveMillisAt | index.js:151 | the first dot followed by three digits is removed, even after earlier dots that are not followed by three digits |
| Format.RemoveMillisNone | index.js:151 | a string with no dot followed by three digits is left unchanged |
| Format.IsoSplit | index.js:150-151 | a well-formed timestamp splits at `T` into date and time, and the date splits at `-` into year, month and day |
| Format.IsoTime | index.js:151 | the time half becomes `HH:MM:SS +0000` |
| Format.ApacheTimeStamp | index.js:147-154 | `YYYY-MM-DDTHH:MM:SS.sssZ` and a month abbreviation become `DD/Mon/YYYY:HH:MM:SS +0000` |
| Format.JoinPath | index.js:45 | joining a directory and a file name gives the name alone for an empty directory; otherwise the path starts with the directory, ends with `/` and the name, and is one character longer than both exactly when the directory does not already end in `/` |
| Format.ClientAddress | index.js:127 | the forwarded-for header when present, otherwise the remote address |
| Format.RequestRecordIsOneLine | index.js:130-134 | the appended access-log record holds exactly one line feed |
| Format.RequestLineFields | index.js:130-133 | the access-log line is, in order and with nothing else, the client, the timestamp and the URL up to `HTTP/`, the HTTP version, a space, the status code, and the byte count with two dashes; both numbers read back as the status code and the byte count |
| Effects.Apply | index.js:65 | an effect on an exited process changes nothing; the process is exited after it iff it was before or the effect is the exit; directories and console only grow |
| Effects.RunConcat | index.js:69-90 | running two effect sequences one after the other is running their concatenation |
| Effects.RunExited | index.js:65 | once the process has exited, no effect changes anything |
| Effects.RunExitedIff | index.js:88-90 | the process has exited after a sequence iff it had before or the sequence contains the exit |
| Effects.RunConsole | index.js:15 | on a live process a sequence adds exactly its printed lines, up to its exit, to the console |
| Effects.RunFile | index.js:84 | on a live process a sequence adds exactly the text it appends, up to its exit, to each file |
| Operations.Prefix | index.js:156-179 | outside debug level, `prefix()` is the bare ISO string with no trailing space |
| Logging.Logger.constructor | index.js:5-9 | the initial settings are level "info", the temporary directory and the script's directory |
| Logging.Logger.ConsoleLog | index.js:25 | a live process gains one standard-output line; an exited one is unchanged |
| Logging.Logger.ConsoleError | index.js:15 | a live process gains one standard-error line; an exited one is unchanged |
| Logging.Logger.ExistsSync | index.js:70 | true exactly for a non-empty path that is an existing directory |
| Logging.Logger.MkdirSync | index.js:71 | a directory that can be created is added; otherwise nothing changes and the failure is returned |
| Logging.Logger.AppendFile | index.js:84 | the text is added to the end of the file; a failing append changes nothing and is returned |
| Logging.Logger.ProcessExit | index.js:65 | the process is marked exited |
| Logging.Logger.Debug | index.js:18-22 | the environment is the one `log.debug`'s effect sequence gives, and the settings are unchanged |
| Logging.Logger.Info | index.js:24-27 | the environment is the one `log.info`'s effect sequence gives, and the settings are unchanged |
| Logging.Logger.Warn | index.js:13-16 | the environment is the one `log.warn`'s effect sequence gives, and the settings are unchanged |
| Logging.Logger.Error | index.js:29-91 | the environment is the one `log.error`'s effect sequence gives, whatever fails, and the settings are unchanged |
| Logging.Logger.ErrorRecord | index.js:44-90 | from the file name on, the environment follows the record part of `log.error` for the given message text, name prefix and directory |
| Logging.Logger.ErrorOutput | index.js:61-90 | from the console-only branch on, the environment follows the report part of `log.error`, including the fall-through when `exit` is false |
| Logging.Logger.ErrorDir | index.js:69-80 | the directory block creates a missing directory and announces it, or reports the failure; it tells whether it exited |
| Logging.Logger.ErrorReport | index.js:82-90 | the `[error]` line, then the append or its report, then the exit when asked |
| Logging.Logger.MakeLogDir | index.js:140-145 | a missing directory is created and announced at debug level; it tells whether `mkdirSync` threw, and then nothing changed |
| Logging.Logger.EnsureDir | index.js:98-102 | a throwing directory creation is routed to `log.error` without exit |
| Logging.Logger.AppendAsync | index.js:106-109 | the append happens, or its failure is routed to `log.error` without exit |
| Logging.Logger.Write | index.js:93-110 | the environment is the one `log.write`'s effect sequence gives |
| Logging.Logger.Request | index.js:112-138 | the environment is the one `log.request`'s effect sequence gives |
| Properties.DebugSilentUnlessDebug | index.js:18-22 | `log.debug` changes the environment of a live process iff the level is exactly "debug" |
| Properties.InfoOneLine | index.js:24-27 | `log.info` adds exactly one standard-output line, prefix and `[info] ` then the stripped message, and changes nothing else |
| Properties.WarnOneLine | index.js:13-16 | `log.warn` adds exactly one standard-error line, prefix and `[warn] ` then the stripped message, and changes nothing else |
| Properties.ReportExitIsLast | index.js:61-90 | after the dump, `log.error` exits at most once, as its last effect, and exactly when `exit` is set |
| Properties.ErrorExitIsLast | index.js:29-91 | `exit(1)` is the last effect of `log.error` iff `exit`, it occurs nowhere else, and the process has exited afterwards iff it had before or `exit` is set, whatever fails |
| Properties.ErrorNoExit | index.js:101 | without `exit`, `log.error` never ends the process |
| Properties.ErrorAppendsOnlyItsFile | index.js:84 | `log.error` appends to no file but its own log file |
| Properties.ReportRecords | index.js:69-85 | with an existing or creatable directory, the directory is there afterwards and the log file gains exactly the record |
| Properties.DirBlockCreates | index.js:69-73 | with a usable directory, the directory block of `log.error` leaves the directory in place |
| Properties.ErrorDirIdempotent | index.js:69-73 | once `log.error`'s directory block has created its directory on a live process, a second run of the block does nothing |
| Properties.ReportMkdirBeforeAppend | index.js:69-84 | with a non-empty directory that is missing and can be created, `mkdirSync` comes before the append (or its failure report) |
| Properties.ErrorMkdirBeforeAppend | index.js:29-91 | the same order for the whole of `log.error`: the directory is created before the record is appended |
| Properties.ReportAppendsOnly | index.js:84 | the report part of `log.error` appends only through its own append |
| Properties.ErrorRecordsMessage | index.js:44-85 | with a usable directory and file, the directory exists afterwards and the log file gains exactly the file record and a line feed |
| Properties.RunDirsGrow | index.js:71 | no effect removes a directory |
| Properties.ErrorConsoleOnlyFallsThrough | index.js:61-90 | with no directory and no exit, the `[error]` line is printed twice and the last effect is the append to the bare file name |
| Properties.ReportConsoleOnly | index.js:61-90 | with no directory and no exit, the report part starts with the `[error]` line and ends with that line again and the append |
| Properties.ErrorMkdirFailureExits | index.js:74-80 | a failed directory creation with `exit` prints the failure and the error, then exits; no `[error]` line, no append |
| Properties.ReportMkdirFailure | index.js:74-80 | with `exit` and a directory that cannot be created, the report part is the failure line, the error and the exit, nothing more |
| Properties.ReportAppendFailure | index.js:83-90 | a failed append leaves the file alone, prints `Could not append to`, and the process exits iff asked |
| Properties.ErrorAppendFailureReported | index.js:83-90 | a failed append in `log.error` is only reported: the file is unchanged, the report is printed, and the exit still happens iff asked |
| Properties.MakeLogDirIdempotent | index.js:140-145 | once `makeLogDir` has run on a live process the directory exists and a second call does nothing |
| Properties.EnsureDirQuiet | index.js:98-102 | the directory check of `write` and `request` never exits and appends only to the error log |
| Properties.AppendAfterEnsure | index.js:98-109 | after the directory check the append is still attempted, even when the directory could not be created; a usable file gains exactly its text, the process stays live, and the directory exists when `mkdirSync` did not throw |
| Properties.EnsureMkdirBeforeAppend | index.js:98-106 | when the directory is missing and `mkdirSync` does not throw, the directory check opens with its creation, and an append to a usable file closes the sequence |
| Properties.EnsureDirCreates | index.js:98-102 | when `makeLogDir` does not throw, the directory exists after the check |
| Properties.AppendAfterQuiet | index.js:84 | after effects that neither exit nor touch a file, an append adds exactly its text and the process is live |
| Properties.WriteAppendsMessage | index.js:93-110 | `log.write` still attempts the append after a failed directory creation. A usable file gains the expanded message and a line feed, the message and its lines are recovered from it, the process stays live, and the directory exists when `mkdirSync` did not throw |
| Properties.WriteMkdirBeforeAppend | index.js:93-110 | a missing directory that can be created is created by `log.write`'s first effect, and an append to a usable file is its last |
| Properties.RequestSkipsAssets | index.js:114-116 | a `/js` or `/css` request has no effect at all |
| Properties.StampOneLine | index.js:147-154 | the Apache timestamp holds no line feed |
| Properties.RequestAppendsLine | index.js:112-138 | for any other URL the append is still attempted after a failed directory creation. A usable file gains exactly its access-log line and a line feed, the process stays live, and the directory exists when `mkdirSync` did not throw |
| Properties.RequestMkdirBeforeAppend | index.js:112-138 | for any other URL, a missing directory that can be created is created by the first effect, and an append of the access-log line to a usable file is the last |
| Properties.RequestRecordOneLine | index.js:130-134 | with a well-formed timestamp and no line feed in client, URL, version or month, the appended record is exactly one line |

## Left out

- Format.RenderTrailer: a multi-line record without `exit` ends with the exit note when the message itself does, so the "iff" is stated for single-line records only.
- Whether an append succeeds depends only on the failing files in `Faults`, not on whether its directory exists. In Node, `fs.appendFile` into a missing directory fails with ENOENT and its failure goes to `log.error`. The model says only that the append is still attempted (index.js:98-106); a caller who wants the failure puts that file in `Faults.badFiles`.
- Strings.NatToString: JavaScript's `String(n)` switches to exponent notation from 1e21 on. The model always renders plain decimal digits, which agrees for every realistic status code and byte count.
- Colouring by chalk is taken as the identity, and the console is a list of lines. The model does not capture what a terminal shows.
- `console.error(err)` on an error object prints the object's inspection. That text is an input (`ErrorObject.dump`).
- Operations.Prefix: the debug branch of `prefix()` reads the caller's file and line from V8's stack-trace API. The resulting string is an input (`Clock.callerPrefix`), so only the non-debug branch is stated. One caller prefix serves every `prefix()` call within a logging call. In debug mode, the `log.info` nested in `log.error` (index.js:72) and the `log.debug` nested in `makeLogDir` (index.js:143) would instead report a line of `index.js` itself as the caller; the model does not distinguish them.
- The clock is an input. One call reads one `Clock`, whereas `index.js` reads the time afresh in `prefix()`, `ds()` and `apacheTimeStamp()`.
- The month of `apacheTimeStamp` comes from the local-time `toDateString`. It is an input and is not related to the UTC date.
- Format.ApacheTimeStamp: requires a well-formed `toISOString` result (years 0 to 9999). Extended years are not modelled.
- `fs.existsSync`, `fs.mkdirSync` and the appends are abstract. A failure is decided by the `Faults` input, the same way for every call in one logging call.
  - Recursive creation of parent directories is not modelled: a created directory is added alone.
  - `mkdirSync("")` succeeds or throws as the faults say.
- `path.join` is modelled only for a directory and a one-segment file name. Normalisation of `.`, `..` and repeated slashes is not modelled.
- Logging.Logger.Write, Logging.Logger.Request: the asynchronous `fs.appendFile` completes at once. Ordering against later calls and cross-process interleaving are not modelled.
- Falsy non-string arguments are not modelled:
  - `filePrefix` and `logDir` are strings, and the empty string stands for every falsy value;
  - a non-string `.message` is not modelled;
  - `exit` is a boolean.
- The initial settings come from `os.tmpdir()` and `require.main.filename`. These are constructor arguments.
