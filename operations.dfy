/**
  What each logging function of index.js does, as the sequence of effects
  it performs on the environment: `log.debug`, `log.info`, `log.warn`,
  `log.error`, `log.write`, `log.request` and the private `makeLogDir`.
  The clock, the caller location printed in debug mode, and the outcome of
  each directory creation and file append are inputs.
 */
module Operations {
  import opened Strings
  import opened Format
  import opened Effects

  /** The shared `log` object's settings. */
  datatype Config = Config(level: string, logDir: string, basePath: string)

  /**
    One reading of the clock: the ISO-8601 string (`toISOString`), the
    month abbreviation of `toDateString`, and the string the debug branch
    of `prefix()` builds from the call stack.
   */
  datatype Clock = Clock(iso: string, month: string, callerPrefix: string)

  /**
    Which file-system calls fail: `mkdirSync` throws `mkdirError` for a
    directory in `badDirs`, an append to a file in `badFiles` fails with
    `appendMessage`.
   */
  datatype Faults = Faults(badDirs: set<string>, badFiles: set<string>, mkdirError: ErrorObject, appendMessage: string)

  /** `prefix()`: the bare ISO string (no trailing space) unless the level is "debug". */
  function Prefix(level: string, clock: Clock): (p: string)
    ensures level != "debug" ==> p == clock.iso
  {
    if level == "debug" then clock.callerPrefix else clock.iso
  }

  /** `fs.existsSync(d)`; the empty path never exists. */
  predicate Exists(dirs: set<string>, d: string) {
    d != "" && d in dirs
  }

  /** `mkdirSync` is reached and throws. */
  predicate MkdirThrows(dirs: set<string>, f: Faults, d: string) {
    !Exists(dirs, d) && d in f.badDirs
  }

  function DebugTrace(cfg: Config, clock: Clock, msg: string, relativePaths: bool): seq<Effect> {
    if cfg.level != "debug" then []
    else [Print(Stdout(Prefix(cfg.level, clock) + "[debug] " + Strip(msg, relativePaths, cfg.basePath)))]
  }

  function InfoTrace(cfg: Config, clock: Clock, msg: string, relativePaths: bool): seq<Effect> {
    [Print(Stdout(Prefix(cfg.level, clock) + "[info] " + Strip(msg, relativePaths, cfg.basePath)))]
  }

  function WarnTrace(cfg: Config, clock: Clock, msg: string, relativePaths: bool): seq<Effect> {
    [Print(Stderr(Prefix(cfg.level, clock) + "[warn] " + Strip(msg, relativePaths, cfg.basePath)))]
  }

  /** The default file prefix and directory of `log.error`. */
  function ErrorPrefix(filePrefix: string): string {
    if filePrefix == "" then "errors" else filePrefix
  }

  /** The default file prefix of `log.write`. */
  function WritePrefix(filePrefix: string): string {
    if filePrefix == "" then "write" else filePrefix
  }

  /** The default file prefix of `log.request`. */
  function RequestPrefix(filePrefix: string): string {
    if filePrefix == "" then "requests" else filePrefix
  }

  function DirOrDefault(cfg: Config, logDir: string): string {
    if logDir == "" then cfg.logDir else logDir
  }

  /** The log file `log.error` appends to. */
  function ErrorFile(cfg: Config, clock: Clock, filePrefix: string, logDir: string): string {
    JoinPath(DirOrDefault(cfg, logDir), FileName(ErrorPrefix(filePrefix), DateOnly(clock.iso)))
  }

  /** The `[error]` console line of `log.error`. */
  function ErrorLine(cfg: Config, clock: Clock, m: Message, exit: bool, filePrefix: string, logDir: string): Effect {
    Print(Stderr(Prefix(cfg.level, clock) + "[error]" + ConsoleRecord(MessageText(m), exit, ErrorFile(cfg, clock, filePrefix, logDir))))
  }

  /** An `appendFileSync` of `text` to `file`, or the report of its failure. */
  function AppendEffect(f: Faults, file: string, text: string): Effect {
    if file in f.badFiles then Print(Stderr("Could not append to " + file)) else AppendTo(file, text)
  }

  /** The append of the error record, or the report of its failure. */
  function ErrorAppend(cfg: Config, clock: Clock, f: Faults, m: Message, exit: bool, filePrefix: string, logDir: string): Effect {
    AppendEffect(f, ErrorFile(cfg, clock, filePrefix, logDir), FileRecord(MessageText(m), exit, Prefix(cfg.level, clock)) + "\n")
  }

  function ExitIf(exit: bool): seq<Effect> {
    if exit then [Exit] else []
  }

  /**
    `log.error(m, exit, filePrefix, logDir)` run against the directories
    `dirs`: an error object is first dumped to standard error, then the
    record of its text is reported.
   */
  function ErrorTrace(cfg: Config, dirs: set<string>, clock: Clock, f: Faults, m: Message, exit: bool, filePrefix: string, logDir: string): seq<Effect> {
    Dump(m) + RecordTrace(cfg, dirs, clock, f, MessageText(m), exit, ErrorPrefix(filePrefix), DirOrDefault(cfg, logDir))
  }

  /** `log.error` is the dump followed by the record of the message text, under the defaults. */
  lemma ErrorTraceIs(cfg: Config, dirs: set<string>, clock: Clock, f: Faults, m: Message, exit: bool, filePrefix: string, logDir: string,
                     msg: string, name: string, d: string)
    requires msg == MessageText(m) && name == ErrorPrefix(filePrefix) && d == DirOrDefault(cfg, logDir)
    ensures ErrorTrace(cfg, dirs, clock, f, m, exit, filePrefix, logDir) == Dump(m) + RecordTrace(cfg, dirs, clock, f, msg, exit, name, d)
  {
  }

  /** The dump of an error object by `console.error`. */
  function Dump(m: Message): seq<Effect> {
    if m.Thrown? then [Print(Stderr(m.error.dump))] else []
  }

  /** `log.error` from index.js:44 on, for the message text `msg`, the file prefix `name` and the directory `d`. */
  function RecordTrace(cfg: Config, dirs: set<string>, clock: Clock, f: Faults, msg: string, exit: bool, name: string, d: string): seq<Effect> {
    var logFile := JoinPath(d, FileName(name, DateOnly(clock.iso)));
    var pre := Prefix(cfg.level, clock);
    ReportTrace(cfg, dirs, clock, f, d, Print(Stderr(pre + "[error]" + ConsoleRecord(msg, exit, logFile))),
                AppendEffect(f, logFile, FileRecord(msg, exit, pre) + "\n"), exit)
  }

  /**
    The effects of `log.error` from index.js:61 on, for the directory `d`,
    the `[error]` console line `shown` and the append (or its failure
    report) `append`. With no directory at all, `shown` is printed and the
    process exits if asked; otherwise execution falls through to the
    directory check. A missing directory is created (and announced with
    `log.info`); if that throws, the failure is reported and, when `exit` is
    set, the process exits at once. Then `shown` is printed, the append
    performed, and the process exits if asked.
   */
  function ReportTrace(cfg: Config, dirs: set<string>, clock: Clock, f: Faults, d: string, shown: Effect, append: Effect, exit: bool): seq<Effect> {
    if d == "" && exit then [shown, Exit]
    else
      (if d == "" then [shown] else []) + ErrorDirTrace(cfg, dirs, clock, f, d, exit)
      + (if MkdirThrows(dirs, f, d) && exit then [] else [shown, append] + ExitIf(exit))
  }

  /**
    The `try { if (!fs.existsSync(logDir)) ... } catch` block of `log.error`:
    nothing for an existing directory, the creation and its announcement,
    or the report of the failure followed by an exit when asked.
   */
  function ErrorDirTrace(cfg: Config, dirs: set<string>, clock: Clock, f: Faults, d: string, exit: bool): seq<Effect> {
    if Exists(dirs, d) then []
    else if d in f.badDirs then [Print(Stderr("Could not create " + d)), Print(Stderr(f.mkdirError.dump))] + ExitIf(exit)
    else [MakeDir(d)] + InfoTrace(cfg, clock, "Created " + d, false)
  }

  /** `makeLogDir(d)` when it does not throw. */
  function MakeLogDirTrace(cfg: Config, dirs: set<string>, clock: Clock, d: string): seq<Effect> {
    if Exists(dirs, d) then [] else [MakeDir(d)] + DebugTrace(cfg, clock, "Created " + d, false)
  }

  /**
    The `try { makeLogDir(d) } catch (err) { log.error(err, false) }` that
    opens `log.write` and `log.request`.
   */
  function EnsureDirTrace(cfg: Config, dirs: set<string>, clock: Clock, f: Faults, d: string): seq<Effect> {
    if MkdirThrows(dirs, f, d) then ErrorTrace(cfg, dirs, clock, f, Thrown(f.mkdirError), false, "", "")
    else MakeLogDirTrace(cfg, dirs, clock, d)
  }

  /** An asynchronous append whose failure callback calls `log.error(err.message)`. */
  function AppendOrReport(cfg: Config, dirs: set<string>, clock: Clock, f: Faults, file: string, text: string): seq<Effect> {
    if file in f.badFiles then ErrorTrace(cfg, dirs, clock, f, Text(f.appendMessage), false, "", "")
    else [AppendTo(file, text)]
  }

  /** The log file of `log.write`. */
  function WriteFile(cfg: Config, clock: Clock, filePrefix: string, logDir: string): string {
    JoinPath(DirOrDefault(cfg, logDir), FileName(WritePrefix(filePrefix), DateOnly(clock.iso)))
  }

  /** `log.write(msg, filePrefix, logDir)`. */
  function WriteTrace(cfg: Config, e: Env, clock: Clock, f: Faults, msg: string, filePrefix: string, logDir: string): seq<Effect> {
    var t1 := EnsureDirTrace(cfg, e.dirs, clock, f, DirOrDefault(cfg, logDir));
    t1 + AppendOrReport(cfg, Run(e, t1).dirs, clock, f, WriteFile(cfg, clock, filePrefix, logDir), Expand(msg, clock.iso) + "\n")
  }

  /** The log file of `log.request`. */
  function RequestFile(cfg: Config, clock: Clock, filePrefix: string, logDir: string): string {
    JoinPath(DirOrDefault(cfg, logDir), FileName(RequestPrefix(filePrefix), DateOnly(clock.iso)))
  }

  /** `log.request(req, filePrefix, logDir)`. */
  function RequestTrace(cfg: Config, e: Env, clock: Clock, f: Faults, req: Request, filePrefix: string, logDir: string): seq<Effect>
    requires IsIsoTimestamp(clock.iso)
  {
    if IsAsset(req.originalUrl) then []
    else
      var t1 := EnsureDirTrace(cfg, e.dirs, clock, f, DirOrDefault(cfg, logDir));
      var line := RequestLine(req, ApacheTimeStamp(clock.iso, clock.month));
      t1 + AppendOrReport(cfg, Run(e, t1).dirs, clock, f, RequestFile(cfg, clock, filePrefix, logDir), line + "\n")
  }
}
