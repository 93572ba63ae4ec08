/**
  What the logging functions of index.js promise, stated over their effect
  traces: which stream each message reaches, when the process exits, what
  ends up in the log files, and which directory creations happen.
 */
module Properties {
  import opened Strings
  import opened Format
  import opened Effects
  import opened Operations

  /** No effect of `t` appends to `path`. */
  predicate NoAppendTo(t: seq<Effect>, path: string) {
    forall x | x in t :: !(x.AppendTo? && x.path == path)
  }

  /** A trace that never appends to `path` adds nothing to it. */
  lemma {:induction false} AppendedNone(t: seq<Effect>, path: string)
    requires NoAppendTo(t, path)
    ensures Appended(t, path) == ""
    decreases |t|
  {
    if t != [] && t[0] != Exit {
      assert forall x | x in t[1..] :: x in t;
      AppendedNone(t[1..], path);
    }
  }

  // ---------------------------------------------------------------------
  // log.debug, log.info, log.warn
  // ---------------------------------------------------------------------

  /** `log.debug` changes the environment of a live process exactly when the level is "debug". */
  lemma DebugSilentUnlessDebug(cfg: Config, e: Env, clock: Clock, msg: string, relativePaths: bool)
    requires !e.exited
    ensures Run(e, DebugTrace(cfg, clock, msg, relativePaths)) == e <==> cfg.level != "debug"
  {
    var t := DebugTrace(cfg, clock, msg, relativePaths);
    if cfg.level == "debug" {
      RunOne(e, t[0]);
      assert |Run(e, t).console| == |e.console| + 1;
    }
  }

  /**
    `log.info` adds exactly one line, on standard output, and changes
    nothing else; the line carries the message with the base path stripped.
   */
  lemma InfoOneLine(cfg: Config, e: Env, clock: Clock, msg: string, relativePaths: bool)
    requires !e.exited
    ensures var e' := Run(e, InfoTrace(cfg, clock, msg, relativePaths));
      && e'.dirs == e.dirs && e'.files == e.files && !e'.exited
      && |e'.console| == |e.console| + 1 && e'.console[..|e.console|] == e.console
      && var l := e'.console[|e.console|];
      l.Stdout? && StartsWith(l.text, Prefix(cfg.level, clock) + "[info] ")
      && l.text[|Prefix(cfg.level, clock) + "[info] "|..] == Strip(msg, relativePaths, cfg.basePath)
  {
    RunOne(e, InfoTrace(cfg, clock, msg, relativePaths)[0]);
  }

  /**
    `log.warn` adds exactly one line, on standard error, and changes
    nothing else; the line carries the message with the base path stripped.
   */
  lemma WarnOneLine(cfg: Config, e: Env, clock: Clock, msg: string, relativePaths: bool)
    requires !e.exited
    ensures var e' := Run(e, WarnTrace(cfg, clock, msg, relativePaths));
      && e'.dirs == e.dirs && e'.files == e.files && !e'.exited
      && |e'.console| == |e.console| + 1 && e'.console[..|e.console|] == e.console
      && var l := e'.console[|e.console|];
      l.Stderr? && StartsWith(l.text, Prefix(cfg.level, clock) + "[warn] ")
      && l.text[|Prefix(cfg.level, clock) + "[warn] "|..] == Strip(msg, relativePaths, cfg.basePath)
  {
    RunOne(e, WarnTrace(cfg, clock, msg, relativePaths)[0]);
  }

  // ---------------------------------------------------------------------
  // log.error
  // ---------------------------------------------------------------------

  lemma ErrorTraceSplit(cfg: Config, dirs: set<string>, clock: Clock, f: Faults, m: Message, exit: bool, filePrefix: string, logDir: string)
    ensures ErrorTrace(cfg, dirs, clock, f, m, exit, filePrefix, logDir)
      == Dump(m) + ReportTrace(cfg, dirs, clock, f, DirOrDefault(cfg, logDir), ErrorLine(cfg, clock, m, exit, filePrefix, logDir),
                               ErrorAppend(cfg, clock, f, m, exit, filePrefix, logDir), exit)
  {
  }

  /**
    The report part of `log.error` exits at most once, as its last effect,
    and does so exactly when `exit` is set.
   */
  lemma ReportExitIsLast(cfg: Config, dirs: set<string>, clock: Clock, f: Faults, d: string, shown: Effect, append: Effect, exit: bool)
    requires shown != Exit && append != Exit
    ensures var t := ReportTrace(cfg, dirs, clock, f, d, shown, append, exit);
      && t != []
      && Exit !in t[..|t| - 1]
      && (t[|t| - 1] == Exit <==> exit)
  {
    var t := ReportTrace(cfg, dirs, clock, f, d, shown, append, exit);
    var info := InfoTrace(cfg, clock, "Created " + d, false);
    if d == "" && exit {
      assert t[..|t| - 1] == [shown];
    } else {
      var early := if d == "" then [shown] else [];
      var dt := ErrorDirTrace(cfg, dirs, clock, f, d, exit);
      var rest := if MkdirThrows(dirs, f, d) && exit then [] else [shown, append] + ExitIf(exit);
      assert t == early + dt + rest;
      if MkdirThrows(dirs, f, d) && exit {
        assert dt == [Print(Stderr("Could not create " + d)), Print(Stderr(f.mkdirError.dump)), Exit];
        assert t[..|t| - 1] == early + dt[..2];
      } else {
        assert Exit !in dt;
        if exit {
          assert t[..|t| - 1] == early + dt + [shown, append];
        } else {
          assert t[..|t| - 1] == early + dt + [shown];
          assert t[|t| - 1] == append;
        }
      }
    }
  }

  /** Exit placement survives a prefix that does not exit, and decides whether the process has exited afterwards. */
  lemma ExitLastAfter(e: Env, dump: seq<Effect>, r: seq<Effect>)
    requires Exit !in dump && r != [] && Exit !in r[..|r| - 1]
    ensures var t := dump + r;
      t != [] && Exit !in t[..|t| - 1] && t[|t| - 1] == r[|r| - 1]
      && (Exit in t <==> r[|r| - 1] == Exit)
      && Run(e, t).exited == (e.exited || r[|r| - 1] == Exit)
  {
    var t := dump + r;
    assert t[..|t| - 1] == dump + r[..|r| - 1];
    assert t == t[..|t| - 1] + [t[|t| - 1]];
    RunExitedIff(e, t);
  }

  /**
    `log.error` never fails to exit when asked: `exit(1)` is its last
    effect exactly when `exit` is set, it exits nowhere else, and the
    process has exited afterwards exactly when it had before or `exit` is
    set, whatever fails on the way.
   */
  lemma ErrorExitIsLast(cfg: Config, e: Env, clock: Clock, f: Faults, m: Message, exit: bool, filePrefix: string, logDir: string)
    ensures var t := ErrorTrace(cfg, e.dirs, clock, f, m, exit, filePrefix, logDir);
      && t != [] && Exit !in t[..|t| - 1]
      && (t[|t| - 1] == Exit <==> exit)
      && (Exit in t <==> exit)
      && Run(e, t).exited == (e.exited || exit)
  {
    var shown := ErrorLine(cfg, clock, m, exit, filePrefix, logDir);
    var append := ErrorAppend(cfg, clock, f, m, exit, filePrefix, logDir);
    var r := ReportTrace(cfg, e.dirs, clock, f, DirOrDefault(cfg, logDir), shown, append, exit);
    var t := ErrorTrace(cfg, e.dirs, clock, f, m, exit, filePrefix, logDir);
    ErrorTraceSplit(cfg, e.dirs, clock, f, m, exit, filePrefix, logDir);
    assert t == Dump(m) + r;
    ErrorEffectsNotExit(cfg, clock, f, m, exit, filePrefix, logDir);
    ReportExitIsLast(cfg, e.dirs, clock, f, DirOrDefault(cfg, logDir), shown, append, exit);
    ExitLastAfter(e, Dump(m), r);
  }

  /** The dump, the `[error]` line and the append of `log.error` are not exits. */
  lemma ErrorEffectsNotExit(cfg: Config, clock: Clock, f: Faults, m: Message, exit: bool, filePrefix: string, logDir: string)
    ensures Exit !in Dump(m)
    ensures ErrorLine(cfg, clock, m, exit, filePrefix, logDir) != Exit
    ensures ErrorAppend(cfg, clock, f, m, exit, filePrefix, logDir) != Exit
  {
  }

  /** Without `exit`, nothing `log.error` does ends the process. */
  lemma ErrorNoExit(cfg: Config, dirs: set<string>, clock: Clock, f: Faults, m: Message, filePrefix: string, logDir: string)
    ensures Exit !in ErrorTrace(cfg, dirs, clock, f, m, false, filePrefix, logDir)
  {
    ErrorExitIsLast(cfg, Env(dirs, map[], [], false), clock, f, m, false, filePrefix, logDir);
  }

  /** The report part of `log.error` appends only through `append`. */
  lemma ReportAppendsOnly(cfg: Config, dirs: set<string>, clock: Clock, f: Faults, d: string, shown: Effect, append: Effect, exit: bool, path: string)
    requires shown.Print? && !(append.AppendTo? && append.path == path)
    ensures NoAppendTo(ReportTrace(cfg, dirs, clock, f, d, shown, append, exit), path)
  {
  }

  /** `log.error` appends to no file but its own log file. */
  lemma ErrorAppendsOnlyItsFile(cfg: Config, dirs: set<string>, clock: Clock, f: Faults, m: Message, exit: bool, filePrefix: string, logDir: string, path: string)
    requires path != ErrorFile(cfg, clock, filePrefix, logDir)
    ensures Appended(ErrorTrace(cfg, dirs, clock, f, m, exit, filePrefix, logDir), path) == ""
  {
    var shown := ErrorLine(cfg, clock, m, exit, filePrefix, logDir);
    var append := ErrorAppend(cfg, clock, f, m, exit, filePrefix, logDir);
    var r := ReportTrace(cfg, dirs, clock, f, DirOrDefault(cfg, logDir), shown, append, exit);
    ErrorTraceSplit(cfg, dirs, clock, f, m, exit, filePrefix, logDir);
    ReportAppendsOnly(cfg, dirs, clock, f, DirOrDefault(cfg, logDir), shown, append, exit, path);
    NoAppendToConcat(Dump(m), r, path);
    AppendedNone(Dump(m) + r, path);
  }

  lemma NoAppendToConcat(a: seq<Effect>, b: seq<Effect>, path: string)
    requires NoAppendTo(a, path) && NoAppendTo(b, path)
    ensures NoAppendTo(a + b, path)
  {
  }

  /** Dumping an error object only prints. */
  lemma RunDump(e: Env, m: Message)
    ensures var e' := Run(e, Dump(m));
      e'.dirs == e.dirs && e'.files == e.files && e'.exited == e.exited
  {
    if m.Thrown? {
      RunOne(e, Dump(m)[0]);
    }
  }

  /**
    On a live process, the report part of `log.error` for an existing or
    creatable directory leaves that directory in place and appends exactly
    the text of `append` to its file.
   */
  lemma ReportRecords(cfg: Config, e: Env, clock: Clock, f: Faults, d: string, shown: Effect, file: string, text: string, exit: bool)
    requires !e.exited && shown.Print?
    requires d != "" && !MkdirThrows(e.dirs, f, d)
    ensures var e' := Run(e, ReportTrace(cfg, e.dirs, clock, f, d, shown, AppendTo(file, text), exit));
      d in e'.dirs && Contents(e'.files, file) == Contents(e.files, file) + text
  {
    var dt := ErrorDirTrace(cfg, e.dirs, clock, f, d, exit);
    var tail := [shown, AppendTo(file, text)] + ExitIf(exit);
    assert ReportTrace(cfg, e.dirs, clock, f, d, shown, AppendTo(file, text), exit) == dt + tail;
    DirBlockQuiet(cfg, e.dirs, clock, f, d, exit, file);
    ReportTail(shown, AppendTo(file, text), exit, file);
    AfterQuietHead(e, dt, tail, file);
    DirBlockCreates(cfg, e, clock, f, d, exit);
    RunConcat(e, dt, tail);
    RunDirsGrow(Run(e, dt), tail);
  }

  /** The directory block of `log.error`, when it succeeds, neither exits nor appends. */
  lemma DirBlockQuiet(cfg: Config, dirs: set<string>, clock: Clock, f: Faults, d: string, exit: bool, path: string)
    requires !MkdirThrows(dirs, f, d)
    ensures var dt := ErrorDirTrace(cfg, dirs, clock, f, d, exit);
      Exit !in dt && NoAppendTo(dt, path)
  {
  }

  /** The directory block of `log.error`, when it succeeds on a live process, leaves the directory in place. */
  lemma DirBlockCreates(cfg: Config, e: Env, clock: Clock, f: Faults, d: string, exit: bool)
    requires !e.exited && d != "" && !MkdirThrows(e.dirs, f, d)
    ensures d in Run(e, ErrorDirTrace(cfg, e.dirs, clock, f, d, exit)).dirs
  {
    var dt := ErrorDirTrace(cfg, e.dirs, clock, f, d, exit);
    if Exists(e.dirs, d) {
      RunDirsGrow(e, dt);
    } else {
      var info := InfoTrace(cfg, clock, "Created " + d, false);
      assert dt == [MakeDir(d)] + info;
      RunConcat(e, [MakeDir(d)], info);
      RunOne(e, MakeDir(d));
      RunDirsGrow(Apply(e, MakeDir(d)), info);
    }
  }
  /**
    Once the directory block of `log.error` has created its directory on a
    live process, a second run of the block finds it and does nothing.
   */
  lemma ErrorDirIdempotent(cfg: Config, e: Env, clock: Clock, f: Faults, d: string, exit: bool)
    requires !e.exited && d != "" && !MkdirThrows(e.dirs, f, d)
    ensures var e' := Run(e, ErrorDirTrace(cfg, e.dirs, clock, f, d, exit));
      d in e'.dirs && ErrorDirTrace(cfg, e'.dirs, clock, f, d, exit) == []
  {
    DirBlockCreates(cfg, e, clock, f, d, exit);
  }


  /**
    In the report part of `log.error`, a missing directory is created
    before the append: `mkdirSync` is the first effect, and the append (or
    the report of its failure) comes after it.
   */
  lemma ReportMkdirBeforeAppend(cfg: Config, dirs: set<string>, clock: Clock, f: Faults, d: string, shown: Effect, append: Effect, exit: bool)
    requires d != "" && !Exists(dirs, d) && d !in f.badDirs
    ensures var t := ReportTrace(cfg, dirs, clock, f, d, shown, append, exit);
      exists i, j :: 0 <= i < j < |t| && t[i] == MakeDir(d) && t[j] == append
  {
    var t := ReportTrace(cfg, dirs, clock, f, d, shown, append, exit);
    var dt := ErrorDirTrace(cfg, dirs, clock, f, d, exit);
    assert t == dt + ([shown, append] + ExitIf(exit));
    assert t[0] == MakeDir(d);
    assert t[|dt| + 1] == append;
  }

  /** The same order for the whole of `log.error`: the dump of an error object comes first and creates nothing. */
  lemma ErrorMkdirBeforeAppend(cfg: Config, dirs: set<string>, clock: Clock, f: Faults, m: Message, exit: bool, filePrefix: string, logDir: string)
    requires var d := DirOrDefault(cfg, logDir); d != "" && !Exists(dirs, d) && d !in f.badDirs
    ensures var t := ErrorTrace(cfg, dirs, clock, f, m, exit, filePrefix, logDir);
      exists i, j :: 0 <= i < j < |t| && t[i] == MakeDir(DirOrDefault(cfg, logDir))
        && t[j] == ErrorAppend(cfg, clock, f, m, exit, filePrefix, logDir)
  {
    var d := DirOrDefault(cfg, logDir);
    var append := ErrorAppend(cfg, clock, f, m, exit, filePrefix, logDir);
    var shown := ErrorLine(cfg, clock, m, exit, filePrefix, logDir);
    ErrorTraceSplit(cfg, dirs, clock, f, m, exit, filePrefix, logDir);
    ReportMkdirBeforeAppend(cfg, dirs, clock, f, d, shown, append, exit);
    OrderAfterPrefix(Dump(m), ReportTrace(cfg, dirs, clock, f, d, shown, append, exit), MakeDir(d), append);
  }

  /** Two effects in order stay in order after a prefix. */
  lemma OrderAfterPrefix(p: seq<Effect>, r: seq<Effect>, a: Effect, b: Effect)
    requires exists i, j :: 0 <= i < j < |r| && r[i] == a && r[j] == b
    ensures var t := p + r; exists i, j :: 0 <= i < j < |t| && t[i] == a && t[j] == b
  {
    var i, j :| 0 <= i < j < |r| && r[i] == a && r[j] == b;
    var t := p + r;
    assert t[|p| + i] == a && t[|p| + j] == b;
  }

  /**
    With a usable directory and log file, `log.error` on a live process
    leaves the directory in place (creating it if needed) and appends
    exactly the error record, with its line feed, to the log file.
   */
  lemma ErrorRecordsMessage(cfg: Config, e: Env, clock: Clock, f: Faults, m: Message, exit: bool, filePrefix: string, logDir: string)
    requires !e.exited
    requires DirOrDefault(cfg, logDir) != "" && !MkdirThrows(e.dirs, f, DirOrDefault(cfg, logDir))
    requires ErrorFile(cfg, clock, filePrefix, logDir) !in f.badFiles
    ensures var e' := Run(e, ErrorTrace(cfg, e.dirs, clock, f, m, exit, filePrefix, logDir));
      var file := ErrorFile(cfg, clock, filePrefix, logDir);
      && DirOrDefault(cfg, logDir) in e'.dirs
      && Contents(e'.files, file) == Contents(e.files, file) + FileRecord(MessageText(m), exit, Prefix(cfg.level, clock)) + "\n"
  {
    var d := DirOrDefault(cfg, logDir);
    var file := ErrorFile(cfg, clock, filePrefix, logDir);
    var text := FileRecord(MessageText(m), exit, Prefix(cfg.level, clock)) + "\n";
    var shown := ErrorLine(cfg, clock, m, exit, filePrefix, logDir);
    assert ErrorAppend(cfg, clock, f, m, exit, filePrefix, logDir) == AppendTo(file, text);
    var r := ReportTrace(cfg, e.dirs, clock, f, d, shown, AppendTo(file, text), exit);
    var t := ErrorTrace(cfg, e.dirs, clock, f, m, exit, filePrefix, logDir);
    ErrorTraceSplit(cfg, e.dirs, clock, f, m, exit, filePrefix, logDir);
    assert t == Dump(m) + r;
    var e1 := Run(e, Dump(m));
    RunConcat(e, Dump(m), r);
    assert Run(e, t) == Run(e1, r);
    RunDump(e, m);
    assert e1.dirs == e.dirs && e1.files == e.files && !e1.exited;
    ReportRecords(cfg, e1, clock, f, d, shown, file, text, exit);
    SeqAssoc(Contents(e.files, file), FileRecord(MessageText(m), exit, Prefix(cfg.level, clock)), "\n");
  }

  /** No effect removes a directory. */
  lemma {:induction false} RunDirsGrow(e: Env, t: seq<Effect>)
    ensures e.dirs <= Run(e, t).dirs
    decreases |t|
  {
    if t != [] {
      RunDirsGrow(Apply(e, t[0]), t[1..]);
    }
  }

  /**
    With no log directory at all and no `exit`, `log.error` does not stop
    after the console: it prints the `[error]` line a second time after the
    directory block and its last effect is the append to the bare file name.
   */
  lemma ErrorConsoleOnlyFallsThrough(cfg: Config, dirs: set<string>, clock: Clock, f: Faults, m: Message, filePrefix: string, logDir: string)
    requires DirOrDefault(cfg, logDir) == ""
    ensures var t := ErrorTrace(cfg, dirs, clock, f, m, false, filePrefix, logDir);
      var shown := ErrorLine(cfg, clock, m, false, filePrefix, logDir);
      var file := FileName(ErrorPrefix(filePrefix), DateOnly(clock.iso));
      && ErrorFile(cfg, clock, filePrefix, logDir) == file
      && |t| >= 3 && |Dump(m)| < |t| - 2 && t[|Dump(m)|] == shown && t[|t| - 2] == shown
      && t[|t| - 1] == AppendEffect(f, file, FileRecord(MessageText(m), false, Prefix(cfg.level, clock)) + "\n")
  {
    var shown := ErrorLine(cfg, clock, m, false, filePrefix, logDir);
    var append := ErrorAppend(cfg, clock, f, m, false, filePrefix, logDir);
    ErrorTraceSplit(cfg, dirs, clock, f, m, false, filePrefix, logDir);
    ReportConsoleOnly(cfg, dirs, clock, f, shown, append);
  }

  lemma ReportConsoleOnly(cfg: Config, dirs: set<string>, clock: Clock, f: Faults, shown: Effect, append: Effect)
    ensures var r := ReportTrace(cfg, dirs, clock, f, "", shown, append, false);
      |r| >= 3 && r[0] == shown && r[|r| - 2] == shown && r[|r| - 1] == append
  {
  }

  /**
    When the directory cannot be created and `exit` is set, `log.error`
    reports the failure and exits at once: the `[error]` line and the
    append never happen.
   */
  lemma ErrorMkdirFailureExits(cfg: Config, dirs: set<string>, clock: Clock, f: Faults, m: Message, filePrefix: string, logDir: string)
    requires DirOrDefault(cfg, logDir) != "" && MkdirThrows(dirs, f, DirOrDefault(cfg, logDir))
    ensures ErrorTrace(cfg, dirs, clock, f, m, true, filePrefix, logDir)
      == Dump(m) + [Print(Stderr("Could not create " + DirOrDefault(cfg, logDir))), Print(Stderr(f.mkdirError.dump)), Exit]
  {
    ErrorTraceSplit(cfg, dirs, clock, f, m, true, filePrefix, logDir);
    ReportMkdirFailure(cfg, dirs, clock, f, DirOrDefault(cfg, logDir), ErrorLine(cfg, clock, m, true, filePrefix, logDir),
                       ErrorAppend(cfg, clock, f, m, true, filePrefix, logDir));
  }

  lemma ReportMkdirFailure(cfg: Config, dirs: set<string>, clock: Clock, f: Faults, d: string, shown: Effect, append: Effect)
    requires d != "" && MkdirThrows(dirs, f, d)
    ensures ReportTrace(cfg, dirs, clock, f, d, shown, append, true)
      == [Print(Stderr("Could not create " + d)), Print(Stderr(f.mkdirError.dump)), Exit]
  {
  }

  /**
    On a live process, a failed append in the report part of `log.error`
    leaves the file alone, prints the `Could not append` line, and the
    process exits exactly when asked.
   */
  lemma ReportAppendFailure(cfg: Config, e: Env, clock: Clock, f: Faults, d: string, shown: Effect, file: string, exit: bool)
    requires !e.exited && shown.Print?
    requires !(d == "" && exit) && !(MkdirThrows(e.dirs, f, d) && exit)
    ensures var report := Print(Stderr("Could not append to " + file));
      var t := ReportTrace(cfg, e.dirs, clock, f, d, shown, report, exit);
      && Contents(Run(e, t).files, file) == Contents(e.files, file)
      && report.line in Printed(t)
      && Run(e, t).exited == exit
  {
    var report := Print(Stderr("Could not append to " + file));
    var t := ReportTrace(cfg, e.dirs, clock, f, d, shown, report, exit);
    var head := (if d == "" then [shown] else []) + ErrorDirTrace(cfg, e.dirs, clock, f, d, exit);
    var tail := [shown, report] + ExitIf(exit);
    assert t == head + tail;
    assert Exit !in head;
    ReportTail(shown, report, exit, file);
    ReportAppendsOnly(cfg, e.dirs, clock, f, d, shown, report, exit, file);
    AfterQuietHead(e, head, tail, file);
    PrintedConcat(head, tail);
  }

  /** The last effects of the report: the `[error]` line, the append or its report, and the exit. */
  lemma ReportTail(shown: Effect, x: Effect, exit: bool, path: string)
    requires shown.Print? && x != Exit
    ensures var tail := [shown, x] + ExitIf(exit);
      && Printed(tail) == [shown.line] + (if x.Print? then [x.line] else [])
      && Appended(tail, path) == (if x.AppendTo? && x.path == path then x.text else "")
      && (Exit in tail <==> exit)
  {
    var tail := [shown, x] + ExitIf(exit);
    assert tail[1..][1..] == ExitIf(exit);
    assert Printed(ExitIf(exit)) == [] && Appended(ExitIf(exit), path) == "";
    assert Printed(tail[1..]) == (if x.Print? then [x.line] else []) + Printed(ExitIf(exit));
    assert Appended(tail[1..], path) == (if x.AppendTo? && x.path == path then x.text else "") + Appended(ExitIf(exit), path);
  }

  /** Running a head that neither exits nor touches `path`, then a tail. */
  lemma AfterQuietHead(e: Env, head: seq<Effect>, tail: seq<Effect>, path: string)
    requires !e.exited && Exit !in head && NoAppendTo(head, path)
    ensures Contents(Run(e, head + tail).files, path) == Contents(e.files, path) + Appended(tail, path)
    ensures Run(e, head + tail).exited == (Exit in tail)
  {
    var t := head + tail;
    RunFile(e, t, path);
    AppendedConcat(head, tail, path);
    AppendedNone(head, path);
    RunExitedIff(e, t);
    assert Exit in t <==> Exit in tail;
  }

  /**
    A failed append is only reported: the log file is left alone, the
    `Could not append` line is printed, and the process exits exactly as it
    would have otherwise.
   */
  lemma ErrorAppendFailureReported(cfg: Config, e: Env, clock: Clock, f: Faults, m: Message, exit: bool, filePrefix: string, logDir: string)
    requires !e.exited
    requires ErrorFile(cfg, clock, filePrefix, logDir) in f.badFiles
    requires !(DirOrDefault(cfg, logDir) == "" && exit) && !(MkdirThrows(e.dirs, f, DirOrDefault(cfg, logDir)) && exit)
    ensures var t := ErrorTrace(cfg, e.dirs, clock, f, m, exit, filePrefix, logDir);
      var file := ErrorFile(cfg, clock, filePrefix, logDir);
      && Contents(Run(e, t).files, file) == Contents(e.files, file)
      && Stderr("Could not append to " + file) in Printed(t)
      && Run(e, t).exited == exit
  {
    var file := ErrorFile(cfg, clock, filePrefix, logDir);
    var d := DirOrDefault(cfg, logDir);
    var shown := ErrorLine(cfg, clock, m, exit, filePrefix, logDir);
    var report := Print(Stderr("Could not append to " + file));
    assert ErrorAppend(cfg, clock, f, m, exit, filePrefix, logDir) == report;
    var r := ReportTrace(cfg, e.dirs, clock, f, d, shown, report, exit);
    ErrorTraceSplit(cfg, e.dirs, clock, f, m, exit, filePrefix, logDir);
    var e1 := Run(e, Dump(m));
    RunConcat(e, Dump(m), r);
    RunDump(e, m);
    ReportAppendFailure(cfg, e1, clock, f, d, shown, file, exit);
    RunFile(e, Dump(m), file);
    assert Appended(Dump(m), file) == "";
    PrintedConcat(Dump(m), r);
  }

  // ---------------------------------------------------------------------
  // makeLogDir, log.write, log.request
  // ---------------------------------------------------------------------

  /**
    `makeLogDir` is idempotent: once it has run on a live process, the
    directory exists and a second call does nothing.
   */
  lemma MakeLogDirIdempotent(cfg: Config, e: Env, clock: Clock, d: string)
    requires !e.exited && d != ""
    ensures var e' := Run(e, MakeLogDirTrace(cfg, e.dirs, clock, d));
      d in e'.dirs && MakeLogDirTrace(cfg, e'.dirs, clock, d) == []
  {
    var t := MakeLogDirTrace(cfg, e.dirs, clock, d);
    RunDirsGrow(e, t);
    if !Exists(e.dirs, d) {
      RunConcat(e, [MakeDir(d)], DebugTrace(cfg, clock, "Created " + d, false));
      RunOne(e, MakeDir(d));
      RunDirsGrow(Apply(e, MakeDir(d)), DebugTrace(cfg, clock, "Created " + d, false));
    }
  }

  /** The directory check of `log.write` and `log.request` never exits and appends only to the error log. */
  lemma EnsureDirQuiet(cfg: Config, dirs: set<string>, clock: Clock, f: Faults, d: string, path: string)
    requires path != ErrorFile(cfg, clock, "", "")
    ensures var t := EnsureDirTrace(cfg, dirs, clock, f, d);
      Exit !in t && Appended(t, path) == ""
  {
    var t := EnsureDirTrace(cfg, dirs, clock, f, d);
    if MkdirThrows(dirs, f, d) {
      ErrorNoExit(cfg, dirs, clock, f, Thrown(f.mkdirError), "", "");
      ErrorAppendsOnlyItsFile(cfg, dirs, clock, f, Thrown(f.mkdirError), false, "", "", path);
    } else {
      assert NoAppendTo(t, path);
      AppendedNone(t, path);
    }
  }

  /**
    After the directory check the append is still attempted, whether or
    not the directory could be created; its outcome comes from
    `Faults.badFiles`. An append to a usable file other than the error log
    adds exactly `text` to it and leaves the process running.
   */
  lemma AppendAfterEnsure(cfg: Config, e: Env, clock: Clock, f: Faults, d: string, file: string, text: string)
    requires !e.exited && file !in f.badFiles && file != ErrorFile(cfg, clock, "", "")
    ensures var t1 := EnsureDirTrace(cfg, e.dirs, clock, f, d);
      var e' := Run(e, t1 + AppendOrReport(cfg, Run(e, t1).dirs, clock, f, file, text));
      && Contents(e'.files, file) == Contents(e.files, file) + text && !e'.exited
      && (!MkdirThrows(e.dirs, f, d) ==> d in e'.dirs)
  {
    var t1 := EnsureDirTrace(cfg, e.dirs, clock, f, d);
    assert AppendOrReport(cfg, Run(e, t1).dirs, clock, f, file, text) == [AppendTo(file, text)];
    EnsureDirQuiet(cfg, e.dirs, clock, f, d, file);
    AppendAfterQuiet(e, t1, file, text);
    if !MkdirThrows(e.dirs, f, d) {
      EnsureDirCreates(cfg, e, clock, f, d);
      RunConcat(e, t1, [AppendTo(file, text)]);
      RunDirsGrow(Run(e, t1), [AppendTo(file, text)]);
    }
  }

  /** When `makeLogDir` does not throw, the directory exists after the check. */
  lemma EnsureDirCreates(cfg: Config, e: Env, clock: Clock, f: Faults, d: string)
    requires !e.exited && !MkdirThrows(e.dirs, f, d)
    ensures d in Run(e, EnsureDirTrace(cfg, e.dirs, clock, f, d)).dirs
  {
    if !Exists(e.dirs, d) {
      var t := DebugTrace(cfg, clock, "Created " + d, false);
      RunConcat(e, [MakeDir(d)], t);
      RunOne(e, MakeDir(d));
      RunDirsGrow(Apply(e, MakeDir(d)), t);
    }
  }

  lemma AppendAfterQuiet(e: Env, t1: seq<Effect>, file: string, text: string)
    requires !e.exited && Exit !in t1 && Appended(t1, file) == ""
    ensures var e' := Run(e, t1 + [AppendTo(file, text)]);
      Contents(e'.files, file) == Contents(e.files, file) + text && !e'.exited
  {
    var t := t1 + [AppendTo(file, text)];
    RunFile(e, t, file);
    AppendedConcat(t1, [AppendTo(file, text)], file);
    RunExitedIff(e, t);
  }

  /**
    In `log.write` and `log.request`, a missing directory that can be
    created is created by the first effect, and an append to a usable file
    is the last.
   */
  lemma EnsureMkdirBeforeAppend(cfg: Config, e: Env, clock: Clock, f: Faults, d: string, file: string, text: string)
    requires !Exists(e.dirs, d) && d !in f.badDirs
    ensures var t1 := EnsureDirTrace(cfg, e.dirs, clock, f, d);
      var t := t1 + AppendOrReport(cfg, Run(e, t1).dirs, clock, f, file, text);
      && t != [] && t[0] == MakeDir(d)
      && (file !in f.badFiles ==> t[|t| - 1] == AppendTo(file, text))
  {
    var t1 := EnsureDirTrace(cfg, e.dirs, clock, f, d);
    assert t1 == [MakeDir(d)] + DebugTrace(cfg, clock, "Created " + d, false);
  }

  /** `log.write` creates a missing directory first and appends last. */
  lemma WriteMkdirBeforeAppend(cfg: Config, e: Env, clock: Clock, f: Faults, msg: string, filePrefix: string, logDir: string)
    requires var d := DirOrDefault(cfg, logDir); !Exists(e.dirs, d) && d !in f.badDirs
    ensures var t := WriteTrace(cfg, e, clock, f, msg, filePrefix, logDir);
      var file := WriteFile(cfg, clock, filePrefix, logDir);
      && t != [] && t[0] == MakeDir(DirOrDefault(cfg, logDir))
      && (file !in f.badFiles ==> t[|t| - 1] == AppendTo(file, Expand(msg, clock.iso) + "\n"))
  {
    EnsureMkdirBeforeAppend(cfg, e, clock, f, DirOrDefault(cfg, logDir), WriteFile(cfg, clock, filePrefix, logDir), Expand(msg, clock.iso) + "\n");
  }

  /**
    `log.write` still attempts the append when the directory could not be
    created; its outcome comes from `Faults.badFiles`. For a usable file the
    record is the expanded message and a line
    feed; the expansion has the message's lines, the first unchanged and
    every later one after the timestamp, and removing the timestamps gives
    the message back.
   */
  lemma WriteAppendsMessage(cfg: Config, e: Env, clock: Clock, f: Faults, msg: string, filePrefix: string, logDir: string)
    requires !e.exited && '\n' !in clock.iso
    requires WriteFile(cfg, clock, filePrefix, logDir) !in f.badFiles
    requires WriteFile(cfg, clock, filePrefix, logDir) != ErrorFile(cfg, clock, "", "")
    ensures var file := WriteFile(cfg, clock, filePrefix, logDir);
      var e' := Run(e, WriteTrace(cfg, e, clock, f, msg, filePrefix, logDir));
      var r := Expand(msg, clock.iso);
      && Contents(e'.files, file) == Contents(e.files, file) + r + "\n"
      && !e'.exited
      && (!MkdirThrows(e.dirs, f, DirOrDefault(cfg, logDir)) ==> DirOrDefault(cfg, logDir) in e'.dirs)
      && Collapse(r, clock.iso) == msg
      && LinesShifted(Split(msg, '\n'), Split(r, '\n'), clock.iso)
  {
    var file := WriteFile(cfg, clock, filePrefix, logDir);
    var r := Expand(msg, clock.iso);
    AppendAfterEnsure(cfg, e, clock, f, DirOrDefault(cfg, logDir), file, r + "\n");
    SeqAssoc(Contents(e.files, file), r, "\n");
    CollapseExpand(msg, clock.iso);
    ExpandLines(msg, clock.iso);
  }

  /** `log.request` does nothing at all for a script or style-sheet URL. */
  lemma RequestSkipsAssets(cfg: Config, e: Env, clock: Clock, f: Faults, req: Request, filePrefix: string, logDir: string)
    requires IsIsoTimestamp(clock.iso) && IsAsset(req.originalUrl)
    ensures Run(e, RequestTrace(cfg, e, clock, f, req, filePrefix, logDir)) == e
  {
  }

  /** The Apache timestamp holds no line feed. */
  lemma StampOneLine(iso: string, month: string)
    requires IsIsoTimestamp(iso) && '\n' !in month
    ensures '\n' !in iso[8..10] + "/" + month + "/" + iso[..4] + ":" + iso[11..19] + " +0000"
  {
    assert '\n' !in iso by {
      forall k | 0 <= k < 24 ensures iso[k] != '\n' {
        if k !in {4, 7, 10, 13, 16, 19, 23} {
          assert IsDigit(iso[k]);
        }
      }
    }
    assert '\n' !in iso[8..10] && '\n' !in iso[..4] && '\n' !in iso[11..19] by {
      assert forall x | x in iso[8..10] + iso[..4] + iso[11..19] :: x in iso;
    }
  }

  /** For a URL that is not an asset, `log.request` is the directory check and then the append of its line. */
  lemma RequestTraceShape(cfg: Config, e: Env, clock: Clock, f: Faults, req: Request, filePrefix: string, logDir: string)
    requires IsIsoTimestamp(clock.iso) && !IsAsset(req.originalUrl)
    ensures var t1 := EnsureDirTrace(cfg, e.dirs, clock, f, DirOrDefault(cfg, logDir));
      RequestTrace(cfg, e, clock, f, req, filePrefix, logDir)
        == t1 + AppendOrReport(cfg, Run(e, t1).dirs, clock, f, RequestFile(cfg, clock, filePrefix, logDir),
                               RequestLine(req, ApacheTimeStamp(clock.iso, clock.month)) + "\n")
  {
  }

  /**
    For any other URL, `log.request` appends to its file exactly its
    access-log line and a line feed when the file is usable. The append is
    still attempted when the directory could not be created; its outcome
    comes from `Faults.badFiles`.
   */
  lemma RequestAppendsLine(cfg: Config, e: Env, clock: Clock, f: Faults, req: Request, filePrefix: string, logDir: string)
    requires IsIsoTimestamp(clock.iso) && !IsAsset(req.originalUrl) && !e.exited
    requires RequestFile(cfg, clock, filePrefix, logDir) !in f.badFiles
    requires RequestFile(cfg, clock, filePrefix, logDir) != ErrorFile(cfg, clock, "", "")
    ensures var file := RequestFile(cfg, clock, filePrefix, logDir);
      var e' := Run(e, RequestTrace(cfg, e, clock, f, req, filePrefix, logDir));
      && Contents(e'.files, file) == Contents(e.files, file) + RequestLine(req, ApacheTimeStamp(clock.iso, clock.month)) + "\n"
      && !e'.exited
      && (!MkdirThrows(e.dirs, f, DirOrDefault(cfg, logDir)) ==> DirOrDefault(cfg, logDir) in e'.dirs)
  {
    var file := RequestFile(cfg, clock, filePrefix, logDir);
    var line := RequestLine(req, ApacheTimeStamp(clock.iso, clock.month));
    var d := DirOrDefault(cfg, logDir);
    var t1 := EnsureDirTrace(cfg, e.dirs, clock, f, d);
    var t := t1 + AppendOrReport(cfg, Run(e, t1).dirs, clock, f, file, line + "\n");
    RequestTraceShape(cfg, e, clock, f, req, filePrefix, logDir);
    assert RequestTrace(cfg, e, clock, f, req, filePrefix, logDir) == t;
    AppendAfterEnsure(cfg, e, clock, f, d, file, line + "\n");
    SeqAssoc(Contents(e.files, file), line, "\n");
  }

  /** `log.request` creates a missing directory first and appends its line last. */
  lemma RequestMkdirBeforeAppend(cfg: Config, e: Env, clock: Clock, f: Faults, req: Request, filePrefix: string, logDir: string)
    requires IsIsoTimestamp(clock.iso) && !IsAsset(req.originalUrl)
    requires var d := DirOrDefault(cfg, logDir); !Exists(e.dirs, d) && d !in f.badDirs
    ensures var t := RequestTrace(cfg, e, clock, f, req, filePrefix, logDir);
      var file := RequestFile(cfg, clock, filePrefix, logDir);
      && t != [] && t[0] == MakeDir(DirOrDefault(cfg, logDir))
      && (file !in f.badFiles ==> t[|t| - 1] == AppendTo(file, RequestLine(req, ApacheTimeStamp(clock.iso, clock.month)) + "\n"))
  {
    RequestTraceShape(cfg, e, clock, f, req, filePrefix, logDir);
    EnsureMkdirBeforeAppend(cfg, e, clock, f, DirOrDefault(cfg, logDir), RequestFile(cfg, clock, filePrefix, logDir),
                            RequestLine(req, ApacheTimeStamp(clock.iso, clock.month)) + "\n");
  }

  /**
    The access-log record is exactly one line when the client address, the
    URL, the HTTP version and the month hold no line feed.
   */
  lemma RequestRecordOneLine(req: Request, iso: string, month: string)
    requires IsIsoTimestamp(iso)
    requires '\n' !in ClientAddress(req) && '\n' !in req.originalUrl && '\n' !in req.httpVersion && '\n' !in month
    ensures Count(RequestLine(req, ApacheTimeStamp(iso, month)) + "\n", '\n') == 1
  {
    var stamp := ApacheTimeStamp(iso, month);
    StampOneLine(iso, month);
    assert '\n' !in stamp;
    RequestRecordIsOneLine(req, stamp);
  }
}
