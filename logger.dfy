/**
  The `log` object of index.js as a class: its three settings, and the
  environment its functions act on (directories, files, console, exit).
  Every logging method follows the source statement by statement and is
  proved to perform exactly the effects that Operations prescribes.
 */
module Logging {
  import opened Format
  import opened Effects
  import opened Operations

  class Logger {
    // the settings of `log`
    var logLevel: string
    var logDir: string
    var basePath: string
    // the environment
    var dirs: set<string>
    var files: map<string, string>
    var console: seq<Line>
    var exited: bool

    function Settings(): Config
      reads this
    {
      Config(logLevel, logDir, basePath)
    }

    function State(): Env
      reads this
    {
      Env(dirs, files, console, exited)
    }

    /**
      The module's initial settings: level "info", the system temporary
      directory and the directory of the main script, given as arguments.
     */
    constructor (tmpDir: string, scriptDir: string, existing: set<string>, initialFiles: map<string, string>)
      ensures Settings() == Config("info", tmpDir, scriptDir)
      ensures State() == Env(existing, initialFiles, [], false)
    {
      logLevel, logDir, basePath := "info", tmpDir, scriptDir;
      dirs, files, console, exited := existing, initialFiles, [], false;
    }

    // -------------------------------------------------------------------
    // The environment's primitives; an exited process does nothing.
    // -------------------------------------------------------------------

    /** `console.log(text)`. */
    method ConsoleLog(text: string)
      modifies this
      ensures Settings() == old(Settings())
      ensures State() == Apply(old(State()), Print(Stdout(text)))
    {
      if !exited {
        console := console + [Stdout(text)];
      }
    }

    /** `console.error(text)` and `console.warn(text)`. */
    method ConsoleError(text: string)
      modifies this
      ensures Settings() == old(Settings())
      ensures State() == Apply(old(State()), Print(Stderr(text)))
    {
      if !exited {
        console := console + [Stderr(text)];
      }
    }

    /** `fs.existsSync(d)`. */
    method ExistsSync(d: string) returns (b: bool)
      ensures b <==> d != "" && d in dirs
    {
      b := d != "" && d in dirs;
    }

    /** `fs.mkdirSync(d, {recursive: true})`; `ok` is false when it throws. */
    method MkdirSync(d: string, f: Faults) returns (ok: bool)
      modifies this
      ensures ok == (d !in f.badDirs)
      ensures Settings() == old(Settings())
      ensures State() == if ok then Apply(old(State()), MakeDir(d)) else old(State())
    {
      ok := d !in f.badDirs;
      if ok && !exited {
        dirs := dirs + {d};
      }
    }

    /** `fs.appendFileSync(path, text)`, or the completion of `fs.appendFile`; `ok` is false when it fails. */
    method AppendFile(path: string, text: string, f: Faults) returns (ok: bool)
      modifies this
      ensures ok == (path !in f.badFiles)
      ensures Settings() == old(Settings())
      ensures State() == if ok then Apply(old(State()), AppendTo(path, text)) else old(State())
    {
      ok := path !in f.badFiles;
      if ok && !exited {
        files := files[path := Contents(files, path) + text];
      }
    }

    /** `process.exit(1)`. */
    method ProcessExit()
      modifies this
      ensures Settings() == old(Settings())
      ensures State() == Apply(old(State()), Exit)
    {
      exited := true;
    }

    // -------------------------------------------------------------------
    // log.debug, log.info, log.warn
    // -------------------------------------------------------------------

    method Debug(msg: string, relativePaths: bool, clock: Clock)
      modifies this
      ensures Settings() == old(Settings())
      ensures State() == Run(old(State()), DebugTrace(old(Settings()), clock, msg, relativePaths))
    {
      if logLevel != "debug" {
        return;
      }
      var text := Strip(msg, relativePaths, basePath);
      ConsoleLog(Prefix(logLevel, clock) + "[debug] " + text);
      RunSnoc(old(State()), [], Print(Stdout(Prefix(logLevel, clock) + "[debug] " + text)));
    }

    method Info(msg: string, relativePaths: bool, clock: Clock)
      modifies this
      ensures Settings() == old(Settings())
      ensures State() == Run(old(State()), InfoTrace(old(Settings()), clock, msg, relativePaths))
    {
      var text := Strip(msg, relativePaths, basePath);
      ConsoleLog(Prefix(logLevel, clock) + "[info] " + text);
      RunSnoc(old(State()), [], Print(Stdout(Prefix(logLevel, clock) + "[info] " + text)));
    }

    method Warn(msg: string, relativePaths: bool, clock: Clock)
      modifies this
      ensures Settings() == old(Settings())
      ensures State() == Run(old(State()), WarnTrace(old(Settings()), clock, msg, relativePaths))
    {
      var text := Strip(msg, relativePaths, basePath);
      ConsoleError(Prefix(logLevel, clock) + "[warn] " + text);
      RunSnoc(old(State()), [], Print(Stderr(Prefix(logLevel, clock) + "[warn] " + text)));
    }

    // -------------------------------------------------------------------
    // log.error
    // -------------------------------------------------------------------

    /**
      `log.error(m, exit, filePrefix, logDir)`; an empty `filePrefix` or
      `logDir` stands for the argument being absent or falsy.
     */
    method Error(m: Message, exit: bool, filePrefix: string, logDir: string, clock: Clock, f: Faults)
      modifies this
      ensures Settings() == old(Settings())
      ensures State() == Run(old(State()), ErrorTrace(old(Settings()), old(dirs), clock, f, m, exit, filePrefix, logDir))
    {
      var prefixName := ErrorPrefix(filePrefix);
      var dir := if logDir == "" then this.logDir else logDir;

      var msg: string;
      if m.Thrown? {
        ConsoleError(m.error.dump);
        RunOne(old(State()), Dump(m)[0]);
        msg := if m.error.message != "" then m.error.message else NoMessage;
      } else {
        msg := m.text;
      }
      ghost var e1 := State();
      ghost var record := RecordTrace(old(Settings()), old(dirs), clock, f, msg, exit, prefixName, dir);
      ErrorTraceIs(old(Settings()), old(dirs), clock, f, m, exit, filePrefix, logDir, msg, prefixName, dir);
      assert e1 == Run(old(State()), Dump(m)) && dirs == old(dirs) && Settings() == old(Settings());
      ErrorRecord(msg, exit, prefixName, dir, clock, f);
      assert State() == Run(e1, record);
      RunConcat(old(State()), Dump(m), record);
    }

    /** `log.error` from index.js:44 on: the file name, both renderings, and the output. */
    method ErrorRecord(msg: string, exit: bool, prefixName: string, dir: string, clock: Clock, f: Faults)
      modifies this
      ensures Settings() == old(Settings())
      ensures State() == Run(old(State()), RecordTrace(old(Settings()), old(dirs), clock, f, msg, exit, prefixName, dir))
    {
      var fileName := FileName(prefixName, DateOnly(clock.iso));
      var logFile := JoinPath(dir, fileName);
      var pre := Prefix(logLevel, clock);
      var fileMsg := FileRecord(msg, exit, pre);
      var consoleMsg := ConsoleRecord(msg, exit, logFile);
      ErrorOutput(dir, pre + "[error]" + consoleMsg, logFile, fileMsg + "\n", exit, clock, f);
    }

    /** `log.error` from index.js:61 on: console-only output, the directory block, the report. */
    method ErrorOutput(dir: string, line: string, logFile: string, record: string, exit: bool, clock: Clock, f: Faults)
      modifies this
      ensures Settings() == old(Settings())
      ensures State() == Run(old(State()), ReportTrace(old(Settings()), old(dirs), clock, f, dir, Print(Stderr(line)),
                                                       AppendEffect(f, logFile, record), exit))
    {
      ghost var shown := Print(Stderr(line));
      ghost var t: seq<Effect> := [];
      if dir == "" {
        // console only, but without a return
        ConsoleError(line);
        RunOne(old(State()), shown);
        t := [shown];
        if exit {
          ProcessExit();
          RunSnoc(old(State()), t, Exit);
          assert t + [Exit] == [shown, Exit];
          return;
        }
      }
      var stop := ErrorDir(dir, exit, clock, f);
      ghost var td := ErrorDirTrace(old(Settings()), old(dirs), clock, f, dir, exit);
      RunConcat(old(State()), t, td);
      if stop {
        assert t + td + [] == t + td;
        return;
      }
      ErrorReport(line, logFile, record, exit, f);
      RunConcat(old(State()), t + td, [shown, AppendEffect(f, logFile, record)] + ExitIf(exit));
    }

    /**
      The directory block of `log.error`; `stop` tells whether the process
      exited because the directory could not be created.
     */
    method ErrorDir(dir: string, exit: bool, clock: Clock, f: Faults) returns (stop: bool)
      modifies this
      ensures stop == (MkdirThrows(old(dirs), f, dir) && exit)
      ensures Settings() == old(Settings())
      ensures State() == Run(old(State()), ErrorDirTrace(old(Settings()), old(dirs), clock, f, dir, exit))
    {
      stop := false;
      var present := ExistsSync(dir);
      if !present {
        var made := MkdirSync(dir, f);
        if made {
          ghost var e1 := State();
          RunOne(old(State()), MakeDir(dir));
          Info("Created " + dir, false, clock);
          RunConcat(old(State()), [MakeDir(dir)], InfoTrace(Settings(), clock, "Created " + dir, false));
          assert Run(old(State()), [MakeDir(dir)]) == e1;
        } else {
          ghost var t := [Print(Stderr("Could not create " + dir)), Print(Stderr(f.mkdirError.dump))];
          ConsoleError("Could not create " + dir);
          RunSnoc(old(State()), [], t[0]);
          ConsoleError(f.mkdirError.dump);
          RunSnoc(old(State()), [t[0]], t[1]);
          assert [t[0]] + [t[1]] == t;
          if exit {
            ProcessExit();
            RunSnoc(old(State()), t, Exit);
            stop := true;
          } else {
            assert t + ExitIf(exit) == t;
          }
        }
      }
    }

    /** The end of `log.error`: the `[error]` line, the append or its report, and the exit. */
    method ErrorReport(line: string, logFile: string, record: string, exit: bool, f: Faults)
      modifies this
      ensures Settings() == old(Settings())
      ensures State() == Run(old(State()), [Print(Stderr(line)), AppendEffect(f, logFile, record)] + ExitIf(exit))
    {
      ghost var t := [Print(Stderr(line)), AppendEffect(f, logFile, record)];
      ConsoleError(line);
      RunSnoc(old(State()), [], t[0]);
      var appended := AppendFile(logFile, record, f);
      if !appended {
        ConsoleError("Could not append to " + logFile);
      }
      RunSnoc(old(State()), [t[0]], t[1]);
      assert [t[0]] + [t[1]] == t;
      if exit {
        ProcessExit();
        RunSnoc(old(State()), t, Exit);
      } else {
        assert t + ExitIf(exit) == t;
      }
    }

    // -------------------------------------------------------------------
    // makeLogDir, log.write, log.request
    // -------------------------------------------------------------------

    /** `makeLogDir(d)`; `threw` tells whether `mkdirSync` threw. */
    method MakeLogDir(d: string, clock: Clock, f: Faults) returns (threw: bool)
      modifies this
      ensures threw == MkdirThrows(old(dirs), f, d)
      ensures Settings() == old(Settings())
      ensures threw ==> State() == old(State())
      ensures !threw ==> State() == Run(old(State()), MakeLogDirTrace(old(Settings()), old(dirs), clock, d))
    {
      threw := false;
      var present := ExistsSync(d);
      if !present {
        var made := MkdirSync(d, f);
        if !made {
          threw := true;
          return;
        }
        ghost var e1 := State();
        Debug("Created " + d, false, clock);
        RunConcat(old(State()), [MakeDir(d)], DebugTrace(Settings(), clock, "Created " + d, false));
        assert Run(old(State()), [MakeDir(d)]) == e1;
      }
    }

    /** The directory check of `log.write` and `log.request`, with the failure routed to `log.error`. */
    method EnsureDir(d: string, clock: Clock, f: Faults)
      modifies this
      ensures Settings() == old(Settings())
      ensures State() == Run(old(State()), EnsureDirTrace(old(Settings()), old(dirs), clock, f, d))
    {
      var threw := MakeLogDir(d, clock, f);
      if threw {
        Error(Thrown(f.mkdirError), false, "", "", clock, f);
      }
    }

    /** `fs.appendFile(file, text, cb)` whose callback reports a failure through `log.error(err.message)`. */
    method AppendAsync(file: string, text: string, clock: Clock, f: Faults)
      modifies this
      ensures Settings() == old(Settings())
      ensures State() == Run(old(State()), AppendOrReport(old(Settings()), old(dirs), clock, f, file, text))
    {
      var ok := AppendFile(file, text, f);
      if ok {
        RunSnoc(old(State()), [], AppendTo(file, text));
      } else {
        Error(Text(f.appendMessage), false, "", "", clock, f);
      }
    }

    /** `log.write(msg, filePrefix, logDir)`. */
    method Write(msg: string, filePrefix: string, logDir: string, clock: Clock, f: Faults)
      modifies this
      ensures Settings() == old(Settings())
      ensures State() == Run(old(State()), WriteTrace(old(Settings()), old(State()), clock, f, msg, filePrefix, logDir))
    {
      var prefixName := WritePrefix(filePrefix);
      var dir := if logDir == "" then this.logDir else logDir;
      EnsureDir(dir, clock, f);
      ghost var t1 := EnsureDirTrace(old(Settings()), old(dirs), clock, f, dir);
      var fileName := JoinPath(dir, FileName(prefixName, DateOnly(clock.iso)));
      var text := Expand(msg, clock.iso);
      AppendAsync(fileName, text + "\n", clock, f);
      RunConcat(old(State()), t1, AppendOrReport(old(Settings()), Run(old(State()), t1).dirs, clock, f, fileName, text + "\n"));
    }

    /** `log.request(req, filePrefix, logDir)`. */
    method Request(req: Request, filePrefix: string, logDir: string, clock: Clock, f: Faults)
      requires IsIsoTimestamp(clock.iso)
      modifies this
      ensures Settings() == old(Settings())
      ensures State() == Run(old(State()), RequestTrace(old(Settings()), old(State()), clock, f, req, filePrefix, logDir))
    {
      if IsAsset(req.originalUrl) {
        return;
      }
      var prefixName := RequestPrefix(filePrefix);
      var dir := if logDir == "" then this.logDir else logDir;
      EnsureDir(dir, clock, f);
      ghost var t1 := EnsureDirTrace(old(Settings()), old(dirs), clock, f, dir);
      var fileName := JoinPath(dir, FileName(prefixName, DateOnly(clock.iso)));
      var timeStamp := ApacheTimeStamp(clock.iso, clock.month);
      var line := RequestLine(req, timeStamp);
      AppendAsync(fileName, line + "\n", clock, f);
      RunConcat(old(State()), t1, AppendOrReport(old(Settings()), Run(old(State()), t1).dirs, clock, f, fileName, line + "\n"));
    }
  }
}
