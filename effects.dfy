/**
  The environment the logger acts on, abstracted from Node's `fs`,
  `console` and `process`: the directories that exist, the text of each
  file, the lines written to standard output and standard error, and
  whether the process has exited. An operation is described by the effects
  it performs, in order; nothing takes effect once the process has exited.
 */
module Effects {
  import opened Strings

  /** A line written by `console.log` (standard output) or `console.error`/`console.warn` (standard error). */
  datatype Line = Stdout(text: string) | Stderr(text: string)

  /** One observable effect. */
  datatype Effect =
    | Print(line: Line)
    | MakeDir(dir: string)
    | AppendTo(path: string, text: string)
    | Exit

  datatype Env = Env(dirs: set<string>, files: map<string, string>, console: seq<Line>, exited: bool)

  /** The text of a file; a file that does not exist reads as empty (an append creates it). */
  function Contents(files: map<string, string>, path: string): string {
    if path in files then files[path] else ""
  }

  /** Performs one effect; after `Exit` nothing changes any more. */
  function Apply(e: Env, x: Effect): (e': Env)
    ensures e.exited ==> e' == e
    ensures e'.exited == (e.exited || x == Exit)
    ensures !e.exited ==> e.dirs <= e'.dirs && |e.console| <= |e'.console| && e'.console[..|e.console|] == e.console
  {
    if e.exited then e
    else match x
      case Print(l) => e.(console := e.console + [l])
      case MakeDir(d) => e.(dirs := e.dirs + {d})
      case AppendTo(p, t) => e.(files := e.files[p := Contents(e.files, p) + t])
      case Exit => e.(exited := true)
  }

  /** Performs a sequence of effects in order. */
  function Run(e: Env, t: seq<Effect>): Env
    decreases |t|
  {
    if t == [] then e else Run(Apply(e, t[0]), t[1..])
  }

  /** Running two traces one after the other is running their concatenation. */
  lemma {:induction false} RunConcat(e: Env, a: seq<Effect>, b: seq<Effect>)
    ensures Run(e, a + b) == Run(Run(e, a), b)
    decreases |a|
  {
    if a == [] {
      assert a + b == b;
    } else {
      assert (a + b)[0] == a[0] && (a + b)[1..] == a[1..] + b;
      RunConcat(Apply(e, a[0]), a[1..], b);
    }
  }

  lemma RunSnoc(e: Env, t: seq<Effect>, x: Effect)
    ensures Run(e, t + [x]) == Apply(Run(e, t), x)
  {
    RunConcat(e, t, [x]);
    assert Run(Run(e, t), [x]) == Run(Apply(Run(e, t), x), []);
  }

  lemma RunOne(e: Env, x: Effect)
    ensures Run(e, [x]) == Apply(e, x)
  {
    assert [x][1..] == [];
  }

  /** Once the process has exited, no trace has any effect. */
  lemma {:induction false} RunExited(e: Env, t: seq<Effect>)
    requires e.exited
    ensures Run(e, t) == e
    decreases |t|
  {
    if t != [] {
      RunExited(Apply(e, t[0]), t[1..]);
    }
  }

  /** The process has exited after a trace exactly when it had before, or the trace exits. */
  lemma {:induction false} RunExitedIff(e: Env, t: seq<Effect>)
    ensures Run(e, t).exited == (e.exited || Exit in t)
    decreases |t|
  {
    if t != [] {
      RunExitedIff(Apply(e, t[0]), t[1..]);
      assert t == [t[0]] + t[1..];
    }
  }

  /** The lines a trace prints before it exits. */
  function Printed(t: seq<Effect>): seq<Line> {
    if t == [] || t[0] == Exit then []
    else (if t[0].Print? then [t[0].line] else []) + Printed(t[1..])
  }

  /** The text a trace appends to `path` before it exits. */
  function Appended(t: seq<Effect>, path: string): string {
    if t == [] || t[0] == Exit then ""
    else (if t[0].AppendTo? && t[0].path == path then t[0].text else "") + Appended(t[1..], path)
  }

  /** A trace run on a live process adds exactly its printed lines to the console. */
  lemma {:induction false} RunConsole(e: Env, t: seq<Effect>)
    requires !e.exited
    ensures Run(e, t).console == e.console + Printed(t)
    decreases |t|
  {
    if t == [] {
    } else if t[0] == Exit {
      RunExited(Apply(e, t[0]), t[1..]);
      assert Printed(t) == [];
    } else {
      RunConsole(Apply(e, t[0]), t[1..]);
      ConsoleStep(e, t);
    }
  }

  /** One step of `RunConsole`: the first effect's line comes before the rest's. */
  lemma ConsoleStep(e: Env, t: seq<Effect>)
    requires !e.exited && t != [] && t[0] != Exit
    requires Run(Apply(e, t[0]), t[1..]).console == Apply(e, t[0]).console + Printed(t[1..])
    ensures Run(e, t).console == e.console + Printed(t)
  {
    var x := if t[0].Print? then [t[0].line] else [];
    RunStep(e, t);
    PrintedStep(t);
    ApplyConsole(e, t[0]);
    SeqAssoc(e.console, x, Printed(t[1..]));
  }

  /** A trace run on a live process adds exactly its appended text to each file. */
  lemma {:induction false} RunFile(e: Env, t: seq<Effect>, path: string)
    requires !e.exited
    ensures Contents(Run(e, t).files, path) == Contents(e.files, path) + Appended(t, path)
    decreases |t|
  {
    if t == [] {
    } else if t[0] == Exit {
      RunExited(Apply(e, t[0]), t[1..]);
    } else {
      var e1 := Apply(e, t[0]);
      assert Run(e, t) == Run(e1, t[1..]) && !e1.exited;
      RunFile(e1, t[1..], path);
      ApplyFile(e, t[0], path);
      assert Appended(t, path) == (if t[0].AppendTo? && t[0].path == path then t[0].text else "") + Appended(t[1..], path);
    }
  }

  lemma RunStep(e: Env, t: seq<Effect>)
    requires t != []
    ensures Run(e, t) == Run(Apply(e, t[0]), t[1..])
  {
  }

  lemma PrintedStep(t: seq<Effect>)
    requires t != [] && t[0] != Exit
    ensures Printed(t) == (if t[0].Print? then [t[0].line] else []) + Printed(t[1..])
  {
  }


  lemma ApplyConsole(e: Env, x: Effect)
    requires !e.exited && x != Exit
    ensures Apply(e, x).console == e.console + (if x.Print? then [x.line] else [])
  {
  }

  lemma ApplyFile(e: Env, x: Effect, path: string)
    requires !e.exited && x != Exit
    ensures Contents(Apply(e, x).files, path) == Contents(e.files, path) + (if x.AppendTo? && x.path == path then x.text else "")
  {
    match x
    case AppendTo(p, t) =>
      if p == path {
        assert Apply(e, x).files[path] == Contents(e.files, p) + t;
      } else {
        assert Apply(e, x).files == e.files[p := Contents(e.files, p) + t];
        assert Contents(Apply(e, x).files, path) == Contents(e.files, path);
      }
    case Print(_) =>
    case MakeDir(_) =>
  }

  lemma {:induction false} PrintedConcat(a: seq<Effect>, b: seq<Effect>)
    requires Exit !in a
    ensures Printed(a + b) == Printed(a) + Printed(b)
  {
    if a == [] {
      assert a + b == b;
    } else {
      assert (a + b)[1..] == a[1..] + b;
      PrintedConcat(a[1..], b);
    }
  }

  lemma {:induction false} AppendedConcat(a: seq<Effect>, b: seq<Effect>, path: string)
    requires Exit !in a
    ensures Appended(a + b, path) == Appended(a, path) + Appended(b, path)
  {
    if a == [] {
      assert a + b == b;
    } else {
      assert (a + b)[1..] == a[1..] + b;
      AppendedConcat(a[1..], b, path);
    }
  }
}
