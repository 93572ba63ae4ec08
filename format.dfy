/**
  The pure text of the logger (index.js): base-path stripping, the file and
  console renderings of an error record, the per-line timestamping of
  `log.write`, the access-log line of `log.request`, the Apache-style
  timestamp, the date-only string `ds(true)` and the log file name.
 */
module Format {
  import opened Strings

  // ---------------------------------------------------------------------
  // Base-path stripping (debug, info, warn)
  // ---------------------------------------------------------------------

  /**
    `if (relativePaths) msg = msg.replace(log.basePath, "")`: with a string
    pattern, only the first occurrence of the base path is removed.
   */
  function Strip(msg: string, relativePaths: bool, basePath: string): (r: string)
    ensures !relativePaths ==> r == msg
    ensures relativePaths && IndexOf(msg, basePath) == -1 ==> r == msg
    ensures relativePaths && IndexOf(msg, basePath) >= 0 ==>
      var i := IndexOf(msg, basePath);
      OccursAt(msg, basePath, i) && r == msg[..i] + msg[i + |basePath|..]
  {
    if relativePaths then
      var r := ReplaceFirst(msg, basePath, "");
      assert IndexOf(msg, basePath) >= 0 ==> r == r[..IndexOf(msg, basePath)] + r[IndexOf(msg, basePath)..];
      r
    else msg
  }

  /** A second occurrence of the base path is left in place. */
  lemma StripKeepsSecondOccurrence(msg: string, basePath: string, j: nat)
    requires IndexOf(msg, basePath) >= 0
    requires OccursAt(msg, basePath, j) && j >= IndexOf(msg, basePath) + |basePath|
    ensures OccursAt(Strip(msg, true, basePath), basePath, j - |basePath|)
  {
    ReplaceFirstKeepsLater(msg, basePath, "", j);
  }

  // ---------------------------------------------------------------------
  // Error records (log.error)
  // ---------------------------------------------------------------------

  /** A thrown JavaScript `Error`: how `console.error` shows it, and its `.message` ("" when falsy). */
  datatype ErrorObject = ErrorObject(dump: string, message: string)

  /** The first argument of `log.error`: a string, or anything else (an error object). */
  datatype Message = Text(text: string) | Thrown(error: ErrorObject)

  const NoMessage := "No error message provided."
  const ExitNote := "Exiting with status 1."

  /** The text `log.error` goes on with once a non-string argument has been replaced. */
  function MessageText(m: Message): (s: string)
    ensures m.Text? ==> s == m.text
    ensures m.Thrown? && m.error.message != "" ==> s == m.error.message
    ensures m.Thrown? && m.error.message == "" ==> s == NoMessage
    ensures s != "" || m == Text("")
  {
    match m
    case Text(t) => t
    case Thrown(e) => if e.message != "" then e.message else NoMessage
  }

  /** `msg.split("\n").length > 1`. */
  predicate IsMultiLine(msg: string) {
    |Split(msg, '\n')| > 1
  }

  /** The multi-line test holds exactly when the message holds a line feed. */
  lemma MultiLineIff(msg: string)
    ensures IsMultiLine(msg) <==> '\n' in msg
  {
  }

  /** `post` of index.js: the exit note, or nothing. */
  function Trailer(exit: bool): string {
    if exit then ExitNote else ""
  }

  /**
    The error record written to the log file (without its line feed). A
    multi-line message gets the exit note on a line of its own; a
    single-line message gets ". " and the note inline.
   */
  function FileRecord(msg: string, exit: bool, pre: string): (f: string)
    ensures '\n' in msg ==> f == pre + "\n" + msg + (if exit then "\n" + ExitNote else "")
    ensures '\n' !in msg ==> f == pre + " " + msg + ". " + Trailer(exit)
  {
    MultiLineIff(msg);
    var post := Trailer(exit);
    if IsMultiLine(msg) then
      var m := if post != "" then msg + "\n" + post else msg;
      pre + "\n" + m
    else
      pre + " " + (msg + ". " + post)
  }

  /**
    The console text of an error (what follows the `[error]` tag): a
    multi-line message is framed and names the log file; a single-line one
    is trimmed.
   */
  function ConsoleRecord(msg: string, exit: bool, logFile: string): (c: string)
    ensures '\n' in msg ==>
      c == " Error. Writing message to " + logFile + ":\n---\n" + msg + (if exit then "\n" + ExitNote else "") + "\n---"
    ensures '\n' !in msg ==> c == " Error: " + Trim(msg + ". " + Trailer(exit))
  {
    MultiLineIff(msg);
    var post := Trailer(exit);
    if IsMultiLine(msg) then
      var m := if post != "" then msg + "\n" + post else msg;
      " Error. Writing message to " + logFile + ":\n---\n" + m + "\n---"
    else
      " Error: " + Trim(msg + ". " + post)
  }

  /**
    The file record is the prefix, one separator and then the message
    verbatim; the separator is a line feed exactly for a multi-line message.
   */
  lemma RenderKeepsMessage(msg: string, exit: bool, pre: string)
    ensures var f := FileRecord(msg, exit, pre);
      |f| > |pre| + |msg| && f[..|pre|] == pre && f[|pre| + 1..|pre| + 1 + |msg|] == msg &&
      f[|pre|] == (if '\n' in msg then '\n' else ' ')
  {
    if '\n' in msg {
      RecordLayout(pre, '\n', msg, if exit then "\n" + ExitNote else "");
    } else {
      RecordLayout(pre, ' ', msg, ". " + Trailer(exit));
    }
  }

  lemma RecordLayout(pre: string, sep: char, msg: string, tail: string)
    ensures var f := pre + [sep] + msg + tail;
      |f| > |pre| + |msg| && f[..|pre|] == pre && f[|pre| + 1..|pre| + 1 + |msg|] == msg && f[|pre|] == sep
  {
    var f := pre + [sep] + msg + tail;
    assert f[..|pre|] == pre;
    assert f[|pre| + 1..|pre| + 1 + |msg|] == msg;
  }

  /**
    The exit note ends the file record exactly when `exit` is set; without
    it, a multi-line record ends with the message and a single-line record
    keeps the trailing ". " (space included).
   */
  lemma RenderTrailer(msg: string, exit: bool, pre: string)
    ensures var f := FileRecord(msg, exit, pre);
      && (exit ==> |f| >= |ExitNote| && f[|f| - |ExitNote|..] == ExitNote)
      && (!exit && '\n' in msg ==> f == pre + "\n" + msg)
      && (!exit && '\n' !in msg ==> f == pre + " " + msg + ". " && f[|f| - 1] == ' ')
    ensures var f := FileRecord(msg, exit, pre);
      '\n' !in msg ==> (exit <==> |f| >= |ExitNote| && f[|f| - |ExitNote|..] == ExitNote)
  {
    var f := FileRecord(msg, exit, pre);
    if '\n' in msg {
      if exit {
        assert f == (pre + "\n" + msg + "\n") + ExitNote;
      } else {
        assert f == pre + "\n" + (msg + "");
        assert msg + "" == msg;
      }
    } else {
      if exit {
        assert f == (pre + " " + msg + ". ") + ExitNote;
      } else {
        assert f == pre + " " + (msg + ". " + "");
        assert msg + ". " + "" == msg + ". ";
      }
    }
  }

  /**
    For a single-line message and no exit, the console drops the leading
    whitespace of the message and the trailing space that the file record
    keeps after ". ".
   */
  lemma RenderConsoleTrimmed(msg: string, logFile: string)
    requires '\n' !in msg
    ensures ConsoleRecord(msg, false, logFile) == " Error: " + TrimStart(msg) + "."
  {
    assert msg + ". " + Trailer(false) == msg + ". ";
    TrimDotSpace(msg);
    SeqAssoc(" Error: ", TrimStart(msg), ".");
  }

  // ---------------------------------------------------------------------
  // Per-line timestamps (log.write)
  // ---------------------------------------------------------------------

  /** `msg.replace(/\n/g, "\n" + ts + " ")`. */
  function Expand(msg: string, ts: string): (r: string)
    ensures |r| == |msg| + Count(msg, '\n') * (|ts| + 1)
  {
    if msg == [] then ""
    else
      var rest := Expand(msg[1..], ts);
      var n := Count(msg[1..], '\n');
      if msg[0] == '\n' then
        MulStep(n, |ts| + 1);
        "\n" + ts + " " + rest
      else [msg[0]] + rest
  }

  lemma MulStep(n: nat, k: nat)
    ensures (n + 1) * k == n * k + k
  {
  }

  /** Removes the `ts + " "` that follows each line feed: the inverse of `Expand`. */
  function Collapse(s: string, ts: string): string {
    if s == [] then ""
    else if s[0] == '\n' && |s| >= |ts| + 2 && s[1..|ts| + 2] == ts + " " then "\n" + Collapse(s[|ts| + 2..], ts)
    else [s[0]] + Collapse(s[1..], ts)
  }

  /** Removing the inserted prefixes recovers the original message. */
  lemma {:induction false} CollapseExpand(msg: string, ts: string)
    ensures Collapse(Expand(msg, ts), ts) == msg
  {
    if msg != [] {
      var e := Expand(msg, ts);
      CollapseExpand(msg[1..], ts);
      if msg[0] == '\n' {
        assert e == "\n" + ts + " " + Expand(msg[1..], ts);
        assert e[1..|ts| + 2] == ts + " ";
        assert e[|ts| + 2..] == Expand(msg[1..], ts);
      } else {
        assert e[1..] == Expand(msg[1..], ts);
      }
      assert [msg[0]] + msg[1..] == msg;
    }
  }

  /** Splitting after a separator-free head only lengthens the first piece. */
  lemma {:induction false} SplitAfterHead(a: string, b: string, c: char)
    requires c !in a
    ensures var r := Split(b, c);
      Split(a + b, c) == [a + r[0]] + r[1..]
  {
    if a != [] {
      var s := a + b;
      var r := Split(b, c);
      assert s[0] == a[0] && s[1..] == a[1..] + b;
      SplitAfterHead(a[1..], b, c);
      var rest := Split(s[1..], c);
      assert rest[0] == a[1..] + r[0] && rest[1..] == r[1..];
      assert Split(s, c) == [[s[0]] + rest[0]] + rest[1..];
      assert [s[0]] + rest[0] == a + r[0] by {
        assert [a[0]] + (a[1..] + r[0]) == ([a[0]] + a[1..]) + r[0];
        assert [a[0]] + a[1..] == a;
      }
    } else {
      var r := Split(b, c);
      assert a + b == b && a + r[0] == r[0];
      assert r == [r[0]] + r[1..];
    }
  }

  /**
    `b` is `a` with every line but the first preceded by `ts + " "`.
   */
  predicate LinesShifted(a: seq<string>, b: seq<string>, ts: string) {
    |a| > 0 && |b| == |a| && b[0] == a[0] && forall k :: 1 <= k < |a| ==> b[k] == ts + " " + a[k]
  }

  /** A line feed in front starts an empty first line and shifts the old first line. */
  lemma ShiftNewline(ar: seq<string>, br: seq<string>, ts: string)
    requires LinesShifted(ar, br, ts)
    ensures LinesShifted([""] + ar, [""] + ([ts + " " + br[0]] + br[1..]), ts)
  {
    var a := [""] + ar;
    var b := [""] + ([ts + " " + br[0]] + br[1..]);
    forall k | 1 <= k < |a| ensures b[k] == ts + " " + a[k] {
      if k >= 2 {
        assert b[k] == br[k - 1] && a[k] == ar[k - 1];
      }
    }
  }

  /** Another character in front only lengthens the first line. */
  lemma ShiftOther(ar: seq<string>, br: seq<string>, ts: string, c: char)
    requires LinesShifted(ar, br, ts)
    ensures LinesShifted([[c] + ar[0]] + ar[1..], [[c] + br[0]] + br[1..], ts)
  {
    var a := [[c] + ar[0]] + ar[1..];
    var b := [[c] + br[0]] + br[1..];
    forall k | 1 <= k < |a| ensures b[k] == ts + " " + a[k] {
      assert b[k] == br[k] && a[k] == ar[k];
    }
  }

  /**
    Line by line: the expansion has as many lines as the message, the first
    line is unchanged and every later line is the original line preceded by
    `ts + " "`.
   */
  lemma {:induction false} ExpandLines(msg: string, ts: string)
    requires '\n' !in ts
    ensures LinesShifted(Split(msg, '\n'), Split(Expand(msg, ts), '\n'), ts)
  {
    if msg == [] {
      assert Expand(msg, ts) == "";
    } else {
      var rest := msg[1..];
      var e := Expand(rest, ts);
      ExpandLines(rest, ts);
      var ar := Split(rest, '\n');
      var br := Split(e, '\n');
      if msg[0] == '\n' {
        assert Expand(msg, ts) == "\n" + (ts + " " + e);
        assert Split(Expand(msg, ts), '\n') == [""] + Split(ts + " " + e, '\n');
        SplitAfterHead(ts + " ", e, '\n');
        assert Split(msg, '\n') == [""] + ar;
        ShiftNewline(ar, br, ts);
      } else {
        assert Expand(msg, ts) == [msg[0]] + e;
        assert Split(msg, '\n') == [[msg[0]] + ar[0]] + ar[1..];
        assert Split([msg[0]] + e, '\n') == [[msg[0]] + br[0]] + br[1..] by {
          assert ([msg[0]] + e)[1..] == e;
        }
        ShiftOther(ar, br, ts, msg[0]);
      }
    }
  }

  /** The first piece of a split is the part of the string before the first separator. */
  lemma {:induction false} SplitHead(s: string, c: char)
    ensures var p := Split(s, c)[0];
      |p| <= |s| && p == s[..|p|] && c !in p && (|p| < |s| ==> s[|p|] == c)
  {
    if s != [] && s[0] != c {
      SplitHead(s[1..], c);
    }
  }

  // ---------------------------------------------------------------------
  // Dates and timestamps
  // ---------------------------------------------------------------------

  /**
    The shape `Date.prototype.toISOString` produces for years 0 to 9999:
    `YYYY-MM-DDTHH:MM:SS.sssZ`.
   */
  predicate IsIsoTimestamp(s: string) {
    && |s| == 24
    && s[4] == '-' && s[7] == '-' && s[10] == 'T' && s[13] == ':' && s[16] == ':' && s[19] == '.' && s[23] == 'Z'
    && forall k :: 0 <= k < 24 && k !in {4, 7, 10, 13, 16, 19, 23} ==> IsDigit(s[k])
  }

  /** `ds(true)`: `iso.split("T")[0]`, the ISO string up to its first `T`. */
  function DateOnly(iso: string): (r: string)
    ensures StartsWith(iso, r) && 'T' !in r
    ensures |r| < |iso| ==> iso[|r|] == 'T'
    ensures IsIsoTimestamp(iso) ==> r == iso[..10]
  {
    SplitHead(iso, 'T');
    if IsIsoTimestamp(iso) then IsoSplit(iso); Split(iso, 'T')[0]
    else Split(iso, 'T')[0]
  }

  /** A dot followed by three digits starts at position `k`. */
  predicate MillisAt(s: string, k: int) {
    0 <= k && k + 4 <= |s| && s[k] == '.' && IsDigit(s[k + 1]) && IsDigit(s[k + 2]) && IsDigit(s[k + 3])
  }

  /** `.replace(/\.[0-9]{3}/, "")`: drops the first dot followed by three digits. */
  function RemoveMillis(s: string): (r: string)
    ensures |r| == |s| || |r| + 4 == |s|
    ensures |r| == |s| ==> r == s
  {
    if |s| < 4 then s
    else if MillisAt(s, 0) then s[4..]
    else [s[0]] + RemoveMillis(s[1..])
  }

  /** The first match, wherever it is, is the part that gets removed. */
  lemma {:induction false} RemoveMillisAt(s: string, i: nat)
    requires MillisAt(s, i)
    requires forall k :: 0 <= k < i ==> !MillisAt(s, k)
    ensures RemoveMillis(s) == s[..i] + s[i + 4..]
  {
    if i > 0 {
      assert !MillisAt(s, 0);
      forall k | 0 <= k < i - 1
        ensures !MillisAt(s[1..], k)
      {
        MillisShift(s, k);
      }
      MillisShift(s, i - 1);
      RemoveMillisAt(s[1..], i - 1);
      assert RemoveMillis(s) == [s[0]] + RemoveMillis(s[1..]);
      assert [s[0]] + s[1..][..i - 1] == s[..i];
      assert s[1..][i - 1 + 4..] == s[i + 4..];
    } else {
      assert s[..i] + s[i + 4..] == s[4..];
    }
  }

  lemma MillisShift(s: string, k: nat)
    requires s != []
    ensures MillisAt(s[1..], k) <==> MillisAt(s, k + 1)
  {
  }

  /** Without a match, nothing is removed. */
  lemma {:induction false} RemoveMillisNone(s: string)
    requires forall k :: !MillisAt(s, k)
    ensures RemoveMillis(s) == s
  {
    if |s| >= 4 {
      assert !MillisAt(s, 0);
      forall k
        ensures !MillisAt(s[1..], k)
      {
        if k >= 0 {
          MillisShift(s, k);
        }
      }
      RemoveMillisNone(s[1..]);
      assert [s[0]] + s[1..] == s;
    }
  }

  /**
    `apacheTimeStamp()`: rearranges an ISO timestamp into
    `DD/Mon/YYYY:HH:MM:SS +0000`, with the month abbreviation supplied
    separately (index.js reads it from the local-time date string).
   */
  function ApacheTimeStamp(iso: string, month: string): (r: string)
    requires IsIsoTimestamp(iso)
    ensures r == iso[8..10] + "/" + month + "/" + iso[..4] + ":" + iso[11..19] + " +0000"
  {
    IsoSplit(iso);
    var halves := Split(iso, 'T');
    var date := Split(halves[0], '-');
    var time := ReplaceFirst(RemoveMillis(halves[1]), "Z", " +0000");
    IsoTime(iso);
    date[2] + "/" + month + "/" + date[0] + ":" + time
  }

  /** How the splits of `apacheTimeStamp` cut a well-formed ISO timestamp. */
  lemma IsoSplit(iso: string)
    requires IsIsoTimestamp(iso)
    ensures Split(iso, 'T') == [iso[..10], iso[11..]]
    ensures Split(iso[..10], '-') == [iso[..4], iso[5..7], iso[8..10]]
  {
    IsoSplitT(iso);
    IsoSplitDate(iso);
  }

  lemma IsoSplitT(iso: string)
    requires IsIsoTimestamp(iso)
    ensures Split(iso, 'T') == [iso[..10], iso[11..]]
  {
    assert forall k :: 0 <= k < 24 && k != 10 ==> iso[k] != 'T' by {
      forall k | 0 <= k < 24 && k != 10 ensures iso[k] != 'T' {
        if k !in {4, 7, 10, 13, 16, 19, 23} { assert IsDigit(iso[k]); }
      }
    }
    assert iso == iso[..10] + ['T'] + iso[11..];
    SplitAt(iso[..10], iso[11..], 'T');
    SplitNone(iso[11..], 'T');
  }

  lemma IsoSplitDate(iso: string)
    requires IsIsoTimestamp(iso)
    ensures Split(iso[..10], '-') == [iso[..4], iso[5..7], iso[8..10]]
  {
    assert forall k :: 0 <= k < 10 && k != 4 && k != 7 ==> iso[k] != '-' by {
      forall k | 0 <= k < 10 && k != 4 && k != 7 ensures iso[k] != '-' {
        assert IsDigit(iso[k]);
      }
    }
    var d := iso[..10];
    assert d == iso[..4] + ['-'] + (iso[5..7] + ['-'] + iso[8..10]);
    SplitAt(iso[..4], iso[5..7] + ['-'] + iso[8..10], '-');
    SplitAt(iso[5..7], iso[8..10], '-');
    SplitNone(iso[8..10], '-');
  }

  /** The time half of a well-formed ISO timestamp, after both replacements. */
  lemma IsoTime(iso: string)
    requires IsIsoTimestamp(iso)
    ensures ReplaceFirst(RemoveMillis(iso[11..]), "Z", " +0000") == iso[11..19] + " +0000"
  {
    var b := iso[11..];
    assert forall k :: 0 <= k < 8 ==> b[k] != '.' && b[k] != 'Z' by {
      forall k | 0 <= k < 8 ensures b[k] != '.' && b[k] != 'Z' {
        if k != 2 && k != 5 { assert IsDigit(iso[11 + k]); }
      }
    }
    assert IsDigit(b[9]) && IsDigit(b[10]) && IsDigit(b[11]) by {
      assert IsDigit(iso[20]) && IsDigit(iso[21]) && IsDigit(iso[22]);
    }
    RemoveMillisAt(b, 8);
    var t := RemoveMillis(b);
    assert t == iso[11..19] + "Z";
    assert OccursAt(t, "Z", 8);
    var i := IndexOf(t, "Z");
    assert i == 8 by {
      assert i >= 0;
      assert t[i..i + 1] == "Z";
      assert t[i] == 'Z';
    }
  }

  // ---------------------------------------------------------------------
  // File names
  // ---------------------------------------------------------------------

  /** `filePrefix + "-" + ds(true) + ".log"`. */
  function FileName(filePrefix: string, date: string): string {
    filePrefix + "-" + date + ".log"
  }

  /**
    `path.join(dir, name)` for a name that is a single path segment: the
    name alone when the directory is empty, otherwise the two joined by
    exactly one `/`.
   */
  function JoinPath(dir: string, name: string): (p: string)
    ensures dir == "" ==> p == name
    ensures dir != "" ==> |p| > |name| && StartsWith(p, dir) && p[|p| - |name|..] == name && p[|p| - |name| - 1] == '/'
    ensures dir != "" ==> |p| == |dir| + |name| + (if dir[|dir| - 1] == '/' then 0 else 1)
  {
    if dir == "" then name
    else if dir[|dir| - 1] == '/' then dir + name
    else dir + "/" + name
  }

  // ---------------------------------------------------------------------
  // Access-log lines (log.request)
  // ---------------------------------------------------------------------

  /** The fields of an Express request that `log.request` reads ("" for a missing header). */
  datatype Request = Request(
    originalUrl: string,
    forwardedFor: string,
    remoteAddress: string,
    httpVersion: string,
    statusCode: nat,
    bytesWritten: nat)

  /** Requests for scripts and style sheets are not logged (note: `/json` matches `/js`). */
  predicate IsAsset(url: string) {
    StartsWith(url, "/js") || StartsWith(url, "/css")
  }

  /** `req.headers['x-forwarded-for'] || req.connection.remoteAddress`. */
  function ClientAddress(req: Request): (a: string)
    ensures req.forwardedFor != "" ==> a == req.forwardedFor
    ensures req.forwardedFor == "" ==> a == req.remoteAddress
  {
    if req.forwardedFor != "" then req.forwardedFor else req.remoteAddress
  }

  /** The access-log line, without its line feed. */
  function RequestLine(req: Request, stamp: string): string {
    var head := ClientAddress(req) + " - - [" + stamp + "] \"GET " + req.originalUrl + "\" HTTP/";
    var tail := " " + NatToString(req.bytesWritten) + " \"-\" \"-\"";
    head + req.httpVersion + " " + NatToString(req.statusCode) + tail
  }

  /**
    The record appended for a request is exactly one line: when none of the
    text fields holds a line feed, the line plus its terminator holds one.
   */
  lemma RequestRecordIsOneLine(req: Request, stamp: string)
    requires '\n' !in ClientAddress(req) && '\n' !in stamp && '\n' !in req.originalUrl && '\n' !in req.httpVersion
    ensures Count(RequestLine(req, stamp) + "\n", '\n') == 1
  {
    var line := RequestLine(req, stamp);
    assert '\n' !in NatToString(req.statusCode) by {
      var s := NatToString(req.statusCode);
      assert forall k :: 0 <= k < |s| ==> IsDigit(s[k]);
    }
    assert '\n' !in NatToString(req.bytesWritten) by {
      var s := NatToString(req.bytesWritten);
      assert forall k :: 0 <= k < |s| ==> IsDigit(s[k]);
    }
    assert '\n' !in line;
    CountConcat(line, "\n", '\n');
  }

  /**
    The line is, in order, the client address, timestamp and URL up to
    `HTTP/`, the HTTP version, a space, the status code, and the byte count
    with the two placeholder fields; both numbers are in decimal and read
    back as the number.
   */
  lemma RequestLineFields(req: Request, stamp: string)
    ensures var line := RequestLine(req, stamp);
      var head := ClientAddress(req) + " - - [" + stamp + "] \"GET " + req.originalUrl + "\" HTTP/";
      var v := req.httpVersion; var st := NatToString(req.statusCode); var bw := NatToString(req.bytesWritten);
      && StartsWith(line, head)
      && |line| == |head| + |v| + 1 + |st| + |bw| + 9
      && line[|head|..|head| + |v|] == v && line[|head| + |v|] == ' '
      && line[|head| + |v| + 1..|head| + |v| + 1 + |st|] == st
      && line[|line| - |bw| - 9..] == " " + bw + " \"-\" \"-\""
      && DecimalValue(st) == req.statusCode && DecimalValue(bw) == req.bytesWritten
  {
    var head := ClientAddress(req) + " - - [" + stamp + "] \"GET " + req.originalUrl + "\" HTTP/";
    var tail := " " + NatToString(req.bytesWritten) + " \"-\" \"-\"";
    var x := head + req.httpVersion + " " + NatToString(req.statusCode);
    ConcatParts(head, req.httpVersion);
    StartsWithConcat(head + req.httpVersion, " ", head);
    StartsWithConcat(head + req.httpVersion + " ", NatToString(req.statusCode), head);
    StartsWithConcat(x, tail, head);
    ConcatParts(x, tail);
    NatToStringValue(req.statusCode);
    NatToStringValue(req.bytesWritten);
  }
}
