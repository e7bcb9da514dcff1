/** The line loop of _run_cmd_stream (src/jobs.py:75-127): the tool's
    output is given as the list of lines it printed, and the log events the
    loop publishes are returned in order for the caller to publish. */
module Runner {
  import opened Text
  import opened Values
  import opened JobEvents
  import opened AutoReader

  /** A line holding one of these marks the run as failed. */
  const ErrorMarkers: seq<string> :=
    ["Traceback", "Error", "Exception", "RuntimeError", "ModelWrapper", "ProtocolError", "ChunkedEncodingError", "IncompleteRead"]

  /** At most this many marker lines are kept for the hint. */
  const MaxErrorLines: nat := 10

  predicate IsErrorLine(line: string) {
    exists m :: m in ErrorMarkers && Contains(line, m)
  }

  predicate IsCrLf(c: char) {
    c == '\r' || c == '\n'
  }

  /** line.rstrip("\r\n") */
  function ChompLine(raw: string): string {
    RStripBy(raw, IsCrLf)
  }

  /** The number of consecutive digits of s starting at i. */
  function DigitRun(s: string, i: nat): (n: nat)
    requires i <= |s|
    ensures i + n <= |s|
    decreases |s| - i
  {
    if i == |s| || !IsDigit(s[i]) then 0 else 1 + DigitRun(s, i + 1)
  }

  /** The run is maximal: all digits, and no digit follows it. */
  lemma {:induction false} DigitRunMaximal(s: string, i: nat)
    requires i <= |s|
    ensures forall k :: i <= k < i + DigitRun(s, i) ==> IsDigit(s[k])
    ensures i + DigitRun(s, i) == |s| || !IsDigit(s[i + DigitRun(s, i)])
    decreases |s| - i
  {
    if i < |s| && IsDigit(s[i]) {
      DigitRunMaximal(s, i + 1);
    }
  }

  /** The first position at or after i that is not whitespace. */
  function SkipSpaces(s: string, i: nat): (j: nat)
    requires i <= |s|
    ensures i <= j <= |s|
    decreases |s| - i
  {
    if i == |s| || !IsSpace(s[i]) then i else SkipSpaces(s, i + 1)
  }

  /** Only whitespace is skipped, and all of it. */
  lemma {:induction false} SkipSpacesMaximal(s: string, i: nat)
    requires i <= |s|
    ensures forall k :: i <= k < SkipSpaces(s, i) ==> IsSpace(s[k])
    ensures SkipSpaces(s, i) == |s| || !IsSpace(s[SkipSpaces(s, i)])
    decreases |s| - i
  {
    if i < |s| && IsSpace(s[i]) {
      SkipSpacesMaximal(s, i + 1);
    }
  }

  /** `(\d{1,3})\s*%` matches at position i. A digit run of one to three
      digits must be followed, after optional whitespace, by "%"; when the
      run from i is longer than three digits no shorter capture can be
      followed by "%" either, since a digit comes next. */
  predicate PercentAt(s: string, i: nat) {
    i < |s| && IsDigit(s[i]) && DigitRun(s, i) <= 3
    && SkipSpaces(s, i + DigitRun(s, i)) < |s| && s[SkipSpaces(s, i + DigitRun(s, i))] == '%'
  }

  /** re.search: the leftmost match at or after i. */
  function FindPercent(s: string, i: nat): (r: Option<nat>)
    requires i <= |s|
    ensures r.Some? ==> i <= r.value < |s|
    decreases |s| - i
  {
    if i == |s| then None
    else if PercentAt(s, i) then Some(i)
    else FindPercent(s, i + 1)
  }

  /** FindPercent finds the leftmost match, and finds one whenever there is one. */
  lemma {:induction false} FindPercentLeftmost(s: string, i: nat)
    requires i <= |s|
    ensures FindPercent(s, i).Some? ==> PercentAt(s, FindPercent(s, i).value)
    ensures FindPercent(s, i).Some? ==> forall j :: i <= j < FindPercent(s, i).value ==> !PercentAt(s, j)
    ensures FindPercent(s, i).None? ==> forall j :: i <= j < |s| ==> !PercentAt(s, j)
    decreases |s| - i
  {
    if i < |s| && !PercentAt(s, i) {
      FindPercentLeftmost(s, i + 1);
    }
  }

  /** int(pct_m.group(1)), or None when the line has no percent token. */
  function PercentToken(line: string): Option<nat> {
    match FindPercent(line, 0)
    case None => None
    case Some(j) =>
      DigitRunMaximal(line, j);
      Some(DigitsValue(line[j..j + DigitRun(line, j)]))
  }

  function Clamp(x: int, lo: int, hi: int): int {
    if x < lo then lo else if x > hi then hi else x
  }

  /** int(x) of an exact quotient: division truncating toward zero. */
  function TruncDiv(a: int, b: int): (q: int)
    requires b > 0
    ensures a >= 0 ==> q * b <= a < q * b + b
    ensures a < 0 ==> q * b - b < a <= q * b
  {
    if a >= 0 then a / b else -((-a) / b)
  }

  /** max(0, min(99, percent_base + int((pct / 100.0) * percent_span))),
      computed exactly. */
  function MapPercent(pct: nat, percentBase: int, percentSpan: int): (m: int)
    ensures 0 <= m <= 99
  {
    Clamp(percentBase + TruncDiv(pct * percentSpan, 100), 0, 99)
  }

  /** A tool at 42% maps to 5 + int(33.6) = 38 in the conversion stage: the
      fraction is truncated, not rounded. */
  lemma MapPercentTruncates()
    ensures MapPercent(42, 5, 80) == 38
    ensures MapPercent(100, 5, 80) == 85
  {
  }

  /** The loop's variables after some of the lines. */
  datatype Scan = Scan(lastSent: int, errorLines: seq<string>, output: seq<string>, logs: seq<LogLine>)

  /** One iteration of the line loop. */
  function ScanLine(sc: Scan, raw: string, stage: string, percentBase: int, percentSpan: int, step: int): Scan {
    var line := ChompLine(raw);
    var errors := if IsErrorLine(line) && |sc.errorLines| < MaxErrorLines then sc.errorLines + [line] else sc.errorLines;
    var output := sc.output + [line];
    match PercentToken(line)
    case Some(pct) =>
      var mapped := MapPercent(pct, percentBase, percentSpan);
      if mapped - sc.lastSent >= step then
        Scan(mapped, errors, output, sc.logs + [LogLine("INFO", stage, line, Some(mapped))])
      else
        Scan(sc.lastSent, errors, output, sc.logs + [LogLine("INFO", stage, line, None)])
    case None =>
      Scan(sc.lastSent, errors, output, if IsBlank(line) then sc.logs else sc.logs + [LogLine("INFO", stage, line, None)])
  }

  /** The loop's variables after all of `lines`. */
  function ScanAll(lines: seq<string>, stage: string, percentBase: int, percentSpan: int, step: int): Scan {
    if |lines| == 0 then Scan(-1, [], [], [])
    else ScanLine(ScanAll(lines[..|lines| - 1], stage, percentBase, percentSpan, step), lines[|lines| - 1], stage, percentBase, percentSpan, step)
  }

  /** One iteration publishes at most one event, for the current line and
      stage; it carries a percent exactly when last_sent advances, by at
      least `step`, to that percent. */
  lemma ScanLineLogs(sc: Scan, raw: string, stage: string, b: int, sp: int, step: int)
    ensures var r := ScanLine(sc, raw, stage, b, sp, step);
      |sc.logs| <= |r.logs| <= |sc.logs| + 1 && r.logs[..|sc.logs|] == sc.logs
      && (|r.logs| == |sc.logs| + 1 ==>
            r.logs[|sc.logs|].message == ChompLine(raw) && !IsBlank(ChompLine(raw)) && r.logs[|sc.logs|].stage == stage)
      && (|r.logs| == |sc.logs| + 1 && r.logs[|sc.logs|].percent.Some? ==>
            r.logs[|sc.logs|].percent.value == r.lastSent && 0 <= r.lastSent <= 99 && r.lastSent - sc.lastSent >= step)
      && (r.lastSent != sc.lastSent ==> |r.logs| == |sc.logs| + 1 && r.logs[|sc.logs|].percent.Some?)
  {
    var line := ChompLine(raw);
    var tok := FindPercent(line, 0);
    FindPercentLeftmost(line, 0);
    if tok.Some? {
      assert IsDigit(line[tok.value]);
      assert !IsSpace(line[tok.value]);
    }
  }

  /** One iteration keeps the current line as a marker line exactly when it
      is one and fewer than ten are held, and always adds it to the transcript. */
  lemma ScanLineErrors(sc: Scan, raw: string, stage: string, b: int, sp: int, step: int)
    ensures var r := ScanLine(sc, raw, stage, b, sp, step);
      r.output == sc.output + [ChompLine(raw)]
      && r.errorLines == (if IsErrorLine(ChompLine(raw)) && |sc.errorLines| < MaxErrorLines
                          then sc.errorLines + [ChompLine(raw)] else sc.errorLines)
  {
  }

  predicate PercentsInRange(logs: seq<LogLine>) {
    forall k :: 0 <= k < |logs| && logs[k].percent.Some? ==> 0 <= logs[k].percent.value <= 99
  }

  /** Every percent attached to a log event lies in [0, 99]: a progress
      line never reports 100. */
  lemma {:induction false} ScanPercentsBounded(lines: seq<string>, stage: string, b: int, sp: int, step: int)
    ensures PercentsInRange(ScanAll(lines, stage, b, sp, step).logs)
  {
    if |lines| > 0 {
      var init := lines[..|lines| - 1];
      var prev := ScanAll(init, stage, b, sp, step);
      ScanPercentsBounded(init, stage, b, sp, step);
      ScanLineLogs(prev, lines[|lines| - 1], stage, b, sp, step);
      var r := ScanLine(prev, lines[|lines| - 1], stage, b, sp, step);
      assert ScanAll(lines, stage, b, sp, step) == r;
      forall k | 0 <= k < |r.logs| && r.logs[k].percent.Some?
        ensures 0 <= r.logs[k].percent.value <= 99
      {
        if k < |prev.logs| {
          assert r.logs[k] == r.logs[..|prev.logs|][k] == prev.logs[k];
        }
      }
    }
  }

  predicate PercentsUpTo(logs: seq<LogLine>, bound: int) {
    forall k :: 0 <= k < |logs| && logs[k].percent.Some? ==> logs[k].percent.value <= bound
  }

  predicate PercentsIncreasing(logs: seq<LogLine>) {
    forall i, j :: 0 <= i < j < |logs| && logs[i].percent.Some? && logs[j].percent.Some? ==>
      logs[i].percent.value < logs[j].percent.value
  }

  /** With step >= 1, last_sent starts at -1 and only grows, and the
      percents attached along the run strictly increase up to it. */
  lemma {:induction false} ScanPercentsIncrease(lines: seq<string>, stage: string, b: int, sp: int, step: int)
    requires step >= 1
    ensures ScanAll(lines, stage, b, sp, step).lastSent >= -1
    ensures PercentsUpTo(ScanAll(lines, stage, b, sp, step).logs, ScanAll(lines, stage, b, sp, step).lastSent)
    ensures PercentsIncreasing(ScanAll(lines, stage, b, sp, step).logs)
  {
    if |lines| > 0 {
      var init := lines[..|lines| - 1];
      var prev := ScanAll(init, stage, b, sp, step);
      ScanPercentsIncrease(init, stage, b, sp, step);
      ScanLineLogs(prev, lines[|lines| - 1], stage, b, sp, step);
      var r := ScanLine(prev, lines[|lines| - 1], stage, b, sp, step);
      assert ScanAll(lines, stage, b, sp, step) == r;
      assert forall k :: 0 <= k < |prev.logs| ==> r.logs[k] == r.logs[..|prev.logs|][k] == prev.logs[k];
    }
  }

  /** `out` is `lines`, each chomped. */
  predicate ChompedLines(out: seq<string>, lines: seq<string>) {
    |out| == |lines| && forall k :: 0 <= k < |lines| ==> out[k] == ChompLine(lines[k])
  }

  /** The transcript holds every line, chomped. */
  lemma {:induction false} ScanOutput(lines: seq<string>, stage: string, b: int, sp: int, step: int)
    ensures ChompedLines(ScanAll(lines, stage, b, sp, step).output, lines)
  {
    if |lines| > 0 {
      var init := lines[..|lines| - 1];
      var prev := ScanAll(init, stage, b, sp, step);
      ScanOutput(init, stage, b, sp, step);
      ScanLineErrors(prev, lines[|lines| - 1], stage, b, sp, step);
      ChompedSnoc(prev.output, init, lines[|lines| - 1]);
      assert init + [lines[|lines| - 1]] == lines;
    }
  }

  lemma ChompedSnoc(out: seq<string>, lines: seq<string>, line: string)
    requires ChompedLines(out, lines)
    ensures ChompedLines(out + [ChompLine(line)], lines + [line])
  {
    var out', lines' := out + [ChompLine(line)], lines + [line];
    forall k | 0 <= k < |lines'|
      ensures out'[k] == ChompLine(lines'[k])
    {
      if k < |lines| {
        assert out'[k] == out[k] && lines'[k] == lines[k];
      }
    }
  }

  predicate LogsNonBlank(logs: seq<LogLine>, stage: string) {
    forall k :: 0 <= k < |logs| ==> !IsBlank(logs[k].message) && logs[k].stage == stage
  }

  /** Every published line is non-blank and of the run's stage: blank lines
      reach the transcript only. */
  lemma {:induction false} ScanLogsNonBlank(lines: seq<string>, stage: string, b: int, sp: int, step: int)
    ensures LogsNonBlank(ScanAll(lines, stage, b, sp, step).logs, stage)
  {
    if |lines| > 0 {
      var init := lines[..|lines| - 1];
      var prev := ScanAll(init, stage, b, sp, step);
      ScanLogsNonBlank(init, stage, b, sp, step);
      ScanLineLogs(prev, lines[|lines| - 1], stage, b, sp, step);
      var r := ScanLine(prev, lines[|lines| - 1], stage, b, sp, step);
      assert ScanAll(lines, stage, b, sp, step) == r;
      forall k | 0 <= k < |r.logs|
        ensures !IsBlank(r.logs[k].message) && r.logs[k].stage == stage
      {
        if k < |prev.logs| {
          assert r.logs[k] == r.logs[..|prev.logs|][k] == prev.logs[k];
        }
      }
    }
  }

  /** At most ten marker lines are kept, each a marker line. */
  lemma {:induction false} ScanErrorsBounded(lines: seq<string>, stage: string, b: int, sp: int, step: int)
    ensures var errs := ScanAll(lines, stage, b, sp, step).errorLines;
      |errs| <= MaxErrorLines && forall k :: 0 <= k < |errs| ==> IsErrorLine(errs[k])
  {
    if |lines| > 0 {
      var init := lines[..|lines| - 1];
      ScanErrorsBounded(init, stage, b, sp, step);
      ScanLineErrors(ScanAll(init, stage, b, sp, step), lines[|lines| - 1], stage, b, sp, step);
    }
  }

  /** Marker lines are kept exactly when the transcript has one. */
  lemma {:induction false} ScanErrorsIff(lines: seq<string>, stage: string, b: int, sp: int, step: int)
    ensures ScanAll(lines, stage, b, sp, step).errorLines == [] <==>
      forall k :: 0 <= k < |lines| ==> !IsErrorLine(ChompLine(lines[k]))
  {
    if |lines| > 0 {
      var init := lines[..|lines| - 1];
      ScanErrorsIff(init, stage, b, sp, step);
      ScanLineErrors(ScanAll(init, stage, b, sp, step), lines[|lines| - 1], stage, b, sp, step);
      assert forall k :: 0 <= k < |init| ==> init[k] == lines[k];
    }
  }

  /** What happens when the tool is launched. */
  datatype ToolRun =
    | NotFound
      /** Any other exception while starting it. */
    | StartFailed(message: string)
      /** It ran, printed `lines`, exited with `exitCode`, and left `files`
          in the job directory. */
    | Ran(lines: seq<string>, exitCode: int, files: seq<FileRec>)

  /** How the external tool behaves for each command line; a command with
      no entry is one whose executable is not found. */
  type Tools = map<seq<string>, ToolRun>

  function RunOf(tools: Tools, cmd: seq<string>): ToolRun {
    if cmd in tools then tools[cmd] else NotFound
  }

  /** What _run_cmd_stream returns, with the log events it publishes. */
  datatype StreamResult = StreamResult(ok: bool, hint: Option<string>, output: string, logs: seq<LogLine>)

  /** The result of a run the tool started. */
  function RanResult(lines: seq<string>, exitCode: int, stage: string, b: int, sp: int, step: int): StreamResult {
    var sc := ScanAll(lines, stage, b, sp, step);
    StreamResult(exitCode == 0 && sc.errorLines == [],
                 if sc.errorLines == [] then None else Some(Join(sc.errorLines, "; ")),
                 Join(sc.output, "\n"),
                 sc.logs)
  }

  /** An attempt succeeds exactly when the tool started, exited with 0 and
      printed no marker line. */
  lemma RanResultOk(lines: seq<string>, exitCode: int, stage: string, b: int, sp: int, step: int)
    ensures RanResult(lines, exitCode, stage, b, sp, step).ok <==>
      exitCode == 0 && forall k :: 0 <= k < |lines| ==> !IsErrorLine(ChompLine(lines[k]))
    ensures RanResult(lines, exitCode, stage, b, sp, step).hint.None? <==>
      forall k :: 0 <= k < |lines| ==> !IsErrorLine(ChompLine(lines[k]))
  {
    ScanErrorsIff(lines, stage, b, sp, step);
  }

  /** What _run_cmd_stream returns for `cmd` run as `run`. */
  function StreamOf(cmd: seq<string>, run: ToolRun, stage: string, b: int, sp: int, step: int): StreamResult
    requires |cmd| > 0
  {
    match run
    case NotFound => StreamResult(false, Some("Command not found"), "", [LogLine("ERROR", stage, "command not found: " + cmd[0], None)])
    case StartFailed(msg) =>
      StreamResult(false, Some(msg), "", [LogLine("ERROR", stage, "failed to start command: " + cmd[0] + " (" + msg + ")", None)])
    case Ran(lines, exitCode, _) => RanResult(lines, exitCode, stage, b, sp, step)
  }

  /** _run_cmd_stream. `step` is FRA_PROGRESS_PERCENT_STEP. */
  method RunCmdStream(cmd: seq<string>, run: ToolRun, stage: string, percentBase: int, percentSpan: int, step: int)
    returns (r: StreamResult)
    requires |cmd| > 0
    ensures run.NotFound? ==>
      r == StreamResult(false, Some("Command not found"), "", [LogLine("ERROR", stage, "command not found: " + cmd[0], None)])
    ensures run.StartFailed? ==>
      r == StreamResult(false, Some(run.message), "",
                        [LogLine("ERROR", stage, "failed to start command: " + cmd[0] + " (" + run.message + ")", None)])
    ensures run.Ran? ==> r == RanResult(run.lines, run.exitCode, stage, percentBase, percentSpan, step)
    ensures r == StreamOf(cmd, run, stage, percentBase, percentSpan, step)
  {
    match run
    case NotFound =>
      return StreamResult(false, Some("Command not found"), "", [LogLine("ERROR", stage, "command not found: " + cmd[0], None)]);
    case StartFailed(msg) =>
      return StreamResult(false, Some(msg), "", [LogLine("ERROR", stage, "failed to start command: " + cmd[0] + " (" + msg + ")", None)]);
    case Ran(lines, exitCode, _) =>
      var lastSent := -1;
      var errorLines: seq<string> := [];
      var fullOutput: seq<string> := [];
      var logs: seq<LogLine> := [];
      var i := 0;
      while i < |lines|
        invariant 0 <= i <= |lines|
        invariant Scan(lastSent, errorLines, fullOutput, logs) == ScanAll(lines[..i], stage, percentBase, percentSpan, step)
      {
        assert lines[..i + 1][..i] == lines[..i];
        var line := ChompLine(lines[i]);
        fullOutput := fullOutput + [line];
        if IsErrorLine(line) {
          if |errorLines| < MaxErrorLines {
            errorLines := errorLines + [line];
          }
        }
        var pct := PercentToken(line);
        if pct.Some? {
          var mapped := MapPercent(pct.value, percentBase, percentSpan);
          if mapped - lastSent >= step {
            lastSent := mapped;
            logs := logs + [LogLine("INFO", stage, line, Some(mapped))];
          } else {
            logs := logs + [LogLine("INFO", stage, line, None)];
          }
        } else if !IsBlank(line) {
          logs := logs + [LogLine("INFO", stage, line, None)];
        }
        i := i + 1;
      }
      assert lines[..|lines|] == lines;
      var hint := if errorLines == [] then None else Some(Join(errorLines, "; "));
      return StreamResult(exitCode == 0 && errorLines == [], hint, Join(fullOutput, "\n"), logs);
  }
}
