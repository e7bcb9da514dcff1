/** The job registry of src/jobs.py: the JobState records, the registry
    `_JOBS`, publish_event's in-place updates and fan-out, the
    conversion orchestrator _convert_job and the sweeper perform_cleanup.
    Each operation is atomic; the lock and the threads are not modelled. */
module Jobs {
  import opened Text
  import opened Values
  import opened JobEvents
  import opened AutoReader
  import opened Converter
  import opened Runner

  /** The bounded queue.Queue a subscriber reads; its items are the
      serialised payloads, kept here as the payload dictionaries. */
  class Channel {
    const capacity: int
    var items: seq<Dict>

    constructor (capacity: int)
      ensures this.capacity == capacity && items == []
    {
      this.capacity := capacity;
      items := [];
    }

    /** The put_nowait / get_nowait / put_nowait sequence of publish_event. */
    method Put(e: Dict)
      modifies this
      ensures items == Offer(old(items), capacity, e)
    {
      if capacity <= 0 || |items| < capacity {
        items := items + [e];
      } else {
        items := items[1..];
        if |items| < capacity {
          items := items + [e];
        }
      }
    }

    /** q.get(timeout=15): the oldest payload, or None when none arrives. */
    method Take() returns (e: Option<Dict>)
      modifies this
      ensures old(items) == [] ==> e.None? && items == []
      ensures old(items) != [] ==> e == Some(old(items)[0]) && items == old(items)[1..]
    {
      if items == [] {
        return None;
      }
      e := Some(items[0]);
      items := items[1..];
    }
  }

  /** The fan-out loop of publish_event: every subscriber queue, in
      order, is offered the payload once. */
  method Deliver(subs: seq<Channel>, payload: Dict)
    requires NoDuplicates(subs)
    modifies set q | q in subs
    ensures forall k :: 0 <= k < |subs| ==> subs[k].items == Offer(old(subs[k].items), subs[k].capacity, payload)
  {
    var i := 0;
    while i < |subs|
      invariant 0 <= i <= |subs|
      invariant forall k :: 0 <= k < i ==> subs[k].items == Offer(old(subs[k].items), subs[k].capacity, payload)
      invariant forall k :: i <= k < |subs| ==> subs[k].items == old(subs[k].items)
    {
      subs[i].Put(payload);
      i := i + 1;
    }
  }

  /** The JobState dataclass. */
  class JobState {
    const jobId: string
    const user: string
    const createdAt: int
    const pdfName: string
    const jobDir: string
    var stage: string
    var percent: int
    var ok: Option<bool>
    var error: Option<string>
    var mdPath: Option<string>
    var updatedAt: int
    var subscribers: seq<Channel>

    constructor (jobId: string, user: string, stage: string, percent: int, now: int, ok: Option<bool>,
                 error: Option<string>, pdfName: string, jobDir: string, mdPath: Option<string>)
      ensures this.jobId == jobId && this.user == user && this.pdfName == pdfName && this.jobDir == jobDir
      ensures createdAt == now && View() == Status(stage, percent, ok, error, mdPath, now)
      ensures subscribers == []
    {
      this.jobId := jobId;
      this.user := user;
      this.createdAt := now;
      this.pdfName := pdfName;
      this.jobDir := jobDir;
      this.stage := stage;
      this.percent := percent;
      this.ok := ok;
      this.error := error;
      this.mdPath := mdPath;
      this.updatedAt := now;
      this.subscribers := [];
    }

    /** The fields publish_event may change. */
    function View(): Status
      reads this
    {
      Status(stage, percent, ok, error, mdPath, updatedAt)
    }

    /** The record update of publish_event: only the fields the payload
        carries with an accepted type, and the update time. */
    method Apply(payload: Dict, now: int)
      modifies this
      ensures View() == ApplyEvent(old(View()), payload, now)
      ensures subscribers == old(subscribers)
    {
      if "stage" in payload && payload["stage"].VStr? {
        stage := payload["stage"].s;
      }
      if "percent" in payload && IsNumber(payload["percent"]) {
        percent := IntOf(payload["percent"]);
      }
      if "ok" in payload && (payload["ok"].VNone? || payload["ok"].VBool?) {
        ok := if payload["ok"].VBool? then Some(payload["ok"].b) else None;
      }
      if "error" in payload {
        error := if payload["error"].VNone? then None else Some(Str(payload["error"]));
      }
      if "md_path" in payload && Truthy(payload["md_path"]) {
        mdPath := Some(Str(payload["md_path"]));
      }
      updatedAt := now;
    }
  }

  predicate NoDuplicates(qs: seq<Channel>) {
    forall i, j :: 0 <= i < j < |qs| ==> qs[i] != qs[j]
  }

  /** One entry of output_root.iterdir(): its name, whether it is a
      directory, its mtime (None when stat() raised) and whether rmtree
      succeeds on it. */
  datatype DirEntry = DirEntry(name: string, isDir: bool, mtime: Option<int>, removable: bool)

  /** A job directory perform_cleanup deletes: a directory other than
      "logs" whose age exceeds the time to live. */
  predicate Expired(e: DirEntry, now: int, ttlSeconds: int) {
    e.isDir && e.name != "logs" && e.mtime.Some? && now - e.mtime.value > ttlSeconds
  }

  /** The names perform_cleanup deletes, in iteration order; a failing
      stat() or rmtree skips that entry only. */
  function Swept(entries: seq<DirEntry>, now: int, ttlSeconds: int): (r: seq<string>)
    ensures |r| <= |entries|
  {
    if |entries| == 0 then []
    else
      var prev := Swept(entries[..|entries| - 1], now, ttlSeconds);
      var last := entries[|entries| - 1];
      if Expired(last, now, ttlSeconds) && last.removable then prev + [last.name] else prev
  }

  /** Every name deleted is that of an expired, removable entry, and every
      such entry is deleted. */
  lemma {:induction false} SweptExactly(entries: seq<DirEntry>, now: int, ttlSeconds: int)
    ensures var r := Swept(entries, now, ttlSeconds);
      (forall k :: 0 <= k < |r| ==> exists e :: e in entries && Expired(e, now, ttlSeconds) && e.removable && e.name == r[k]) &&
      (forall e :: e in entries && Expired(e, now, ttlSeconds) && e.removable ==> e.name in r)
  {
    if |entries| > 0 {
      var init := entries[..|entries| - 1];
      var last := entries[|entries| - 1];
      SweptExactly(init, now, ttlSeconds);
      assert forall e :: e in entries <==> e in init || e == last;
      var prev := Swept(init, now, ttlSeconds);
      var r := Swept(entries, now, ttlSeconds);
      forall k | 0 <= k < |r|
        ensures exists e :: e in entries && Expired(e, now, ttlSeconds) && e.removable && e.name == r[k]
      {
        if k < |prev| {
          assert r[k] == prev[k];
          var e :| e in init && Expired(e, now, ttlSeconds) && e.removable && e.name == prev[k];
          assert e in entries;
        } else {
          assert r[k] == last.name && last in entries;
        }
      }
    }
  }

  /** The events that open a conversion, in the order they are published. */
  function StartEvents(pdfName: string): seq<Dict> {
    [ProgressPayload("prepare", 1, None, None, None),
     LogPayload(LogLine("INFO", "prepare", "job started: " + pdfName, None)),
     ProgressPayload("convert", 5, None, None, None)]
  }

  /** Every command can be launched: it names a program. */
  predicate Runnable(cmds: seq<seq<string>>) {
    forall k :: 0 <= k < |cmds| ==> |cmds[k]| > 0
  }

  /** The command for an explicitly requested backend `b`: `-m` (default
      auto) is passed only to the "pipeline" backend. */
  function BackendCommand(cli: string, pdf: string, jobDir: string, b: string, mode: Option<string>): (c: seq<string>)
    ensures |c| >= 7 && c[..5] == BaseArgs(cli, pdf, jobDir) && c[5..7] == ["-b", b]
    ensures b == "pipeline" ==> c[7..] == ["-m", ModeOrAuto(mode)]
    ensures b != "pipeline" ==> |c| == 7
  {
    if b == "pipeline" then BaseArgs(cli, pdf, jobDir) + ["-b", b, "-m", ModeOrAuto(mode)]
    else BaseArgs(cli, pdf, jobDir) + ["-b", b]
  }

  /** The commands _convert_job tries: an explicit non-blank backend goes
      first, then the three defaults. */
  function JobCommands(cli: string, pdf: string, jobDir: string, backend: Option<string>, mode: Option<string>): (r: seq<seq<string>>)
    ensures Runnable(r) && |r| >= 3 && r[|r| - 3..] == CandidateCommands(cli, pdf, jobDir, mode)
    ensures backend.Some? && !IsBlank(backend.value) ==>
      r == [BackendCommand(cli, pdf, jobDir, Strip(backend.value), mode)] + CandidateCommands(cli, pdf, jobDir, mode)
    ensures backend.None? || IsBlank(backend.value) ==> r == CandidateCommands(cli, pdf, jobDir, mode)
  {
    var defaults := CandidateCommands(cli, pdf, jobDir, mode);
    assert defaults[|defaults| - 3..] == defaults;
    if backend.Some? && !IsBlank(backend.value) then
      var first := BackendCommand(cli, pdf, jobDir, Strip(backend.value), mode);
      assert ([first] + defaults)[1..] == defaults;
      [first] + defaults
    else defaults
  }

  /** The files an attempt leaves in the job directory, which is emptied of
      everything but PDFs before each attempt: only a tool that ran leaves
      any. */
  function FilesAfter(run: ToolRun): seq<FileRec> {
    if run.Ran? then run.files else []
  }

  /** What _run_cmd_stream returns for one attempt of the conversion. */
  function AttemptResult(cmd: seq<string>, run: ToolRun, step: int): StreamResult
    requires |cmd| > 0
  {
    StreamOf(cmd, run, "convert", 5, 80, step)
  }

  /** What one attempt observes: what _run_cmd_stream returned, and whether
      search_md then found markdown. */
  datatype ConvertAttempt = ConvertAttempt(result: StreamResult, found: bool)

  function AttemptOf(cmd: seq<string>, tool: Tools, step: int): ConvertAttempt
    requires |cmd| > 0
  {
    var run := RunOf(tool, cmd);
    ConvertAttempt(AttemptResult(cmd, run, step), AnyMarkdown(FilesAfter(run)))
  }

  /** An attempt ends the loop: the run succeeded and left markdown. */
  predicate Succeeded(a: ConvertAttempt) {
    a.result.ok && a.found
  }

  /** An attempt ends the loop exactly when the tool started, exited with 0,
      printed no marker line and left a markdown file behind. */
  lemma AttemptOfSucceeds(cmd: seq<string>, tool: Tools, step: int)
    requires |cmd| > 0
    ensures Succeeded(AttemptOf(cmd, tool, step)) <==>
      cmd in tool && tool[cmd].Ran? && tool[cmd].exitCode == 0
      && (forall k :: 0 <= k < |tool[cmd].lines| ==> !IsErrorLine(ChompLine(tool[cmd].lines[k])))
      && (exists f :: f in tool[cmd].files && IsMarkdown(f))
  {
    var run := RunOf(tool, cmd);
    AnyMarkdownIff(FilesAfter(run));
    if run.Ran? {
      RanResultOk(run.lines, run.exitCode, "convert", 5, 80, step);
    }
  }

  /** The attempt of each command, in order: what running it would observe. */
  function Attempts(cmds: seq<seq<string>>, tool: Tools, step: int): (r: seq<ConvertAttempt>)
    requires Runnable(cmds)
    ensures |r| == |cmds|
  {
    seq(|cmds|, i requires 0 <= i < |cmds| => AttemptOf(cmds[i], tool, step))
  }

  lemma AttemptsAt(cmds: seq<seq<string>>, tool: Tools, step: int, i: nat)
    requires Runnable(cmds) && i < |cmds|
    ensures Attempts(cmds, tool, step)[i] == AttemptOf(cmds[i], tool, step)
  {
  }

  /** The index of the first successful attempt at or after i. */
  function FirstSuccessFrom(attempts: seq<ConvertAttempt>, i: nat): (r: Option<nat>)
    requires i <= |attempts|
    ensures r.Some? ==> i <= r.value < |attempts|
    decreases |attempts| - i
  {
    if i == |attempts| then None
    else if Succeeded(attempts[i]) then Some(i)
    else FirstSuccessFrom(attempts, i + 1)
  }

  /** The index of the attempt that ends the loop with a success. */
  function FirstSuccess(attempts: seq<ConvertAttempt>): Option<nat> {
    FirstSuccessFrom(attempts, 0)
  }

  lemma {:induction false} FirstSuccessFromSpec(attempts: seq<ConvertAttempt>, i: nat)
    requires i <= |attempts|
    ensures var r := FirstSuccessFrom(attempts, i);
      (r.None? <==> forall k :: i <= k < |attempts| ==> !Succeeded(attempts[k]))
      && (r.Some? ==> Succeeded(attempts[r.value]) && forall k :: i <= k < r.value ==> !Succeeded(attempts[k]))
    decreases |attempts| - i
  {
    if i < |attempts| && !Succeeded(attempts[i]) {
      FirstSuccessFromSpec(attempts, i + 1);
    }
  }

  /** The loop stops at the first attempt that succeeds; it runs them all
      when none does. */
  lemma FirstSuccessSpec(attempts: seq<ConvertAttempt>)
    ensures var r := FirstSuccess(attempts);
      (r.None? <==> forall k :: 0 <= k < |attempts| ==> !Succeeded(attempts[k]))
      && (r.Some? ==> r.value < |attempts| && Succeeded(attempts[r.value])
                      && forall k :: 0 <= k < r.value ==> !Succeeded(attempts[k]))
  {
    FirstSuccessFromSpec(attempts, 0);
  }

  /** The log event announcing attempt i of n. */
  function Banner(cmds: seq<seq<string>>, i: nat): Dict
    requires i < |cmds|
  {
    LogPayload(LogLine("INFO", "convert", "Attempt " + NatToString(i + 1) + "/" + NatToString(|cmds|) + ": " + Join(cmds[i], " "), None))
  }

  function LogEvents(logs: seq<LogLine>): (r: seq<Dict>)
    ensures |r| == |logs| && forall k :: 0 <= k < |logs| ==> r[k] == LogPayload(logs[k])
  {
    seq(|logs|, k requires 0 <= k < |logs| => LogPayload(logs[k]))
  }

  /** The events of attempt i: its banner, then the tool's log lines. */
  function AttemptEvents(cmds: seq<seq<string>>, attempts: seq<ConvertAttempt>, i: nat): seq<Dict>
    requires |attempts| == |cmds| && i < |cmds|
  {
    [Banner(cmds, i)] + LogEvents(attempts[i].result.logs)
  }

  /** The events of the first n attempts. */
  function AttemptsEvents(cmds: seq<seq<string>>, attempts: seq<ConvertAttempt>, n: nat): seq<Dict>
    requires |attempts| == |cmds| && n <= |cmds|
  {
    if n == 0 then [] else AttemptsEvents(cmds, attempts, n - 1) + AttemptEvents(cmds, attempts, n - 1)
  }

  /** The state of the attempt loop after i attempts: `last` is what the
      last one returned, and `ok` says whether it won. */
  ghost predicate Searched(attempts: seq<ConvertAttempt>, i: nat, ok: bool, last: StreamResult) {
    && 0 < |attempts| && i <= |attempts|
    && (i > 0 ==> last == attempts[i - 1].result)
    && (!ok ==> FirstSuccess(attempts) == FirstSuccessFrom(attempts, i))
    && (ok ==> FirstSuccess(attempts) == Some(i - 1) && Attempted(attempts) == i)
  }

  /** One more attempt run by a loop that has not yet found a winner. */
  lemma SearchStep(attempts: seq<ConvertAttempt>, i: nat, prev: StreamResult, res: StreamResult, found: bool)
    requires Searched(attempts, i, false, prev) && i < |attempts| && attempts[i] == ConvertAttempt(res, found)
    ensures Searched(attempts, i + 1, res.ok && found, res)
  {
    if res.ok && found {
      AttemptWins(attempts, i);
    } else {
      AttemptFails(attempts, i);
    }
  }

  /** When the loop stops, the winner (or the last attempt) has been run. */
  lemma SearchDone(attempts: seq<ConvertAttempt>, i: nat, ok: bool, last: StreamResult)
    requires Searched(attempts, i, ok, last) && (i == |attempts| || ok)
    ensures ok == FirstSuccess(attempts).Some? && last == LastAttempt(attempts)
  {
    if !ok {
      AttemptsExhausted(attempts);
    }
  }

  /** A failed attempt passes the search for the winner on to the next. */
  lemma AttemptFails(attempts: seq<ConvertAttempt>, i: nat)
    requires i < |attempts| && !Succeeded(attempts[i])
    requires FirstSuccess(attempts) == FirstSuccessFrom(attempts, i)
    ensures FirstSuccess(attempts) == FirstSuccessFrom(attempts, i + 1)
  {
  }

  /** The first successful attempt ends the loop: i + 1 attempts were run. */
  lemma AttemptWins(attempts: seq<ConvertAttempt>, i: nat)
    requires i < |attempts| && Succeeded(attempts[i])
    requires FirstSuccess(attempts) == FirstSuccessFrom(attempts, i)
    ensures FirstSuccess(attempts) == Some(i) && Attempted(attempts) == i + 1
    ensures LastAttempt(attempts) == attempts[i].result
  {
  }

  /** With no successful attempt, every command was run. */
  lemma AttemptsExhausted(attempts: seq<ConvertAttempt>)
    requires |attempts| > 0 && FirstSuccess(attempts) == FirstSuccessFrom(attempts, |attempts|)
    ensures FirstSuccess(attempts) == None && Attempted(attempts) == |attempts|
    ensures LastAttempt(attempts) == attempts[|attempts| - 1].result
  {
  }

  /** Publishing attempt i after the first i attempts publishes the first i + 1. */
  lemma StampsNextAttempt(published: seq<Dict>, cmds: seq<seq<string>>, attempts: seq<ConvertAttempt>, i: nat, jobId: string, ts: string)
    requires |attempts| == |cmds| && i < |cmds|
    ensures published + Stamps(AttemptsEvents(cmds, attempts, i), jobId, ts) + Stamps(AttemptEvents(cmds, attempts, i), jobId, ts)
         == published + Stamps(AttemptsEvents(cmds, attempts, i + 1), jobId, ts)
  {
    StampsAppend(AttemptsEvents(cmds, attempts, i), AttemptEvents(cmds, attempts, i), jobId, ts);
  }

  const LayoutHint := "Detected Layout engine issue."
  const NetworkHint := "Model download failed due to network instability. Please run 'mineru-models-download' manually in the environment."
  const GenericHint := "Check logs for detailed traceback."

  /** The error text of a failed conversion, chosen from the last attempt's
      transcript: the layout engine first, then the network, else generic. */
  function FailureMessage(log: string): (msg: string)
    ensures Contains(log, "ModelWrapper") ==> msg == "Failed to convert. " + LayoutHint
    ensures !Contains(log, "ModelWrapper") && (Contains(log, "ProtocolError") || Contains(log, "ChunkedEncodingError") || Contains(log, "IncompleteRead")) ==>
      msg == "Failed to convert. " + NetworkHint
    ensures !Contains(log, "ModelWrapper") && !Contains(log, "ProtocolError") && !Contains(log, "ChunkedEncodingError") && !Contains(log, "IncompleteRead") ==>
      msg == "Failed to convert. " + GenericHint
  {
    "Failed to convert. " +
      if Contains(log, "ModelWrapper") then LayoutHint
      else if Contains(log, "ProtocolError") || Contains(log, "ChunkedEncodingError") || Contains(log, "IncompleteRead") then NetworkHint
      else GenericHint
  }

  function CollectEvent(): Dict {
    ProgressPayload("collect_output", 90, None, None, None)
  }

  /** The terminal event of a failed conversion. */
  function ErrorEvent(msg: string): Dict {
    ProgressPayload("error", 100, Some(false), Some(msg), None)
  }

  /** The terminal event of a successful conversion; elapsed_ms is not modelled. */
  function DoneEvent(target: string, device: string): Dict {
    ProgressPayload("done", 100, Some(true), None, Some(target))["device" := VStr(device)]
  }

  /** The history record of a conversion. */
  function DoneRecord(user: string, jobId: string, ok: bool, detail: string, device: string): Dict {
    var base := map["type" := VStr("convert.done"), "user" := VStr(user), "job_id" := VStr(jobId), "ok" := VBool(ok)];
    if ok then base["md" := VStr(detail)]["device" := VStr(device)] else base["error" := VStr(detail)]
  }

  /** How many commands _convert_job runs: up to the first success, or all. */
  function Attempted(attempts: seq<ConvertAttempt>): (n: nat)
    requires |attempts| > 0
    ensures 0 < n <= |attempts|
  {
    match FirstSuccess(attempts)
    case Some(w) => w + 1
    case None => |attempts|
  }

  /** What _run_cmd_stream returned for the last command run. */
  function LastAttempt(attempts: seq<ConvertAttempt>): StreamResult
    requires |attempts| > 0
  {
    attempts[Attempted(attempts) - 1].result
  }

  /** The text written to conversion.log: the transcript of the last
      command run, successful or not. */
  function ConvertLog(attempts: seq<ConvertAttempt>): string
    requires |attempts| > 0
  {
    LastAttempt(attempts).output
  }

  /** The events _convert_job publishes before its terminal one. */
  function ConvertBody(pdfName: string, cmds: seq<seq<string>>, attempts: seq<ConvertAttempt>): seq<Dict>
    requires |attempts| == |cmds| > 0
  {
    StartEvents(pdfName) + AttemptsEvents(cmds, attempts, Attempted(attempts))
      + (if FirstSuccess(attempts).Some? then [CollectEvent()] else [])
  }

  /** The markdown file a successful conversion reports: <stem>.md in the job directory. */
  function TargetPath(jobDir: string, stem: string): string {
    JoinPath(jobDir, stem + ".md")
  }

  /** The terminal event: done with the markdown path, or the classified error. */
  function TerminalEvent(jobDir: string, stem: string, device: string, attempts: seq<ConvertAttempt>): Dict
    requires |attempts| > 0
  {
    if FirstSuccess(attempts).Some? then DoneEvent(TargetPath(jobDir, stem), device)
    else ErrorEvent(FailureMessage(ConvertLog(attempts)))
  }

  /** The history record _convert_job appends. */
  function ConvertRecord(user: string, jobId: string, jobDir: string, stem: string, device: string, attempts: seq<ConvertAttempt>): Dict
    requires |attempts| > 0
  {
    if FirstSuccess(attempts).Some? then DoneRecord(user, jobId, true, TargetPath(jobDir, stem), device)
    else DoneRecord(user, jobId, false, FailureMessage(ConvertLog(attempts)), device)
  }

  /** What _convert_job publishes after the attempt loop: collect_output
      and done, or the error. */
  function EndEvents(jobDir: string, stem: string, device: string, attempts: seq<ConvertAttempt>): seq<Dict>
    requires |attempts| > 0
  {
    if FirstSuccess(attempts).Some? then [CollectEvent(), DoneEvent(TargetPath(jobDir, stem), device)]
    else [ErrorEvent(FailureMessage(ConvertLog(attempts)))]
  }

  lemma StampsJoin(x: seq<Dict>, y: seq<Dict>, z: seq<Dict>, jobId: string, ts: string)
    ensures [] + Stamps(x, jobId, ts) + Stamps(y, jobId, ts) + Stamps(z, jobId, ts) == Stamps(x + y + z, jobId, ts)
  {
    StampsAppend(x, y, jobId, ts);
    StampsAppend(x + y, z, jobId, ts);
    assert [] + Stamps(x, jobId, ts) == Stamps(x, jobId, ts);
  }

  lemma AppendTwo(x: seq<Dict>, c: Dict, d: Dict)
    ensures x + [c] + [d] == x + [c, d]
  {
  }

  /** The events published in the three phases of _convert_job (start,
      attempts, ending) are, in order, its body and its terminal event. */
  lemma ConvertStamps(pdfName: string, cmds: seq<seq<string>>, attempts: seq<ConvertAttempt>, jobDir: string, stem: string,
                      device: string, jobId: string, ts: string, tail: seq<Dict>)
    requires |attempts| == |cmds| > 0
    requires tail == EndEvents(jobDir, stem, device, attempts)
    ensures [] + Stamps(StartEvents(pdfName), jobId, ts) + Stamps(AttemptsEvents(cmds, attempts, Attempted(attempts)), jobId, ts)
              + Stamps(tail, jobId, ts)
         == Stamps(ConvertBody(pdfName, cmds, attempts) + [TerminalEvent(jobDir, stem, device, attempts)], jobId, ts)
  {
    var start := StartEvents(pdfName);
    var run := AttemptsEvents(cmds, attempts, Attempted(attempts));
    StampsJoin(start, run, tail, jobId, ts);
    var t := TerminalEvent(jobDir, stem, device, attempts);
    if FirstSuccess(attempts).Some? {
      AppendTwo(start + run, CollectEvent(), t);
    } else {
      assert start + run + [] == start + run;
    }
  }

  /** The record after the terminal event of a successful conversion. */
  lemma ApplyDone(st: Status, target: string, device: string, now: int)
    requires target != ""
    ensures ApplyEvent(st, DoneEvent(target, device), now) == Status("done", 100, Some(true), st.error, Some(target), now)
  {
    var e := DoneEvent(target, device);
    assert CarriesStage(e) && CarriesPercent(e) && CarriesOk(e) && CarriesMdPath(e) && "error" !in e;
  }

  /** The record after the terminal event of a failed conversion. */
  lemma ApplyError(st: Status, msg: string, now: int)
    ensures ApplyEvent(st, ErrorEvent(msg), now) == Status("error", 100, Some(false), Some(msg), st.mdPath, now)
  {
    var e := ErrorEvent(msg);
    assert CarriesStage(e) && CarriesPercent(e) && CarriesOk(e) && !CarriesMdPath(e);
  }

  /** Whatever the record held before, a finished conversion leaves it at
      percent 100 and at stage "done" with ok true and the markdown path, or
      at stage "error" with ok false and the classified message. */
  lemma ConvertFinalStatus(st: Status, pdfName: string, stem: string, jobDir: string, cmds: seq<seq<string>>,
                           attempts: seq<ConvertAttempt>, device: string, jobId: string, ts: string, now: int)
    requires |attempts| == |cmds| > 0
    ensures var r := ApplyAll(st, Stamps(ConvertBody(pdfName, cmds, attempts) + [TerminalEvent(jobDir, stem, device, attempts)], jobId, ts), now);
      r.percent == 100
      && (FirstSuccess(attempts).Some? ==>
            r.stage == "done" && r.ok == Some(true) && r.mdPath == Some(TargetPath(jobDir, stem)))
      && (FirstSuccess(attempts).None? ==>
            r.stage == "error" && r.ok == Some(false) && r.error == Some(FailureMessage(ConvertLog(attempts))))
  {
    var body := ConvertBody(pdfName, cmds, attempts);
    var t := TerminalEvent(jobDir, stem, device, attempts);
    var ps := Stamps(body + [t], jobId, ts);
    StampsAppend(body, [t], jobId, ts);
    assert ps[..|ps| - 1] == Stamps(body, jobId, ts);
    var before := ApplyAll(st, Stamps(body, jobId, ts), now);
    assert ApplyAll(st, ps, now) == ApplyEvent(before, Stamp(t, jobId, ts), now);
    ApplyEventIgnoresStamp(before, t, jobId, ts, now);
    if FirstSuccess(attempts).Some? {
      assert |stem + ".md"| > 0;
      ApplyDone(before, TargetPath(jobDir, stem), device, now);
    } else {
      ApplyError(before, FailureMessage(ConvertLog(attempts)), now);
    }
  }

  /** A success record names the markdown and the device; a failure
      record names the error. */
  lemma DoneRecordShape(user: string, jobId: string, ok: bool, detail: string, device: string)
    ensures var rec := DoneRecord(user, jobId, ok, detail, device);
      "type" in rec && rec["type"] == VStr("convert.done") && "job_id" in rec && rec["job_id"] == VStr(jobId)
      && "ok" in rec && rec["ok"] == VBool(ok)
      && ("md" in rec <==> ok) && ("error" in rec <==> !ok)
      && (ok ==> rec["md"] == VStr(detail) && "device" in rec && rec["device"] == VStr(device))
      && (!ok ==> rec["error"] == VStr(detail))
  {
  }

  /** The history record says ok exactly when some command succeeded. */
  lemma ConvertRecordOk(user: string, jobId: string, jobDir: string, stem: string, device: string,
                        cmds: seq<seq<string>>, tool: Tools, step: int)
    requires Runnable(cmds) && |cmds| > 0
    ensures var rec := ConvertRecord(user, jobId, jobDir, stem, device, Attempts(cmds, tool, step));
      "ok" in rec
      && (rec["ok"] == VBool(true) <==> exists k :: 0 <= k < |cmds| && Succeeded(AttemptOf(cmds[k], tool, step)))
  {
    var attempts := Attempts(cmds, tool, step);
    var win := FirstSuccess(attempts);
    FirstSuccessSpec(attempts);
    if win.Some? {
      DoneRecordShape(user, jobId, true, TargetPath(jobDir, stem), device);
      AttemptsAt(cmds, tool, step, win.value);
    } else {
      DoneRecordShape(user, jobId, false, FailureMessage(ConvertLog(attempts)), device);
      forall k | 0 <= k < |cmds|
        ensures !Succeeded(AttemptOf(cmds[k], tool, step))
      {
        AttemptsAt(cmds, tool, step, k);
      }
    }
  }

  /** Only the terminal event carries percent 100: every earlier event
      carries a percent in [0, 99] or none, so a job in progress never shows
      100. */
  lemma ConvertPercents(pdfName: string, stem: string, jobDir: string, device: string,
                        cmds: seq<seq<string>>, tool: Tools, step: int)
    requires Runnable(cmds) && |cmds| > 0
    ensures PercentsBelowDone(ConvertBody(pdfName, cmds, Attempts(cmds, tool, step)))
    ensures CarriesPercent(TerminalEvent(jobDir, stem, device, Attempts(cmds, tool, step)))
    ensures IntOf(TerminalEvent(jobDir, stem, device, Attempts(cmds, tool, step))["percent"]) == 100
  {
    var attempts := Attempts(cmds, tool, step);
    var n := Attempted(attempts);
    AttemptsPercents(cmds, tool, step, n);
    assert PercentsBelowDone(StartEvents(pdfName));
    PercentsBelowDoneAppend(StartEvents(pdfName), AttemptsEvents(cmds, attempts, n));
    var tail: seq<Dict> := if FirstSuccess(attempts).Some? then [CollectEvent()] else [];
    assert PercentsBelowDone(tail);
    PercentsBelowDoneAppend(StartEvents(pdfName) + AttemptsEvents(cmds, attempts, n), tail);
  }

  /** Every percent the events carry lies in [0, 99]. */
  predicate PercentsBelowDone(es: seq<Dict>) {
    forall k :: 0 <= k < |es| && CarriesPercent(es[k]) ==> 0 <= IntOf(es[k]["percent"]) <= 99
  }

  lemma PercentsBelowDoneAppend(a: seq<Dict>, b: seq<Dict>)
    requires PercentsBelowDone(a) && PercentsBelowDone(b)
    ensures PercentsBelowDone(a + b)
  {
    forall k | 0 <= k < |a + b| && CarriesPercent((a + b)[k])
      ensures 0 <= IntOf((a + b)[k]["percent"]) <= 99
    {
      if k >= |a| {
        assert (a + b)[k] == b[k - |a|];
      }
    }
  }

  lemma LogEventsPercents(logs: seq<LogLine>)
    requires PercentsInRange(logs)
    ensures PercentsBelowDone(LogEvents(logs))
  {
    var es := LogEvents(logs);
    forall k | 0 <= k < |es| && CarriesPercent(es[k])
      ensures 0 <= IntOf(es[k]["percent"]) <= 99
    {
      assert es[k] == LogPayload(logs[k]);
    }
  }

  lemma AttemptLogsBounded(cmd: seq<string>, run: ToolRun, step: int)
    requires |cmd| > 0
    ensures PercentsInRange(AttemptResult(cmd, run, step).logs)
  {
    if run.Ran? {
      ScanPercentsBounded(run.lines, "convert", 5, 80, step);
    }
  }

  lemma {:induction false} AttemptsPercents(cmds: seq<seq<string>>, tool: Tools, step: int, n: nat)
    requires Runnable(cmds) && n <= |cmds|
    ensures PercentsBelowDone(AttemptsEvents(cmds, Attempts(cmds, tool, step), n))
  {
    if n > 0 {
      var attempts := Attempts(cmds, tool, step);
      AttemptsPercents(cmds, tool, step, n - 1);
      AttemptsAt(cmds, tool, step, n - 1);
      AttemptLogsBounded(cmds[n - 1], RunOf(tool, cmds[n - 1]), step);
      var logs := attempts[n - 1].result.logs;
      LogEventsPercents(logs);
      assert PercentsBelowDone([Banner(cmds, n - 1)]);
      PercentsBelowDoneAppend([Banner(cmds, n - 1)], LogEvents(logs));
      PercentsBelowDoneAppend(AttemptsEvents(cmds, attempts, n - 1), AttemptEvents(cmds, attempts, n - 1));
    }
  }

  /** What _convert_job produces: the stamped body and terminal event it
      publishes, the history record and the conversion.log text, all
      determined by the attempts of its commands. */
  predicate ConvertOutcome(jobId: string, user: string, pdf: string, pdfName: string, stem: string, jobDir: string,
                           backend: Option<string>, mode: Option<string>, env: CliEnv, tool: Tools,
                           step: int, device: string, ts: string,
                           published: seq<Dict>, record: Dict, conversionLog: string)
  {
    var cmds := JobCommands(ResolveCli("mineru", env), pdf, jobDir, backend, mode);
    var attempts := Attempts(cmds, tool, step);
    published == Stamps(ConvertBody(pdfName, cmds, attempts) + [TerminalEvent(jobDir, stem, device, attempts)], jobId, ts)
    && record == ConvertRecord(user, jobId, jobDir, stem, device, attempts)
    && conversionLog == ConvertLog(attempts)
  }

  class Registry {
    var jobs: map<string, JobState>

    /** Every job is filed under its own id, and no queue is subscribed twice. */
    ghost predicate Valid()
      reads this, jobs.Values
    {
      forall id :: id in jobs ==> jobs[id].jobId == id && NoDuplicates(jobs[id].subscribers)
    }

    constructor ()
      ensures Valid() && jobs == map[]
    {
      jobs := map[];
    }

    /** What publishing to `id` may change: the job record and its queues. */
    ghost function Targets(id: string): set<object>
      reads this, jobs.Values
    {
      if id in jobs then {jobs[id] as object} + set q | q in jobs[id].subscribers :: q as object else {}
    }

    /** get_job */
    function Get(id: string): (r: Option<JobState>)
      reads this
      ensures r.Some? <==> id in jobs
      ensures r.Some? ==> r.value == jobs[id]
    {
      if id in jobs then Some(jobs[id]) else None
    }

    /** _JOBS[job_id] = JobState(...), with no subscribers. */
    method Register(jobId: string, user: string, stage: string, percent: int, now: int, ok: Option<bool>,
                    error: Option<string>, pdfName: string, jobDir: string, mdPath: Option<string>)
      returns (st: JobState)
      requires Valid()
      modifies this
      ensures Valid() && fresh(st)
      ensures jobs == old(jobs)[jobId := st]
      ensures st.jobId == jobId && st.user == user && st.pdfName == pdfName && st.jobDir == jobDir
      ensures st.View() == Status(stage, percent, ok, error, mdPath, now) && st.subscribers == []
    {
      st := new JobState(jobId, user, stage, percent, now, ok, error, pdfName, jobDir, mdPath);
      jobs := jobs[jobId := st];
    }

    /** publish_event(job_id, event), with `ts` the generated timestamp and
        `now` the clock. An unknown job id changes nothing. */
    method Publish(jobId: string, event: Dict, ts: string, now: int)
      requires Valid()
      modifies Targets(jobId)
      ensures Valid() && jobs == old(jobs) && Targets(jobId) == old(Targets(jobId))
      ensures jobId in jobs ==> jobs[jobId].subscribers == old(jobs[jobId].subscribers)
      ensures jobId in jobs ==> jobs[jobId].View() == ApplyEvent(old(jobs[jobId].View()), Stamp(event, jobId, ts), now)
      ensures jobId in jobs ==> forall q :: q in jobs[jobId].subscribers ==>
        q.items == Offer(old(q.items), q.capacity, Stamp(event, jobId, ts))
    {
      var payload := Stamp(event, jobId, ts);
      var found := Get(jobId);
      if found.None? {
        return;
      }
      var st := found.value;
      st.Apply(payload, now);
      Deliver(st.subscribers, payload);
    }

    /** The job's record and every queue reflect `published`, the stamped
        payloads delivered since the record was `st0` and each queue held
        `items0[q]`. */
    ghost predicate Tracks(jobId: string, st0: Status, items0: map<Channel, seq<Dict>>, published: seq<Dict>, now: int)
      reads this, jobs.Values, if jobId in jobs then set q | q in jobs[jobId].subscribers else {}
    {
      jobId in jobs ==>
        jobs[jobId].View() == ApplyAll(st0, published, now)
        && forall q :: q in jobs[jobId].subscribers ==> q in items0 && q.items == OfferAll(items0[q], q.capacity, published)
    }

    /** publish_event on each event in turn; returns the payloads so far. */
    method Emit(jobId: string, events: seq<Dict>, ts: string, now: int,
                ghost st0: Status, ghost items0: map<Channel, seq<Dict>>, published: seq<Dict>)
      returns (out: seq<Dict>)
      requires Valid() && Tracks(jobId, st0, items0, published, now)
      modifies Targets(jobId)
      ensures Valid() && jobs == old(jobs) && Targets(jobId) == old(Targets(jobId))
      ensures jobId in jobs ==> jobs[jobId].subscribers == old(jobs[jobId].subscribers)
      ensures out == published + Stamps(events, jobId, ts)
      ensures Tracks(jobId, st0, items0, out, now)
    {
      out := published;
      var i := 0;
      assert Stamps(events[..0], jobId, ts) == [];
      while i < |events|
        invariant 0 <= i <= |events|
        invariant Valid() && jobs == old(jobs) && Targets(jobId) == old(Targets(jobId))
        invariant jobId in jobs ==> jobs[jobId].subscribers == old(jobs[jobId].subscribers)
        invariant out == published + Stamps(events[..i], jobId, ts)
        invariant Tracks(jobId, st0, items0, out, now)
      {
        ghost var before := out;
        Publish(jobId, events[i], ts, now);
        out := out + [Stamp(events[i], jobId, ts)];
        assert out[..|out| - 1] == before;
        assert Stamps(events[..i + 1], jobId, ts) == Stamps(events[..i], jobId, ts) + [Stamp(events[i], jobId, ts)];
        i := i + 1;
      }
      assert events[..|events|] == events;
    }

    /** One pass of the attempt loop: announce the command, run it, relay
        the tool's log lines, and look for markdown. `first` is what was
        published before the loop. */
    method RunAttempt(jobId: string, cmds: seq<seq<string>>, i: nat, tool: Tools, step: int, stem: string,
                      ts: string, now: int, ghost st0: Status, ghost items0: map<Channel, seq<Dict>>,
                      ghost attempts: seq<ConvertAttempt>, ghost first: seq<Dict>, published: seq<Dict>)
      returns (out: seq<Dict>, res: StreamResult, found: bool)
      requires Valid() && Tracks(jobId, st0, items0, published, now)
      requires Runnable(cmds) && i < |cmds| && attempts == Attempts(cmds, tool, step)
      requires published == first + Stamps(AttemptsEvents(cmds, attempts, i), jobId, ts)
      modifies Targets(jobId)
      ensures Valid() && jobs == old(jobs) && Targets(jobId) == old(Targets(jobId))
      ensures jobId in jobs ==> jobs[jobId].subscribers == old(jobs[jobId].subscribers)
      ensures ConvertAttempt(res, found) == attempts[i]
      ensures out == first + Stamps(AttemptsEvents(cmds, attempts, i + 1), jobId, ts)
      ensures Tracks(jobId, st0, items0, out, now)
    {
      AttemptsAt(cmds, tool, step, i);
      var run := RunOf(tool, cmds[i]);
      res := RunCmdStream(cmds[i], run, "convert", 5, 80, step);
      out := Emit(jobId, [Banner(cmds, i)] + LogEvents(res.logs), ts, now, st0, items0, published);
      var md := SearchMd(FilesAfter(run), stem);
      SearchMdFinds(FilesAfter(run), stem);
      found := md.Some?;
      StampsNextAttempt(first, cmds, attempts, i, jobId, ts);
    }

    /** The attempt loop of _convert_job: runs the commands in order until
        one succeeds. Returns the payloads so far, whether one succeeded,
        and what the last command run returned. */
    method RunAttempts(jobId: string, cmds: seq<seq<string>>, tool: Tools, step: int, stem: string,
                       ts: string, now: int, ghost st0: Status, ghost items0: map<Channel, seq<Dict>>, published: seq<Dict>)
      returns (out: seq<Dict>, ok: bool, last: StreamResult)
      requires Valid() && Tracks(jobId, st0, items0, published, now)
      requires Runnable(cmds) && |cmds| > 0
      modifies Targets(jobId)
      ensures Valid() && jobs == old(jobs) && Targets(jobId) == old(Targets(jobId))
      ensures jobId in jobs ==> jobs[jobId].subscribers == old(jobs[jobId].subscribers)
      ensures Tracks(jobId, st0, items0, out, now)
      ensures var attempts := Attempts(cmds, tool, step);
        out == published + Stamps(AttemptsEvents(cmds, attempts, Attempted(attempts)), jobId, ts)
        && ok == FirstSuccess(attempts).Some? && last == LastAttempt(attempts)
    {
      ghost var attempts := Attempts(cmds, tool, step);
      out := published;
      ok := false;
      last := StreamResult(false, None, "", []);
      var i := 0;
      while i < |cmds| && !ok
        invariant 0 <= i <= |cmds|
        invariant Valid() && jobs == old(jobs) && Targets(jobId) == old(Targets(jobId))
        invariant jobId in jobs ==> jobs[jobId].subscribers == old(jobs[jobId].subscribers)
        invariant Tracks(jobId, st0, items0, out, now)
        invariant out == published + Stamps(AttemptsEvents(cmds, attempts, i), jobId, ts)
        invariant Searched(attempts, i, ok, last)
      {
        var found;
        ghost var prev := last;
        out, last, found := RunAttempt(jobId, cmds, i, tool, step, stem, ts, now, st0, items0, attempts, published, out);
        SearchStep(attempts, i, prev, last, found);
        ok := last.ok && found;
        i := i + 1;
      }
      SearchDone(attempts, i, ok, last);
    }

    /** The end of _convert_job: `ok` says whether an attempt succeeded and
        `log` is the last transcript. Publishes the ending events and returns
        the history record. */
    method FinishConvert(jobId: string, user: string, jobDir: string, stem: string, device: string, ok: bool, log: string,
                         ts: string, now: int, ghost attempts: seq<ConvertAttempt>,
                         ghost st0: Status, ghost items0: map<Channel, seq<Dict>>, published: seq<Dict>)
      returns (out: seq<Dict>, record: Dict)
      requires Valid() && Tracks(jobId, st0, items0, published, now)
      requires |attempts| > 0 && ok == FirstSuccess(attempts).Some? && log == ConvertLog(attempts)
      modifies Targets(jobId)
      ensures Valid() && jobs == old(jobs) && Targets(jobId) == old(Targets(jobId))
      ensures jobId in jobs ==> jobs[jobId].subscribers == old(jobs[jobId].subscribers)
      ensures Tracks(jobId, st0, items0, out, now)
      ensures out == published + Stamps(EndEvents(jobDir, stem, device, attempts), jobId, ts)
      ensures record == ConvertRecord(user, jobId, jobDir, stem, device, attempts)
    {
      var tail: seq<Dict>;
      if !ok {
        var msg := FailureMessage(log);
        tail := [ErrorEvent(msg)];
        record := DoneRecord(user, jobId, false, msg, device);
      } else {
        var target := TargetPath(jobDir, stem);
        tail := [CollectEvent(), DoneEvent(target, device)];
        record := DoneRecord(user, jobId, true, target, device);
      }
      out := Emit(jobId, tail, ts, now, st0, items0, published);
    }

    /** _convert_job. `tool` gives the tool's behaviour for each command,
        `step` is FRA_PROGRESS_PERCENT_STEP and `device` the configured
        device. Returns the payloads published, the history record and the
        text written to conversion.log. */
    method ConvertJob(jobId: string, user: string, pdf: string, pdfName: string, stem: string, jobDir: string,
                      backend: Option<string>, mode: Option<string>, env: CliEnv, tool: Tools,
                      step: int, device: string, ts: string, now: int)
      returns (published: seq<Dict>, record: Dict, conversionLog: string)
      requires Valid()
      modifies Targets(jobId)
      ensures Valid() && jobs == old(jobs)
      ensures jobId in jobs ==> jobs[jobId].subscribers == old(jobs[jobId].subscribers)
      ensures jobId in jobs ==> jobs[jobId].View() == ApplyAll(old(jobs[jobId].View()), published, now)
      ensures jobId in jobs ==> forall q :: q in jobs[jobId].subscribers ==>
        q.items == OfferAll(old(q.items), q.capacity, published)
      ensures ConvertOutcome(jobId, user, pdf, pdfName, stem, jobDir, backend, mode, env, tool, step, device, ts,
                             published, record, conversionLog)
    {
      ghost var st0 := if jobId in jobs then jobs[jobId].View() else Status("", 0, None, None, None, 0);
      ghost var items0: map<Channel, seq<Dict>> := if jobId in jobs then map q | q in jobs[jobId].subscribers :: q.items else map[];
      published, record, conversionLog := RunConvert(jobId, user, pdf, pdfName, stem, jobDir, backend, mode, env, tool,
                                                     step, device, ts, now, st0, items0);
    }

    /** The body of _convert_job, with the record's status and the queues'
        contents before it given as `st0` and `items0`. */
    method RunConvert(jobId: string, user: string, pdf: string, pdfName: string, stem: string, jobDir: string,
                      backend: Option<string>, mode: Option<string>, env: CliEnv, tool: Tools,
                      step: int, device: string, ts: string, now: int,
                      ghost st0: Status, ghost items0: map<Channel, seq<Dict>>)
      returns (published: seq<Dict>, record: Dict, conversionLog: string)
      requires Valid() && Tracks(jobId, st0, items0, [], now)
      modifies Targets(jobId)
      ensures Valid() && jobs == old(jobs) && Targets(jobId) == old(Targets(jobId))
      ensures jobId in jobs ==> jobs[jobId].subscribers == old(jobs[jobId].subscribers)
      ensures Tracks(jobId, st0, items0, published, now)
      ensures ConvertOutcome(jobId, user, pdf, pdfName, stem, jobDir, backend, mode, env, tool, step, device, ts,
                             published, record, conversionLog)
    {
      published := Emit(jobId, StartEvents(pdfName), ts, now, st0, items0, []);

      var cmds := JobCommands(ResolveCli("mineru", env), pdf, jobDir, backend, mode);
      ghost var attempts := Attempts(cmds, tool, step);
      var ok, last;
      published, ok, last := RunAttempts(jobId, cmds, tool, step, stem, ts, now, st0, items0, published);
      conversionLog := last.output;
      published, record := FinishConvert(jobId, user, jobDir, stem, device, ok, conversionLog, ts, now, attempts, st0, items0, published);
      ConvertStamps(pdfName, cmds, attempts, jobDir, stem, device, jobId, ts, EndEvents(jobDir, stem, device, attempts));
    }

    /** perform_cleanup: `rootExists` says whether output_root exists and
        `entries` is its listing. Returns the names deleted. */
    method Sweep(rootExists: bool, entries: seq<DirEntry>, now: int, ttlHours: int) returns (deleted: seq<string>)
      requires Valid()
      modifies this
      ensures Valid()
      ensures deleted == (if rootExists then Swept(entries, now, ttlHours * 3600) else [])
      ensures jobs == old(jobs) - (set n | n in deleted)
    {
      deleted := [];
      if !rootExists {
        assert (set n | n in deleted) == {};
        return;
      }
      var ttlSeconds := ttlHours * 3600;
      var i := 0;
      while i < |entries|
        invariant 0 <= i <= |entries|
        invariant deleted == Swept(entries[..i], now, ttlSeconds)
        invariant jobs == old(jobs) - (set n | n in deleted)
        invariant Valid()
      {
        assert entries[..i + 1][..i] == entries[..i];
        var item := entries[i];
        if item.isDir && item.name != "logs" {
          if item.mtime.Some? && now - item.mtime.value > ttlSeconds && item.removable {
            deleted := deleted + [item.name];
            if item.name in jobs {
              jobs := jobs - {item.name};
            }
          }
        }
        i := i + 1;
      }
      assert entries[..|entries|] == entries;
    }
  }
}
