/** The job logic of the HTTP layer (src/api.py): the owner checks of the
    job endpoints, subscribing and unsubscribing an event stream, the job
    registration of the upload endpoint, the path containment of the asset
    endpoint and the prefix rule of the single-page-app fallback. Requests
    and responses are values; the file system is a set of paths. */
module Api {
  import opened Text
  import opened Values
  import opened JobEvents
  import opened AutoReader
  import opened Converter
  import opened Jobs

  /** A handler's outcome: a body, or the HTTPException it raises. */
  datatype Reply<T> = Served(body: T) | Refused(status: int, detail: string)

  /** The shared guard of job_status and job_events: 404 for an unknown
      job, 403 for a job another user owns. */
  function OwnedJob(reg: Registry, jobId: string, user: string): (r: Reply<JobState>)
    reads reg
    ensures r.Refused? <==> jobId !in reg.jobs || reg.jobs[jobId].user != user
    ensures r.Refused? ==> r.status == (if jobId in reg.jobs then 403 else 404)
    ensures r.Served? ==> r.body == reg.jobs[jobId]
  {
    var st := reg.Get(jobId);
    if st.None? then Refused(404, "")
    else if st.value.user != user then Refused(403, "")
    else Served(st.value)
  }

  /** The body job_status returns for a record. */
  function StatusBody(jobId: string, pdfName: string, createdAt: int, s: Status): Dict
  {
    map[
      "job_id" := VStr(jobId),
      "stage" := VStr(s.stage),
      "percent" := VInt(s.percent),
      "ok" := if s.ok.Some? then VBool(s.ok.value) else VNone,
      "error" := if s.error.Some? then VStr(s.error.value) else VNone,
      "pdf_name" := VStr(pdfName),
      "md_path" := if s.mdPath.Some? then VStr(s.mdPath.value) else VNone,
      "created_at" := VInt(createdAt),
      "updated_at" := VInt(s.updatedAt)]
  }

  /** The status body reports every field publish_event can set: published
      back as an event it reproduces the record's stage, percent, ok and
      error, and published to the record itself it changes nothing. */
  lemma StatusBodyReplays(base: Status, jobId: string, pdfName: string, createdAt: int, s: Status, now: int)
    ensures var r := ApplyEvent(base, StatusBody(jobId, pdfName, createdAt, s), now);
      r.stage == s.stage && r.percent == s.percent && r.ok == s.ok && r.error == s.error
    ensures ApplyEvent(s, StatusBody(jobId, pdfName, createdAt, s), s.updatedAt) == s
  {
    if s.error.Some? {
      StrOfStr(s.error.value);
    }
    if s.mdPath.Some? {
      StrOfStr(s.mdPath.value);
    }
  }

  /** job_status */
  function JobStatus(reg: Registry, jobId: string, user: string): (r: Reply<Dict>)
    reads reg, reg.jobs.Values
    ensures r.Refused? <==> OwnedJob(reg, jobId, user).Refused?
    ensures r.Refused? ==> r.status == OwnedJob(reg, jobId, user).status
    ensures r.Served? ==> "stage" in r.body && r.body["stage"] == VStr(reg.jobs[jobId].stage)
    ensures r.Served? ==> "percent" in r.body && r.body["percent"] == VInt(reg.jobs[jobId].percent)
  {
    match OwnedJob(reg, jobId, user)
    case Refused(code, detail) => Refused(code, detail)
    case Served(st) => Served(StatusBody(st.jobId, st.pdfName, st.createdAt, st.View()))
  }

  /** The first item job_events streams. */
  function SnapshotPayload(jobId: string, pdfName: string, s: Status): Dict
  {
    map[
      "type" := VStr("snapshot"),
      "job_id" := VStr(jobId),
      "stage" := VStr(s.stage),
      "percent" := VInt(s.percent),
      "ok" := if s.ok.Some? then VBool(s.ok.value) else VNone,
      "pdf_name" := VStr(pdfName)]
  }

  /** The queue size of an event stream. */
  const StreamCapacity := 1000

  /** One item of the event stream. */
  datatype Frame =
      /** `event: message` with a payload */
    | Message(payload: Dict)
      /** `: keepalive`, when no payload arrives within the 15 s wait */
    | Keepalive

  /** A subscribed stream: its queue and the snapshot it starts with. */
  datatype Subscription = Subscription(queue: Channel, first: Frame)

  /** The subscribing half of job_events. */
  method Subscribe(reg: Registry, jobId: string, user: string) returns (r: Reply<Subscription>)
    requires reg.Valid()
    modifies if jobId in reg.jobs then {reg.jobs[jobId]} else {}
    ensures reg.Valid() && reg.jobs == old(reg.jobs)
    ensures r.Refused? <==> old(OwnedJob(reg, jobId, user)).Refused?
    ensures r.Refused? ==> r.status == (if jobId in reg.jobs then 403 else 404)
    ensures r.Refused? && jobId in reg.jobs ==> reg.jobs[jobId].subscribers == old(reg.jobs[jobId].subscribers)
    ensures r.Served? ==>
      var st := reg.jobs[jobId];
      fresh(r.body.queue) && r.body.queue.capacity == StreamCapacity && r.body.queue.items == []
      && st.subscribers == old(st.subscribers) + [r.body.queue]
      && st.View() == old(st.View())
      && r.body.first == Message(SnapshotPayload(jobId, st.pdfName, st.View()))
  {
    var owned := OwnedJob(reg, jobId, user);
    if owned.Refused? {
      return Refused(owned.status, owned.detail);
    }
    var st := owned.body;
    var q := new Channel(StreamCapacity);
    st.subscribers := st.subscribers + [q];
    r := Served(Subscription(q, Message(SnapshotPayload(st.jobId, st.pdfName, st.View()))));
  }

  /** One step of the stream: q.get(timeout=15), or a keepalive when the
      queue stays empty. */
  method NextFrame(q: Channel) returns (f: Frame)
    modifies q
    ensures old(q.items) == [] ==> f == Keepalive && q.items == []
    ensures old(q.items) != [] ==> f == Message(old(q.items)[0]) && q.items == old(q.items)[1..]
  {
    var e := q.Take();
    f := if e.Some? then Message(e.value) else Keepalive;
  }

  /** list.index(x) */
  function IndexOf(xs: seq<Channel>, x: Channel): (i: nat)
    requires x in xs
    ensures i < |xs| && xs[i] == x && x !in xs[..i]
  {
    if xs[0] == x then 0
    else
      var i := 1 + IndexOf(xs[1..], x);
      assert xs[..i] == [xs[0]] + xs[1..][..i - 1];
      i
  }

  /** list.remove(x): the list without its first occurrence of x. */
  function RemoveFirst(xs: seq<Channel>, x: Channel): (r: seq<Channel>)
    requires x in xs
    ensures |r| == |xs| - 1
  {
    var i := IndexOf(xs, x);
    xs[..i] + xs[i + 1..]
  }

  /** In a list without duplicates, removing a queue unsubscribes exactly
      that queue. */
  lemma RemoveFirstExactly(xs: seq<Channel>, x: Channel)
    requires NoDuplicates(xs) && x in xs
    ensures NoDuplicates(RemoveFirst(xs, x))
    ensures forall y :: y in RemoveFirst(xs, x) <==> y in xs && y != x
  {
    var r := RemoveFirst(xs, x);
    var i := IndexOf(xs, x);
    assert forall k :: 0 <= k < |r| ==> r[k] == xs[if k < i then k else k + 1];
    forall y
      ensures y in r <==> y in xs && y != x
    {
      if y in xs && y != x {
        var k :| 0 <= k < |xs| && xs[k] == y;
        assert r[if k < i then k else k - 1] == y;
      }
    }
  }

  /** The finally-block of job_events: the queue is removed only while the
      record is still registered and the queue still listed. */
  method Unsubscribe(reg: Registry, st: JobState, q: Channel)
    requires reg.Valid()
    modifies st
    ensures reg.Valid() && st.View() == old(st.View())
    ensures st in reg.jobs.Values && q in old(st.subscribers) ==>
      st.subscribers == RemoveFirst(old(st.subscribers), q) && q !in st.subscribers
    ensures !(st in reg.jobs.Values && q in old(st.subscribers)) ==> st.subscribers == old(st.subscribers)
  {
    if st in reg.jobs.Values && q in st.subscribers {
      var id :| id in reg.jobs && reg.jobs[id] == st;
      RemoveFirstExactly(st.subscribers, q);
      st.subscribers := RemoveFirst(st.subscribers, q);
    }
  }

  /** Path(name).name on a POSIX path: the last component, with empty and
      "." components dropped; "" when there is none. */
  function PathName(s: string): (r: string)
    ensures '/' !in r
  {
    var parts := Parts(s);
    if |parts| == 0 then "" else parts[|parts| - 1]
  }

  /** The components pathlib keeps: empty and "." components are dropped. */
  function Clean(xs: seq<string>): (r: seq<string>)
    ensures forall k :: 0 <= k < |r| ==> r[k] != "" && r[k] != "." && r[k] in xs
  {
    if |xs| == 0 then []
    else (if xs[0] == "" || xs[0] == "." then [] else [xs[0]]) + Clean(xs[1..])
  }

  lemma {:induction false} CleanAppend(xs: seq<string>, ys: seq<string>)
    ensures Clean(xs + ys) == Clean(xs) + Clean(ys)
    decreases |xs|
  {
    if |xs| == 0 {
      assert xs + ys == ys;
    } else {
      assert (xs + ys)[1..] == xs[1..] + ys;
      CleanAppend(xs[1..], ys);
    }
  }

  function Parts(s: string): (r: seq<string>)
    ensures forall k :: 0 <= k < |r| ==> r[k] != "" && r[k] != "." && '/' !in r[k]
  {
    Clean(Split(s, '/'))
  }

  lemma {:induction false} SplitAppend(a: string, b: string, sep: char)
    ensures Split(a + [sep] + b, sep) == Split(a, sep) + Split(b, sep)
    decreases |a|
  {
    if sep !in a {
      SplitAtFirst(a, b, sep);
    } else {
      var i := IndexOfChar(a, sep);
      var rest := a[i + 1..];
      SplitInside(a, b, sep);
      SplitAppend(rest, b, sep);
      ConsAssoc(a[..i], Split(rest, sep), Split(b, sep));
    }
  }

  lemma ConsAssoc(x: string, p: seq<string>, q: seq<string>)
    ensures [x] + (p + q) == ([x] + p) + q
  {
  }

  /** The separator after a separator-free `a` is the first one. */
  lemma SplitAtFirst(a: string, b: string, sep: char)
    requires sep !in a
    ensures Split(a + [sep] + b, sep) == [a] + Split(b, sep)
  {
    var s := a + [sep] + b;
    assert s[|a|] == sep;
    assert s[..|a|] == a && s[|a| + 1..] == b;
    IndexOfCharAt(s, sep, |a|);
  }

  /** A separator inside `a` splits both a and a + sep + b at the same place. */
  lemma SplitInside(a: string, b: string, sep: char)
    requires sep in a
    ensures var i := IndexOfChar(a, sep);
      && Split(a + [sep] + b, sep) == [a[..i]] + Split(a[i + 1..] + [sep] + b, sep)
      && Split(a, sep) == [a[..i]] + Split(a[i + 1..], sep)
  {
    var s := a + [sep] + b;
    var i := IndexOfChar(a, sep);
    assert s[..i] == a[..i];
    IndexOfCharAt(s, sep, i);
    assert s[i + 1..] == a[i + 1..] + [sep] + b;
  }

  /** The stored name of an upload is the final component of the client's
      file name. */
  lemma PathNameOfJoin(dir: string, name: string)
    requires name != "" && name != "." && '/' !in name
    ensures PathName(dir + "/" + name) == name
  {
    SplitAppend(dir, name, '/');
    CleanAppend(Split(dir, '/'), Split(name, '/'));
  }

  /** Path(file.filename or "upload.pdf").name */
  function UploadName(filename: Option<string>): (r: string)
    ensures '/' !in r
    ensures filename.None? || filename.value == "" ==> r == "upload.pdf"
  {
    if filename.None? || filename.value == "" then "upload.pdf" else PathName(filename.value)
  }

  /** `mode and not normalize_mineru_mode(mode)` */
  predicate InvalidMode(mode: Option<string>) {
    mode.Some? && mode.value != "" && NormalizeMode(mode).None?
  }

  /** The report row the dedup queries found: its job_id, id, stored file
      name and markdown path, each None when the column is empty. */
  datatype Duplicate = Duplicate(jobId: Option<string>, id: int, sourceFileName: Option<string>, markdownPath: Option<string>)

  /** `dup is not None and dup.job_id` */
  predicate DedupHit(dup: Option<Duplicate>) {
    dup.Some? && dup.value.jobId.Some? && dup.value.jobId.value != ""
  }

  function JobLinks(jobId: string): Dict
  {
    map["job_id" := VStr(jobId),
        "events_url" := VStr("/api/jobs/" + jobId + "/events"),
        "result_url" := VStr("/api/jobs/" + jobId + "/result")]
  }

  /** The parameters of _convert_job, in order. */
  const ConvertJobParams: seq<string> := ["job_id", "user", "pdf_path", "job_dir", "backend", "mode"]

  /** The keyword arguments convert_endpoint hands to the job thread. */
  const ThreadKeywords: set<string> := {"company_code", "company_name", "report_year", "report_type",
    "source_file_name", "source_file_size_bytes", "source_file_mtime_ms", "source_file_sha256"}

  /** A call with `positional` positional arguments and named keywords. */
  datatype Call = Call(positional: nat, keywords: set<string>)

  /** Python binds the call to a function with these parameters (none with
      a default, no *args or **kwargs): every parameter gets exactly one
      value and every keyword names a parameter. */
  predicate Binds(params: seq<string>, c: Call) {
    c.positional <= |params|
    && (forall k :: k in c.keywords ==> k in params[c.positional..])
    && c.positional + |c.keywords| == |params|
  }

  /** The thread target as written: the metadata keywords are not
      parameters of _convert_job, so the thread raises TypeError before the
      conversion begins and the job never leaves "queued". */
  lemma ThreadCallAsWritten()
    ensures !Binds(ConvertJobParams, Call(6, ThreadKeywords))
  {
    assert "company_code" in ThreadKeywords;
    assert ConvertJobParams[6..] == [];
  }

  /** The event convert_endpoint hands to append_history for a new job. */
  function StartRecord(user: string, jobId: string, pdf: string, backend: Option<string>, mode: Option<string>,
                       sha256: string, sizeBytes: int, mtimeMs: Option<int>): Dict
  {
    map["type" := VStr("convert.start"), "user" := VStr(user), "job_id" := VStr(jobId), "pdf" := VStr(pdf),
        "backend" := OptionalStr(backend), "mode" := OptionalStr(mode), "sha256" := VStr(sha256),
        "size_bytes" := VInt(sizeBytes), "source_file_mtime_ms" := OptionalInt(mtimeMs)]
  }

  /** convert_endpoint after the upload is stored: the mode check, then
      either the dedup registration or a new queued job. `newJobId` is the
      generated id, `outputRoot` the output root, `sha256` and `sizeBytes`
      the stored upload's digest and size, `dup` the report the dedup
      queries found and `existing` the paths that exist. Returns the
      reply; for a new job, the event to append to the history and the
      call that starts its thread; for a dedup hit, the new job directory
      that is removed again. */
  method StartConvert(reg: Registry, user: string, filename: Option<string>, backend: Option<string>, mode: Option<string>,
                      mtimeMs: Option<int>, newJobId: string, outputRoot: string, sha256: string, sizeBytes: int,
                      dup: Option<Duplicate>, existing: set<string>, now: int)
    returns (r: Reply<Dict>, history: Option<Dict>, removed: Option<string>, thread: Option<Call>)
    requires reg.Valid()
    modifies reg
    ensures reg.Valid()
    ensures InvalidMode(mode) ==> r == Refused(400, "invalid mode") && thread.None? && reg.jobs == old(reg.jobs)
                                  && history.None? && removed.None?
    ensures !InvalidMode(mode) && DedupHit(dup) ==>
      var id := dup.value.jobId.value;
      var md := dup.value.markdownPath;
      id in reg.jobs && fresh(reg.jobs[id]) && reg.jobs == old(reg.jobs)[id := reg.jobs[id]]
      && reg.jobs[id].user == user && reg.jobs[id].subscribers == []
      && reg.jobs[id].jobDir == JoinPath(outputRoot, id)
      && reg.jobs[id].pdfName == (if dup.value.sourceFileName.Some? && dup.value.sourceFileName.value != ""
                                  then dup.value.sourceFileName.value else UploadName(filename))
      && reg.jobs[id].View() == Status("done", 100, Some(true), None,
                                       if md.Some? && md.value != "" && md.value in existing then md else None, now)
      && r == Served(JobLinks(id)["dedup" := VBool(true)]["existing_file_id" := VInt(dup.value.id)])
      && thread.None? && history.None? && removed == Some(JoinPath(outputRoot, newJobId))
    ensures !InvalidMode(mode) && !DedupHit(dup) ==>
      newJobId in reg.jobs && fresh(reg.jobs[newJobId]) && reg.jobs == old(reg.jobs)[newJobId := reg.jobs[newJobId]]
      && reg.jobs[newJobId].user == user && reg.jobs[newJobId].subscribers == []
      && reg.jobs[newJobId].pdfName == UploadName(filename)
      && reg.jobs[newJobId].jobDir == JoinPath(outputRoot, newJobId)
      && reg.jobs[newJobId].View() == Status("queued", 0, None, None, None, now)
      && r == Served(JobLinks(newJobId))
      && history == Some(StartRecord(user, newJobId, UploadName(filename), backend, NormalizeMode(mode), sha256, sizeBytes, mtimeMs))
      && removed.None? && thread.Some? && Binds(ConvertJobParams, thread.value)
  {
    var name := UploadName(filename);
    history, removed := None, None;
    if InvalidMode(mode) {
      return Refused(400, "invalid mode"), None, None, None;
    }
    if DedupHit(dup) {
      removed := Some(JoinPath(outputRoot, newJobId));
      var d := dup.value;
      var id := d.jobId.value;
      var pdfName := if d.sourceFileName.Some? && d.sourceFileName.value != "" then d.sourceFileName.value else name;
      var md := if d.markdownPath.Some? && d.markdownPath.value != "" && d.markdownPath.value in existing then d.markdownPath else None;
      var st := reg.Register(id, user, "done", 100, now, Some(true), None, pdfName, JoinPath(outputRoot, id), md);
      r := Served(JobLinks(id)["dedup" := VBool(true)]["existing_file_id" := VInt(d.id)]);
      thread := None;
    } else {
      var st := reg.Register(newJobId, user, "queued", 0, now, None, None, name, JoinPath(outputRoot, newJobId), None);
      history := Some(StartRecord(user, newJobId, name, backend, NormalizeMode(mode), sha256, sizeBytes, mtimeMs));
      r := Served(JobLinks(newJobId));
      thread := Some(Call(6, {}));
      assert ConvertJobParams[6..] == [];
    }
  }

  /** An absolute path as its components. */
  type Path = seq<string>

  /** resolve() on already-cleaned components, with no symbolic links:
      ".." drops the last component (and stays at the root). */
  function Walk(at: Path, parts: seq<string>): (r: Path)
    decreases |parts|
  {
    if |parts| == 0 then at
    else Walk(if parts[0] == ".." then (if |at| == 0 then at else at[..|at| - 1]) else at + [parts[0]], parts[1..])
  }

  /** Without "..", walking only appends. */
  lemma {:induction false} WalkPlain(at: Path, parts: seq<string>)
    requires ".." !in parts
    ensures Walk(at, parts) == at + parts
    decreases |parts|
  {
    if |parts| > 0 {
      assert parts[0] != "..";
      assert forall k :: 0 <= k < |parts[1..]| ==> parts[1..][k] == parts[k + 1];
      WalkPlain(at + [parts[0]], parts[1..]);
      assert at + [parts[0]] + parts[1..] == at + parts;
    }
  }

  /** Path.is_relative_to */
  predicate Within(base: Path, p: Path) {
    |base| <= |p| && p[..|base|] == base
  }

  /** The file system: the regular files and the directories that exist. */
  datatype Disk = Disk(files: set<Path>, dirs: set<Path>)

  predicate Exists(disk: Disk, p: Path) {
    p in disk.files || p in disk.dirs
  }

  /** A path made of names only: no component is empty, ".", ".." or
      holds a separator. */
  predicate Named(p: Path) {
    forall k :: 0 <= k < |p| ==> p[k] != "" && p[k] != "." && p[k] != ".." && '/' !in p[k]
  }

  /** Walking cleaned components from a named path gives a named path. */
  lemma {:induction false} WalkNamed(at: Path, parts: seq<string>)
    requires Named(at)
    requires forall k :: 0 <= k < |parts| ==> parts[k] != "" && parts[k] != "." && '/' !in parts[k]
    ensures Named(Walk(at, parts))
    decreases |parts|
  {
    if |parts| > 0 {
      var next := if parts[0] == ".." then (if |at| == 0 then at else at[..|at| - 1]) else at + [parts[0]];
      assert Named(next);
      assert forall k :: 0 <= k < |parts[1..]| ==> parts[1..][k] == parts[k + 1];
      WalkNamed(next, parts[1..]);
    }
  }

  /** (Path(base) / p).resolve() with no symbolic links: an absolute p
      replaces base, and an empty p is base itself. */
  function Resolved(base: Path, p: string): Path {
    Walk(if StartsWith(p, "/") then [] else base, Parts(p))
  }

  /** Resolving against a named directory gives a named path, and the
      empty path, Path("") being ".", resolves to the directory. */
  lemma ResolvedNamed(base: Path, p: string)
    requires Named(base)
    ensures Named(Resolved(base, p))
    ensures p == "" ==> Resolved(base, p) == base
  {
    WalkNamed(if StartsWith(p, "/") then [] else base, Parts(p));
    if p == "" {
      assert Split(p, '/') == [""];
    }
  }

  /** str() of an absolute path. */
  function PathText(p: Path): (s: string)
    ensures |s| > 0 && s[0] == '/'
  {
    "/" + Join(p, "/")
  }

  lemma {:induction false} CleanNamed(xs: seq<string>)
    requires forall k :: 0 <= k < |xs| ==> xs[k] != "" && xs[k] != "."
    ensures Clean(xs) == xs
  {
    if |xs| > 0 {
      CleanNamed(xs[1..]);
    }
  }

  /** The text of a named path reads back as its components. */
  lemma PartsOfPathText(p: Path)
    requires Named(p)
    ensures Parts(PathText(p)) == p
  {
    assert Split("", '/') == [""];
    if |p| == 0 {
      assert PathText(p) == "" + ['/'] + "";
      SplitAppend("", "", '/');
      CleanAppend([""], [""]);
    } else {
      var j := Join(p, "/");
      assert PathText(p) == "" + ['/'] + j;
      SplitAppend("", j, '/');
      SplitJoin(p, '/');
      CleanAppend([""], p);
      CleanNamed(p);
    }
  }

  /** str.replace(a, b) for single characters. */
  function ReplaceChar(s: string, a: char, b: char): (r: string)
    ensures |r| == |s|
    ensures forall k :: 0 <= k < |s| ==> r[k] == (if s[k] == a then b else s[k])
  {
    seq(|s|, k requires 0 <= k < |s| => if s[k] == a then b else s[k])
  }

  /** The candidate of job_asset for the cleaned path `raw`, before the
      final existence check. An absolute path must lie inside base_dir or
      images_dir; a relative one is taken against base_dir, and against
      images_dir when that gave nothing that exists. */
  function AssetCandidate(base: Path, images: Option<Path>, raw: string, disk: Disk): (c: Option<Path>)
    ensures c.Some? ==> Within(base, c.value) || (images.Some? && Within(images.value, c.value))
  {
    if StartsWith(raw, "/") then
      var rp := Walk([], Parts(raw));
      if Within(base, rp) then Some(rp)
      else if images.Some? && Within(images.value, rp) then Some(rp)
      else None
    else
      var rp := Walk(base, Parts(raw));
      var cand := if Within(base, rp) then Some(rp) else None;
      if (cand.None? || !Exists(disk, cand.value)) && images.Some? then
        var rp2 := Walk(images.value, Parts(raw));
        if Within(images.value, rp2) then Some(rp2) else cand
      else cand
  }

  /** base_dir and images_dir of a job directory's MinerU output. */
  function AssetRoots(jobDir: Path, out: AutoOutput): (Path, Option<Path>)
  {
    (Walk(jobDir, Parts(out.autoDir)),
     if out.imagesDir.Some? then Some(Walk(jobDir, Parts(out.imagesDir.value))) else None)
  }

  /** job_asset: `reportOwned` says whether the user has a report row with
      this job id; `tree` and `treeDirs` list the job directory for
      find_auto_output; `disk` is the file system the candidate is
      checked against. */
  function JobAsset(reg: Registry, jobId: string, user: string, reportOwned: bool, outputRoot: Path,
                    tree: seq<FileRec>, treeDirs: set<string>, path: string, disk: Disk): (r: Reply<Path>)
    reads reg
    ensures path == "" ==> r.Refused? && r.status == 422
    ensures path != "" && jobId in reg.jobs && reg.jobs[jobId].user != user ==> r == Refused(403, "")
    ensures path != "" && jobId !in reg.jobs && !reportOwned ==> r == Refused(404, "")
    ensures r.Served? ==> r.body in disk.files
    ensures r.Served? ==> FindAutoOutput(tree, treeDirs).Ok?
    ensures r.Served? ==>
      var (base, images) := AssetRoots(Walk(outputRoot, Parts(jobId)), FindAutoOutput(tree, treeDirs).value);
      Within(base, r.body) || (images.Some? && Within(images.value, r.body))
  {
    if path == "" then Refused(422, "path is required")
    else
      var st := reg.Get(jobId);
      if st.Some? && st.value.user != user then Refused(403, "")
      else if st.None? && !reportOwned then Refused(404, "")
      else match FindAutoOutput(tree, treeDirs)
        case Err(_) => Refused(404, "mineru output not found")
        case Ok(out) =>
          var (base, images) := AssetRoots(Walk(outputRoot, Parts(jobId)), out);
          var raw := ReplaceChar(Strip(path), '\\', '/');
          if raw == "" then Refused(400, "path is required")
          else
            var cand := AssetCandidate(base, images, raw, disk);
            if cand.None? || cand.value !in disk.files then Refused(404, "")
            else Served(cand.value)
  }

  /** A relative path without ".." that names a file under base_dir is
      served from there. */
  lemma RelativeAssetServed(base: Path, images: Option<Path>, raw: string, disk: Disk)
    requires !StartsWith(raw, "/") && ".." !in Parts(raw)
    requires base + Parts(raw) in disk.files
    ensures AssetCandidate(base, images, raw, disk) == Some(base + Parts(raw))
  {
    WalkPlain(base, Parts(raw));
    assert (base + Parts(raw))[..|base|] == base;
  }

  /** When nothing exists under base_dir, a relative path without ".." is
      looked up under images_dir. */
  lemma RelativeAssetFromImages(base: Path, images: Path, raw: string, disk: Disk)
    requires !StartsWith(raw, "/") && ".." !in Parts(raw)
    requires !Exists(disk, base + Parts(raw))
    ensures AssetCandidate(base, Some(images), raw, disk) == Some(images + Parts(raw))
  {
    WalkPlain(base, Parts(raw));
    WalkPlain(images, Parts(raw));
    assert (base + Parts(raw))[..|base|] == base;
    assert (images + Parts(raw))[..|images|] == images;
  }

  /** What the single-page-app fallback answers. */
  datatype Page =
    | NotFound
      /** FileResponse of a file */
    | StaticFile(path: Path)
      /** the text of index.html */
    | IndexPage(text: string)
      /** "Frontend not ready." */
    | NotReady

  /** full_path.startswith(("api/", "docs", "openapi")) */
  predicate Reserved(fullPath: string) {
    StartsWith(fullPath, "api/") || StartsWith(fullPath, "docs") || StartsWith(fullPath, "openapi")
  }

  /** `static_dist_dir / full_path` as the operating system looks it up
      when asked whether it exists: an absolute full_path replaces the
      directory, and each ".." steps out of the directory reached so far,
      which must exist. None when the lookup fails. */
  function SpaCandidate(disk: Disk, staticDir: Path, fullPath: string): Option<Path> {
    Lookup(disk, if StartsWith(fullPath, "/") then [] else staticDir, Parts(fullPath))
  }

  /** The component-by-component lookup from `at`: a name descends, and
      ".." goes up from a directory that exists (the root is its own
      parent). A successful lookup ends where resolve() would. */
  function Lookup(disk: Disk, at: Path, parts: seq<string>): (r: Option<Path>)
    ensures r.Some? ==> r.value == Walk(at, parts)
    decreases |parts|
  {
    if |parts| == 0 then Some(at)
    else if parts[0] == ".." then
      if |at| == 0 then Lookup(disk, at, parts[1..])
      else if at in disk.dirs then Lookup(disk, at[..|at| - 1], parts[1..])
      else None
    else Lookup(disk, at + [parts[0]], parts[1..])
  }

  /** Without "..", the lookup only appends. */
  lemma {:induction false} LookupPlain(disk: Disk, at: Path, parts: seq<string>)
    requires ".." !in parts
    ensures Lookup(disk, at, parts) == Some(at + parts)
    decreases |parts|
  {
    if |parts| > 0 {
      assert parts[0] != "..";
      assert Lookup(disk, at, parts) == Lookup(disk, at + [parts[0]], parts[1..]);
      assert forall k :: 0 <= k < |parts[1..]| ==> parts[1..][k] == parts[k + 1];
      LookupPlain(disk, at + [parts[0]], parts[1..]);
      assert at + [parts[0]] + parts[1..] == at + parts;
    } else {
      assert at + parts == at;
    }
  }

  /** "name/.." fails when name is not an existing directory, whatever
      follows, although resolve() would cancel the two. */
  lemma LookupThroughMissing(disk: Disk, at: Path, name: string, rest: seq<string>)
    requires name != ".." && at + [name] !in disk.dirs
    ensures Lookup(disk, at, [name, ".."] + rest).None?
    ensures Walk(at, [name, ".."] + rest) == Walk(at, rest)
  {
    var ps := [name, ".."] + rest;
    assert ps[1..] == [".."] + rest && ([".."] + rest)[1..] == rest;
    assert (at + [name])[..|at|] == at;
  }

  /** spa_handler as written: any existing file the candidate names is
      served; `index` is index.html's text if it exists. */
  function SpaHandlerAsWritten(fullPath: string, staticDir: Path, disk: Disk, index: Option<string>): (r: Page)
    ensures var cand := SpaCandidate(disk, staticDir, fullPath);
      && (r.NotFound? <==> Reserved(fullPath))
      && (r.StaticFile? <==> !Reserved(fullPath) && cand.Some? && cand.value in disk.files)
      && (r.StaticFile? ==> cand == Some(r.path) && r.path == Walk(if StartsWith(fullPath, "/") then [] else staticDir, Parts(fullPath)))
      && (r.IndexPage? ==> index == Some(r.text))
      && (r.NotReady? ==> index.None?)
  {
    var cand := SpaCandidate(disk, staticDir, fullPath);
    if Reserved(fullPath) then NotFound
    else if cand.Some? && cand.value in disk.files then StaticFile(cand.value)
    else if index.Some? then IndexPage(index.value)
    else NotReady
  }

  /** The request path "//etc/passwd" reaches spa_handler as the absolute
      full_path "/etc/passwd", and the handler serves /etc/passwd, which
      is outside the static directory. */
  lemma SpaHandlerServesOutside()
    ensures var r := SpaHandlerAsWritten("/etc/passwd", ["srv", "dist"], Disk({["etc", "passwd"]}, {}), None);
      r == StaticFile(["etc", "passwd"]) && !Within(["srv", "dist"], r.path)
  {
    AbsoluteNotReserved("/etc/passwd");
    EtcPasswdCandidate(Disk({["etc", "passwd"]}, {}));
    assert ["etc", "passwd"] in Disk({["etc", "passwd"]}, {}).files;
  }

  lemma EtcPasswdCandidate(disk: Disk)
    ensures SpaCandidate(disk, ["srv", "dist"], "/etc/passwd") == Some(["etc", "passwd"])
    ensures !Within(["srv", "dist"], ["etc", "passwd"])
  {
    EtcCandidateLookup(disk);
    LookupEtc(disk);
    EtcOutsideSrv();
  }

  lemma EtcCandidateLookup(disk: Disk)
    ensures SpaCandidate(disk, ["srv", "dist"], "/etc/passwd") == Lookup(disk, [], ["etc", "passwd"])
  {
    EtcPasswdParts();
    assert "/etc/passwd"[..1] == "/";
  }

  lemma LookupEtc(disk: Disk)
    ensures Lookup(disk, [], ["etc", "passwd"]) == Some(["etc", "passwd"])
  {
    var ps := ["etc", "passwd"];
    assert |ps[0]| == 3 && |ps[1]| == 6;
    LookupPlain(disk, [], ps);
    assert [] + ps == ps;
  }

  lemma EtcOutsideSrv()
    ensures !Within(["srv", "dist"], ["etc", "passwd"])
  {
    assert "etc"[0] != "srv"[0];
    assert ["etc", "passwd"][..2][0] == "etc";
  }

  lemma EtcPasswdParts()
    ensures Parts("/etc/passwd") == ["etc", "passwd"]
  {
    assert "/etc/passwd" == "/" + "etc" + "/" + "passwd";
    AbsoluteParts("etc", "passwd");
  }

  /** An absolute full_path is never one of the reserved prefixes. */
  lemma AbsoluteNotReserved(fullPath: string)
    requires StartsWith(fullPath, "/")
    ensures !Reserved(fullPath)
  {
    assert fullPath[0] == '/';
    assert "api/"[0] == 'a' && "docs"[0] == 'd' && "openapi"[0] == 'o';
  }

  /** The components of "/a/b" for two plain names. */
  lemma AbsoluteParts(a: string, b: string)
    requires a != "" && a != "." && '/' !in a
    requires b != "" && b != "." && '/' !in b
    ensures Parts("/" + a + "/" + b) == [a, b]
  {
    assert "/" + a + "/" + b == "" + ['/'] + (a + ['/'] + b);
    SplitAppend("", a + ['/'] + b, '/');
    SplitAppend(a, b, '/');
    assert Split("/" + a + "/" + b, '/') == [""] + [a] + [b];
    CleanAppend([""], [a] + [b]);
    CleanAppend([a], [b]);
  }

  /** spa_handler with the candidate kept inside the static directory:
      a file is served only from there, and otherwise the page is what
      it would be for a missing file. */
  function SpaHandler(fullPath: string, staticDir: Path, disk: Disk, index: Option<string>): (r: Page)
    ensures var cand := SpaCandidate(disk, staticDir, fullPath);
      && (r.NotFound? <==> Reserved(fullPath))
      && (r.StaticFile? <==> !Reserved(fullPath) && cand.Some? && Within(staticDir, cand.value) && cand.value in disk.files)
      && (r.StaticFile? ==> cand == Some(r.path) && Within(staticDir, r.path) && r.path in disk.files)
      && (r.IndexPage? ==> index == Some(r.text))
      && (r.NotReady? ==> index.None?)
  {
    var cand := SpaCandidate(disk, staticDir, fullPath);
    if Reserved(fullPath) then NotFound
    else if cand.Some? && Within(staticDir, cand.value) && cand.value in disk.files then StaticFile(cand.value)
    else if index.Some? then IndexPage(index.value)
    else NotReady
  }

  /** For a relative path without "..", which is what the front end asks
      for, the contained handler answers as the one written. */
  lemma SpaHandlerAgreesInside(fullPath: string, staticDir: Path, disk: Disk, index: Option<string>)
    requires !StartsWith(fullPath, "/") && ".." !in Parts(fullPath)
    ensures SpaCandidate(disk, staticDir, fullPath) == Some(staticDir + Parts(fullPath))
    ensures SpaHandler(fullPath, staticDir, disk, index) == SpaHandlerAsWritten(fullPath, staticDir, disk, index)
  {
    LookupPlain(disk, staticDir, Parts(fullPath));
    assert (staticDir + Parts(fullPath))[..|staticDir|] == staticDir;
  }
}
