/** The question-answering service's own logic (src/qa/service.py): the
    title of a retrieved chunk, the API key and base URL of the LLM
    provider, the labelled sources and context blocks handed to the model,
    and the answer returned. The vector search, the report lookup in the
    database and the chat completion itself are parameters. */
module Qa {
  import opened Text
  import opened Values
  import Api

  const NotEnoughData := "There isn't enough data to answer this"
  const DashscopeUrl := "https://dashscope.aliyuncs.com/compatible-mode/v1"

  /** The last (at most) three items of a list. */
  function LastThree<T>(xs: seq<T>): (r: seq<T>)
    ensures |r| <= 3 && |r| == if |xs| < 3 then |xs| else 3
    ensures r == xs[|xs| - |r|..]
  {
    if |xs| <= 3 then xs else xs[|xs| - 3..]
  }

  /** str() of the items that are not None and whose text is not blank. */
  function TitleParts(items: seq<Value>): (r: seq<string>)
    ensures |r| <= |items|
    ensures forall k :: 0 <= k < |r| ==> !IsBlank(r[k])
  {
    if |items| == 0 then []
    else
      var rest := TitleParts(items[1..]);
      if items[0] == VNone || IsBlank(Str(items[0])) then rest
      else [Str(items[0])] + rest
  }

  /** _pick_title: the last three headings that are not None and not
      blank, joined by " / "; None when there is no such heading or the
      headings are not a non-empty list. */
  function PickTitle(meta: Dict): (r: Option<string>)
    ensures r.Some? ==> r.value != ""
    ensures r.Some? ==> "headings" in meta && meta["headings"].VList? && meta["headings"].items != []
  {
    match Get(meta, "headings", VNone)
    case VList(hs) =>
      if hs == [] then None
      else
        var t := Join(TitleParts(LastThree(hs)), " / ");
        if t == "" then None else Some(t)
    case _ => None
  }

  /** The text of the title parts joined is empty exactly when there are
      no parts. */
  lemma {:induction false} JoinPartsEmpty(parts: seq<string>)
    requires forall k :: 0 <= k < |parts| ==> parts[k] != ""
    ensures Join(parts, " / ") == "" <==> parts == []
  {
    if |parts| > 0 {
      JoinFirst(parts);
    }
  }

  lemma JoinFirst(parts: seq<string>)
    requires |parts| > 0 && parts[0] != ""
    ensures |Join(parts, " / ")| > 0
  {
    if |parts| > 1 {
      assert Join(parts, " / ") == parts[0] + " / " + Join(parts[1..], " / ");
    }
  }

  /** Headings made only of non-blank strings give the last three of them
      joined; only the last three count. */
  lemma PickTitleOfStrings(meta: Dict, hs: seq<string>)
    requires "headings" in meta && meta["headings"] == VList(seq(|hs|, k requires 0 <= k < |hs| => VStr(hs[k])))
    requires hs != [] && forall k :: 0 <= k < |hs| ==> !IsBlank(hs[k])
    ensures PickTitle(meta) == Some(Join(LastThree(hs), " / "))
  {
    var items := seq(|hs|, k requires 0 <= k < |hs| => VStr(hs[k]));
    var tail := LastThree(items);
    assert |tail| == |LastThree(hs)|;
    forall k | 0 <= k < |tail| ensures tail[k] == VStr(LastThree(hs)[k]) {
    }
    TitlePartsOfStrings(tail, LastThree(hs));
    forall k | 0 <= k < |LastThree(hs)| ensures LastThree(hs)[k] != "" {
      assert LastThree(hs)[k] == hs[|hs| - |LastThree(hs)| + k];
    }
    JoinPartsEmpty(LastThree(hs));
  }

  lemma {:induction false} TitlePartsOfStrings(items: seq<Value>, strs: seq<string>)
    requires |items| == |strs|
    requires forall k :: 0 <= k < |items| ==> items[k] == VStr(strs[k]) && !IsBlank(strs[k])
    ensures TitleParts(items) == strs
  {
    if |items| > 0 {
      TitlePartsOfStrings(items[1..], strs[1..]);
    }
  }

  /** (provider or "").strip().lower() */
  function NormalizeProvider(provider: string): (r: string)
    ensures Lower(r) == r
    ensures |r| <= |provider|
  {
    LowerIdempotent(Strip(provider));
    Lower(Strip(provider))
  }

  predicate IsDashscope(provider: string) {
    NormalizeProvider(provider) in {"qwen", "dashscope", "aliyun"}
  }

  /** `os.getenv(a) or os.getenv(b) or ...`: the first variable that is
      set to a non-empty value. */
  function FirstSet(env: map<string, string>, names: seq<string>): (r: Option<string>)
    ensures r.Some? ==> r.value != "" && exists k :: 0 <= k < |names| && names[k] in env && env[names[k]] == r.value
    ensures r.None? <==> forall k :: 0 <= k < |names| ==> names[k] !in env || env[names[k]] == ""
  {
    if |names| == 0 then None
    else if names[0] in env && env[names[0]] != "" then Some(env[names[0]])
    else
      var rest := FirstSet(env, names[1..]);
      assert forall k :: 1 <= k < |names| ==> names[k] == names[1..][k - 1];
      rest
  }

  /** The earlier variable wins whenever it is set. */
  lemma FirstSetPrefers(env: map<string, string>, names: seq<string>, k: nat)
    requires k < |names| && names[k] in env && env[names[k]] != ""
    requires forall j :: 0 <= j < k ==> names[j] !in env || env[names[j]] == ""
    ensures FirstSet(env, names) == Some(env[names[k]])
  {
    if k > 0 {
      FirstSetPrefers(env, names[1..], k - 1);
    }
  }

  /** The variables _resolve_api_key reads, in order. */
  function KeyVariables(provider: string): (r: seq<string>)
    ensures |r| >= 1 && r[|r| - 1] == "FRA_LLM_API_KEY"
  {
    var p := NormalizeProvider(provider);
    if p in {"qwen", "dashscope", "aliyun"} then ["DASHSCOPE_API_KEY", "FRA_DASHSCOPE_API_KEY", "FRA_LLM_API_KEY"]
    else if p == "openai" then ["OPENAI_API_KEY", "FRA_OPENAI_API_KEY", "FRA_LLM_API_KEY"]
    else ["FRA_LLM_API_KEY"]
  }

  function MissingKeyMessage(provider: string): string {
    var p := NormalizeProvider(provider);
    if p in {"qwen", "dashscope", "aliyun"} then "Missing API key. Set DASHSCOPE_API_KEY (recommended) or FRA_LLM_API_KEY."
    else if p == "openai" then "Missing API key. Set OPENAI_API_KEY (recommended) or FRA_LLM_API_KEY."
    else "Missing API key. Set FRA_LLM_API_KEY."
  }

  /** _resolve_api_key: the first provider-specific variable that is set,
      with FRA_LLM_API_KEY last; a RuntimeError naming the variables when
      none is. */
  function ResolveApiKey(provider: string, env: map<string, string>): (r: Result<string, string>)
    ensures r.Ok? <==> FirstSet(env, KeyVariables(provider)).Some?
    ensures r.Ok? ==> r.value != "" && r.value == FirstSet(env, KeyVariables(provider)).value
    ensures r.Err? ==> r.error == MissingKeyMessage(provider)
  {
    match FirstSet(env, KeyVariables(provider))
    case Some(key) => Ok(key)
    case None => Err(MissingKeyMessage(provider))
  }

  /** FRA_LLM_API_KEY is the fallback for every provider, and the only
      variable read for a provider other than qwen/dashscope/aliyun and
      openai. */
  lemma ApiKeyFallback(provider: string, env: map<string, string>)
    requires "FRA_LLM_API_KEY" in env && env["FRA_LLM_API_KEY"] != ""
    ensures ResolveApiKey(provider, env).Ok?
    ensures !IsDashscope(provider) && NormalizeProvider(provider) != "openai" ==>
      ResolveApiKey(provider, env) == Ok(env["FRA_LLM_API_KEY"])
  {
    var names := KeyVariables(provider);
    assert names[|names| - 1] == "FRA_LLM_API_KEY";
  }

  /** DASHSCOPE_API_KEY wins for the qwen family, whatever else is set. */
  lemma DashscopeKeyFirst(provider: string, env: map<string, string>)
    requires IsDashscope(provider)
    requires "DASHSCOPE_API_KEY" in env && env["DASHSCOPE_API_KEY"] != ""
    ensures ResolveApiKey(provider, env) == Ok(env["DASHSCOPE_API_KEY"])
  {
  }

  predicate IsTick(c: char) {
    c == '`'
  }

  /** _resolve_base_url: an explicit URL wins, stripped of whitespace and
      then of backticks; else the DashScope endpoint for the qwen family;
      else None. */
  function ResolveBaseUrl(provider: string, baseUrl: Option<string>): (r: Option<string>)
    ensures baseUrl.Some? && baseUrl.value != "" ==> r.Some?
    ensures baseUrl.Some? && baseUrl.value != "" ==> r == Some(StripTicks(Strip(baseUrl.value)))
    ensures (baseUrl.None? || baseUrl.value == "") ==> (r == if IsDashscope(provider) then Some(DashscopeUrl) else None)
  {
    if baseUrl.Some? && baseUrl.value != "" then
      var t := StripTicks(Strip(baseUrl.value));
      Some(t)
    else if IsDashscope(provider) then
      Some(DashscopeUrl)
    else None
  }

  /** s.strip("`") */
  function StripTicks(s: string): (t: string)
    ensures t != "" ==> t[0] != '`' && t[|t| - 1] != '`'
  {
    var u := LStripBy(s, IsTick);
    LStripByFacts(s, IsTick);
    var t := RStripBy(u, IsTick);
    RStripByFacts(u, IsTick);
    assert t != "" ==> t[0] == u[0] && !IsTick(u[0]) && !IsTick(t[|t| - 1]);
    t
  }

  /** A URL written in backticks and surrounding spaces is taken as the
      URL inside. */
  lemma BaseUrlUnquoted(provider: string, url: string)
    requires url != "" && url[0] != '`' && url[|url| - 1] != '`'
    requires !IsSpace(url[0]) && !IsSpace(url[|url| - 1])
    ensures ResolveBaseUrl(provider, Some(" `" + url + "` ")) == Some(url)
  {
    var raw := " `" + url + "` ";
    var inner := "`" + url + "`";
    assert Strip(raw) == inner by {
      assert raw[1..] == inner + " ";
      assert (inner + " ")[..|inner + " "| - 1] == inner;
      StripOfStripped(inner);
    }
    LStripByIs(inner, IsTick, 1);
    assert inner[1..] == url + "`";
    ClosingTickDropped(url + "`", url);
  }

  lemma ClosingTickDropped(s: string, url: string)
    requires s == url + "`" && url != "" && url[|url| - 1] != '`'
    ensures RStripBy(s, IsTick) == url
  {
    assert s[..|s| - 1] == url;
  }

  /** What the report lookup gives for a job: one row of job_id_to_file. */
  datatype FileInfo = FileInfo(
    fileId: int,
    fileName: string,
    companyCode: string,
    companyName: Option<string>,
    reportYear: Option<int>,
    reportType: Option<string>)

  /** The dict stored in job_id_to_file. */
  function InfoDict(fi: FileInfo): (d: Dict)
    ensures d.Keys == {"file_id", "file_name", "company_code", "company_name", "report_year", "report_type"}
    ensures d["file_id"] == VInt(fi.fileId) && d["file_name"] == VStr(fi.fileName)
  {
    map["file_id" := VInt(fi.fileId), "file_name" := VStr(fi.fileName),
        "company_code" := VStr(fi.companyCode), "company_name" := OptionalStr(fi.companyName),
        "report_year" := OptionalInt(fi.reportYear), "report_type" := OptionalStr(fi.reportType)]
  }

  /** The row of a report: its file name is that of its markdown path. */
  function FileInfoOf(reportId: int, markdownPath: string, code: string, name: Option<string>,
                      year: Option<int>, kind: Option<string>): (fi: FileInfo)
    ensures '/' !in fi.fileName
  {
    FileInfo(reportId, Api.PathName(markdownPath), code, name, year, kind)
  }

  /** No later row is about the same job as row k. */
  predicate LastFor(rows: seq<(string, FileInfo)>, k: nat) {
    k < |rows| && forall m :: k < m < |rows| ==> rows[m].0 != rows[k].0
  }

  /** job_id_to_file after the loop over the looked-up rows (job id and
      report row). */
  function FilesOf(rows: seq<(string, FileInfo)>): map<string, FileInfo> {
    if |rows| == 0 then map[]
    else FilesOf(rows[..|rows| - 1])[rows[|rows| - 1].0 := rows[|rows| - 1].1]
  }

  /** Every job of a row is present, with its last row. */
  lemma FilesOfFacts(rows: seq<(string, FileInfo)>)
    ensures forall j :: j in FilesOf(rows) <==> exists k :: 0 <= k < |rows| && rows[k].0 == j
    ensures forall k :: 0 <= k < |rows| && LastFor(rows, k) ==> FilesOf(rows)[rows[k].0] == rows[k].1
  {
    FilesOfKeys(rows);
    FilesOfLast(rows);
  }

  /** The jobs present are exactly the jobs of the rows. */
  lemma {:induction false} FilesOfKeys(rows: seq<(string, FileInfo)>)
    ensures forall j :: j in FilesOf(rows) <==> exists k :: 0 <= k < |rows| && rows[k].0 == j
  {
    if |rows| > 0 {
      var pre := rows[..|rows| - 1];
      FilesOfKeys(pre);
      var r := FilesOf(rows);
      assert r == FilesOf(pre)[rows[|rows| - 1].0 := rows[|rows| - 1].1];
      forall j ensures j in r <==> exists k :: 0 <= k < |rows| && rows[k].0 == j {
        if j in r && j != rows[|rows| - 1].0 {
          var k :| 0 <= k < |pre| && pre[k].0 == j;
          assert rows[k].0 == j;
        } else if j !in r {
          forall k | 0 <= k < |rows| ensures rows[k].0 != j {
            if k < |pre| {
              assert pre[k] == rows[k];
            }
          }
        }
      }
    }
  }

  /** A job present maps to its last row. */
  lemma {:induction false} FilesOfLast(rows: seq<(string, FileInfo)>)
    ensures forall k :: 0 <= k < |rows| && LastFor(rows, k) ==> rows[k].0 in FilesOf(rows) && FilesOf(rows)[rows[k].0] == rows[k].1
  {
    if |rows| > 0 {
      var pre := rows[..|rows| - 1];
      FilesOfLast(pre);
      var r := FilesOf(rows);
      assert r == FilesOf(pre)[rows[|rows| - 1].0 := rows[|rows| - 1].1];
      forall k | 0 <= k < |rows| && LastFor(rows, k) ensures r[rows[k].0] == rows[k].1 {
        if k < |rows| - 1 {
          assert pre[k] == rows[k];
          assert rows[|rows| - 1].0 != rows[k].0;
          assert LastFor(pre, k) by {
            forall m | k < m < |pre| ensures pre[m].0 != pre[k].0 {
              assert pre[m] == rows[m];
            }
          }
        }
      }
    }
  }

  /** The loop filling job_id_to_file. */
  method BuildFileMap(rows: seq<(string, FileInfo)>) returns (files: map<string, FileInfo>)
    ensures files == FilesOf(rows)
  {
    files := map[];
    var i := 0;
    while i < |rows|
      invariant 0 <= i <= |rows|
      invariant files == FilesOf(rows[..i])
    {
      assert rows[..i + 1][..i] == rows[..i];
      files := files[rows[i].0 := rows[i].1];
      i := i + 1;
    }
    assert rows[..i] == rows;
  }

  /** The job ids of the results, when no report was selected: the
      distinct non-empty ones, sorted. */
  function FoundJobIds(results: seq<Dict>): (r: seq<string>)
    ensures StrictlySorted(r)
    ensures forall j :: j in r <==> j != "" && exists k :: 0 <= k < |results| && JobIdOf(MetaOf(results[k])) == j
  {
    var ids := seq(|results|, k requires 0 <= k < |results| => JobIdOf(MetaOf(results[k])));
    var all := SortedUnique(ids);
    assert forall j :: j in ids <==> exists k :: 0 <= k < |results| && JobIdOf(MetaOf(results[k])) == j by {
      forall j ensures j in ids <==> exists k :: 0 <= k < |results| && JobIdOf(MetaOf(results[k])) == j {
        if j in ids {
          var k :| 0 <= k < |ids| && ids[k] == j;
        }
        if exists k :: 0 <= k < |results| && JobIdOf(MetaOf(results[k])) == j {
          var k :| 0 <= k < |results| && JobIdOf(MetaOf(results[k])) == j;
          assert ids[k] == j;
        }
      }
    }
    NonEmptyOnly(all)
  }

  function NonEmptyOnly(xs: seq<string>): (r: seq<string>)
    requires StrictlySorted(xs)
    ensures StrictlySorted(r)
    ensures forall y :: y in r <==> y in xs && y != ""
  {
    if |xs| == 0 then []
    else
      var rest := NonEmptyOnly(xs[1..]);
      assert forall y :: y in rest ==> Less(xs[0], y) by {
        forall y | y in rest ensures Less(xs[0], y) {
          var j :| 0 <= j < |xs[1..]| && xs[1..][j] == y;
          assert xs[j + 1] == y;
        }
      }
      if xs[0] == "" then rest else [xs[0]] + rest
  }

  /** dict(r.get("metadata") or {}) */
  function MetaOf(r: Dict): Dict {
    match Get(r, "metadata", VNone)
    case VDict(m) => m
    case _ => map[]
  }

  /** str(meta.get("job_id") or "") */
  function JobIdOf(meta: Dict): string {
    StrOr(meta, "job_id")
  }

  /** A source handed back to the caller; kind is always "chunk". */
  datatype Source = Source(kind: string, title: Option<string>, snippet: string, metadata: Dict)

  /** The title of a source: the file name and the heading title, those
      that are non-empty, joined by " / "; else the heading title. */
  function SourceTitle(fileName: Option<string>, heading: Option<string>): (r: Option<string>)
    requires heading.Some? ==> heading.value != ""
    ensures r.Some? ==> r.value != ""
    ensures r.None? <==> (fileName.None? || fileName.value == "") && heading.None?
    ensures fileName.Some? && fileName.value != "" && heading.Some? ==> r == Some(fileName.value + " / " + heading.value)
  {
    var parts := (if fileName.Some? && fileName.value != "" then [fileName.value] else [])
      + (if heading.Some? then [heading.value] else []);
    if parts == [] then heading
    else
      assert |parts| == 2 ==> Join(parts, " / ") == parts[0] + " / " + Join(parts[1..], " / ");
      JoinFirst(parts);
      Some(Join(parts, " / "))
  }

  /** "[S{i}]" */
  function Label(i: nat): string {
    "[S" + NatToString(i) + "]"
  }

  /** Different positions carry different labels. */
  lemma LabelInjective(i: nat, j: nat)
    requires Label(i) == Label(j)
    ensures i == j
  {
    var a := NatToString(i);
    var b := NatToString(j);
    assert a == Label(i)[2..|Label(i)| - 1];
    assert b == Label(j)[2..|Label(j)| - 1];
    NatToStringValue(i);
    NatToStringValue(j);
  }

  /** The source and the context block of the i-th result (from 1). */
  function SourceOf(i: nat, r: Dict, files: map<string, FileInfo>): (s: (Source, string))
    ensures s.0.kind == "chunk"
    ensures s.1 == Block(i, s.0.title, s.0.snippet)
    ensures Strip(s.0.snippet) == s.0.snippet
    ensures JobIdOf(MetaOf(r)) in files ==> s.0.metadata == MetaOf(r) + InfoDict(files[JobIdOf(MetaOf(r))])
    ensures JobIdOf(MetaOf(r)) !in files ==> s.0.metadata == MetaOf(r) && s.0.title == PickTitle(MetaOf(r))
  {
    var meta := MetaOf(r);
    var snippet := Strip(StrOr(r, "snippet"));
    StripIdempotent(StrOr(r, "snippet"));
    var heading := PickTitle(meta);
    var jobId := JobIdOf(meta);
    var fileName := if jobId in files then Some(files[jobId].fileName) else None;
    var title := SourceTitle(fileName, heading);
    var metadata := if jobId in files then meta + InfoDict(files[jobId]) else meta;
    (Source("chunk", title, snippet, metadata), Block(i, title, snippet))
  }

  /** f"[S{i}]" + (f" {title}" if title else "") + "\n" + snippet */
  function Block(i: nat, title: Option<string>, snippet: string): string {
    Label(i) + (if title.Some? then " " + title.value else "") + "\n" + snippet
  }

  /** The context blocks of all results, in order. */
  function Blocks(results: seq<Dict>, files: map<string, FileInfo>): seq<string> {
    seq(|results|, k requires 0 <= k < |results| => SourceOf(k + 1, results[k], files).1)
  }

  /** The blocks the sources loop builds are the context blocks of the
      results. */
  lemma BlocksAre(results: seq<Dict>, files: map<string, FileInfo>, sources: seq<Source>, blocks: seq<string>)
    requires |sources| == |results| && |blocks| == |results|
    requires forall k :: 0 <= k < |results| ==> (sources[k], blocks[k]) == SourceOf(k + 1, results[k], files)
    ensures blocks == Blocks(results, files)
  {
    var b := Blocks(results, files);
    forall k | 0 <= k < |results| ensures blocks[k] == b[k] {
      assert (sources[k], blocks[k]) == SourceOf(k + 1, results[k], files);
    }
  }

  /** The sources loop of answer_question: one source and one context
      block per result, labelled [S1], [S2], ... in result order. */
  method BuildSources(results: seq<Dict>, files: map<string, FileInfo>) returns (sources: seq<Source>, blocks: seq<string>)
    ensures |sources| == |results| && |blocks| == |results|
    ensures forall k :: 0 <= k < |results| ==> (sources[k], blocks[k]) == SourceOf(k + 1, results[k], files)
  {
    sources := [];
    blocks := [];
    var i := 0;
    while i < |results|
      invariant 0 <= i <= |results| && |sources| == i && |blocks| == i
      invariant forall k :: 0 <= k < i ==> (sources[k], blocks[k]) == SourceOf(k + 1, results[k], files)
    {
      var sb := SourceOf(i + 1, results[i], files);
      SourcesGrow(results, files, sources, blocks, i);
      sources := sources + [sb.0];
      blocks := blocks + [sb.1];
      i := i + 1;
    }
  }

  /** One more step of the sources loop keeps every earlier entry. */
  lemma SourcesGrow(results: seq<Dict>, files: map<string, FileInfo>, sources: seq<Source>, blocks: seq<string>, i: nat)
    requires i < |results| && |sources| == i && |blocks| == i
    requires forall k :: 0 <= k < i ==> (sources[k], blocks[k]) == SourceOf(k + 1, results[k], files)
    ensures var sb := SourceOf(i + 1, results[i], files);
      forall k :: 0 <= k < i + 1 ==> ((sources + [sb.0])[k], (blocks + [sb.1])[k]) == SourceOf(k + 1, results[k], files)
  {
  }

  /** The context block of each result opens with its own label, and the
      title and snippet follow it. */
  lemma BlockLabelled(i: nat, title: Option<string>, snippet: string)
    ensures StartsWith(Block(i, title, snippet), Label(i))
    ensures EndsWith(Block(i, title, snippet), "\n" + snippet)
  {
    var b := Block(i, title, snippet);
    var mid := if title.Some? then " " + title.value else "";
    assert b == Label(i) + (mid + "\n" + snippet);
    assert b == (Label(i) + mid) + ("\n" + snippet);
  }

  /** The user message sent to the model. */
  function UserPrompt(question: string, blocks: seq<string>, strict: bool): (r: string)
    ensures StartsWith(r, if strict then "strict=true\n\nQuestion:\n" else "strict=false\n\nQuestion:\n")
    ensures EndsWith(r, "\n\nContext:\n" + Strip(Join(blocks, "\n\n")))
  {
    var head := "strict=" + (if strict then "true" else "false") + "\n\nQuestion:\n";
    var tail := "\n\nContext:\n" + Strip(Join(blocks, "\n\n"));
    assert head == if strict then "strict=true\n\nQuestion:\n" else "strict=false\n\nQuestion:\n";
    assert (head + question + tail)[..|head|] == head;
    assert (head + question + tail)[|head + question|..] == tail;
    head + question + tail
  }

  /** What the model is asked with: the temperature (0.0 when strict) and
      the user message. */
  datatype Request = Request(provider: string, temperature: real, prompt: string)

  /** `(msg.content or "").strip() or NOT_ENOUGH_DATA` */
  function ReplyText(content: Option<string>): (r: string)
    ensures r != ""
    ensures content.Some? && !IsBlank(content.value) ==> r == Strip(content.value)
    ensures content.None? || IsBlank(content.value) ==> r == NotEnoughData
  {
    var t := if content.Some? then Strip(content.value) else "";
    StripFacts(if content.Some? then content.value else "");
    if t == "" then NotEnoughData else t
  }

  datatype Response = Response(answer: string, sources: seq<Source>)

  /** answer_question after the retrieval: with no results the canned
      answer and no sources, without asking the model; otherwise the model
      is asked once (`ask` returns its message content) and its reply is
      returned with the sources. The lookup of the selected reports is
      `files`. */
  method AnswerQuestion(question: string, strict: bool, cfgProvider: string, cfgTemperature: real,
                        results: seq<Dict>, files: map<string, FileInfo>, ask: Request -> Option<string>)
    returns (resp: Response, asked: Option<Request>)
    ensures results == [] ==> resp == Response(NotEnoughData, []) && asked.None?
    ensures results != [] ==> asked.Some? && resp.answer == ReplyText(ask(asked.value))
    ensures results != [] ==> asked.value.prompt == UserPrompt(question, Blocks(results, files), strict)
    ensures results != [] ==> asked.value.temperature == (if strict then 0.0 else cfgTemperature)
    ensures results != [] ==> asked.value.provider == NormalizeProvider(if cfgProvider == "" then "qwen" else cfgProvider)
    ensures |resp.sources| == |results|
    ensures forall k :: 0 <= k < |results| ==> resp.sources[k] == SourceOf(k + 1, results[k], files).0
    ensures resp.answer != ""
  {
    var sources, blocks := BuildSources(results, files);
    if sources == [] {
      return Response(NotEnoughData, []), None;
    }
    var provider := NormalizeProvider(if cfgProvider == "" then "qwen" else cfgProvider);
    var temperature := if strict then 0.0 else cfgTemperature;
    BlocksAre(results, files, sources, blocks);
    var request := Request(provider, temperature, UserPrompt(question, blocks, strict));
    var answer := ReplyText(ask(request));
    resp := Response(answer, sources);
    asked := Some(request);
  }
}
