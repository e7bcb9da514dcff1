/** Fact extraction from a converted report (src/db/normalizer.py): the
    number found in a value text, the "key: value" lines of each chunk,
    the company upsert and the re-ingestion of a job's report. The
    database is an object holding the three tables, keyed by company code
    and by job id; reading the markdown file is a parameter. */
module Normalizer {
  import opened Text
  import opened Values
  import AutoReader
  import Chunking

  /** text.replace(",", "") */
  function Uncomma(s: string): (r: string)
    ensures ',' !in r && |r| <= |s|
    ensures forall c :: c in r ==> c in s
  {
    if |s| == 0 then ""
    else if s[0] == ',' then Uncomma(s[1..])
    else [s[0]] + Uncomma(s[1..])
  }

  lemma {:induction false} UncommaAppend(a: string, b: string)
    ensures Uncomma(a + b) == Uncomma(a) + Uncomma(b)
  {
    if |a| > 0 {
      assert (a + b)[1..] == a[1..] + b;
      UncommaAppend(a[1..], b);
    } else {
      assert a + b == b;
    }
  }

  /** Where `-?\d` matches: a digit, or a minus sign right before one. */
  predicate StartsNumber(s: string, i: nat) {
    i < |s| && (IsDigit(s[i]) || (s[i] == '-' && i + 1 < |s| && IsDigit(s[i + 1])))
  }

  /** The first position at or after i where a number starts, as re.search
      scans. */
  function FirstNumber(s: string, i: nat): (r: Option<nat>)
    ensures r.Some? ==> i <= r.value && StartsNumber(s, r.value)
    ensures r.Some? ==> forall k :: i <= k < r.value ==> !StartsNumber(s, k)
    ensures r.None? ==> forall k :: i <= k < |s| ==> !StartsNumber(s, k)
    decreases |s| - i
  {
    if i >= |s| then None
    else if StartsNumber(s, i) then Some(i)
    else FirstNumber(s, i + 1)
  }

  predicate DigitOrDot(c: char) {
    IsDigit(c) || c == '.'
  }

  /** The end of the run of digits and dots from j: `[\d.]*` is greedy,
      and what follows it is then never a digit, so `(?!\d)` holds. */
  function RunEnd(s: string, j: nat): (r: nat)
    requires j <= |s|
    ensures j <= r <= |s|
    ensures forall k :: j <= k < r ==> DigitOrDot(s[k])
    ensures r == |s| || !DigitOrDot(s[r])
    decreases |s| - j
  {
    if j < |s| && DigitOrDot(s[j]) then RunEnd(s, j + 1) else j
  }

  /** The text of `(-?\d[\d.]*)(?!\d)`'s first match. */
  function NumberToken(s: string): (r: Option<string>)
    ensures r.Some? ==> |r.value| > 0 && (IsDigit(r.value[0]) || (|r.value| > 1 && r.value[0] == '-' && IsDigit(r.value[1])))
    ensures r.Some? ==> forall k :: 1 <= k < |r.value| ==> DigitOrDot(r.value[k])
    ensures r.None? <==> forall k :: 0 <= k < |s| ==> !StartsNumber(s, k)
  {
    match FirstNumber(s, 0)
    case None => None
    case Some(i) =>
      var digits := if s[i] == '-' then i + 1 else i;
      Some(s[i..RunEnd(s, digits + 1)])
  }

  function Pow10(n: nat): (r: nat)
    ensures r >= 1
  {
    if n == 0 then 1 else 10 * Pow10(n - 1)
  }

  /** float() of a token of digits and dots after an optional sign: at
      most one dot is accepted. */
  function FloatOf(token: string): (r: Option<real>)
    requires |token| > 0 && (IsDigit(token[0]) || (|token| > 1 && token[0] == '-' && IsDigit(token[1])))
    requires forall k :: 1 <= k < |token| ==> DigitOrDot(token[k])
  {
    var negative := token[0] == '-';
    var body := if negative then token[1..] else token;
    var parts := Split(body, '.');
    assert forall k :: 0 <= k < |parts| ==> AllDigits(parts[k]) by {
      forall k | 0 <= k < |body| ensures IsDigit(body[k]) || body[k] == '.' {
        var t := if negative then k + 1 else k;
        assert body[k] == token[t];
        if t >= 1 {
          assert DigitOrDot(token[t]);
        }
      }
      SplitFromChars(body, '.');
    }
    if |parts| > 2 then None
    else
      var whole := DigitsValue(parts[0]) as real;
      var frac := if |parts| == 2 then DigitsValue(parts[1]) as real / Pow10(|parts[1]|) as real else 0.0;
      Some(if negative then -(whole + frac) else whole + frac)
  }

  /** The parts of a split hold only characters of the text other than the
      separator. */
  lemma {:induction false} SplitFromChars(s: string, sep: char)
    requires forall k :: 0 <= k < |s| ==> IsDigit(s[k]) || s[k] == sep
    ensures forall k :: 0 <= k < |Split(s, sep)| ==> AllDigits(Split(s, sep)[k])
    decreases |s|
  {
    if sep in s {
      var i := IndexOfChar(s, sep);
      SplitFromChars(s[i + 1..], sep);
      assert forall k :: 0 <= k < i ==> s[..i][k] == s[k];
    }
  }

  /** _parse_number: commas removed, the first number token, and float()
      of it; None when there is no token or float() refuses it. */
  function ParseNumber(text: string): (r: Option<real>)
    ensures (forall k :: 0 <= k < |Uncomma(text)| ==> !StartsNumber(Uncomma(text), k)) ==> r.None?
  {
    match NumberToken(Uncomma(text))
    case None => None
    case Some(token) => FloatOf(token)
  }

  /** A text without digits holds no number. */
  lemma ParseNumberNoDigits(text: string)
    requires forall k :: 0 <= k < |text| ==> !IsDigit(text[k])
    ensures ParseNumber(text) == None
  {
    var s := Uncomma(text);
    forall k | 0 <= k < |s| ensures !IsDigit(s[k]) {
      assert s[k] in s;
    }
  }

  /** Commas are ignored wherever they stand. */
  lemma CommasIgnored(a: string, b: string)
    ensures ParseNumber(a + "," + b) == ParseNumber(a + b)
  {
    UncommaDropsComma(a, b);
  }

  lemma UncommaDropsComma(a: string, b: string)
    ensures Uncomma(a + "," + b) == Uncomma(a + b)
  {
    UncommaAppend(a + ",", b);
    UncommaAppend(a, ",");
    UncommaAppend(a, b);
    assert Uncomma(",") == Uncomma("");
  }

  /** The digits of a natural number, alone or after a minus sign, parse
      back to that number. */
  lemma ParseNumberOfNat(n: nat)
    ensures ParseNumber(NatToString(n)) == Some(n as real)
    ensures ParseNumber("-" + NatToString(n)) == Some(-(n as real))
  {
    ParsePlainDigits(n);
    ParseNegatedDigits(n);
  }

  lemma ParsePlainDigits(n: nat)
    ensures ParseNumber(NatToString(n)) == Some(n as real)
  {
    var d := NatToString(n);
    NatToStringValue(n);
    UncommaOfDigits(d);
    TokenOfNumber(d, 0);
  }

  lemma ParseNegatedDigits(n: nat)
    ensures ParseNumber("-" + NatToString(n)) == Some(-(n as real))
  {
    var d := NatToString(n);
    NatToStringValue(n);
    UncommaOfDigits("-" + d);
    TokenOfNumber("-" + d, 1);
    assert ("-" + d)[1..] == d;
  }

  lemma UncommaOfDigits(s: string)
    requires forall k :: 0 <= k < |s| ==> s[k] != ','
    ensures Uncomma(s) == s
  {
    if |s| > 0 {
      UncommaOfDigits(s[1..]);
    }
  }

  /** A text made of an optional sign and digits is its own token. */
  lemma TokenOfNumber(s: string, start: nat)
    requires start <= 1 && start < |s| && (start == 1 ==> s[0] == '-')
    requires forall k :: start <= k < |s| ==> IsDigit(s[k])
    ensures NumberToken(s) == Some(s)
    ensures Split(s[start..], '.') == [s[start..]]
  {
    assert StartsNumber(s, 0);
    RunEndOfRun(s, start + 1);
    assert s[0..|s|] == s;
    assert '.' !in s[start..] by {
      forall k | 0 <= k < |s[start..]| ensures s[start..][k] != '.' {
        assert IsDigit(s[k + start]);
      }
    }
  }

  lemma {:induction false} RunEndOfRun(s: string, j: nat)
    requires j <= |s|
    requires forall k :: j <= k < |s| ==> DigitOrDot(s[k])
    ensures RunEnd(s, j) == |s|
    decreases |s| - j
  {
    if j < |s| {
      RunEndOfRun(s, j + 1);
    }
  }

  /** A fact row: report_id is the job the table is keyed by. */
  datatype Fact = Fact(key: string, valueText: string, valueNum: Option<real>, sourceHeading: Option<string>)

  /** One stripped line of a chunk: split at the first ":" when there is
      one, else at the first fullwidth "："; a fact only when both sides
      are non-blank. */
  function FactOfLine(ln: string, heading: Option<string>): (r: Option<Fact>)
    ensures ':' !in ln && '：' !in ln ==> r.None?
    ensures r.Some? ==> r.value.key != "" && r.value.valueText != ""
    ensures r.Some? ==> Strip(r.value.key) == r.value.key && Strip(r.value.valueText) == r.value.valueText
    ensures r.Some? ==> r.value.valueNum == ParseNumber(r.value.valueText) && r.value.sourceHeading == heading
    ensures r.Some? && ':' in ln ==> ':' !in r.value.key
  {
    var parts := if ':' in ln then SplitOnce(ln, ':') else SplitOnce(ln, '：');
    match parts
    case None => None
    case Some((k, v)) =>
      var key := Strip(k);
      var valueText := Strip(v);
      StripIdempotent(k);
      StripIdempotent(v);
      StripSubset(k);
      if key == "" || valueText == "" then None
      else Some(Fact(key, valueText, ParseNumber(valueText), heading))
  }

  /** A line written as "key: value" with a clean key and value gives that
      key and value back. */
  lemma FactOfLineRoundTrip(key: string, value: string, heading: Option<string>)
    requires key != "" && Strip(key) == key && ':' !in key
    requires value != "" && Strip(value) == value
    ensures FactOfLine(key + ": " + value, heading) == Some(Fact(key, value, ParseNumber(value), heading))
  {
    var ln := key + ": " + value;
    assert ln == key + [':'] + (" " + value);
    assert ':' in ln by {
      assert ln[|key|] == ':';
    }
    var p := SplitOnce(ln, ':').value;
    SplitAtFirst(p.0, p.1, key, " " + value, ':');
    StripLeadingSpace(value);
  }

  lemma StripLeadingSpace(value: string)
    ensures Strip(" " + value) == Strip(value)
  {
    assert (" " + value)[1..] == value;
  }

  /** Two splits at the first occurrence of a character agree. */
  lemma SplitAtFirst(a: string, b: string, c: string, d: string, sep: char)
    requires sep !in a && sep !in c && a + [sep] + b == c + [sep] + d
    ensures a == c && b == d
  {
    var s := a + [sep] + b;
    assert s[..|a|] == a && s[|a|] == sep;
    IndexOfCharAt(s, sep, |a|);
    assert s[..|c|] == c && s[|c|] == sep;
    IndexOfCharAt(s, sep, |c|);
    assert b == s[|a| + 1..];
    assert d == s[|c| + 1..];
  }

  /** The facts of the lines of one chunk, in order. */
  function LineFacts(lines: seq<string>, heading: Option<string>): (r: seq<Fact>)
    ensures |r| <= |lines|
    ensures forall k :: 0 <= k < |r| ==> exists j :: 0 <= j < |lines| && FactOfLine(lines[j], heading) == Some(r[k])
  {
    if |lines| == 0 then []
    else
      var pre := LineFacts(lines[..|lines| - 1], heading);
      assert forall j :: 0 <= j < |lines| - 1 ==> lines[..|lines| - 1][j] == lines[j];
      match FactOfLine(lines[|lines| - 1], heading)
      case None => pre
      case Some(f) => pre + [f]
  }

  /** source_heading: the chunk's headings joined by " / ", or None when
      there are none. */
  function SourceHeading(meta: Dict): (r: Option<string>)
    ensures r.Some? ==> "headings" in meta && meta["headings"].VList? && meta["headings"].items != []
  {
    match Get(meta, "headings", VNone)
    case VList(items) =>
      if items == [] then None
      else Some(Join(seq(|items|, k requires 0 <= k < |items| => Str(items[k])), " / "))
    case _ => None
  }

  /** The stripped, non-blank lines of a chunk's text. */
  function ChunkLines(c: Chunking.Chunk): seq<string> {
    StrippedNonBlank(SplitLines(c.text))
  }

  /** The facts of all chunks, in order. */
  function ChunkFacts(chunks: seq<Chunking.Chunk>): (r: seq<Fact>)
    ensures forall k :: 0 <= k < |r| ==> WellFormed(r[k])
  {
    if |chunks| == 0 then []
    else
      var c := chunks[|chunks| - 1];
      var fs := LineFacts(ChunkLines(c), SourceHeading(c.metadata));
      ChunkFacts(chunks[..|chunks| - 1]) + fs
  }

  /** The fact loop of ingest_report_from_job. */
  method CollectFacts(chunks: seq<Chunking.Chunk>) returns (facts: seq<Fact>)
    ensures facts == ChunkFacts(chunks)
  {
    facts := [];
    var i := 0;
    while i < |chunks|
      invariant 0 <= i <= |chunks|
      invariant facts == ChunkFacts(chunks[..i])
    {
      var c := chunks[i];
      var fs := CollectLineFacts(ChunkLines(c), SourceHeading(c.metadata));
      facts := facts + fs;
      assert chunks[..i + 1][..i] == chunks[..i];
      i := i + 1;
    }
    assert chunks[..i] == chunks;
  }

  /** The inner loop over the lines of one chunk. */
  method CollectLineFacts(lines: seq<string>, heading: Option<string>) returns (facts: seq<Fact>)
    ensures facts == LineFacts(lines, heading)
  {
    facts := [];
    var j := 0;
    while j < |lines|
      invariant 0 <= j <= |lines|
      invariant facts == LineFacts(lines[..j], heading)
    {
      assert lines[..j + 1][..j] == lines[..j];
      var fact := FactOfLine(lines[j], heading);
      if fact.Some? {
        facts := facts + [fact.value];
      }
      j := j + 1;
    }
    assert lines[..j] == lines;
  }

  /** (company_code or "").strip() or "UNKNOWN" */
  function CompanyCode(code: Option<string>): (r: string)
    ensures r != "" && Strip(r) == r
    ensures code.Some? && !IsBlank(code.value) ==> r == Strip(code.value)
    ensures code.None? || IsBlank(code.value) ==> r == "UNKNOWN"
  {
    if code.Some? && Strip(code.value) != "" then
      StripIdempotent(code.value);
      StripFacts(code.value);
      Strip(code.value)
    else
      StripFacts(if code.Some? then code.value else "");
      StripOfStripped("UNKNOWN");
      "UNKNOWN"
  }

  /** The report row's own columns, as ingest_report_from_job receives
      them. */
  datatype ReportInfo = ReportInfo(
    user: string,
    reportYear: Option<int>,
    reportType: Option<string>,
    pdfPath: Option<string>,
    sourceFileName: Option<string>,
    sourceFileSizeBytes: Option<int>,
    sourceFileMtimeMs: Option<int>,
    sourceFileSha256: Option<string>)

  datatype Report = Report(info: ReportInfo, companyCode: string, autoDir: string, markdownPath: string)

  /** The companies, reports and facts tables. */
  class Database {
    var companies: map<string, Option<string>>
    var reports: map<string, Report>
    var facts: map<string, seq<Fact>>

    constructor ()
      ensures companies == map[] && reports == map[] && facts == map[]
    {
      companies := map[];
      reports := map[];
      facts := map[];
    }

    /** upsert_company */
    method UpsertCompany(code: string, name: Option<string>)
      modifies this
      ensures reports == old(reports) && facts == old(facts)
      ensures companies == Upserted(old(companies), code, name)
    {
      if code in companies {
        var current := companies[code];
        if name.Some? && name.value != "" && (current.None? || current.value == "") {
          companies := companies[code := name];
        }
        return;
      }
      companies := companies[code := Some(if name.Some? && name.value != "" then name.value else code)];
    }

    /** ingest_report_from_job_id: nothing changes when the job has no
        markdown; otherwise the company is upserted, the job's report row
        is written (replacing an existing one), and the job's facts are
        replaced by those of the markdown's chunks. `read` is the decoded
        text of a file. */
    method Ingest(jobId: string, files: seq<AutoReader.FileRec>, dirs: set<string>, read: string -> string,
                  companyCode: Option<string>, companyName: Option<string>, info: ReportInfo)
      returns (r: Result<Report, string>)
      modifies this
      ensures r.Err? <==> AutoReader.FindAutoOutput(files, dirs).Err?
      ensures r.Err? ==> r.error == AutoReader.FindAutoOutput(files, dirs).error
      ensures r.Err? ==> companies == old(companies) && reports == old(reports) && facts == old(facts)
      ensures r.Ok? ==> r.value == ReportOf(info, CompanyCode(companyCode), AutoReader.FindAutoOutput(files, dirs).value)
      ensures r.Ok? ==> companies == Upserted(old(companies), CompanyCode(companyCode), companyName)
      ensures r.Ok? ==> reports == old(reports)[jobId := r.value]
      ensures r.Ok? ==> jobId in facts && facts == old(facts)[jobId := facts[jobId]]
      ensures r.Ok? ==> facts[jobId] == MarkdownFactRows(read(r.value.markdownPath))
    {
      var code := CompanyCode(companyCode);
      var found := AutoReader.FindAutoOutput(files, dirs);
      if found.Err? {
        return Err(found.error);
      }
      var report := ReportOf(info, code, found.value);
      Store(jobId, code, companyName, report, read(report.markdownPath));
      r := Ok(report);
    }

    /** The writes of a successful ingestion: the company upsert, the
        report row, and the facts of the report's markdown text `md`. */
    method Store(jobId: string, code: string, companyName: Option<string>, report: Report, md: string)
      modifies this
      ensures companies == Upserted(old(companies), code, companyName)
      ensures reports == old(reports)[jobId := report]
      ensures jobId in facts && facts == old(facts)[jobId := facts[jobId]]
      ensures facts[jobId] == MarkdownFactRows(md)
    {
      UpsertCompany(code, companyName);
      reports := reports[jobId := report];
      var rows, chunks := MarkdownFacts(md);
      facts := facts[jobId := rows];
    }
  }

  function ReportOf(info: ReportInfo, code: string, out: AutoReader.AutoOutput): Report {
    Report(info, code, out.autoDir, AutoReader.PathOf(out.markdown))
  }

  /** The companies table after upsert_company(code, name): an existing
      company only gains a name it lacked; a new one is named after its
      code when no name is given. */
  function Upserted(companies: map<string, Option<string>>, code: string, name: Option<string>): (r: map<string, Option<string>>)
    ensures code in r && r.Keys == companies.Keys + {code}
    ensures forall c :: c in companies && c != code ==> r[c] == companies[c]
    ensures code in companies && companies[code].Some? && companies[code].value != "" ==> r == companies
    ensures name.Some? && name.value != "" ==> r[code].Some? && r[code].value != ""
  {
    if code in companies then
      var current := companies[code];
      if name.Some? && name.value != "" && (current.None? || current.value == "") then companies[code := name]
      else companies
    else companies[code := Some(if name.Some? && name.value != "" then name.value else code)]
  }

  /** Upserting the same company twice is the same as upserting it once. */
  lemma UpsertedIdempotent(companies: map<string, Option<string>>, code: string, name: Option<string>)
    ensures Upserted(Upserted(companies, code, name), code, name) == Upserted(companies, code, name)
  {
  }

  /** What a stored fact always satisfies: a key and a value text that
      are non-blank, and the number parsed from the value text. */
  predicate WellFormed(f: Fact) {
    f.key != "" && f.valueText != "" && f.valueNum == ParseNumber(f.valueText)
  }

  /** The chunks a report's markdown is cut into for fact extraction:
      800 characters without overlap and without base metadata. */
  function FactChunks(md: string): seq<Chunking.Chunk> {
    Chunking.MarkdownChunks(md, 800, 0, map[])
  }

  /** The facts stored for a report whose markdown text is `md`. */
  function MarkdownFactRows(md: string): seq<Fact> {
    ChunkFacts(FactChunks(md))
  }

  /** The source_heading a chunk with these headings gives its facts. */
  function HeadingOf(hs: seq<string>): Option<string> {
    if hs == [] then None else Some(Join(hs, " / "))
  }

  /** The heading read back from chunk metadata is the chunk's own titles
      joined by " / ", or None when it has none. */
  lemma SourceHeadingOfChunk(base: Dict, id: string, hs: seq<string>)
    ensures SourceHeading(Chunking.ChunkMetadata(base, id, hs)) == HeadingOf(hs)
  {
    var items := Chunking.HeadingValues(hs);
    assert Chunking.ChunkMetadata(base, id, hs)["headings"] == VList(items);
    if hs != [] {
      assert seq(|items|, k requires 0 <= k < |items| => Str(items[k])) == hs;
    }
  }

  /** Fact f carries the heading of one of the chunks. */
  ghost predicate HeadedByChunk(f: Fact, chunks: seq<Chunking.Chunk>) {
    exists k :: 0 <= k < |chunks| && f.sourceHeading == HeadingOf(chunks[k].headings)
  }

  /** Every fact of well-numbered chunks carries the heading of the chunk
      whose line it came from. */
  lemma {:induction false} ChunkFactsHeadings(chunks: seq<Chunking.Chunk>, base: Dict, maxChars: int)
    requires Chunking.WellNumbered(chunks, base, maxChars)
    ensures forall i :: 0 <= i < |ChunkFacts(chunks)| ==> HeadedByChunk(ChunkFacts(chunks)[i], chunks)
  {
    if |chunks| > 0 {
      var n := |chunks| - 1;
      assert Chunking.WellNumbered(chunks[..n], base, maxChars) by {
        assert forall k :: 0 <= k < n ==> chunks[..n][k] == chunks[k];
      }
      ChunkFactsHeadings(chunks[..n], base, maxChars);
      assert chunks[n].metadata == Chunking.ChunkMetadata(base, Chunking.ChunkId(n), chunks[n].headings);
      SourceHeadingOfChunk(base, Chunking.ChunkId(n), chunks[n].headings);
      HeadedStep(chunks);
    }
  }

  /** The facts of the last chunk carry its heading, and those of the
      chunks before it keep theirs. */
  lemma HeadedStep(chunks: seq<Chunking.Chunk>)
    requires |chunks| > 0
    requires var init := chunks[..|chunks| - 1];
      forall i :: 0 <= i < |ChunkFacts(init)| ==> HeadedByChunk(ChunkFacts(init)[i], init)
    requires SourceHeading(chunks[|chunks| - 1].metadata) == HeadingOf(chunks[|chunks| - 1].headings)
    ensures forall i :: 0 <= i < |ChunkFacts(chunks)| ==> HeadedByChunk(ChunkFacts(chunks)[i], chunks)
  {
    var n := |chunks| - 1;
    var c := chunks[n];
    var pre := ChunkFacts(chunks[..n]);
    var fs := LineFacts(ChunkLines(c), SourceHeading(c.metadata));
    assert ChunkFacts(chunks) == pre + fs;
    LineFactsHeading(ChunkLines(c), SourceHeading(c.metadata));
    HeadedConcat(pre, fs, chunks[..n], chunks);
  }

  /** Facts headed by chunks of a prefix, followed by facts carrying the
      last chunk's heading, are all headed by the chunks. */
  lemma HeadedConcat(pre: seq<Fact>, fs: seq<Fact>, init: seq<Chunking.Chunk>, chunks: seq<Chunking.Chunk>)
    requires |chunks| > 0 && init == chunks[..|chunks| - 1]
    requires forall k :: 0 <= k < |pre| ==> HeadedByChunk(pre[k], init)
    requires forall k :: 0 <= k < |fs| ==> fs[k].sourceHeading == HeadingOf(chunks[|chunks| - 1].headings)
    ensures forall i :: 0 <= i < |pre + fs| ==> HeadedByChunk((pre + fs)[i], chunks)
  {
    var all := pre + fs;
    forall i | 0 <= i < |all|
      ensures HeadedByChunk(all[i], chunks)
    {
      if i < |pre| {
        HeadedByPrefix(pre[i], init, chunks);
      } else {
        assert all[i] == fs[i - |pre|];
      }
    }
  }

  /** A fact headed by a chunk of a prefix is headed by a chunk of the whole. */
  lemma HeadedByPrefix(f: Fact, init: seq<Chunking.Chunk>, chunks: seq<Chunking.Chunk>)
    requires init <= chunks && HeadedByChunk(f, init)
    ensures HeadedByChunk(f, chunks)
  {
    var k :| 0 <= k < |init| && f.sourceHeading == HeadingOf(init[k].headings);
    assert init[k] == chunks[k];
  }

  /** Every fact of a chunk's lines carries the chunk's heading. */
  lemma LineFactsHeading(lines: seq<string>, heading: Option<string>)
    ensures forall k :: 0 <= k < |LineFacts(lines, heading)| ==> LineFacts(lines, heading)[k].sourceHeading == heading
  {
    var r := LineFacts(lines, heading);
    forall k | 0 <= k < |r|
      ensures r[k].sourceHeading == heading
    {
      var j :| 0 <= j < |lines| && FactOfLine(lines[j], heading) == Some(r[k]);
    }
  }

  /** Fact f carries the heading titles of one of the sections. */
  ghost predicate UnderSection(f: Fact, titles: seq<seq<string>>) {
    exists j :: 0 <= j < |titles| && f.sourceHeading == HeadingOf(titles[j])
  }

  /** Every stored fact is well formed, and its source_heading joins the
      titles of the heading stack under which its section was flushed. */
  lemma MarkdownFactsFacts(md: string)
    ensures forall k :: 0 <= k < |MarkdownFactRows(md)| ==> WellFormed(MarkdownFactRows(md)[k])
    ensures forall k :: 0 <= k < |MarkdownFactRows(md)| ==>
      UnderSection(MarkdownFactRows(md)[k], Chunking.SectionTitles(SplitLines(md)))
  {
    var lines := SplitLines(md);
    var sections, titles := Chunking.Sections(lines), Chunking.SectionTitles(lines);
    var chunks := FactChunks(md);
    Chunking.AllChunksFacts(sections, titles, 800, 0, map[]);
    Chunking.AllChunksHeadings(sections, titles, 800, 0, map[]);
    ChunkFactsHeadings(chunks, map[], 800);
    var rows := MarkdownFactRows(md);
    forall i | 0 <= i < |rows|
      ensures UnderSection(rows[i], titles)
    {
      assert HeadedByChunk(rows[i], chunks);
      var k :| 0 <= k < |chunks| && rows[i].sourceHeading == HeadingOf(chunks[k].headings);
      assert Chunking.CutFromSome(chunks[k], sections, titles, 800, 0);
      var j :| Chunking.CutFrom(chunks[k], sections, titles, j, 800, 0);
    }
  }

  /** The facts of a report's markdown: the fact lines of its chunks. */
  method MarkdownFacts(md: string) returns (rows: seq<Fact>, chunks: seq<Chunking.Chunk>)
    ensures chunks == FactChunks(md) && rows == ChunkFacts(chunks)
    ensures forall k :: 0 <= k < |rows| ==> WellFormed(rows[k])
  {
    ghost var sections;
    chunks, sections := Chunking.ChunkMarkdown(md, 800, 0, Some(map[]));
    rows := CollectFacts(chunks);
  }
}
