/** Locating MinerU's output inside a job directory
    (src/finance_parsing/mineru_auto_reader.py). The directory tree is given
    as a list of file records in the order the directory walk yields them. */
module AutoReader {
  import opened Text

  /** A file under the searched root: its directory relative to the root
      ("" for the root itself), its name, and its modification time. */
  datatype FileRec = FileRec(dir: string, name: string, mtime: int)

  /** dir / name */
  function JoinPath(dir: string, name: string): string {
    if dir == "" then name else dir + "/" + name
  }

  function PathOf(f: FileRec): string {
    JoinPath(f.dir, f.name)
  }

  /** The name of the directory a relative directory path ends in. */
  function LastComponent(dir: string): string {
    var parts := Split(dir, '/');
    parts[|parts| - 1]
  }

  predicate IsMarkdown(f: FileRec) {
    EndsWith(f.name, ".md")
  }

  /** The glob patterns the reader and the converter search with. */
  datatype Pattern =
      /** rglob with the pattern `sub`, a slash and `*.md`: a markdown file
          whose parent directory, strictly below the root, is named `sub`. */
    | MdIn(sub: string)
      /** rglob("*.md") */
    | AnyMd
      /** dir.glob("*" + suffix) */
    | InDirWithSuffix(dir: string, suffix: string)

  predicate Matches(f: FileRec, p: Pattern) {
    match p
    case MdIn(sub) => IsMarkdown(f) && f.dir != "" && LastComponent(f.dir) == sub
    case AnyMd => IsMarkdown(f)
    case InDirWithSuffix(dir, suffix) => f.dir == dir && EndsWith(f.name, suffix)
  }

  /** The files satisfying p, in their original order. */
  function Select(files: seq<FileRec>, p: Pattern): (r: seq<FileRec>)
    ensures forall f :: f in r <==> f in files && Matches(f, p)
    ensures |r| <= |files|
  {
    if |files| == 0 then []
    else
      var rest := Select(files[1..], p);
      assert forall f :: f in files <==> f == files[0] || f in files[1..];
      if Matches(files[0], p) then [files[0]] + rest else rest
  }

  /** _pick_latest: the first element of the list sorted by mtime, newest
      first, with Python's stable sort; None for an empty list. */
  function PickLatest(paths: seq<FileRec>): (r: Option<FileRec>)
    ensures r.None? <==> |paths| == 0
    ensures r.Some? ==> r.value in paths
    ensures r.Some? ==> forall g :: g in paths ==> g.mtime <= r.value.mtime
  {
    if |paths| == 0 then None
    else
      var rest := PickLatest(paths[1..]);
      if rest.None? || paths[0].mtime >= rest.value.mtime then Some(paths[0]) else rest
  }

  /** Among the newest files, _pick_latest returns the one listed first. */
  lemma {:induction false} PickLatestFirstOfNewest(paths: seq<FileRec>, j: nat)
    requires PickLatest(paths).Some? && j < |paths|
    requires paths[j].mtime == PickLatest(paths).value.mtime
    ensures exists k :: 0 <= k <= j && paths[k] == PickLatest(paths).value
  {
    var rest := PickLatest(paths[1..]);
    if rest.None? || paths[0].mtime >= rest.value.mtime {
    } else {
      assert j != 0;
      PickLatestFirstOfNewest(paths[1..], j - 1);
      var k :| 0 <= k <= j - 1 && paths[1..][k] == rest.value;
      assert paths[k + 1] == PickLatest(paths).value;
    }
  }

  /** What find_auto_output returns. */
  datatype AutoOutput = AutoOutput(
    autoDir: string,
    markdown: FileRec,
    imagesDir: Option<string>,
    contentListJson: Option<FileRec>,
    modelJson: Option<FileRec>)

  /** The markdown find_auto_output settles on: the newest in an `auto`,
      then `txt`, then `ocr` directory, and only then the newest anywhere. */
  function PickMarkdown(files: seq<FileRec>): (r: Option<FileRec>)
  {
    var auto := PickLatest(Select(files, MdIn("auto")));
    if auto.Some? then auto
    else
      var txt := PickLatest(Select(files, MdIn("txt")));
      if txt.Some? then txt
      else
        var ocr := PickLatest(Select(files, MdIn("ocr")));
        if ocr.Some? then ocr
        else PickLatest(Select(files, AnyMd))
  }

  /** find_auto_output(job_dir): `dirs` holds the directories that exist. */
  function FindAutoOutput(files: seq<FileRec>, dirs: set<string>): (r: Result<AutoOutput, string>)
    ensures r.Err? <==> forall f :: f in files ==> !IsMarkdown(f)
    ensures r.Err? ==> r.error == "No Markdown found under job_dir."
    ensures r.Ok? ==> r.value.markdown in files && IsMarkdown(r.value.markdown)
    ensures r.Ok? ==> r.value.autoDir == r.value.markdown.dir
    ensures r.Ok? ==> (r.value.imagesDir.Some? <==> JoinPath(r.value.autoDir, "images") in dirs)
    ensures r.Ok? && r.value.imagesDir.Some? ==> r.value.imagesDir.value == JoinPath(r.value.autoDir, "images")
  {
    match PickMarkdown(files)
    case None =>
      assert Select(files, AnyMd) == [];
      Err("No Markdown found under job_dir.")
    case Some(md) =>
      var outDir := md.dir;
      var images := JoinPath(outDir, "images");
      Ok(AutoOutput(
        outDir,
        md,
        if images in dirs then Some(images) else None,
        PickLatest(Select(files, InDirWithSuffix(outDir, "_content_list.json"))),
        PickLatest(Select(files, InDirWithSuffix(outDir, "_model.json")))))
  }

  /** An `auto` markdown always wins, and it is the newest of them. */
  lemma FindAutoOutputPrefersAuto(files: seq<FileRec>, dirs: set<string>, f: FileRec)
    requires f in files && Matches(f, MdIn("auto"))
    ensures FindAutoOutput(files, dirs).Ok?
    ensures Matches(FindAutoOutput(files, dirs).value.markdown, MdIn("auto"))
    ensures f.mtime <= FindAutoOutput(files, dirs).value.markdown.mtime
  {
    assert f in Select(files, MdIn("auto"));
  }

  /** Without `auto` output a `txt` markdown wins, and it is the newest of them. */
  lemma FindAutoOutputPrefersTxt(files: seq<FileRec>, dirs: set<string>, f: FileRec)
    requires f in files && Matches(f, MdIn("txt"))
    requires forall g :: g in files ==> !Matches(g, MdIn("auto"))
    ensures FindAutoOutput(files, dirs).Ok?
    ensures Matches(FindAutoOutput(files, dirs).value.markdown, MdIn("txt"))
    ensures f.mtime <= FindAutoOutput(files, dirs).value.markdown.mtime
  {
    assert f in Select(files, MdIn("txt"));
  }

  /** Without `auto` and `txt` output an `ocr` markdown wins, the newest of them. */
  lemma FindAutoOutputPrefersOcr(files: seq<FileRec>, dirs: set<string>, f: FileRec)
    requires f in files && Matches(f, MdIn("ocr"))
    requires forall g :: g in files ==> !Matches(g, MdIn("auto")) && !Matches(g, MdIn("txt"))
    ensures FindAutoOutput(files, dirs).Ok?
    ensures Matches(FindAutoOutput(files, dirs).value.markdown, MdIn("ocr"))
    ensures f.mtime <= FindAutoOutput(files, dirs).value.markdown.mtime
  {
    assert f in Select(files, MdIn("ocr"));
  }

  /** Without `auto`, `txt` and `ocr` output, the newest markdown anywhere is used. */
  lemma FindAutoOutputFallsBackToAny(files: seq<FileRec>, dirs: set<string>, f: FileRec)
    requires f in files && IsMarkdown(f)
    requires forall g :: g in files ==> !Matches(g, MdIn("auto")) && !Matches(g, MdIn("txt")) && !Matches(g, MdIn("ocr"))
    ensures FindAutoOutput(files, dirs).Ok?
    ensures f.mtime <= FindAutoOutput(files, dirs).value.markdown.mtime
  {
    assert f in Select(files, AnyMd);
  }

  /** The JSON side files are the newest matching ones in the markdown's own directory. */
  lemma FindAutoOutputSideFiles(files: seq<FileRec>, dirs: set<string>, g: FileRec)
    requires FindAutoOutput(files, dirs).Ok?
    requires g in files && g.dir == FindAutoOutput(files, dirs).value.autoDir
    requires EndsWith(g.name, "_content_list.json")
    ensures FindAutoOutput(files, dirs).value.contentListJson.Some?
    ensures FindAutoOutput(files, dirs).value.contentListJson.value.dir == g.dir
    ensures g.mtime <= FindAutoOutput(files, dirs).value.contentListJson.value.mtime
  {
    var out := FindAutoOutput(files, dirs).value;
    var sel := Select(files, InDirWithSuffix(out.autoDir, "_content_list.json"));
    assert g in sel;
    assert PickLatest(sel).value in sel;
  }

  /** The model JSON is likewise the newest `*_model.json` in the
      markdown's own directory, and absent when there is none. */
  lemma FindAutoOutputModelJson(files: seq<FileRec>, dirs: set<string>)
    requires FindAutoOutput(files, dirs).Ok?
    ensures var out := FindAutoOutput(files, dirs).value;
      out.modelJson.Some? <==> exists g :: g in files && g.dir == out.autoDir && EndsWith(g.name, "_model.json")
    ensures var out := FindAutoOutput(files, dirs).value;
      out.modelJson.Some? ==> out.modelJson.value in files && out.modelJson.value.dir == out.autoDir
                              && EndsWith(out.modelJson.value.name, "_model.json")
                              && forall g :: g in files && g.dir == out.autoDir && EndsWith(g.name, "_model.json") ==>
                                   g.mtime <= out.modelJson.value.mtime
  {
    var out := FindAutoOutput(files, dirs).value;
    var sel := Select(files, InDirWithSuffix(out.autoDir, "_model.json"));
    if exists g :: g in files && g.dir == out.autoDir && EndsWith(g.name, "_model.json") {
      var g :| g in files && g.dir == out.autoDir && EndsWith(g.name, "_model.json");
      assert g in sel;
    }
    forall g | g in files && g.dir == out.autoDir && EndsWith(g.name, "_model.json")
      ensures g in sel
    {
    }
  }
}
