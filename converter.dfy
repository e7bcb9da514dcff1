/** Driving the MinerU command line and finding the markdown it wrote
    (src/converter.py). The process launch is a function from the command
    to its outcome; the directories searched are lists of file records. */
module Converter {
  import opened Text
  import opened AutoReader

  const MineruModes: seq<string> := ["auto", "ocr", "txt"]

  /** normalize_mineru_mode */
  function NormalizeMode(mode: Option<string>): (r: Option<string>)
    ensures r.Some? <==> mode.Some? && Lower(Strip(mode.value)) in MineruModes
    ensures r.Some? ==> r.value == Lower(Strip(mode.value)) && r.value in MineruModes
  {
    if mode.None? then None
    else
      var m := Lower(Strip(mode.value));
      if m == "" then None
      else if m !in MineruModes then None
      else Some(m)
  }

  lemma NormalizeModeIdempotent(mode: Option<string>)
    ensures NormalizeMode(NormalizeMode(mode)) == NormalizeMode(mode)
  {
    if NormalizeMode(mode).Some? {
      var sv := Strip(mode.value);
      var m := Lower(sv);
      assert m != [];
      assert !IsSpace(m[0]) && !IsSpace(m[|m| - 1]);
      StripOfStripped(m);
      LowerIdempotent(sv);
    }
  }

  /** `normalize_mineru_mode(mode) or "auto"` */
  function ModeOrAuto(mode: Option<string>): (m: string)
    ensures m in MineruModes
    ensures NormalizeMode(mode).Some? ==> m == NormalizeMode(mode).value
  {
    var n := NormalizeMode(mode);
    if n.Some? then n.value else "auto"
  }

  /** The arguments every candidate command starts with. */
  function BaseArgs(cli: string, pdf: string, outDir: string): seq<string> {
    [cli, "-p", pdf, "-o", outDir]
  }

  /** candidate_commands, with `cli` the resolved "mineru" executable. */
  function CandidateCommands(cli: string, pdf: string, outDir: string, mode: Option<string>): (r: seq<seq<string>>)
    ensures |r| == 3
    ensures forall k :: 0 <= k < 3 ==> |r[k]| >= 5 && r[k][..5] == BaseArgs(cli, pdf, outDir)
    ensures r[0] == BaseArgs(cli, pdf, outDir)
    ensures r[1][5..] == ["-b", "pipeline", "-m", ModeOrAuto(mode)] && r[1][8] in MineruModes
    ensures r[2][5..] == ["-b", "vlm-transformers"]
  {
    var base := BaseArgs(cli, pdf, outDir);
    [base, base + ["-b", "pipeline", "-m", ModeOrAuto(mode)], base + ["-b", "vlm-transformers"]]
  }

  /** What resolve_cli consults: the interpreter's directory, whether the
      platform is Windows, the paths that exist, and shutil.which. */
  datatype CliEnv = CliEnv(pyBin: string, windows: bool, existing: set<string>, which: map<string, string>)

  function CliCandidates(name: string, env: CliEnv): seq<string> {
    if env.windows then [JoinPath(env.pyBin, name + ".exe"), JoinPath(env.pyBin, name)]
    else [JoinPath(env.pyBin, name)]
  }

  /** The first candidate that exists. */
  function FirstExisting(cands: seq<string>, existing: set<string>): (r: Option<nat>)
    ensures r.None? <==> forall k :: 0 <= k < |cands| ==> cands[k] !in existing
    ensures r.Some? ==> r.value < |cands| && cands[r.value] in existing
    ensures r.Some? ==> forall k :: 0 <= k < r.value ==> cands[k] !in existing
  {
    if |cands| == 0 then None
    else if cands[0] in existing then Some(0)
    else
      var rest := FirstExisting(cands[1..], existing);
      if rest.None? then None else Some(rest.value + 1)
  }

  /** resolve_cli */
  function ResolveCli(name: string, env: CliEnv): (r: string)
    ensures FirstExisting(CliCandidates(name, env), env.existing).None? ==>
      r == (if name in env.which && env.which[name] != "" then env.which[name] else name)
  {
    var cands := CliCandidates(name, env);
    match FirstExisting(cands, env.existing)
    case Some(k) => cands[k]
    case None => if name in env.which && env.which[name] != "" then env.which[name] else name
  }

  /** An existing interpreter-directory candidate always wins, the first one listed. */
  lemma ResolveCliPrefersInterpreterDir(name: string, env: CliEnv, k: nat)
    requires k < |CliCandidates(name, env)| && CliCandidates(name, env)[k] in env.existing
    ensures ResolveCli(name, env) in env.existing
    ensures exists j :: 0 <= j <= k && ResolveCli(name, env) == CliCandidates(name, env)[j]
  {
    var r := FirstExisting(CliCandidates(name, env), env.existing);
    assert r.Some?;
    assert r.value <= k;
  }

  /** The outcome of launching a process. */
  datatype CliRun =
    | CliNotFound
      /** Any other exception while starting it; run_cmd lets it propagate. */
    | CliRaised(message: string)
    | CliExited(code: int, stdout: string, stderr: string)

  function HasPathSeparator(s: string): bool {
    '\\' in s || '/' in s
  }

  /** The command run_cmd launches: a bare program name is resolved first. */
  function LaunchedCommand(cmd: seq<string>, env: CliEnv): (r: seq<string>)
    ensures |r| == |cmd| && (|cmd| > 0 ==> r[1..] == cmd[1..])
    ensures |cmd| > 0 && (cmd[0] == "" || HasPathSeparator(cmd[0])) ==> r == cmd
  {
    if |cmd| > 0 && cmd[0] != "" && !HasPathSeparator(cmd[0]) then [ResolveCli(cmd[0], env)] + cmd[1..]
    else cmd
  }

  /** run_cmd: (ok, stdout, stderr), or the exception that escapes it. */
  function RunCmd(cmd: seq<string>, env: CliEnv, launch: seq<string> -> CliRun): (r: Result<(bool, string, string), string>)
    ensures launch(LaunchedCommand(cmd, env)).CliNotFound? ==> r == Ok((false, "", "command not found"))
    ensures r.Err? <==> launch(LaunchedCommand(cmd, env)).CliRaised?
    ensures r.Ok? && r.value.0 ==> launch(LaunchedCommand(cmd, env)) == CliExited(0, r.value.1, r.value.2)
  {
    match launch(LaunchedCommand(cmd, env))
    case CliNotFound => Ok((false, "", "command not found"))
    case CliRaised(msg) => Err(msg)
    case CliExited(code, out, err) => Ok((code == 0, out, err))
  }

  /** pdf_basename.lower() in p.name.lower() */
  predicate NameHit(f: FileRec, basename: string) {
    Contains(Lower(f.name), Lower(basename))
  }

  function SelectNamed(files: seq<FileRec>, basename: string): (r: seq<FileRec>)
    ensures forall f :: f in r <==> f in files && NameHit(f, basename)
  {
    if |files| == 0 then []
    else
      var rest := SelectNamed(files[1..], basename);
      assert forall f :: f in files <==> f == files[0] || f in files[1..];
      if NameHit(files[0], basename) then [files[0]] + rest else rest
  }

  /** The shared rule of search_md and search_auto_md: after a stable sort
      newest first, the first file whose name contains the basename, else
      the newest file, else None. */
  function SearchNewest(files: seq<FileRec>, basename: string, pat: Pattern): Option<FileRec> {
    var hit := PickLatest(SelectNamed(Select(files, pat), basename));
    if hit.Some? then hit else PickLatest(Select(files, pat))
  }

  /** SearchNewest finds a file exactly when one matches; it prefers the
      newest matching file whose name contains the basename, and otherwise
      returns the newest matching file. */
  lemma SearchNewestSpec(files: seq<FileRec>, basename: string, pat: Pattern)
    ensures var r := SearchNewest(files, basename, pat);
      (r.None? <==> forall f :: f in files ==> !Matches(f, pat))
      && (r.Some? ==> r.value in files && Matches(r.value, pat))
      && ((exists f :: f in files && Matches(f, pat) && NameHit(f, basename)) <==> r.Some? && NameHit(r.value, basename))
      && (r.Some? && NameHit(r.value, basename) ==>
            forall g :: g in files && Matches(g, pat) && NameHit(g, basename) ==> g.mtime <= r.value.mtime)
      && (r.Some? && !NameHit(r.value, basename) ==>
            forall g :: g in files && Matches(g, pat) ==> g.mtime <= r.value.mtime)
  {
    var all := Select(files, pat);
    var hit := PickLatest(SelectNamed(all, basename));
    if hit.None? {
      assert forall f :: f in all ==> !NameHit(f, basename);
    }
  }

  /** search_md */
  function SearchMd(files: seq<FileRec>, basename: string): (r: Option<FileRec>)
    ensures r.None? <==> forall f :: f in files ==> !IsMarkdown(f)
    ensures r.Some? ==> r.value in files && IsMarkdown(r.value)
    ensures (exists f :: f in files && IsMarkdown(f) && NameHit(f, basename)) <==> r.Some? && NameHit(r.value, basename)
    ensures r.Some? && NameHit(r.value, basename) ==>
      forall g :: g in files && IsMarkdown(g) && NameHit(g, basename) ==> g.mtime <= r.value.mtime
    ensures r.Some? && !NameHit(r.value, basename) ==> forall g :: g in files && IsMarkdown(g) ==> g.mtime <= r.value.mtime
  {
    SearchNewestSpec(files, basename, AnyMd);
    SearchNewest(files, basename, AnyMd)
  }

  /** Some file is markdown. */
  predicate AnyMarkdown(files: seq<FileRec>) {
    |files| > 0 && (IsMarkdown(files[0]) || AnyMarkdown(files[1..]))
  }

  lemma {:induction false} AnyMarkdownIff(files: seq<FileRec>)
    ensures AnyMarkdown(files) <==> exists f :: f in files && IsMarkdown(f)
  {
    if |files| > 0 {
      AnyMarkdownIff(files[1..]);
      assert forall f :: f in files <==> f == files[0] || f in files[1..];
    }
  }

  /** search_md finds a file exactly when there is markdown at all. */
  lemma SearchMdFinds(files: seq<FileRec>, basename: string)
    ensures SearchMd(files, basename).Some? <==> AnyMarkdown(files)
  {
    SearchNewestSpec(files, basename, AnyMd);
    AnyMarkdownIff(files);
  }

  /** search_auto_md: the same rule restricted to markdown in `auto` directories. */
  function SearchAutoMd(files: seq<FileRec>, basename: string): Option<FileRec> {
    SearchNewest(files, basename, MdIn("auto"))
  }

  /** One of search_default_md's temporary directories: its path, whether
      it exists, and what lies under it. */
  datatype TempTree = TempTree(path: string, exists_: bool, files: seq<FileRec>)

  /** The temporary directory exists and holds some markdown. */
  predicate HoldsMarkdown(t: TempTree) {
    t.exists_ && exists f :: f in t.files && IsMarkdown(f)
  }

  /** The index of the first existing temporary directory holding markdown. */
  function FirstWithMd(bases: seq<TempTree>): (r: Option<nat>)
    ensures r.None? <==> forall k :: 0 <= k < |bases| ==> !HoldsMarkdown(bases[k])
    ensures r.Some? ==> r.value < |bases| && HoldsMarkdown(bases[r.value])
    ensures r.Some? ==> forall k :: 0 <= k < r.value ==> !HoldsMarkdown(bases[k])
  {
    if |bases| == 0 then None
    else if HoldsMarkdown(bases[0]) then Some(0)
    else
      var rest := FirstWithMd(bases[1..]);
      assert forall k :: 1 <= k < |bases| ==> bases[k] == bases[1..][k - 1];
      if rest.None? then None else Some(rest.value + 1)
  }

  /** search_default_md: the first existing temporary directory holding any
      markdown decides, with search_md's rule; the result is a full path. */
  function SearchDefaultMd(bases: seq<TempTree>, basename: string): (r: Option<string>)
    ensures r.None? <==> forall k :: 0 <= k < |bases| ==> !HoldsMarkdown(bases[k])
    ensures r.Some? ==> var k := FirstWithMd(bases).value;
      r.value == JoinPath(bases[k].path, PathOf(SearchMd(bases[k].files, basename).value))
  {
    match FirstWithMd(bases)
    case None => None
    case Some(k) =>
      var md := SearchMd(bases[k].files, basename);
      if md.Some? then Some(JoinPath(bases[k].path, PathOf(md.value))) else assert false; None
  }

  /** One entry of convert_pdf's `tried` list. */
  datatype Attempt = Attempt(cmd: seq<string>, ok: bool, stdout: string, stderr: string)

  /** The attempts convert_pdf makes from command i on: in order, stopping
      after the first that succeeds; an exception from run_cmd escapes. */
  function TryFrom(cmds: seq<seq<string>>, i: nat, env: CliEnv, launch: seq<string> -> CliRun): Result<seq<Attempt>, string>
    requires i <= |cmds|
    decreases |cmds| - i
  {
    if i == |cmds| then Ok([])
    else
      match RunCmd(cmds[i], env, launch)
      case Err(e) => Err(e)
      case Ok((ok, out, err)) =>
        if ok then Ok([Attempt(cmds[i], ok, out, err)])
        else
          var rest := TryFrom(cmds, i + 1, env, launch);
          if rest.Err? then rest else Ok([Attempt(cmds[i], ok, out, err)] + rest.value)
  }

  /** The commands are tried in order; every attempt but the last failed,
      and fewer attempts than commands means the last one succeeded. */
  lemma {:induction false} TryFromStopsAtFirstOk(cmds: seq<seq<string>>, i: nat, env: CliEnv, launch: seq<string> -> CliRun)
    requires i <= |cmds| && TryFrom(cmds, i, env, launch).Ok?
    ensures var t := TryFrom(cmds, i, env, launch).value;
      |t| <= |cmds| - i
      && (forall k :: 0 <= k < |t| ==> t[k].cmd == cmds[i + k])
      && (forall k :: 0 <= k < |t| - 1 ==> !t[k].ok)
      && (|t| < |cmds| - i ==> |t| > 0 && t[|t| - 1].ok)
    decreases |cmds| - i
  {
    if i < |cmds| {
      var res := RunCmd(cmds[i], env, launch);
      if !res.value.0 {
        TryFromStopsAtFirstOk(cmds, i + 1, env, launch);
      }
    }
  }

  /** `prefix` followed by the attempts of r; an escaped exception stays one. */
  function After(prefix: seq<Attempt>, r: Result<seq<Attempt>, string>): Result<seq<Attempt>, string> {
    if r.Ok? then Ok(prefix + r.value) else r
  }

  /** The RuntimeError text of convert_pdf. */
  function FailureText(pdfName: string, tried: seq<Attempt>): string {
    "Failed to convert " + pdfName + " with MinerU/magic-pdf. Tried: "
      + Join(seq(|tried|, k requires 0 <= k < |tried| =>
          Join(tried[k].cmd, " ") + " => " + (if tried[k].ok then "ok" else "fail")), "; ")
  }

  /** Where convert_pdf looks for the markdown: `auto` output in out_dir,
      then any markdown in out_dir, then the temporary directories. */
  function LocateOutput(outDir: string, files: seq<FileRec>, temp: seq<TempTree>, stem: string): (r: Option<string>)
    ensures SearchAutoMd(files, stem).Some? ==> r == Some(JoinPath(outDir, PathOf(SearchAutoMd(files, stem).value)))
    ensures SearchAutoMd(files, stem).None? && SearchMd(files, stem).Some? ==> r == Some(JoinPath(outDir, PathOf(SearchMd(files, stem).value)))
    ensures SearchMd(files, stem).None? ==> r == SearchDefaultMd(temp, stem)
  {
    var auto := SearchAutoMd(files, stem);
    if auto.Some? then Some(JoinPath(outDir, PathOf(auto.value)))
    else
      var any := SearchMd(files, stem);
      if any.Some? then Some(JoinPath(outDir, PathOf(any.value)))
      else SearchDefaultMd(temp, stem)
  }

  /** The attempt loop of convert_pdf: the attempts made, or the exception
      that escaped run_cmd. */
  method TryCommands(cmds: seq<seq<string>>, env: CliEnv, launch: seq<string> -> CliRun)
    returns (r: Result<seq<Attempt>, string>)
    ensures r == TryFrom(cmds, 0, env, launch)
  {
    var tried: seq<Attempt> := [];
    var i := 0;
    var all := TryFrom(cmds, 0, env, launch);
    if all.Ok? {
      assert [] + all.value == all.value;
    }
    while i < |cmds|
      invariant 0 <= i <= |cmds| && |tried| == i
      invariant TryFrom(cmds, 0, env, launch) == After(tried, TryFrom(cmds, i, env, launch))
      decreases |cmds| - i
    {
      var res := RunCmd(cmds[i], env, launch);
      if res.Err? {
        return Err(res.error);
      }
      var (ok, out, err) := res.value;
      var a := Attempt(cmds[i], ok, out, err);
      TryStep(cmds, i, env, launch, tried, a);
      tried := tried + [a];
      if ok {
        return Ok(tried);
      }
      i := i + 1;
    }
    assert tried + [] == tried;
    return Ok(tried);
  }

  /** One turn of the attempt loop: attempt `a` of command i is added to
      the attempts so far, and ends them when it succeeded. */
  lemma TryStep(cmds: seq<seq<string>>, i: nat, env: CliEnv, launch: seq<string> -> CliRun, tried: seq<Attempt>, a: Attempt)
    requires i < |cmds| && RunCmd(cmds[i], env, launch) == Ok((a.ok, a.stdout, a.stderr)) && a.cmd == cmds[i]
    ensures a.ok ==> After(tried, TryFrom(cmds, i, env, launch)) == Ok(tried + [a])
    ensures !a.ok ==> After(tried, TryFrom(cmds, i, env, launch)) == After(tried + [a], TryFrom(cmds, i + 1, env, launch))
  {
    var later := TryFrom(cmds, i + 1, env, launch);
    if !a.ok && later.Ok? {
      assert tried + ([a] + later.value) == (tried + [a]) + later.value;
    }
  }

  /** convert_pdf. `files` is out_dir's content once the commands have run
      and `temp` the temporary directories in the order the platform lists
      them. The result is the attempts and the markdown path or the error raised. */
  method ConvertPdf(pdf: string, pdfName: string, stem: string, outDir: string, env: CliEnv,
                    launch: seq<string> -> CliRun, files: seq<FileRec>, temp: seq<TempTree>)
    returns (r: Result<string, string>)
    ensures var attempts := TryFrom(CandidateCommands(ResolveCli("mineru", env), pdf, outDir, None), 0, env, launch);
      r == (if attempts.Err? then Err(attempts.error)
            else match LocateOutput(outDir, files, temp, stem)
                 case Some(p) => Ok(p)
                 case None => Err(FailureText(pdfName, attempts.value)))
  {
    var cmds := CandidateCommands(ResolveCli("mineru", env), pdf, outDir, None);
    var tried := TryCommands(cmds, env, launch);
    if tried.Err? {
      return Err(tried.error);
    }
    var md := LocateOutput(outDir, files, temp, stem);
    if md.None? {
      return Err(FailureText(pdfName, tried.value));
    }
    return Ok(md.value);
  }
}
