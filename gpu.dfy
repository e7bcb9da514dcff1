/** GPU discovery (src/utils/gpu.py): the parsing of `nvidia-smi` CSV
    output and the choice of device and backends from what torch reports.
    The nvidia-smi process and torch's probes are inputs: a run is its
    exit code and stdout, torch is a record of the answers it gave. */
module Gpu {
  import opened Text
  import Values

  /** An entry of the nvidia-smi list. */
  datatype SmiGpu = SmiGpu(index: nat, name: string, driverVersion: string, totalMemoryMb: int)

  /** The nvidia-smi process: it could not be started or timed out, or it
      ran. */
  datatype SmiRun = SmiFailed | SmiRan(returncode: int, stdout: string)

  /** What one CSV line gives: nothing (fewer than three fields), an entry,
      or an IndexError because the memory field is blank. */
  datatype LineOutcome = Skip | Entry(gpu: SmiGpu) | Crash

  /** [p.strip() for p in line.split(",")] */
  function Fields(line: string): (r: seq<string>)
    ensures |r| == |Split(line, ',')|
    ensures forall k :: 0 <= k < |r| ==> r[k] == Strip(Split(line, ',')[k])
  {
    var parts := Split(line, ',');
    seq(|parts|, k requires 0 <= k < |parts| => Strip(parts[k]))
  }

  /** int() of the first word of the memory field, 0 when it is refused. */
  function MemoryMb(field: string): int
    requires Words(field) != []
  {
    match ParseInt(Words(field)[0])
    case Some(n) => n
    case None => 0
  }

  /** One line of the loop body in _query_nvidia_smi, at position `idx`:
      a line with fewer than three fields is skipped, a blank memory field
      raises, and otherwise the entry carries the line's position and its
      stripped name and driver version. */
  function ParseLine(line: string, idx: nat): (r: LineOutcome)
    ensures r.Skip? <==> |Split(line, ',')| < 3
    ensures r.Crash? <==> |Split(line, ',')| >= 3 && IsBlank(Fields(line)[2])
    ensures r.Entry? ==> r.gpu.index == idx && r.gpu.name == Fields(line)[0] && r.gpu.driverVersion == Fields(line)[1]
    ensures r.Entry? ==> ',' !in r.gpu.name && Strip(r.gpu.name) == r.gpu.name
  {
    var parts := Fields(line);
    if |parts| < 3 then Skip
    else
      WordsEmptyIff(parts[2]);
      StripIdempotent(Split(line, ',')[0]);
      StripSubset(Split(line, ',')[0]);
      if Words(parts[2]) == [] then Crash
      else Entry(SmiGpu(idx, parts[0], parts[1], MemoryMb(parts[2])))
  }

  /** What each line gives, at its own position. */
  function Outcomes(lines: seq<string>): (r: seq<LineOutcome>)
    ensures |r| == |lines|
    ensures forall i :: 0 <= i < |r| ==> r[i] == ParseLine(lines[i], i)
  {
    seq(|lines|, i requires 0 <= i < |lines| => ParseLine(lines[i], i))
  }

  /** An entry produced at position i carries index i. */
  ghost predicate WellIndexed(outs: seq<LineOutcome>) {
    forall i :: 0 <= i < |outs| && outs[i].Entry? ==> outs[i].gpu.index == i
  }

  lemma OutcomesWellIndexed(lines: seq<string>)
    ensures WellIndexed(Outcomes(lines))
  {
    var outs := Outcomes(lines);
    forall i | 0 <= i < |outs| && outs[i].Entry?
      ensures outs[i].gpu.index == i
    {
    }
  }

  /** The entries of the first n outcomes, or None once a line crashed. */
  function Collect(outs: seq<LineOutcome>, n: nat): (r: Option<seq<SmiGpu>>)
    requires n <= |outs|
  {
    if n == 0 then Some([])
    else
      match Collect(outs, n - 1)
      case None => None
      case Some(gpus) =>
        match outs[n - 1]
        case Skip => Some(gpus)
        case Crash => None
        case Entry(g) => Some(gpus + [g])
  }

  /** The entries of the first n lines, or None once a line crashed. */
  function ParseUpTo(lines: seq<string>, n: nat): Option<seq<SmiGpu>>
    requires n <= |lines|
  {
    Collect(Outcomes(lines), n)
  }

  /** Each entry is the one its own outcome gives, at that outcome's
      position, in order. */
  lemma {:induction false} CollectSound(outs: seq<LineOutcome>, n: nat)
    requires n <= |outs| && WellIndexed(outs) && Collect(outs, n).Some?
    ensures var gpus := Collect(outs, n).value;
      (forall k :: 0 <= k < |gpus| ==>
        gpus[k].index < n && outs[gpus[k].index] == Entry(gpus[k])) &&
      (forall k, m :: 0 <= k < m < |gpus| ==> gpus[k].index < gpus[m].index)
  {
    if n > 0 {
      CollectSound(outs, n - 1);
      var pre := Collect(outs, n - 1).value;
      var gpus := Collect(outs, n).value;
      if outs[n - 1].Entry? {
        assert gpus == pre + [outs[n - 1].gpu];
        forall k | 0 <= k < |gpus|
          ensures gpus[k].index < n && outs[gpus[k].index] == Entry(gpus[k])
        {
          if k < |pre| {
            assert gpus[k] == pre[k];
          }
        }
      } else {
        assert gpus == pre;
      }
    }
  }

  /** Every outcome that is an entry appears in the collected list. */
  lemma {:induction false} CollectComplete(outs: seq<LineOutcome>, n: nat)
    requires n <= |outs| && WellIndexed(outs) && Collect(outs, n).Some?
    ensures var gpus := Collect(outs, n).value;
      forall i :: 0 <= i < n && outs[i].Entry? ==> exists k :: 0 <= k < |gpus| && gpus[k].index == i
  {
    if n > 0 {
      CollectComplete(outs, n - 1);
      var pre := Collect(outs, n - 1).value;
      var gpus := Collect(outs, n).value;
      forall i | 0 <= i < n && outs[i].Entry?
        ensures exists k :: 0 <= k < |gpus| && gpus[k].index == i
      {
        if i == n - 1 {
          assert gpus[|pre|].index == i;
        } else {
          var k :| 0 <= k < |pre| && pre[k].index == i;
          assert gpus[k] == pre[k];
        }
      }
    }
  }

  /** Once a line crashed the whole parse is lost. */
  lemma {:induction false} CrashIsFinal(outs: seq<LineOutcome>, n: nat, m: nat)
    requires n <= m <= |outs| && Collect(outs, n).None?
    ensures Collect(outs, m).None?
    decreases m
  {
    if m > n {
      CrashIsFinal(outs, n, m - 1);
    }
  }

  /** The info dict of _query_nvidia_smi: its "gpus" entry, absent when
      the process failed, returned non-zero, printed nothing, when a line
      had a blank memory field, or when no line had three fields. */
  function SmiInfo(run: SmiRun): (r: Option<seq<SmiGpu>>)
    ensures r.Some? ==> |r.value| > 0
    ensures run.SmiFailed? || run.returncode != 0 || run.stdout == "" ==> r.None?
  {
    match run
    case SmiFailed => None
    case SmiRan(returncode, stdout) =>
      if returncode != 0 || stdout == "" then None
      else
        var lines := StrippedNonBlank(SplitLines(stdout));
        match ParseUpTo(lines, |lines|)
        case None => None
        case Some(gpus) => if gpus == [] then None else Some(gpus)
  }

  /** _query_nvidia_smi: strips the lines, drops the blank ones, and
      collects an entry for every line with three fields. */
  method QueryNvidiaSmi(run: SmiRun) returns (info: Option<seq<SmiGpu>>)
    ensures info == SmiInfo(run)
  {
    if run.SmiFailed? || run.returncode != 0 || run.stdout == "" {
      return None;
    }
    var lines := StrippedNonBlank(SplitLines(run.stdout));
    var parsed := ParseLines(lines);
    info := if parsed == Some([]) then None else parsed;
  }

  /** The loop of _query_nvidia_smi over the stripped non-blank lines: the
      outcome of each line, folded in order; None when a line raised. */
  method ParseLines(lines: seq<string>) returns (r: Option<seq<SmiGpu>>)
    ensures r == ParseUpTo(lines, |lines|)
  {
    var outs := Outcomes(lines);
    r := CollectOutcomes(outs);
  }

  /** The fold of the loop: appends each entry, skips short lines and
      stops at the first line that raised. */
  method CollectOutcomes(outs: seq<LineOutcome>) returns (r: Option<seq<SmiGpu>>)
    ensures r == Collect(outs, |outs|)
  {
    var gpus: seq<SmiGpu> := [];
    var idx := 0;
    while idx < |outs|
      invariant 0 <= idx <= |outs|
      invariant Collect(outs, idx) == Some(gpus)
    {
      match outs[idx] {
        case Skip =>
        case Crash =>
          CrashIsFinal(outs, idx + 1, |outs|);
          return None;
        case Entry(g) =>
          gpus := gpus + [g];
      }
      idx := idx + 1;
    }
    r := Some(gpus);
  }

  /** Every entry of the nvidia-smi result comes from a non-blank output
      line with at least three fields, at that line's position, in order. */
  lemma SmiInfoEntries(returncode: int, stdout: string)
    ensures var r := SmiInfo(SmiRan(returncode, stdout));
      var lines := StrippedNonBlank(SplitLines(stdout));
      r.Some? ==>
        (forall k :: 0 <= k < |r.value| ==>
           (r.value[k].index < |lines| &&
            |Split(lines[r.value[k].index], ',')| >= 3 &&
            ParseLine(lines[r.value[k].index], r.value[k].index) == Entry(r.value[k]))) &&
        (forall k, m :: 0 <= k < m < |r.value| ==> r.value[k].index < r.value[m].index) &&
        (forall i :: 0 <= i < |lines| && ParseLine(lines[i], i).Entry? ==>
           exists k :: 0 <= k < |r.value| && r.value[k].index == i)
  {
    var lines := StrippedNonBlank(SplitLines(stdout));
    var r := SmiInfo(SmiRan(returncode, stdout));
    if r.Some? {
      OutcomesWellIndexed(lines);
      CollectSound(Outcomes(lines), |lines|);
      CollectComplete(Outcomes(lines), |lines|);
      forall k | 0 <= k < |r.value|
        ensures |Split(lines[r.value[k].index], ',')| >= 3
      {
      }
    }
  }

  /** One CUDA device as torch describes it; None when reading its
      properties raised. */
  datatype CudaProps = CudaProps(major: int, minor: int, name: string, totalMemory: int)

  /** The answers torch gave, with every probe that raised already
      replaced by the source's fallback (False, or 0 devices). */
  datatype Torch = NoTorch | Torch(
    version: Option<string>,
    cudaAvailable: bool,
    cudaVersion: Option<string>,
    cudnnAvailable: bool,
    devices: seq<Option<CudaProps>>,
    mpsAvailable: bool,
    hipVersion: Option<string>)

  datatype GpuEntry =
    | CudaGpu(index: nat, name: string, totalMemoryMb: int, major: int, minor: int)
    | SmiEntry(gpu: SmiGpu)

  datatype CudaInfo = CudaInfo(available: bool, version: Option<string>, cudnnAvailable: bool)

  /** The "frameworks" dict: each field is a key that may be absent. */
  datatype Frameworks = Frameworks(
    torch: Option<Option<string>>,
    cuda: Option<CudaInfo>,
    rocm: Option<string>,
    nvidiaSmi: Option<seq<SmiGpu>>)

  datatype GpuStatus = GpuStatus(
    platform: string,
    available: bool,
    device: string,
    backends: seq<string>,
    gpus: seq<GpuEntry>,
    frameworks: Frameworks)

  /** A version string kept only when Python finds it truthy. */
  function Truthy(v: Option<string>): (r: Option<string>)
    ensures r.Some? <==> v.Some? && v.value != ""
    ensures r.Some? ==> r == v
  {
    if v.Some? && v.value != "" then v else None
  }

  /** The gpus entry torch's device idx contributes. */
  function CudaEntry(idx: nat, p: CudaProps): GpuEntry {
    CudaGpu(idx, p.name, p.totalMemory / (1024 * 1024), p.major, p.minor)
  }

  /** The "compute_capability" string of a CUDA entry, "major.minor". */
  function ComputeCapability(g: GpuEntry): string
    requires g.CudaGpu?
  {
    Values.IntToString(g.major) + "." + Values.IntToString(g.minor)
  }

  /** The devices whose properties could be read, with their own index. */
  function CudaEntries(devices: seq<Option<CudaProps>>, n: nat): seq<GpuEntry>
    requires n <= |devices|
  {
    if n == 0 then []
    else
      var pre := CudaEntries(devices, n - 1);
      match devices[n - 1]
      case None => pre
      case Some(p) => pre + [CudaEntry(n - 1, p)]
  }

  /** The list holds the readable devices only, each under its own index,
      and is non-empty when any device could be read. */
  lemma {:induction false} CudaEntriesSound(devices: seq<Option<CudaProps>>, n: nat)
    requires n <= |devices|
    ensures var r := CudaEntries(devices, n);
      |r| <= n &&
      (forall k :: 0 <= k < |r| ==>
        (r[k].CudaGpu? && r[k].index < n && devices[r[k].index].Some? &&
         r[k] == CudaEntry(r[k].index, devices[r[k].index].value)))
    ensures (exists i :: 0 <= i < n && devices[i].Some?) ==> |CudaEntries(devices, n)| > 0
  {
    if n > 0 {
      CudaEntriesSound(devices, n - 1);
      var pre := CudaEntries(devices, n - 1);
      var r := CudaEntries(devices, n);
      if devices[n - 1].Some? {
        assert r == pre + [CudaEntry(n - 1, devices[n - 1].value)];
        forall k | 0 <= k < |r|
          ensures r[k].CudaGpu? && r[k].index < n && devices[r[k].index].Some? &&
                  r[k] == CudaEntry(r[k].index, devices[r[k].index].value)
        {
          if k < |pre| {
            assert r[k] == pre[k];
          }
        }
      } else {
        assert r == pre;
        if exists i :: 0 <= i < n && devices[i].Some? {
          var i :| 0 <= i < n && devices[i].Some?;
          assert i < n - 1;
        }
      }
    }
  }

  /** The loop over torch.cuda.device_count() in get_gpu_status. */
  method ListCudaDevices(devices: seq<Option<CudaProps>>) returns (gpus: seq<GpuEntry>)
    ensures gpus == CudaEntries(devices, |devices|)
  {
    gpus := [];
    var idx := 0;
    while idx < |devices|
      invariant 0 <= idx <= |devices|
      invariant gpus == CudaEntries(devices, idx)
    {
      match devices[idx] {
        case None =>
        case Some(p) =>
          gpus := gpus + [CudaEntry(idx, p)];
      }
      idx := idx + 1;
    }
  }

  /** get_gpu_status: CUDA, when torch reports it, decides the device;
      MPS is the device only without CUDA; the nvidia-smi list stands in
      for the GPUs only when torch listed none. */
  method GetGpuStatus(platform: string, torch: Torch, smi: SmiRun) returns (status: GpuStatus)
    ensures status.available <==> torch.Torch? && (torch.cudaAvailable || torch.mpsAvailable)
    ensures status.device == if torch.Torch? && torch.cudaAvailable then "cuda"
                             else if torch.Torch? && torch.mpsAvailable then "mps"
                             else "cpu"
    ensures status.backends == (if torch.Torch? && torch.cudaAvailable then ["cuda"] else [])
                             + (if torch.Torch? && torch.mpsAvailable then ["mps"] else [])
    ensures var fromTorch := if torch.Torch? && torch.cudaAvailable then CudaEntries(torch.devices, |torch.devices|) else [];
      status.gpus == if fromTorch == [] && SmiInfo(smi).Some? then SmiEntries(SmiInfo(smi).value) else fromTorch
    ensures status.frameworks.nvidiaSmi == SmiInfo(smi)
    ensures status.frameworks.torch == if torch.Torch? then Some(torch.version) else None
    ensures status.frameworks.cuda == if torch.Torch? then Some(CudaInfo(torch.cudaAvailable, Truthy(torch.cudaVersion), torch.cudnnAvailable)) else None
    ensures status.frameworks.rocm == if torch.Torch? then Truthy(torch.hipVersion) else None
    ensures status.platform == platform
  {
    var torchInfo: Option<Option<string>> := None;
    var cudaInfo: Option<CudaInfo> := None;
    var rocm: Option<string> := None;
    var gpus: seq<GpuEntry> := [];
    var device := "cpu";
    var available := false;
    var backends: seq<string> := [];
    if torch.Torch? {
      torchInfo := Some(torch.version);
      if torch.cudaAvailable {
        available := true;
        device := "cuda";
        backends := backends + ["cuda"];
        gpus := ListCudaDevices(torch.devices);
      }
      cudaInfo := Some(CudaInfo(torch.cudaAvailable, Truthy(torch.cudaVersion), torch.cudnnAvailable));
      if torch.mpsAvailable {
        if !available {
          device := "mps";
        }
        available := true;
        backends := backends + ["mps"];
      }
      if torch.hipVersion.Some? && torch.hipVersion.value != "" {
        rocm := torch.hipVersion;
      }
    }
    var smiInfo := QueryNvidiaSmi(smi);
    if smiInfo.Some? {
      if gpus == [] {
        gpus := SmiEntries(smiInfo.value);
      }
    }
    status := GpuStatus(platform, available, device, backends, gpus, Frameworks(torchInfo, cudaInfo, rocm, smiInfo));
  }

  function SmiEntries(gpus: seq<SmiGpu>): (r: seq<GpuEntry>)
    ensures |r| == |gpus| && forall k :: 0 <= k < |gpus| ==> r[k] == SmiEntry(gpus[k])
  {
    seq(|gpus|, k requires 0 <= k < |gpus| => SmiEntry(gpus[k]))
  }
}
