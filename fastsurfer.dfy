/** The FastSurfer step: the cerebellum and hypothalamus segmentation that
    `run_fastsurfer.sh` performs, launched once per series unless its five
    outputs are already there. */
module FastSurfer {
  import opened Wrappers
  import opened Files
  import opened Records
  import opened Steps

  /** The outputs that mark a subject as done, relative to `sd / sid`. */
  const OUTPUTS: seq<Path> := [
    ["mri", "cerebellum.CerebNet.nii.gz"], ["mri", "hypothalamus.HypVINN.nii.gz"],
    ["mri", "hypothalamus_mask.HypVINN.nii.gz"], ["stats", "cerebellum.CerebNet.stats"],
    ["stats", "hypothalamus.HypVINN.stats"]]

  function Outputs(sd: Path, sid: string): (ps: seq<Path>)
    ensures |ps| == |OUTPUTS|
    ensures forall i | 0 <= i < |ps| :: ps[i] == sd + [sid] + OUTPUTS[i]
  {
    MapSeq(OUTPUTS, (rel: Path) => sd + [sid] + rel)
  }

  const SCRIPT := "run_fastsurfer.sh"

  /** The command line the `RunFastSurfer` node builds: the script, by its
      path under `fs_dir`, then the inputs in nipype's order of input names.
      `--parallel` appears only when that input is true; `--no_asegdkt` is
      never set. */
  function FastSurferCommand(fsDir: Path, t1: Path, sid: string, sd: Path, parallel: bool, threads: int): Command {
    Command(SCRIPT, [PathArg(fsDir + [SCRIPT])] + (if parallel then [Flag("--parallel")] else []) + [
      Flag("--sd"), PathArg(sd), Flag("--sid"), Word(sid), Flag("--t1"), PathArg(t1),
      Flag("--threads"), Number(threads)])
  }

  /** One FastSurfer step, as both versions of `run_fastsurfer` perform it:
      nothing when every output exists; otherwise the `t1` input, a
      `File(exists=True)`, refuses a missing file before the workflow is
      built, and the workflow runs once. Only a crash of the workflow itself
      is subject to `reraise`. */
  function Step(fs: FileSystem, fsDir: Path, t1: Path, sid: string, sd: Path, parallel: bool, threads: int,
                failing: Failing, reraise: bool): (r: Run)
    ensures r.launched == [] <==> AllExist(fs, Outputs(sd, sid)) || !IsFile(fs, t1)
    ensures r.launched != [] ==> r.launched == [FastSurferCommand(fsDir, t1, sid, sd, parallel, threads)]
    ensures AllExist(fs, Outputs(sd, sid)) ==> r.raised.None?
    ensures !AllExist(fs, Outputs(sd, sid)) && !IsFile(fs, t1) ==> r.raised == Some(TraitError(t1))
    ensures r.launched != [] ==>
      (r.raised.Some? <==> reraise && FastSurferCommand(fsDir, t1, sid, sd, parallel, threads) in failing)
  {
    if AllExist(fs, Outputs(sd, sid)) then Run([], None)
    else if !IsFile(fs, t1) then Run([], Some(TraitError(t1)))
    else Guarded(false, FastSurferCommand(fsDir, t1, sid, sd, parallel, threads), failing, reraise)
  }

  /** `run_fastsurfer`: the step without `--parallel`, a crash of the
      workflow re-raised. */
  function RunFastsurfer(fs: FileSystem, fsDir: Path, t1: Path, sid: string, sd: Path, threads: int, failing: Failing): (r: Run)
    ensures AllExist(fs, Outputs(sd, sid)) ==> r == Run([], None)
    ensures !AllExist(fs, Outputs(sd, sid)) && IsFile(fs, t1) ==>
      r.launched == [FastSurferCommand(fsDir, t1, sid, sd, false, threads)]
      && (r.raised.Some? <==> FastSurferCommand(fsDir, t1, sid, sd, false, threads) in failing)
    ensures r.raised.Some? ==> r.raised == Some(TraitError(t1)) || r.raised == Some(ToolError(SCRIPT))
  {
    Step(fs, fsDir, t1, sid, sd, false, threads, failing, true)
  }

  /** The T1 image recon-all left for a series. */
  function T1(freesurfer: Path, series: string): Path {
    freesurfer + [series, "mri", "T1.mgz"]
  }

  /** `run_fastsurfer_for_series`: the step for one series, its arguments
      derived from the series name; the thread count is computed before the
      step is entered. */
  function RunFastsurferForSeries(fs: FileSystem, home: Path, series: string, freesurfer: Path, fastsurfer: Path,
                                  cpu: Option<nat>, failing: Failing): (r: Run)
    ensures cpu.None? ==> r == Run([], Some(TypeError))
    ensures cpu.Some? ==> (r.launched == [] <==> AllExist(fs, Outputs(fastsurfer, series)) || !IsFile(fs, T1(freesurfer, series)))
    ensures forall c | c in r.launched ::
      cpu.Some? && c == FastSurferCommand(home + ["FastSurfer"], T1(freesurfer, series), series, fastsurfer, false, Workers(cpu).value)
    ensures cpu.Some? && r.launched != [] ==> (r.raised.Some? <==> r.launched[0] in failing)
  {
    match Workers(cpu)
    case Failure(e) => Run([], Some(e))
    case Success(threads) =>
      RunFastsurfer(fs, home + ["FastSurfer"], T1(freesurfer, series), series, fastsurfer, threads, failing)
  }

  /** Each series' step, in folder order. */
  function SeriesRuns(fs: FileSystem, home: Path, folders: seq<string>, freesurfer: Path, fastsurfer: Path,
                      cpu: Option<nat>, failing: Failing): (runs: seq<Run>)
    ensures |runs| == |folders|
    ensures forall i | 0 <= i < |folders| ::
      runs[i] == RunFastsurferForSeries(fs, home, folders[i], freesurfer, fastsurfer, cpu, failing)
  {
    MapSeq(folders, (series: string) => RunFastsurferForSeries(fs, home, series, freesurfer, fastsurfer, cpu, failing))
  }

  // ---------------------------------------------------------------------------
  // The macOS fallback switch

  const MPS_FALLBACK := "PYTORCH_ENABLE_MPS_FALLBACK"

  /** The two objects the test at line 92 compares: the imported `platform`
      module, and a string. */
  datatype PyObject = PlatformModule | PyStr(s: string)

  /** Python `==` between these objects: a module has no `__eq__` of its own,
      so it equals only itself. */
  predicate PyEquals(a: PyObject, b: PyObject) {
    a == b
  }

  /** The environment `run_fastsurfer_for_all` leaves, as written: the test
      compares the module to a string, so it never holds, whatever system the
      code runs on. */
  function FallbackEnvAsWritten(system: string, env: map<string, string>): (e: map<string, string>)
    ensures e == env
  {
    if PyEquals(PlatformModule, PyStr("darwin")) then env[MPS_FALLBACK := "1"] else env
  }

  /** On macOS the fallback switch stays unset. */
  lemma FallbackMissedOnMac()
    ensures MPS_FALLBACK !in FallbackEnvAsWritten("Darwin", map[])
    ensures MPS_FALLBACK in FallbackEnv("Darwin", map[])
  {
  }

  /** The evidently intended environment: on macOS (`platform.system()` is
      "Darwin") the fallback switch is set to "1"; everything else is left as
      it was. */
  function FallbackEnv(system: string, env: map<string, string>): (e: map<string, string>)
    ensures system == "Darwin" ==> MPS_FALLBACK in e && e[MPS_FALLBACK] == "1"
    ensures system != "Darwin" ==> e == env
    ensures forall k | k != MPS_FALLBACK :: (k in e <==> k in env) && (k in env ==> e[k] == env[k])
  {
    if system == "Darwin" then env[MPS_FALLBACK := "1"] else env
  }

  /** `run_fastsurfer_for_all`: the fallback test as written (which leaves the
      environment as it was, on macOS too; `FallbackEnv` is what it means to
      do), then every
      series dispatched to the pool; `list(executor.map(...))` waits for each
      result in folder order, so the first series that raised surfaces. An
      unknown CPU count fails in `max(1, os.cpu_count())` before any series
      is dispatched. */
  method RunFastsurferForAll(fs: FileSystem, home: Path, folders: seq<string>, freesurfer: Path, fastsurfer: Path,
                             cpu: Option<nat>, failing: Failing, system: string, env: map<string, string>)
    returns (run: Run, newEnv: map<string, string>)
    ensures newEnv == FallbackEnvAsWritten(system, env)
    ensures cpu.None? ==> run == Run([], Some(TypeError))
    ensures cpu.Some? ==> run == Sequenced(SeriesRuns(fs, home, folders, freesurfer, fastsurfer, cpu, failing))
  {
    newEnv := FallbackEnvAsWritten(system, env);
    if cpu.None? {
      return Run([], Some(TypeError)), newEnv;
    }
    ghost var runs := SeriesRuns(fs, home, folders, freesurfer, fastsurfer, cpu, failing);
    run := Run([], None);
    for i := 0 to |folders|
      invariant run == Sequenced(runs[..i])
    {
      var r := RunFastsurferForSeries(fs, home, folders[i], freesurfer, fastsurfer, cpu, failing);
      SequencedSnoc(runs[..i], r);
      assert runs[..i + 1] == runs[..i] + [r];
      run := Then(run, r);
    }
    assert runs[..|folders|] == runs;
  }

  /** Every series is dispatched in the modelled run: each series' launches
      are among those of the whole run, and the run raises exactly when some
      series did. Python's pool may instead cancel the series it has not
      started once one has raised. */
  lemma ForAllDispatchesEach(fs: FileSystem, home: Path, folders: seq<string>, freesurfer: Path, fastsurfer: Path,
                             cpu: Option<nat>, failing: Failing)
    requires cpu.Some?
    ensures var run := Sequenced(SeriesRuns(fs, home, folders, freesurfer, fastsurfer, cpu, failing));
      (forall i, c | 0 <= i < |folders| && c in RunFastsurferForSeries(fs, home, folders[i], freesurfer, fastsurfer, cpu, failing).launched ::
        c in run.launched)
      && (run.raised.Some? <==> exists i | 0 <= i < |folders| ::
        RunFastsurferForSeries(fs, home, folders[i], freesurfer, fastsurfer, cpu, failing).raised.Some?)
  {
    var runs := SeriesRuns(fs, home, folders, freesurfer, fastsurfer, cpu, failing);
    var run := Sequenced(runs);
    forall i, c | 0 <= i < |folders| && c in RunFastsurferForSeries(fs, home, folders[i], freesurfer, fastsurfer, cpu, failing).launched
      ensures c in run.launched
    {
      assert c in runs[i].launched;
    }
  }
}
