/** The processing pipeline: the routing of an upload into series folders,
    the per-series loops around the steps of `Utils` and the averaging of
    `JsonAverage`, and `run_processing`, which runs eight stages in a fixed
    order, reports each on the completion queue and stops at the first that
    fails. */
module Processing {
  import opened Wrappers
  import opened Text
  import opened Files
  import opened Records
  import opened Steps
  import U = Utils
  import opened JsonAverage

  // ---------------------------------------------------------------------------
  // Saving the upload

  /** What `pydicom.dcmread` yields for one file, as far as the routing looks:
      whether its SOP class is the DICOMDIR one, and its series description
      when it has one. */
  datatype Header = Header(isDirectory: bool, seriesDescription: Option<string>)

  /** One uploaded file: its client-side name, and its header, or `None` when
      reading it raises. */
  datatype Upload = Upload(filename: string, header: Option<Header>)

  /** `os.path.basename`: what follows the last '/'. */
  function Basename(name: string): (r: string)
    ensures '/' !in r
    ensures |r| <= |name| && r == name[|name| - |r|..]
    ensures |r| < |name| ==> name[|name| - |r| - 1] == '/'
  {
    var i := LastIndexOf(name, '/');
    var r := name[i + 1..];
    assert '/' !in r && |name| - |r| == i + 1 by {
      forall j | 0 <= j < |r| ensures r[j] != '/' {
        assert r[j] == name[i + 1 + j];
      }
    }
    r
  }

  /** `description.replace(" ", "_")`: every space becomes an underscore and
      nothing else changes. */
  lemma {:induction false} SpacesReplaced(s: string)
    ensures |Replace(s, " ", "_")| == |s|
    ensures forall i | 0 <= i < |s| :: Replace(s, " ", "_")[i] == if s[i] == ' ' then '_' else s[i]
    decreases |s|
  {
    if s != [] {
      SpacesReplaced(s[1..]);
      var rest := Replace(s[1..], " ", "_");
      var head := if s[..1] == " " then "_" else [s[0]];
      assert Replace(s, " ", "_") == head + rest;
    }
  }

  /** `dicom_directory / name`: pathlib drops an empty component. */
  function Child(dir: Path, name: string): (p: Path)
    ensures name == "" ==> p == dir
    ensures name != "" ==> p == dir + [name]
  {
    if name == "" then dir else dir + [name]
  }

  /** The series folder of a readable file: its description with spaces
      turned into underscores, "UNKNOWN" when it has none. */
  function SeriesFolder(h: Header): (s: string)
    ensures ' ' !in s
    ensures h.seriesDescription.None? ==> s == "UNKNOWN"
    ensures h.seriesDescription.Some? ==> s == Replace(h.seriesDescription.value, " ", "_")
    ensures h.seriesDescription.Some? ==> |s| == |h.seriesDescription.value| && forall i | 0 <= i < |s| ::
      s[i] == if h.seriesDescription.value[i] == ' ' then '_' else h.seriesDescription.value[i]
  {
    var description := match h.seriesDescription case Some(d) => d case None => "UNKNOWN";
    SpacesReplaced(description);
    var series := Replace(description, " ", "_");
    assert forall i | 0 <= i < |series| :: series[i] != ' ';
    assert description == "UNKNOWN" ==> series == "UNKNOWN" by {
      if description == "UNKNOWN" {
        assert forall i | 0 <= i < |series| :: series[i] == "UNKNOWN"[i];
      }
    }
    series
  }

  /** The path of a saved file: the series folder under `dicomDir` (left out
      when the description is empty, as pathlib drops an empty component),
      then the base name with the ".dcm" extension. */
  function SeriesPath(dicomDir: Path, h: Header, filename: string): (p: Path)
    ensures |dicomDir| < |p| <= |dicomDir| + 2 && p[..|dicomDir|] == dicomDir
    ensures p[|p| - 1] == U.AddDcmExtension(Basename(filename))
    ensures forall k | |dicomDir| <= k < |p| - 1 :: ' ' !in p[k]
    ensures h.seriesDescription.None? ==> p == dicomDir + ["UNKNOWN", U.AddDcmExtension(Basename(filename))]
    ensures h.seriesDescription.Some? && h.seriesDescription.value != "" ==>
      p == dicomDir + [Replace(h.seriesDescription.value, " ", "_"), U.AddDcmExtension(Basename(filename))]
    ensures h.seriesDescription == Some("") ==> p == dicomDir + [U.AddDcmExtension(Basename(filename))]
  {
    var folder, file := SeriesFolder(h), U.AddDcmExtension(Basename(filename));
    FolderAndFile(dicomDir, folder, file);
    assert folder == "" <==> h.seriesDescription == Some("") by {
      if h.seriesDescription.Some? {
        assert |folder| == |h.seriesDescription.value|;
      }
    }
    if folder == "" then dicomDir + [file] else dicomDir + [folder, file]
  }

  /** A file put in a folder without spaces under `dir`, or straight into
      `dir` when the folder name is empty. */
  lemma FolderAndFile(dir: Path, folder: string, file: string)
    requires ' ' !in folder
    ensures var p := if folder == "" then dir + [file] else dir + [folder, file];
      && |dir| < |p| <= |dir| + 2 && p[..|dir|] == dir && p[|p| - 1] == file
      && forall k | |dir| <= k < |p| - 1 :: ' ' !in p[k]
  {
    if folder != "" {
      var p := dir + [folder, file];
      assert p[..|dir|] == dir && p[|dir|] == folder;
    } else {
      assert (dir + [file])[..|dir|] == dir;
    }
  }

  /** Where `save_dicoms` puts an uploaded file: nowhere when its name mentions
      DICOMDIR in any letter case, when it cannot be read, or when it is a
      DICOMDIR record; otherwise at its `SeriesPath`. */
  function Destination(dicomDir: Path, u: Upload): (r: Option<Path>)
    ensures r.Some? <==> !Contains(Upper(u.filename), "DICOMDIR") && u.header.Some? && !u.header.value.isDirectory
    ensures r.Some? ==> r.value == SeriesPath(dicomDir, u.header.value, u.filename)
    ensures r.Some? ==> EndsWith(Lower(r.value[|r.value| - 1]), U.DCM)
  {
    if Contains(Upper(u.filename), "DICOMDIR") then None
    else match u.header
      case None => None
      case Some(h) =>
        if h.isDirectory then None
        else Some(SeriesPath(dicomDir, h, u.filename))
  }

  /** `save_dicoms`: the files saved, in upload order. A file that cannot be
      read is skipped, so the step itself never raises. */
  method SaveDicoms(uploads: seq<Upload>, dicomDir: Path) returns (saved: seq<Path>)
    ensures saved == FilterMap(uploads, (u: Upload) => Destination(dicomDir, u))
    ensures forall p | p in saved :: exists i | 0 <= i < |uploads| :: Destination(dicomDir, uploads[i]) == Some(p)
    ensures forall i | 0 <= i < |uploads| && Destination(dicomDir, uploads[i]).Some? ::
      Destination(dicomDir, uploads[i]).value in saved
  {
    var route := (u: Upload) => Destination(dicomDir, u);
    saved := [];
    for i := 0 to |uploads|
      invariant saved == FilterMap(uploads[..i], route)
    {
      assert uploads[..i + 1][..i] == uploads[..i];
      var dest := Destination(dicomDir, uploads[i]);
      if dest.Some? {
        saved := saved + [dest.value];
      }
    }
    assert uploads[..|uploads|] == uploads;
    FilterMapMembers(uploads, route);
  }

  /** An upload named like a DICOMDIR is never saved, whatever it holds. */
  lemma DicomdirNeverSaved(uploads: seq<Upload>, dicomDir: Path, i: nat)
    requires i < |uploads| && Contains(Upper(uploads[i].filename), "DICOMDIR")
    ensures forall p | p in FilterMap(uploads, (u: Upload) => Destination(dicomDir, u)) :: exists j | 0 <= j < |uploads| ::
      j != i && Destination(dicomDir, uploads[j]) == Some(p)
  {
    FilterMapMembers(uploads, (u: Upload) => Destination(dicomDir, u));
  }

  // ---------------------------------------------------------------------------
  // Conversion to NIfTI

  /** `convert_to_nifti`: one conversion per series folder of `dicomDir`, in
      listing order, each to `<folder>.nii.gz` in `niftiDir`. A conversion
      that raises (its folder in `failing`) is logged; only the listing of
      `dicomDir` can make the step raise. */
  method ConvertToNifti(fs: FileSystem, dicomDir: Path, niftiDir: Path, failing: set<string>)
    returns (escaped: Option<Error>, attempted: seq<(Path, Path)>, written: seq<Path>)
    ensures escaped.Some? <==> !IsDir(fs, dicomDir)
    ensures escaped.Some? ==> escaped == U.ListingError(fs, dicomDir) && attempted == [] && written == []
    ensures forall n :: (dicomDir + [n], niftiDir + [n + U.NII_GZ]) in attempted <==> escaped.None? && IsDir(fs, dicomDir + [n])
    ensures forall a | a in attempted :: exists n :: a == (dicomDir + [n], niftiDir + [n + U.NII_GZ])
    ensures forall n :: niftiDir + [n + U.NII_GZ] in written <==> escaped.None? && IsDir(fs, dicomDir + [n]) && n !in failing
  {
    var listed := U.GetFolderNames(fs, dicomDir);
    if listed.Failure? {
      return Some(listed.error), [], [];
    }
    var names := listed.value;
    escaped, attempted, written := None, [], [];
    for i := 0 to |names|
      invariant forall n :: (dicomDir + [n], niftiDir + [n + U.NII_GZ]) in attempted <==> n in names[..i]
      invariant forall a | a in attempted :: exists n :: a == (dicomDir + [n], niftiDir + [n + U.NII_GZ])
      invariant forall n :: niftiDir + [n + U.NII_GZ] in written <==> n in names[..i] && n !in failing
      invariant forall p | p in written :: exists n :: p == niftiDir + [n + U.NII_GZ]
    {
      var folder := names[i];
      assert names[..i + 1] == names[..i] + [folder];
      NiftiNameInjective(niftiDir, folder);
      attempted := attempted + [(dicomDir + [folder], niftiDir + [folder + U.NII_GZ])];
      if folder !in failing {
        written := written + [niftiDir + [folder + U.NII_GZ]];
      }
    }
    assert names[..|names|] == names;
  }

  /** Distinct series give distinct NIfTI files. */
  lemma NiftiNameInjective(niftiDir: Path, n: string)
    ensures forall m | niftiDir + [m + U.NII_GZ] == niftiDir + [n + U.NII_GZ] :: m == n
  {
    forall m | niftiDir + [m + U.NII_GZ] == niftiDir + [n + U.NII_GZ] ensures m == n {
      assert m + U.NII_GZ == (niftiDir + [m + U.NII_GZ])[|niftiDir|];
      assert |m| == |n|;
      assert m == (m + U.NII_GZ)[..|m|];
      assert n == (n + U.NII_GZ)[..|n|];
    }
  }

  // ---------------------------------------------------------------------------
  // Per-series loops

  /** The lesion step of each series, in folder order. */
  function LesionRuns(fs: FileSystem, folders: seq<string>, freesurfer: Path, samseg: Path, failing: Failing): (runs: seq<Run>)
    ensures |runs| == |folders|
    ensures forall i | 0 <= i < |folders| :: runs[i] == U.ProcessLesions(fs, freesurfer, samseg, folders[i], failing)
  {
    MapSeq(folders, (series: string) => U.ProcessLesions(fs, freesurfer, samseg, series, failing))
  }

  /** `process_lesions_for_all`: every series' lesion step is dispatched, but
      `executor.map` is never consumed, so no series' crash surfaces; an
      unknown CPU count fails before anything is dispatched. */
  method ProcessLesionsForAll(fs: FileSystem, folders: seq<string>, freesurfer: Path, samseg: Path, cpu: Option<nat>,
                              failing: Failing) returns (run: Run)
    ensures cpu.None? ==> run == Run([], Some(TypeError))
    ensures cpu.Some? ==> run == Swallowed(Sequenced(LesionRuns(fs, folders, freesurfer, samseg, failing)))
    ensures cpu.Some? ==> run.raised.None?
    ensures cpu.Some? ==>
      forall i, c | 0 <= i < |folders| && c in U.ProcessLesions(fs, freesurfer, samseg, folders[i], failing).launched ::
        c in run.launched
  {
    var workers := Workers(cpu);
    if workers.Failure? {
      return Run([], Some(workers.error));
    }
    ghost var runs := LesionRuns(fs, folders, freesurfer, samseg, failing);
    var all := Run([], None);
    for i := 0 to |folders|
      invariant all == Sequenced(runs[..i])
    {
      var r := U.ProcessLesions(fs, freesurfer, samseg, folders[i], failing);
      SequencedSnoc(runs[..i], r);
      assert runs[..i + 1] == runs[..i] + [r];
      all := Then(all, r);
    }
    assert runs[..|folders|] == runs;
    run := Swallowed(all);
    forall i, c | 0 <= i < |folders| && c in U.ProcessLesions(fs, freesurfer, samseg, folders[i], failing).launched
      ensures c in run.launched
    {
      assert c in runs[i].launched;
    }
  }

  /** The subregion steps of one series, structure by structure, each crash
      logged. */
  function StructureRuns(fs: FileSystem, folder: string, freesurfer: Path, failing: Failing): (runs: seq<Run>)
    ensures |runs| == 3
    ensures forall j | 0 <= j < 3 :: runs[j] == Swallowed(U.SegmentSubregions(fs, U.STRUCTURES[j], folder, freesurfer, failing))
  {
    MapSeq(U.STRUCTURES, (s: string) => Swallowed(U.SegmentSubregions(fs, s, folder, freesurfer, failing)))
  }

  /** The subregion steps of every series: folders outer, structures inner. */
  function SubregionRuns(fs: FileSystem, folders: seq<string>, freesurfer: Path, failing: Failing): seq<Run> {
    FlatMap(folders, (folder: string) => StructureRuns(fs, folder, freesurfer, failing))
  }

  /** One more run of a list already under way. */
  lemma SequencedStep(xs: seq<Run>, j: nat)
    requires j < |xs|
    ensures Sequenced(xs[..j + 1]) == Then(Sequenced(xs[..j]), xs[j])
  {
    SequencedSnoc(xs[..j], xs[j]);
    assert xs[..j] + [xs[j]] == xs[..j + 1];
  }

  lemma SequencedPrefixStep(done: seq<Run>, xs: seq<Run>, j: nat)
    requires j < |xs|
    ensures Sequenced(done + xs[..j + 1]) == Then(Sequenced(done + xs[..j]), xs[j])
  {
    SequencedSnoc(done + xs[..j], xs[j]);
    assert (done + xs[..j]) + [xs[j]] == done + xs[..j + 1];
  }

  /** One more series: its three structures after those of the series
      before it. */
  lemma SubregionRunsStep(fs: FileSystem, folders: seq<string>, freesurfer: Path, failing: Failing, i: nat)
    requires i < |folders|
    ensures SubregionRuns(fs, folders[..i + 1], freesurfer, failing)
      == SubregionRuns(fs, folders[..i], freesurfer, failing) + StructureRuns(fs, folders[i], freesurfer, failing)
  {
    assert folders[..i + 1][..i] == folders[..i];
  }

  /** `segment_subregions_for_all`: every (series, structure) pair in turn,
      each crash logged, so the stage never raises. */
  method SegmentSubregionsForAll(fs: FileSystem, folders: seq<string>, freesurfer: Path, failing: Failing) returns (run: Run)
    ensures run == Sequenced(SubregionRuns(fs, folders, freesurfer, failing))
    ensures run.raised.None?
  {
    run := Run([], None);
    for i := 0 to |folders|
      invariant run == Sequenced(SubregionRuns(fs, folders[..i], freesurfer, failing))
      invariant run.raised.None?
    {
      run := SegmentStructures(fs, folders[i], freesurfer, failing, run, SubregionRuns(fs, folders[..i], freesurfer, failing));
      SubregionRunsStep(fs, folders, freesurfer, failing, i);
    }
    assert folders[..|folders|] == folders;
  }

  /** The three structures of one series, in order, after the runs `done`. */
  method SegmentStructures(fs: FileSystem, folder: string, freesurfer: Path, failing: Failing, before: Run, ghost done: seq<Run>)
    returns (run: Run)
    requires before == Sequenced(done) && before.raised.None?
    ensures run == Sequenced(done + StructureRuns(fs, folder, freesurfer, failing))
    ensures run.raised.None?
  {
    ghost var structures := StructureRuns(fs, folder, freesurfer, failing);
    assert done + structures[..0] == done;
    run := before;
    for j := 0 to 3
      invariant run == Sequenced(done + structures[..j])
      invariant run.raised.None?
    {
      var r := Swallowed(U.SegmentSubregions(fs, U.STRUCTURES[j], folder, freesurfer, failing));
      SequencedPrefixStep(done, structures, j);
      run := Then(run, r);
    }
    assert structures[..3] == structures;
  }


  /** The launches of the subregion steps: those of the series before
      `folders[i]`, then its three structures in their fixed order, then
      those of the series after it. */
  lemma SubregionsOrder(fs: FileSystem, folders: seq<string>, freesurfer: Path, failing: Failing, i: nat)
    requires i < |folders|
    ensures Sequenced(SubregionRuns(fs, folders, freesurfer, failing)).launched ==
      Sequenced(SubregionRuns(fs, folders[..i], freesurfer, failing)).launched
      + U.SegmentSubregions(fs, U.STRUCTURES[0], folders[i], freesurfer, failing).launched
      + U.SegmentSubregions(fs, U.STRUCTURES[1], folders[i], freesurfer, failing).launched
      + U.SegmentSubregions(fs, U.STRUCTURES[2], folders[i], freesurfer, failing).launched
      + Sequenced(SubregionRuns(fs, folders[i + 1..], freesurfer, failing)).launched
  {
    var a := SubregionRuns(fs, folders[..i], freesurfer, failing);
    var b := StructureRuns(fs, folders[i], freesurfer, failing);
    var c := SubregionRuns(fs, folders[i + 1..], freesurfer, failing);
    SubregionRunsSplit(fs, folders, freesurfer, failing, i);
    SequencedAppend(a + b, c);
    SequencedAppend(a, b);
    ThreeLaunches(b);
    assert Sequenced(a + b + c).launched == Sequenced(a).launched + Sequenced(b).launched + Sequenced(c).launched;
    assert b[0].launched == U.SegmentSubregions(fs, U.STRUCTURES[0], folders[i], freesurfer, failing).launched;
    assert b[1].launched == U.SegmentSubregions(fs, U.STRUCTURES[1], folders[i], freesurfer, failing).launched;
    assert b[2].launched == U.SegmentSubregions(fs, U.STRUCTURES[2], folders[i], freesurfer, failing).launched;
    Regroup(Sequenced(a).launched, b[0].launched, b[1].launched, b[2].launched, Sequenced(c).launched);
  }

  /** Concatenation regrouped. */
  lemma Regroup<T>(a: seq<T>, x: seq<T>, y: seq<T>, z: seq<T>, c: seq<T>)
    ensures a + (x + y + z) + c == a + x + y + z + c
  {
  }

  /** The steps of all series are those before `folders[i]`, its own, and
      those after it. */
  lemma SubregionRunsSplit(fs: FileSystem, folders: seq<string>, freesurfer: Path, failing: Failing, i: nat)
    requires i < |folders|
    ensures SubregionRuns(fs, folders, freesurfer, failing)
      == SubregionRuns(fs, folders[..i], freesurfer, failing) + StructureRuns(fs, folders[i], freesurfer, failing)
        + SubregionRuns(fs, folders[i + 1..], freesurfer, failing)
  {
    assert folders == folders[..i + 1] + folders[i + 1..];
    FlatMapAppend(folders[..i + 1], folders[i + 1..], (folder: string) => StructureRuns(fs, folder, freesurfer, failing));
    SubregionRunsStep(fs, folders, freesurfer, failing, i);
  }

  /** Three runs in turn launch what each of them launches, in order. */
  lemma ThreeLaunches(b: seq<Run>)
    requires |b| == 3
    ensures Sequenced(b).launched == b[0].launched + b[1].launched + b[2].launched
  {
    assert b == [b[0]] + [b[1]] + [b[2]];
    SequencedSnoc([b[0]] + [b[1]], b[2]);
    SequencedSnoc([b[0]], b[1]);
    SequencedSnoc([], b[0]);
    assert [] + [b[0]] == [b[0]];
  }

  /** The hypothalamus step of each series, each crash logged. */
  function HypothalamusRuns(fs: FileSystem, folders: seq<string>, freesurfer: Path, cpu: Option<nat>, failing: Failing)
    : (runs: seq<Run>)
    ensures |runs| == |folders|
    ensures forall i | 0 <= i < |folders| ::
      runs[i] == Swallowed(U.SegmentHypothalamus(fs, folders[i], freesurfer, cpu, failing)) && runs[i].raised.None?
  {
    MapSeq(folders, (series: string) => Swallowed(U.SegmentHypothalamus(fs, series, freesurfer, cpu, failing)))
  }

  /** `segment_hypothalamus_for_all`: every series in turn, each crash logged,
      so the stage never raises. */
  method SegmentHypothalamusForAll(fs: FileSystem, folders: seq<string>, freesurfer: Path, cpu: Option<nat>, failing: Failing)
    returns (run: Run)
    ensures run == Sequenced(HypothalamusRuns(fs, folders, freesurfer, cpu, failing))
    ensures run.raised.None?
  {
    ghost var runs := HypothalamusRuns(fs, folders, freesurfer, cpu, failing);
    run := Run([], None);
    for i := 0 to |folders|
      invariant run == Sequenced(runs[..i])
    {
      var r := Swallowed(U.SegmentHypothalamus(fs, folders[i], freesurfer, cpu, failing));
      SequencedStep(runs, i);
      run := Then(run, r);
    }
    assert runs[..|folders|] == runs;
  }

  /** One submitted `process_corestats` task: it succeeds exactly when the
      core one does and leaves what the core one leaves; the target folder and
      its ancestors then exist, no folder disappeared, and no file outside the
      target folder changed. */
  method CorestatsTask(fs: FileSystem, fsPath: Path, target: Path) returns (r: Result<FileSystem, Error>)
    ensures !Exists(fs, fsPath) ==> r == Failure(FileNotFound(fsPath))
    ensures r.Success? <==> U.CorestatsSucceeds(fs, fsPath, target)
    ensures r.Success? ==> r.value == U.CorestatsResult(fs, fsPath, target)
    ensures r.Success? ==> fs.dirs <= r.value.dirs && (target != [] ==> target in r.value.dirs)
    ensures r.Success? ==> forall p | !InDir(target, p) :: p in r.value.files <==> p in fs.files
  {
    r := U.ProcessCorestats(fs, fsPath, target);
    assert target[..|target|] == target;
  }

  /** `process_corestats_for_all`: the core statistics of every series, each
      into its own folder under `corestats`. Every series is processed even
      after one has raised (the pool finishes its work before the exception
      leaves the `with` block); the first exception surfaces. An unknown CPU
      count fails before anything is submitted. */
  method ProcessCorestatsForAll(fs: FileSystem, folders: seq<string>, freesurfer: Path, corestats: Path, cpu: Option<nat>)
    returns (escaped: Option<Error>, out: FileSystem)
    ensures cpu.None? ==> escaped == Some(TypeError) && out == fs
    ensures cpu.Some? ==> out == CorestatsRun(fs, folders, freesurfer, corestats, |folders|).after
    ensures cpu.Some? ==> (escaped.Some? <==> true in CorestatsRun(fs, folders, freesurfer, corestats, |folders|).raised)
    ensures fs.dirs <= out.dirs
    ensures escaped.None? ==> forall i | 0 <= i < |folders| :: IsDir(out, corestats + [folders[i]])
    ensures folders == [] ==> out == fs && (escaped.None? <==> cpu.Some?)
  {
    var workers := Workers(cpu);
    if workers.Failure? {
      return Some(workers.error), fs;
    }
    escaped, out := None, fs;
    for i := 0 to |folders|
      invariant out == CorestatsRun(fs, folders, freesurfer, corestats, i).after
      invariant escaped.Some? <==> true in CorestatsRun(fs, folders, freesurfer, corestats, i).raised
    {
      var r := CorestatsTask(out, freesurfer + [folders[i]], corestats + [folders[i]]);
      CorestatsRunStep(fs, folders, freesurfer, corestats, i);
      match r
      case Success(next) =>
        out := next;
      case Failure(e) =>
        if escaped.None? {
          escaped := Some(e);
        }
    }
    CorestatsRunDirs(fs, folders, freesurfer, corestats, |folders|);
  }

  /** What a run of `process_corestats` tasks leaves: the file system, and
      for each task whether it raised. */
  datatype CorestatsTrace = CorestatsTrace(after: FileSystem, raised: seq<bool>)

  /** The `process_corestats` tasks of the first `n` series run in turn, each
      on the file system the earlier ones left; a task that raises leaves it
      as it was. */
  function CorestatsRun(fs: FileSystem, folders: seq<string>, freesurfer: Path, corestats: Path, n: nat): (t: CorestatsTrace)
    requires n <= |folders|
    ensures |t.raised| == n
  {
    if n == 0 then CorestatsTrace(fs, [])
    else
      var before := CorestatsRun(fs, folders, freesurfer, corestats, n - 1);
      var series := folders[n - 1];
      var ok := U.CorestatsSucceeds(before.after, freesurfer + [series], corestats + [series]);
      CorestatsTrace(
        if ok then U.CorestatsResult(before.after, freesurfer + [series], corestats + [series]) else before.after,
        before.raised + [!ok])
  }

  /** One more task: the file system it leaves, and whether some task raised. */
  lemma CorestatsRunStep(fs: FileSystem, folders: seq<string>, freesurfer: Path, corestats: Path, n: nat)
    requires n < |folders|
    ensures var before := CorestatsRun(fs, folders, freesurfer, corestats, n);
      var ok := U.CorestatsSucceeds(before.after, freesurfer + [folders[n]], corestats + [folders[n]]);
      var t := CorestatsRun(fs, folders, freesurfer, corestats, n + 1);
      && t.after == (if ok then U.CorestatsResult(before.after, freesurfer + [folders[n]], corestats + [folders[n]]) else before.after)
      && (true in t.raised <==> true in before.raised || !ok)
  {
    var before := CorestatsRun(fs, folders, freesurfer, corestats, n);
    var ok := U.CorestatsSucceeds(before.after, freesurfer + [folders[n]], corestats + [folders[n]]);
    assert CorestatsRun(fs, folders, freesurfer, corestats, n + 1).raised == before.raised + [!ok];
  }

  /** Task `i` raises exactly when the core `process_corestats` fails on the
      file system the earlier tasks left, and the later tasks do not change
      that record. */
  lemma {:induction false} CorestatsRunRaised(fs: FileSystem, folders: seq<string>, freesurfer: Path, corestats: Path, n: nat, i: nat)
    requires i < n <= |folders|
    ensures CorestatsRun(fs, folders, freesurfer, corestats, n).raised[i]
      <==> !U.CorestatsSucceeds(CorestatsRun(fs, folders, freesurfer, corestats, i).after, freesurfer + [folders[i]], corestats + [folders[i]])
    decreases n
  {
    var before := CorestatsRun(fs, folders, freesurfer, corestats, n - 1);
    var series := folders[n - 1];
    var ok := U.CorestatsSucceeds(before.after, freesurfer + [series], corestats + [series]);
    assert CorestatsRun(fs, folders, freesurfer, corestats, n).raised == before.raised + [!ok];
    if i < n - 1 {
      CorestatsRunRaised(fs, folders, freesurfer, corestats, n - 1, i);
    }
  }

  /** Folders only appear while the series are processed, and the folder of
      every series whose task returned exists afterwards. */
  lemma {:induction false} CorestatsRunDirs(fs: FileSystem, folders: seq<string>, freesurfer: Path, corestats: Path, n: nat)
    requires n <= |folders|
    ensures fs.dirs <= CorestatsRun(fs, folders, freesurfer, corestats, n).after.dirs
    ensures forall i | 0 <= i < n && !CorestatsRun(fs, folders, freesurfer, corestats, n).raised[i] ::
      corestats + [folders[i]] in CorestatsRun(fs, folders, freesurfer, corestats, n).after.dirs
  {
    if n > 0 {
      CorestatsRunDirs(fs, folders, freesurfer, corestats, n - 1);
      var before := CorestatsRun(fs, folders, freesurfer, corestats, n - 1);
      var series := folders[n - 1];
      CorestatsStepDirs(before.after, freesurfer + [series], corestats + [series]);
      var t := CorestatsRun(fs, folders, freesurfer, corestats, n);
      var ok := U.CorestatsSucceeds(before.after, freesurfer + [series], corestats + [series]);
      assert t.raised == before.raised + [!ok];
      assert before.after.dirs <= t.after.dirs && (ok ==> corestats + [series] in t.after.dirs);
      forall i | 0 <= i < n && !t.raised[i]
        ensures corestats + [folders[i]] in t.after.dirs
      {
        if i < n - 1 {
          assert !before.raised[i];
        }
      }
    }
  }

  /** One task: no folder disappears, and the target exists once it returns. */
  lemma CorestatsStepDirs(fs: FileSystem, fsPath: Path, target: Path)
    requires target != []
    ensures U.CorestatsSucceeds(fs, fsPath, target) ==>
      fs.dirs <= U.CorestatsResult(fs, fsPath, target).dirs && target in U.CorestatsResult(fs, fsPath, target).dirs
  {
    if U.CorestatsSucceeds(fs, fsPath, target) {
      U.CorestatsResultFacts(fs, fsPath, target);
      assert target[..|target|] == target;
    }
  }

  /** Processing every series changes no file outside the series' own
      folders under `corestats`. */
  lemma {:induction false} CorestatsRunOutside(fs: FileSystem, folders: seq<string>, freesurfer: Path, corestats: Path, n: nat, p: Path)
    requires n <= |folders|
    requires forall i | 0 <= i < n :: !InDir(corestats + [folders[i]], p)
    ensures p in CorestatsRun(fs, folders, freesurfer, corestats, n).after.files <==> p in fs.files
  {
    if n > 0 {
      CorestatsRunOutside(fs, folders, freesurfer, corestats, n - 1, p);
      var before := CorestatsRun(fs, folders, freesurfer, corestats, n - 1).after;
      var series := folders[n - 1];
      assert !InDir(corestats + [series], p);
      CorestatsStepOutside(before, freesurfer + [series], corestats + [series], p);
    }
  }

  /** One task changes no file outside its target folder. */
  lemma CorestatsStepOutside(fs: FileSystem, fsPath: Path, target: Path, p: Path)
    requires !InDir(target, p)
    ensures var after := if U.CorestatsSucceeds(fs, fsPath, target) then U.CorestatsResult(fs, fsPath, target) else fs;
      p in after.files <==> p in fs.files
  {
    U.CorestatsStagesOutside(fs, fsPath, target, p);
  }

  // ---------------------------------------------------------------------------
  // JSON generation

  /** Where `run_json_average` writes the average of one kind. */
  function AveragePath(jsonFolder: Path, mainType: string): Path {
    jsonFolder + [AVERAGES, mainType]
  }

  /** Some series file of this kind exists but cannot be opened. */
  predicate SomeUnreadable(files: JsonFiles, jsonFolder: Path, folders: seq<string>, mainType: string) {
    exists i | 0 <= i < |folders| :: UnreadableAt(files, SeriesFile(jsonFolder, folders[i], mainType))
  }

  /** One `run_json_average` call: its exception, or the average written to
      `AVERAGES/<mainType>` (a write failure is not modelled). */
  method WriteAverage(files: JsonFiles, jsonFolder: Path, folders: seq<string>, mainType: string)
    returns (escaped: Option<Error>, out: JsonFiles)
    ensures escaped.Some? <==> SomeUnreadable(files, jsonFolder, folders, mainType)
    ensures escaped.Some? ==> out == files
    ensures escaped.None? ==> AveragePath(jsonFolder, mainType) in out
    ensures escaped.None? ==> out == files[AveragePath(jsonFolder, mainType) := out[AveragePath(jsonFolder, mainType)]]
    ensures escaped.None? ==> out[AveragePath(jsonFolder, mainType)].Parsed?
    ensures escaped.None? ==> IsAverage(out[AveragePath(jsonFolder, mainType)].doc, AverageInputs(files, jsonFolder, mainType, folders))
  {
    var r := RunJsonAverage(files, jsonFolder, folders, mainType);
    if r.Failure? {
      return Some(r.error), files;
    }
    return None, files[AveragePath(jsonFolder, mainType) := Parsed(r.value)];
  }

  /** Writing a file that is no series file of a kind changes neither that
      kind's averaged inputs nor which of its series files are unreadable. */
  lemma SeriesFilesUntouched(files: JsonFiles, jsonFolder: Path, folders: seq<string>, mainType: string, p: Path, f: JsonFile)
    requires forall i | 0 <= i < |folders| :: SeriesFile(jsonFolder, folders[i], mainType) != p
    ensures AverageInputs(files[p := f], jsonFolder, mainType, folders) == AverageInputs(files, jsonFolder, mainType, folders)
    ensures SomeUnreadable(files[p := f], jsonFolder, folders, mainType) == SomeUnreadable(files, jsonFolder, folders, mainType)
  {
    FilterMapAgree(folders, ParsedAt(files[p := f], jsonFolder, mainType), ParsedAt(files, jsonFolder, mainType));
  }

  /** The average paths are series files only of a series named AVERAGES. */
  lemma AveragesApart(jsonFolder: Path, folders: seq<string>, t: string, mainType: string)
    requires AVERAGES !in folders
    ensures forall i | 0 <= i < |folders| :: SeriesFile(jsonFolder, folders[i], mainType) != AveragePath(jsonFolder, t)
  {
    forall i | 0 <= i < |folders| ensures SeriesFile(jsonFolder, folders[i], mainType) != AveragePath(jsonFolder, t) {
      assert SeriesFile(jsonFolder, folders[i], mainType)[|jsonFolder|] == folders[i];
      assert AveragePath(jsonFolder, t)[|jsonFolder|] == AVERAGES;
    }
  }

  /** `out` is `files` but for the three average documents. */
  ghost predicate SameOutsideAverages(out: JsonFiles, files: JsonFiles, jsonFolder: Path) {
    forall p | p != AveragePath(jsonFolder, CORTICAL) && p != AveragePath(jsonFolder, SUBCORTICAL)
        && p != AveragePath(jsonFolder, GENERAL) ::
      (p in out <==> p in files) && (p in files ==> out[p] == files[p])
  }

  /** `out` holds the average of kind `t` over the series documents of
      `files`. */
  ghost predicate AverageWritten(out: JsonFiles, files: JsonFiles, jsonFolder: Path, folders: seq<string>, t: string) {
    AveragePath(jsonFolder, t) in out && out[AveragePath(jsonFolder, t)].Parsed?
    && IsAverage(out[AveragePath(jsonFolder, t)].doc, AverageInputs(files, jsonFolder, t, folders))
  }

  /** Some series file of one of the three kinds cannot be opened. */
  predicate AnyUnreadable(files: JsonFiles, jsonFolder: Path, folders: seq<string>) {
    SomeUnreadable(files, jsonFolder, folders, CORTICAL) || SomeUnreadable(files, jsonFolder, folders, SUBCORTICAL)
    || SomeUnreadable(files, jsonFolder, folders, GENERAL)
  }

  /** The averaging block of `generate_json_files`: cortical, subcortical
      and general in turn, the first exception stopping the block. While no
      series is named AVERAGES, each average is over the series documents
      as they were before the block. */
  method AverageAll(files: JsonFiles, jsonFolder: Path, folders: seq<string>) returns (escaped: Option<Error>, out: JsonFiles)
    ensures SameOutsideAverages(out, files, jsonFolder)
    ensures AVERAGES !in folders ==> (escaped.Some? <==> AnyUnreadable(files, jsonFolder, folders))
    ensures AVERAGES !in folders && escaped.None? ==>
      AverageWritten(out, files, jsonFolder, folders, CORTICAL) && AverageWritten(out, files, jsonFolder, folders, SUBCORTICAL)
      && AverageWritten(out, files, jsonFolder, folders, GENERAL)
  {
    var cortical := AveragePath(jsonFolder, CORTICAL);
    var subcortical := AveragePath(jsonFolder, SUBCORTICAL);
    var general := AveragePath(jsonFolder, GENERAL);
    assert cortical[|jsonFolder| + 1] == CORTICAL && subcortical[|jsonFolder| + 1] == SUBCORTICAL;
    assert general[|jsonFolder| + 1] == GENERAL;
    var e1, f1 := WriteAverage(files, jsonFolder, folders, CORTICAL);
    if e1.Some? {
      OneAverageWritten(f1, files, jsonFolder, cortical);
      return e1, f1;
    }
    if AVERAGES !in folders {
      AveragesApart(jsonFolder, folders, CORTICAL, SUBCORTICAL);
      AveragesApart(jsonFolder, folders, CORTICAL, GENERAL);
      SeriesFilesUntouched(files, jsonFolder, folders, SUBCORTICAL, cortical, f1[cortical]);
      SeriesFilesUntouched(files, jsonFolder, folders, GENERAL, cortical, f1[cortical]);
    }
    var e2, f2 := WriteAverage(f1, jsonFolder, folders, SUBCORTICAL);
    if e2.Some? {
      OneAverageWritten(f1, files, jsonFolder, cortical);
      OneAverageWritten(f2, f1, jsonFolder, subcortical);
      SameOutsideTransitive(f2, f1, files, jsonFolder);
      return e2, f2;
    }
    if AVERAGES !in folders {
      AveragesApart(jsonFolder, folders, SUBCORTICAL, GENERAL);
      SeriesFilesUntouched(f1, jsonFolder, folders, GENERAL, subcortical, f2[subcortical]);
    }
    escaped, out := WriteAverage(f2, jsonFolder, folders, GENERAL);
    OneAverageWritten(f1, files, jsonFolder, cortical);
    OneAverageWritten(f2, f1, jsonFolder, subcortical);
    OneAverageWritten(out, f2, jsonFolder, general);
    SameOutsideTransitive(f2, f1, files, jsonFolder);
    SameOutsideTransitive(out, f2, files, jsonFolder);
  }

  /** Writing one average document or nothing keeps everything else. */
  lemma OneAverageWritten(out: JsonFiles, files: JsonFiles, jsonFolder: Path, p: Path)
    requires p == AveragePath(jsonFolder, CORTICAL) || p == AveragePath(jsonFolder, SUBCORTICAL)
      || p == AveragePath(jsonFolder, GENERAL)
    requires out == files || (p in out && out == files[p := out[p]])
    ensures SameOutsideAverages(out, files, jsonFolder)
  {
  }

  lemma SameOutsideTransitive(c: JsonFiles, b: JsonFiles, a: JsonFiles, jsonFolder: Path)
    requires SameOutsideAverages(c, b, jsonFolder) && SameOutsideAverages(b, a, jsonFolder)
    ensures SameOutsideAverages(c, a, jsonFolder)
  {
  }

  /** `generate_json_files`, from the outcome of `run_jsonifier` for each
      series on: the first series whose documents could not be generated
      stops the step before any averaging; otherwise the three kinds are
      averaged, and the global documents are gathered from the series and
      the averages. */
  method GenerateJsonFiles(files: JsonFiles, jsonFolder: Path, folders: seq<string>, jsonifier: seq<Option<Error>>)
    returns (escaped: Option<Error>, out: JsonFiles, global: Option<Global>)
    requires |jsonifier| == |folders|
    ensures (exists i | 0 <= i < |folders| :: jsonifier[i].Some?) ==>
      out == files && exists i | 0 <= i < |folders| ::
        escaped == jsonifier[i] && escaped.Some? && forall j | 0 <= j < i :: jsonifier[j].None?
    ensures escaped.Some? <==> global.None?
    ensures escaped.None? ==> GatheredFrom(global.value, out, jsonFolder, folders + [AVERAGES])
    ensures SameOutsideAverages(out, files, jsonFolder)
    ensures AVERAGES !in folders && (forall i | 0 <= i < |folders| :: jsonifier[i].None?) ==>
      (escaped.None? <==> !AnyUnreadable(files, jsonFolder, folders))
    ensures AVERAGES !in folders && escaped.None? ==>
      AverageWritten(out, files, jsonFolder, folders, CORTICAL) && AverageWritten(out, files, jsonFolder, folders, SUBCORTICAL)
      && AverageWritten(out, files, jsonFolder, folders, GENERAL)
  {
    for i := 0 to |folders|
      invariant forall j | 0 <= j < i :: jsonifier[j].None?
    {
      if jsonifier[i].Some? {
        return jsonifier[i], files, None;
      }
    }
    escaped, out := AverageAll(files, jsonFolder, folders);
    if escaped.Some? {
      return escaped, out, None;
    }
    var g := RunGlobalJson(out, jsonFolder, folders);
    global := Some(g);
  }

  /** `read_json_file`: the document at `p`, or an empty one when there is no
      file; any other failure to open or decode it escapes. */
  function ReadJsonFile(files: JsonFiles, p: Path): (r: Result<Doc, Error>)
    ensures p !in files ==> r == Success([])
    ensures p in files ==> r == ReadJson(files, p)
    ensures r.Failure? ==> p in files && !files[p].Parsed?
  {
    match ReadJson(files, p)
    case Failure(FileNotFound(_)) => Success([])
    case other => other
  }

  // ---------------------------------------------------------------------------
  // The pipeline

  /** The stages of `run_processing`, by the tag each reports. */
  const STAGES := ["dicom", "nifti", "recon", "lesions", "subs", "hyp", "json", "corestats"]

  /** The tag `notify_failure` reports for a stage. */
  function FailureTag(step: string): (t: string)
    ensures |t| == |step| + 7 && t[..7] == "failed_" && t[7..] == step
  {
    "failed_" + step
  }

  /** The notice of one stage entered: its tag when it succeeded, its failure
      tag when it raised. */
  function Notice(step: string, outcome: Option<Error>): string {
    if outcome.None? then step else FailureTag(step)
  }

  /** No stage tag is a failure tag. */
  lemma StageTagsAreNotFailures()
    ensures forall i, s | 0 <= i < |STAGES| :: STAGES[i] != FailureTag(s)
  {
    assert forall i | 0 <= i < |STAGES| :: STAGES[i][0] != 'f';
    assert forall s :: FailureTag(s)[0] == 'f';
  }

  /** The index of the first stage whose outcome is an exception, or the
      number of outcomes when none is. */
  function FirstFailure(outcomes: seq<Option<Error>>): (k: nat)
    ensures k <= |outcomes|
    ensures forall i | 0 <= i < k :: outcomes[i].None?
    ensures k < |outcomes| ==> outcomes[k].Some?
  {
    if outcomes == [] then 0
    else if outcomes[0].Some? then 0
    else 1 + FirstFailure(outcomes[1..])
  }

  /** The first failure is the one that every earlier outcome lets through. */
  lemma FirstFailureIs(outcomes: seq<Option<Error>>, k: nat)
    requires k <= |outcomes| && (k < |outcomes| ==> outcomes[k].Some?)
    requires forall i | 0 <= i < k :: outcomes[i].None?
    ensures FirstFailure(outcomes) == k
  {
  }

  /** How many stages `run_processing` enters: none when creating the folders
      raises; the upload alone when it fails or when listing its series
      raises; otherwise every stage up to the first that fails. */
  function Entered(setup: Option<Error>, listing: Option<Error>, outcomes: seq<Option<Error>>): (n: nat)
    requires |outcomes| == |STAGES|
    ensures n <= |STAGES|
    ensures 0 < n ==> forall i | 0 <= i < n - 1 :: outcomes[i].None?
    ensures n < |STAGES| && 1 < n ==> outcomes[n - 1].Some?
  {
    if setup.Some? then 0
    else if outcomes[0].Some? || listing.Some? then 1
    else if FirstFailure(outcomes) < |STAGES| then FirstFailure(outcomes) + 1
    else |STAGES|
  }

  /** The notices of the first `n` stages, in stage order. */
  function Notices(outcomes: seq<Option<Error>>, n: nat): (ns: seq<string>)
    requires n <= |outcomes| && n <= |STAGES|
    ensures |ns| == n
    ensures forall i | 0 <= i < n :: ns[i] == Notice(STAGES[i], outcomes[i])
  {
    if n == 0 then [] else Notices(outcomes, n - 1) + [Notice(STAGES[n - 1], outcomes[n - 1])]
  }

  /** A run in which nothing raises reports every stage, in order. */
  lemma AllStagesReported(outcomes: seq<Option<Error>>)
    requires |outcomes| == |STAGES| && forall i | 0 <= i < |outcomes| :: outcomes[i].None?
    ensures Entered(None, None, outcomes) == |STAGES|
    ensures Notices(outcomes, Entered(None, None, outcomes)) == STAGES
  {
    FirstFailureIs(outcomes, |STAGES|);
  }

  /** When stage `k` is the first to raise, the queue receives the tags of
      the stages before it and then its failure tag, and no later stage is
      entered. */
  lemma FailFast(outcomes: seq<Option<Error>>, k: nat)
    requires |outcomes| == |STAGES| && k < |STAGES| && outcomes[k].Some?
    requires forall i | 0 <= i < k :: outcomes[i].None?
    ensures Entered(None, None, outcomes) == k + 1
    ensures Notices(outcomes, k + 1) == STAGES[..k] + [FailureTag(STAGES[k])]
  {
    FirstFailureIs(outcomes, k);
  }

  /** Whatever happens, the queue receives a prefix of the stage tags,
      followed by at most one failure tag, which is the last notice. */
  lemma NoticesArePrefix(setup: Option<Error>, listing: Option<Error>, outcomes: seq<Option<Error>>)
    requires |outcomes| == |STAGES|
    ensures var n := Entered(setup, listing, outcomes);
      var ns := Notices(outcomes, n);
      0 < n ==> (ns[..n - 1] == STAGES[..n - 1]
        && (ns[n - 1] == STAGES[n - 1] || ns[n - 1] == FailureTag(STAGES[n - 1])))
  {
    var n := Entered(setup, listing, outcomes);
    var ns := Notices(outcomes, n);
    if 0 < n {
      assert forall i | 0 <= i < n - 1 :: ns[i] == STAGES[i];
      assert ns[..n - 1] == STAGES[..n - 1];
    }
  }

  /** The completion queue and the processing flag of `core/processing.py`.
      The application sets the flag before starting a run, and every run
      clears it when it ends. */
  class Pipeline {
    var queue: seq<string>
    var busy: bool

    constructor(busy: bool)
      ensures queue == [] && this.busy == busy
    {
      queue := [];
      this.busy := busy;
    }

    /** `notify_step`: enqueues the tag. */
    method NotifyStep(step: string)
      modifies this
      ensures queue == old(queue) + [step]
      ensures busy == old(busy)
    {
      queue := queue + [step];
    }

    /** `notify_failure`: enqueues the failure tag. */
    method NotifyFailure(step: string)
      modifies this
      ensures queue == old(queue) + [FailureTag(step)]
      ensures busy == old(busy)
    {
      NotifyStep(FailureTag(step));
    }

    /** One `try` block of `run_processing`: the stage's outcome decides
        which notice is sent and whether the run goes on. */
    method Stage(step: string, outcome: Option<Error>) returns (ok: bool)
      modifies this
      ensures ok <==> outcome.None?
      ensures queue == old(queue) + [Notice(step, outcome)]
      ensures busy == old(busy)
    {
      if outcome.None? {
        NotifyStep(step);
        return true;
      }
      NotifyFailure(step);
      return false;
    }

    /** The body of `run_processing`'s outer `try`: the stages in order, each
        reported, stopping at the first that fails. `setup` is what
        `create_folders` raised and `listing` what listing the series raised;
        these two escape. `called` lists the stages entered. */
    method RunStages(setup: Option<Error>, listing: Option<Error>, outcomes: seq<Option<Error>>)
      returns (escaped: Option<Error>, called: seq<string>)
      requires |outcomes| == |STAGES|
      modifies this
      ensures called == STAGES[..Entered(setup, listing, outcomes)]
      ensures queue == old(queue) + Notices(outcomes, Entered(setup, listing, outcomes))
      ensures escaped == if setup.Some? then setup else if outcomes[0].None? then listing else None
      ensures busy == old(busy)
    {
      escaped, called := None, [];
      if setup.Some? {
        return setup, called;
      }
      var ok;
      ghost var start := queue;
      called := called + [STAGES[0]];
      ok := Stage(STAGES[0], outcomes[0]);
      if !ok {
        return;
      }
      if listing.Some? {
        return listing, called;
      }
      var n := LaterStages(outcomes, start);
      called := STAGES[..n];
    }

    /** The stages after the upload, once the series are listed: each
        reported in turn, up to the first that fails. Returns how many
        stages were entered, the upload included. */
    method LaterStages(outcomes: seq<Option<Error>>, ghost start: seq<string>) returns (n: nat)
      requires |outcomes| == |STAGES| && outcomes[0].None?
      requires queue == start + Notices(outcomes, 1)
      modifies this
      ensures n == Entered(None, None, outcomes)
      ensures queue == start + Notices(outcomes, n)
      ensures busy == old(busy)
    {
      n := 1;
      while n < |STAGES|
        invariant 1 <= n <= |STAGES|
        invariant queue == start + Notices(outcomes, n)
        invariant forall i | 0 <= i < n :: outcomes[i].None?
        invariant busy == old(busy)
      {
        var ok := Stage(STAGES[n], outcomes[n]);
        n := n + 1;
        if !ok {
          FirstFailureIs(outcomes, n - 1);
          return;
        }
      }
      FirstFailureIs(outcomes, |STAGES|);
    }

    /** `run_processing`: the stages, then, on every way out, the processing
        flag cleared. */
    method RunProcessing(setup: Option<Error>, listing: Option<Error>, outcomes: seq<Option<Error>>)
      returns (escaped: Option<Error>, called: seq<string>)
      requires |outcomes| == |STAGES|
      modifies this
      ensures called == STAGES[..Entered(setup, listing, outcomes)]
      ensures queue == old(queue) + Notices(outcomes, Entered(setup, listing, outcomes))
      ensures escaped == if setup.Some? then setup else if outcomes[0].None? then listing else None
      ensures !busy
    {
      escaped, called := RunStages(setup, listing, outcomes);
      busy := false;
    }
  }
}
