/** The earlier helpers module at the repository root, which the legacy entry
    point uses. Its name helpers and listing are those of `Utils`; it differs
    in the folder layout, which has a FASTSURFER folder, and in its steps,
    which log a crash of the tool they launch instead of re-raising it. Its
    hypothalamus step has no existence check, and its core statistics come
    from FreeSurfer and FastSurfer together. */
module LegacyUtils {
  import opened Wrappers
  import opened Text
  import opened Files
  import opened Steps
  import U = Utils
  import FastSurfer

  // ---------------------------------------------------------------------------
  // The folder layout

  /** The directory name of each folder key: the core layout with FASTSURFER
      after SAMSEG. */
  const LEGACY_FOLDERS: seq<(string, string)> := [
    ("dicom", "DICOM"), ("nifti", "NIFTI"), ("freesurfer", "FREESURFER"), ("samseg", "SAMSEG"),
    ("fastsurfer", "FASTSURFER"), ("workflows", "WORKFLOWS"), ("json", "JSON"), ("corestats", "CORESTATS")]

  /** No key is listed twice. */
  lemma LegacyKeysDistinct()
    ensures U.DistinctKeys(LEGACY_FOLDERS)
  {
    var firsts := "dnfsfwjc";
    var seconds := "iiraaoso";
    assert forall i | 0 <= i < |LEGACY_FOLDERS| :: LEGACY_FOLDERS[i].0[0] == firsts[i];
    assert forall i | 0 <= i < |LEGACY_FOLDERS| :: LEGACY_FOLDERS[i].0[1] == seconds[i];
  }

  /** The layout is the core one with the FastSurfer folder inserted after
      SAMSEG. */
  lemma LegacyLayoutExtendsCore()
    ensures LEGACY_FOLDERS == U.FOLDERS[..4] + [("fastsurfer", "FASTSURFER")] + U.FOLDERS[4..]
  {
    assert forall i | 0 <= i < 4 :: LEGACY_FOLDERS[i] == U.FOLDERS[i];
    assert forall i | 5 <= i < |LEGACY_FOLDERS| :: LEGACY_FOLDERS[i] == U.FOLDERS[i - 1];
  }

  /** Each folder's directory name is its key in upper case, and no key is
      listed twice. */
  lemma LegacyFoldersUpperCase()
    ensures U.DistinctKeys(LEGACY_FOLDERS)
    ensures forall i | 0 <= i < |LEGACY_FOLDERS| :: LEGACY_FOLDERS[i].1 == Upper(LEGACY_FOLDERS[i].0)
  {
    LegacyKeysDistinct();
    LegacyLayoutExtendsCore();
    U.FoldersUpperCase();
    assert Upper("fastsurfer") == "FASTSURFER";
    forall i | 0 <= i < |LEGACY_FOLDERS| ensures LEGACY_FOLDERS[i].1 == Upper(LEGACY_FOLDERS[i].0) {
      if i < 4 {
        assert LEGACY_FOLDERS[i] == U.FOLDERS[i];
      } else if 4 < i {
        assert LEGACY_FOLDERS[i] == U.FOLDERS[i - 1];
      }
    }
  }

  /** `create_folders`: the eight-folder layout under `base`, with every
      folder created. */
  method CreateFolders(fs: FileSystem, base: Path) returns (r: Result<(map<string, Path>, FileSystem), Error>)
    ensures U.DistinctKeys(LEGACY_FOLDERS)
    ensures r.Success? <==> forall i | 0 <= i < |LEGACY_FOLDERS| :: Creatable(fs.files, base + [LEGACY_FOLDERS[i].1])
    ensures r.Success? ==> r.value.0 == U.Layout(LEGACY_FOLDERS, base)
    ensures r.Success? ==> r.value.1 == FileSystem(fs.dirs + U.Created(base, U.DirNames(LEGACY_FOLDERS)), fs.files)
    ensures r.Success? ==> forall k | k in r.value.0 :: IsDir(r.value.1, r.value.0[k])
  {
    LegacyFoldersUpperCase();
    var folders := U.Layout(LEGACY_FOLDERS, base);
    var created := U.MakeFolders(fs, base, U.DirNames(LEGACY_FOLDERS));
    U.CreatedContains(base, U.DirNames(LEGACY_FOLDERS));
    if created.Failure? {
      return Failure(created.error);
    }
    return Success((folders, created.value));
  }

  // ---------------------------------------------------------------------------
  // Steps that log a crash

  /** `reconall`: the subjects and the workflow of the core version; a crash
      of the workflow is logged. */
  method Reconall(fs: FileSystem, base: Path, cpu: Option<nat>, failing: Failing)
    returns (run: Run, subjects: seq<string>, inputs: seq<Path>)
    ensures |subjects| == |inputs|
    ensures forall k | 0 <= k < |inputs| ::
      InDir(base + [U.NIFTI], inputs[k]) && EndsWith(Name(inputs[k]), U.NII_GZ) && Exists(fs, inputs[k])
      && subjects[k] == U.RemoveDoubleExtension(inputs[k]) && !U.Reconstructed(fs, base + [U.FREESURFER], subjects[k])
    ensures Exists(fs, base + [U.NIFTI]) ==> forall n | n in Glob(fs, base + [U.NIFTI], U.NII_GZ) ::
      (base + [U.NIFTI] + [n] in inputs <==> !U.Reconstructed(fs, base + [U.FREESURFER], U.RemoveDoubleExtension(base + [U.NIFTI] + [n])))
    ensures !Exists(fs, base + [U.NIFTI]) ==> subjects == []
    ensures run == Run(if subjects == [] then [] else [U.ReconCommand(base, subjects, inputs, cpu)], None)
  {
    run, subjects, inputs := U.Reconall(fs, base, cpu, failing);
    run := Swallowed(run);
  }

  /** `process_lesions`: SAMSEG as in the core version, its crash logged. */
  function ProcessLesions(fs: FileSystem, freesurfer: Path, samseg: Path, series: string, failing: Failing): (r: Run)
    ensures r == Swallowed(U.ProcessLesions(fs, freesurfer, samseg, series, failing))
    ensures r.launched == [] <==> IsFile(fs, samseg + [series, "samseg.stats"])
  {
    Guarded(IsFile(fs, samseg + [series, "samseg.stats"]), U.SamsegCommand(freesurfer, samseg, series), failing, false)
  }

  /** `segment_subregions`: the segmentation as in the core version, its
      crash logged. */
  function SegmentSubregions(fs: FileSystem, structure: string, subjectId: string, subjectDir: Path, failing: Failing): (r: Run)
    ensures r == Swallowed(U.SegmentSubregions(fs, structure, subjectId, subjectDir, failing))
    ensures r.launched == [] <==> AllExist(fs, U.SubregionOutputs(structure, subjectDir + [subjectId]))
  {
    Guarded(AllExist(fs, U.SubregionOutputs(structure, subjectDir + [subjectId])),
      U.SubregionsCommand(structure, subjectId, subjectDir), failing, false)
  }

  /** `segment_hypothalamus`: the segmentation runs every time, its crash
      logged. */
  function SegmentHypothalamus(subjectId: string, subjectDir: Path, cpu: Option<nat>, failing: Failing): (r: Run)
    ensures r.launched == [U.HypothalamusCommand(subjectId, subjectDir, cpu)]
    ensures r.raised.None?
  {
    Guarded(false, U.HypothalamusCommand(subjectId, subjectDir, cpu), failing, false)
  }

  /** The legacy hypothalamus step does what the core one does, its crash
      logged, exactly when the core one finds no CSV; with the CSV present it
      still runs the segmentation again. */
  lemma HypothalamusRerunsWhenDone(fs: FileSystem, subjectId: string, subjectDir: Path, cpu: Option<nat>, failing: Failing)
    ensures SegmentHypothalamus(subjectId, subjectDir, cpu, failing)
      == Swallowed(U.SegmentHypothalamus(fs, subjectId, subjectDir, cpu, failing))
      <==> !IsFile(fs, U.HypothalamusCsv(subjectId, subjectDir))
  {
  }

  /** `run_fastsurfer`: the FastSurfer step with `parallel` as given. A crash
      of the workflow is logged, but a missing `t1` is refused when the node's
      input is set, before the guarded block, so that error escapes. */
  function RunFastsurfer(fs: FileSystem, fsDir: Path, t1: Path, sid: string, sd: Path, parallel: bool, threads: int,
                         failing: Failing): (r: Run)
    ensures r.launched == [] <==> AllExist(fs, FastSurfer.Outputs(sd, sid)) || !IsFile(fs, t1)
    ensures r.launched != [] ==> r.launched == [FastSurfer.FastSurferCommand(fsDir, t1, sid, sd, parallel, threads)]
    ensures r.raised.Some? <==> !AllExist(fs, FastSurfer.Outputs(sd, sid)) && !IsFile(fs, t1)
    ensures r.raised.Some? ==> r.raised == Some(TraitError(t1))
  {
    FastSurfer.Step(fs, fsDir, t1, sid, sd, parallel, threads, failing, false)
  }

  /** Without `--parallel`, the legacy step launches what the core one does,
      and differs from it only in the crash of the workflow, which the core
      version re-raises. */
  lemma RunFastsurferAgreesWithCore(fs: FileSystem, fsDir: Path, t1: Path, sid: string, sd: Path, threads: int, failing: Failing)
    ensures var legacy := RunFastsurfer(fs, fsDir, t1, sid, sd, false, threads, failing);
      var core := FastSurfer.RunFastsurfer(fs, fsDir, t1, sid, sd, threads, failing);
      legacy.launched == core.launched
      && (legacy.raised != core.raised ==> legacy.raised.None? && core.raised == Some(ToolError(FastSurfer.SCRIPT)))
  {
  }

  // ---------------------------------------------------------------------------
  // Core statistics from both segmentations

  /** The `*.stats` files of `src` copied into `dest`, when `src` exists. */
  method CopyStats(fs: FileSystem, src: Path, dest: Path) returns (r: Result<FileSystem, Error>)
    ensures r.Success? ==> r.value.dirs == fs.dirs && fs.files <= r.value.files
    ensures r.Success? ==> forall n | IsFile(r.value, dest + [n]) && EndsWith(n, U.STATS) && !IsFile(fs, dest + [n]) ::
      IsFile(fs, src + [n]) || IsDir(fs, src + [n])
    ensures r.Success? && IsDir(fs, src) ==> forall n | IsFile(fs, src + [n]) && EndsWith(n, U.STATS) ::
      IsFile(r.value, dest + [n]) && !IsDir(r.value, dest + [n])
    ensures !Exists(fs, src) ==> r == Success(fs)
    ensures r.Success? <==> U.CopyFits(fs, src, U.STATS, dest)
    ensures r.Success? ==> r.value == U.CopiedIn(fs, src, U.STATS, dest)
  {
    if !Exists(fs, src) {
      return Success(fs);
    }
    var names := Glob(fs, src, U.STATS);
    r := U.CopyInto(fs, src, names, dest);
    if r.Success? {
      forall n | IsFile(fs, src + [n]) && EndsWith(n, U.STATS)
        ensures IsFile(r.value, dest + [n]) && !IsDir(r.value, dest + [n])
      {
        assert n in names;
      }
    }
  }

  /** `corestats` created, and the ".stats" files of FreeSurfer's and then
      FastSurfer's `stats` folder copied in. */
  function CorestatsCopied(fs: FileSystem, fsPath: Path, fastsurferPath: Path, corestats: Path): FileSystem {
    var made := U.CorestatsMade(fs, corestats);
    U.CopiedIn(U.CopiedIn(made, fsPath + ["stats"], U.STATS, corestats), fastsurferPath + ["stats"], U.STATS, corestats)
  }

  /** When the older `process_corestats` returns: both segmentation
      directories exist, no file stands in the way of `corestats`, and no
      copy or rename meets a directory. */
  predicate CorestatsSucceeds(fs: FileSystem, fsPath: Path, fastsurferPath: Path, corestats: Path) {
    var made := U.CorestatsMade(fs, corestats);
    && Exists(fs, fsPath)
    && Exists(fs, fastsurferPath)
    && Creatable(fs.files, corestats)
    && U.CopyFits(made, fsPath + ["stats"], U.STATS, corestats)
    && U.CopyFits(U.CopiedIn(made, fsPath + ["stats"], U.STATS, corestats), fastsurferPath + ["stats"], U.STATS, corestats)
    && (var copied := CorestatsCopied(fs, fsPath, fastsurferPath, corestats);
        forall n | n in U.StatsFiles(copied, corestats) :: corestats + [WithSuffix(n, U.TXT)] !in copied.dirs)
  }

  /** The file system the older `process_corestats` leaves when it returns. */
  function CorestatsResult(fs: FileSystem, fsPath: Path, fastsurferPath: Path, corestats: Path): FileSystem {
    var copied := CorestatsCopied(fs, fsPath, fastsurferPath, corestats);
    FileSystem(copied.dirs, U.Renamed(copied.files, corestats, U.StatsFiles(copied, corestats)))
  }

  /** What a successful older `process_corestats` leaves: the directories
      plus `corestats` and its parents, every ".stats" file of either `stats`
      folder renamed to its ".txt" namesake in `corestats`, no ".stats" file
      left there, and no file changed outside `corestats`. */
  lemma CorestatsResultFacts(fs: FileSystem, fsPath: Path, fastsurferPath: Path, corestats: Path)
    requires CorestatsSucceeds(fs, fsPath, fastsurferPath, corestats)
    ensures var r := CorestatsResult(fs, fsPath, fastsurferPath, corestats);
      && r.dirs == fs.dirs + Ancestry(corestats)
      && (forall n | IsFile(r, corestats + [n]) && EndsWith(n, U.STATS) :: IsDir(r, corestats + [n]))
      && (IsDir(fs, fsPath + ["stats"]) ==>
        forall n | IsFile(fs, fsPath + ["stats"] + [n]) && EndsWith(n, U.STATS) :: IsFile(r, corestats + [WithSuffix(n, U.TXT)]))
      && (IsDir(fs, fastsurferPath + ["stats"]) ==>
        forall n | IsFile(fs, fastsurferPath + ["stats"] + [n]) && EndsWith(n, U.STATS) :: IsFile(r, corestats + [WithSuffix(n, U.TXT)]))
  {
    var fsStats, fastStats := fsPath + ["stats"], fastsurferPath + ["stats"];
    var copied := CorestatsCopied(fs, fsPath, fastsurferPath, corestats);
    forall n | IsDir(fs, fsStats) && IsFile(fs, fsStats + [n]) && EndsWith(n, U.STATS)
      ensures IsFile(CorestatsResult(fs, fsPath, fastsurferPath, corestats), corestats + [WithSuffix(n, U.TXT)])
    {
      StatsInCopy(fs, fsPath, fastsurferPath, corestats, fsStats, n);
      U.StatsRenamed(copied, corestats, n);
    }
    forall n | IsDir(fs, fastStats) && IsFile(fs, fastStats + [n]) && EndsWith(n, U.STATS)
      ensures IsFile(CorestatsResult(fs, fsPath, fastsurferPath, corestats), corestats + [WithSuffix(n, U.TXT)])
    {
      StatsInCopy(fs, fsPath, fastsurferPath, corestats, fastStats, n);
      U.StatsRenamed(copied, corestats, n);
    }
    U.NoStatsLeft(copied, corestats);
  }

  /** A ".stats" file of either `stats` folder sits in `corestats` as a file
      once both copies are done. */
  lemma StatsInCopy(fs: FileSystem, fsPath: Path, fastsurferPath: Path, corestats: Path, src: Path, n: string)
    requires CorestatsSucceeds(fs, fsPath, fastsurferPath, corestats)
    requires src == fsPath + ["stats"] || src == fastsurferPath + ["stats"]
    requires IsDir(fs, src) && IsFile(fs, src + [n]) && EndsWith(n, U.STATS)
    ensures var copied := CorestatsCopied(fs, fsPath, fastsurferPath, corestats);
      IsFile(copied, corestats + [n]) && !IsDir(copied, corestats + [n])
  {
    var made := U.CorestatsMade(fs, corestats);
    var first := U.CopiedIn(made, fsPath + ["stats"], U.STATS, corestats);
    if src == fsPath + ["stats"] {
      assert n in Glob(made, src, U.STATS);
    } else {
      assert n in Glob(first, src, U.STATS);
    }
  }

  /** The older `process_corestats` changes no file outside `corestats`. */
  lemma CorestatsOutsideUnchanged(fs: FileSystem, fsPath: Path, fastsurferPath: Path, corestats: Path)
    ensures forall p | !InDir(corestats, p) ::
      p in CorestatsResult(fs, fsPath, fastsurferPath, corestats).files <==> p in fs.files
  {
    var made := U.CorestatsMade(fs, corestats);
    var first := U.CopiedIn(made, fsPath + ["stats"], U.STATS, corestats);
    var copied := CorestatsCopied(fs, fsPath, fastsurferPath, corestats);
    forall p | !InDir(corestats, p)
      ensures p in CorestatsResult(fs, fsPath, fastsurferPath, corestats).files <==> p in fs.files
    {
      U.UnderTargetsInDir(corestats, Glob(made, fsPath + ["stats"], U.STATS), p);
      U.UnderTargetsInDir(corestats, Glob(first, fastsurferPath + ["stats"], U.STATS), p);
      U.UnderTargetsInDir(corestats, U.StatsFiles(copied, corestats), p);
    }
  }

  /** Every file a successful older `process_corestats` adds to `corestats`
      is the ".txt" namesake of a ".stats" file of either `stats` folder or
      of `corestats` itself. */
  lemma CorestatsNewEntries(fs: FileSystem, fsPath: Path, fastsurferPath: Path, corestats: Path)
    requires CorestatsSucceeds(fs, fsPath, fastsurferPath, corestats)
    ensures forall n | IsFile(CorestatsResult(fs, fsPath, fastsurferPath, corestats), corestats + [n]) && !IsFile(fs, corestats + [n]) ::
      exists m | EndsWith(m, U.STATS)
        && (IsFile(fs, fsPath + ["stats"] + [m]) || IsFile(fs, fastsurferPath + ["stats"] + [m]) || IsFile(fs, corestats + [m])) ::
        n == WithSuffix(m, U.TXT)
  {
    forall n | IsFile(CorestatsResult(fs, fsPath, fastsurferPath, corestats), corestats + [n]) && !IsFile(fs, corestats + [n])
      ensures exists m | EndsWith(m, U.STATS)
        && (IsFile(fs, fsPath + ["stats"] + [m]) || IsFile(fs, fastsurferPath + ["stats"] + [m]) || IsFile(fs, corestats + [m])) ::
        n == WithSuffix(m, U.TXT)
    {
      CorestatsNewEntry(fs, fsPath, fastsurferPath, corestats, n);
    }
  }

  lemma CorestatsNewEntry(fs: FileSystem, fsPath: Path, fastsurferPath: Path, corestats: Path, n: string)
    requires CorestatsSucceeds(fs, fsPath, fastsurferPath, corestats)
    requires IsFile(CorestatsResult(fs, fsPath, fastsurferPath, corestats), corestats + [n]) && !IsFile(fs, corestats + [n])
    ensures exists m | EndsWith(m, U.STATS)
      && (IsFile(fs, fsPath + ["stats"] + [m]) || IsFile(fs, fastsurferPath + ["stats"] + [m]) || IsFile(fs, corestats + [m])) ::
      n == WithSuffix(m, U.TXT)
  {
    var copied := CorestatsCopied(fs, fsPath, fastsurferPath, corestats);
    var m := RenamedFrom(fs, fsPath, fastsurferPath, corestats, n);
    assert IsFile(copied, corestats + [m]) && EndsWith(m, U.STATS);
    if !IsFile(fs, corestats + [m]) {
      CopiedOrigin(fs, fsPath, fastsurferPath, corestats, m);
    }
    assert (IsFile(fs, fsPath + ["stats"] + [m]) || IsFile(fs, fastsurferPath + ["stats"] + [m]) || IsFile(fs, corestats + [m]))
      && n == WithSuffix(m, U.TXT);
  }

  /** A file the renames added to `corestats` is the ".txt" namesake of a
      ".stats" file the copies left there. */
  lemma RenamedFrom(fs: FileSystem, fsPath: Path, fastsurferPath: Path, corestats: Path, n: string) returns (m: string)
    requires CorestatsSucceeds(fs, fsPath, fastsurferPath, corestats)
    requires IsFile(CorestatsResult(fs, fsPath, fastsurferPath, corestats), corestats + [n]) && !IsFile(fs, corestats + [n])
    ensures m in U.StatsFiles(CorestatsCopied(fs, fsPath, fastsurferPath, corestats), corestats)
    ensures n == WithSuffix(m, U.TXT)
  {
    var copied := CorestatsCopied(fs, fsPath, fastsurferPath, corestats);
    var names := U.StatsFiles(copied, corestats);
    var p := corestats + [n];
    // a copied ".stats" file does not survive the renames
    assert p in copied.files && p !in fs.files ==> IsFile(copied, p) && !IsFile(fs, corestats + [n]);
    assert p in copied.files && p !in fs.files ==> n in names by {
      if p in copied.files && p !in fs.files {
        CopiedOrigin(fs, fsPath, fastsurferPath, corestats, n);
      }
    }
    m :| m in names && p == corestats + [WithSuffix(m, U.TXT)];
    assert n == p[|corestats|] == WithSuffix(m, U.TXT);
  }

  /** A file of `corestats` that the copies added is a ".stats" file, not a
      directory, copied from one of the two `stats` folders. */
  lemma CopiedOrigin(fs: FileSystem, fsPath: Path, fastsurferPath: Path, corestats: Path, m: string)
    requires CorestatsSucceeds(fs, fsPath, fastsurferPath, corestats)
    requires IsFile(CorestatsCopied(fs, fsPath, fastsurferPath, corestats), corestats + [m]) && !IsFile(fs, corestats + [m])
    ensures EndsWith(m, U.STATS) && !IsDir(CorestatsCopied(fs, fsPath, fastsurferPath, corestats), corestats + [m])
    ensures IsFile(fs, fsPath + ["stats"] + [m]) || IsFile(fs, fastsurferPath + ["stats"] + [m])
  {
    var fsStats, fastStats := fsPath + ["stats"], fastsurferPath + ["stats"];
    var made := U.CorestatsMade(fs, corestats);
    var first := U.CopiedIn(made, fsStats, U.STATS, corestats);
    if corestats + [m] in first.files {
      assert m in Glob(made, fsStats, U.STATS);
    } else {
      assert m in Glob(first, fastStats, U.STATS);
      assert fastStats + [m] in first.files;
      U.UnderTargetsInDir(corestats, Glob(made, fsStats, U.STATS), fastStats + [m]);
      assert InDir(corestats, fastStats + [m]) ==> fastStats + [m] == corestats + [m];
    }
  }

  /** `process_corestats`: copies the `*.stats` files of FreeSurfer's and then
      FastSurfer's `stats` folder into `corestats` and renames every
      `*.stats` file there to ".txt". A missing FreeSurfer or FastSurfer
      directory raises, in that order. */
  method ProcessCorestats(fs: FileSystem, fsPath: Path, fastsurferPath: Path, corestats: Path)
    returns (r: Result<FileSystem, Error>)
    ensures !Exists(fs, fsPath) ==> r == Failure(FileNotFound(fsPath))
    ensures Exists(fs, fsPath) && !Exists(fs, fastsurferPath) ==> r == Failure(FileNotFound(fastsurferPath))
    ensures Exists(fs, fsPath) && Exists(fs, fastsurferPath) && !Creatable(fs.files, corestats) ==> r.Failure?
    ensures r.Success? <==> CorestatsSucceeds(fs, fsPath, fastsurferPath, corestats)
    ensures r.Success? ==> r.value == CorestatsResult(fs, fsPath, fastsurferPath, corestats)
    ensures r.Success? ==> r.value.dirs == fs.dirs + Ancestry(corestats)
    ensures r.Success? ==> forall n | IsFile(r.value, corestats + [n]) && EndsWith(n, U.STATS) :: IsDir(r.value, corestats + [n])
    ensures r.Success? && IsDir(fs, fsPath + ["stats"]) ==>
      forall n | IsFile(fs, fsPath + ["stats"] + [n]) && EndsWith(n, U.STATS) :: IsFile(r.value, corestats + [WithSuffix(n, U.TXT)])
    ensures r.Success? && IsDir(fs, fastsurferPath + ["stats"]) ==>
      forall n | IsFile(fs, fastsurferPath + ["stats"] + [n]) && EndsWith(n, U.STATS) :: IsFile(r.value, corestats + [WithSuffix(n, U.TXT)])
    ensures r.Success? ==> forall p | !InDir(corestats, p) :: p in r.value.files <==> p in fs.files
    ensures r.Success? ==> forall n | IsFile(r.value, corestats + [n]) && !IsFile(fs, corestats + [n]) ::
      exists m | EndsWith(m, U.STATS)
        && (IsFile(fs, fsPath + ["stats"] + [m]) || IsFile(fs, fastsurferPath + ["stats"] + [m]) || IsFile(fs, corestats + [m])) ::
        n == WithSuffix(m, U.TXT)
  {
    if !Exists(fs, fsPath) {
      return Failure(FileNotFound(fsPath));
    }
    if !Exists(fs, fastsurferPath) {
      return Failure(FileNotFound(fastsurferPath));
    }
    var made := MakeDirs(fs, corestats);
    if made.Failure? {
      return Failure(made.error);
    }
    var first := CopyStats(made.value, fsPath + ["stats"], corestats);
    if first.Failure? {
      return Failure(first.error);
    }
    var second := CopyStats(first.value, fastsurferPath + ["stats"], corestats);
    if second.Failure? {
      return Failure(second.error);
    }
    assert second.value == CorestatsCopied(fs, fsPath, fastsurferPath, corestats);
    r := U.RenameStats(second.value, corestats);
    if r.Success? {
      CorestatsResultFacts(fs, fsPath, fastsurferPath, corestats);
      CorestatsOutsideUnchanged(fs, fsPath, fastsurferPath, corestats);
      CorestatsNewEntries(fs, fsPath, fastsurferPath, corestats);
    }
  }

}
