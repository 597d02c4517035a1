/** The helpers of the processing pipeline: name handling, the folder layout,
    directory listings, and the external segmentation steps with the
    existence checks that let a re-run skip finished work. Every step here
    re-raises a crash of the tool it launches. */
module Utils {
  import opened Wrappers
  import opened Text
  import opened Files
  import opened Records
  import opened Steps

  // ---------------------------------------------------------------------------
  // Names

  const DCM := ".dcm"
  const NII_GZ := ".nii.gz"

  /** `add_dcm_extension`: the name of an uploaded file as saved, ending in
      ".dcm" in any letter case. */
  function AddDcmExtension(filename: string): (r: string)
    ensures EndsWith(Lower(r), DCM)
    ensures EndsWith(Lower(filename), DCM) ==> r == filename
    ensures !EndsWith(Lower(filename), DCM) ==> r == filename + DCM
  {
    if EndsWith(Lower(filename), DCM) then filename
    else
      LowerAppend(filename, DCM);
      assert Lower(DCM) == DCM;
      filename + DCM
  }

  /** A name that already has the extension is left alone, so adding it twice
      adds it once. */
  lemma AddDcmExtensionIdempotent(filename: string)
    ensures AddDcmExtension(AddDcmExtension(filename)) == AddDcmExtension(filename)
  {
  }

  /** The characters `sanitize_name` keeps: `[A-Za-z0-9_-]`. */
  predicate IsSafeChar(c: char) {
    'A' <= c <= 'Z' || 'a' <= c <= 'z' || '0' <= c <= '9' || c == '_' || c == '-'
  }

  predicate IsSafe(name: string) {
    forall i | 0 <= i < |name| :: IsSafeChar(name[i])
  }

  /** `sanitize_name`: deletes every character outside `[A-Za-z0-9_-]`. */
  function SanitizeName(name: string): (r: string)
    ensures IsSafe(r)
    ensures |r| <= |name|
    ensures IsSafe(name) ==> r == name
  {
    if name == [] then []
    else
      var rest := SanitizeName(name[1..]);
      if IsSafeChar(name[0]) then [name[0]] + rest else rest
  }

  /** A single character survives exactly when it is safe. */
  lemma SanitizeNameChar(c: char)
    ensures SanitizeName([c]) == if IsSafeChar(c) then [c] else []
  {
    assert [c][1..] == [];
  }

  /** Deletion works character by character: the kept characters keep their
      order, and sanitising a concatenation sanitises each part. */
  lemma {:induction false} SanitizeNameAppend(a: string, b: string)
    ensures SanitizeName(a + b) == SanitizeName(a) + SanitizeName(b)
    decreases |a|
  {
    if a != [] {
      assert (a + b)[0] == a[0];
      assert (a + b)[1..] == a[1..] + b;
      SanitizeNameAppend(a[1..], b);
      var head := if IsSafeChar(a[0]) then [a[0]] else [];
      assert SanitizeName(a) == head + SanitizeName(a[1..]);
      assert SanitizeName(a + b) == head + SanitizeName(a[1..] + b);
    } else {
      assert a + b == b;
    }
  }

  /** The result can neither leave its directory nor carry an extension, and
      sanitising again changes nothing. */
  lemma SanitizeNameSafe(name: string)
    ensures '/' !in SanitizeName(name) && '.' !in SanitizeName(name)
    ensures SanitizeName(SanitizeName(name)) == SanitizeName(name)
  {
  }

  /** `remove_double_extension`: the subject id of a NIfTI file, its name
      without ".nii.gz", or without its last suffix for any other name. */
  function RemoveDoubleExtension(file: Path): (r: string)
    ensures EndsWith(Name(file), NII_GZ) ==> r + NII_GZ == Name(file)
    ensures !EndsWith(Name(file), NII_GZ) ==> r == Stem(Name(file))
  {
    var name := Name(file);
    if EndsWith(name, NII_GZ) then
      assert name == name[..|name| - 7] + name[|name| - 7..];
      name[..|name| - 7]
    else Stem(name)
  }

  /** A subject's NIfTI file `<id>.nii.gz` gives back the id, whatever dots
      the id itself contains. */
  lemma RemoveDoubleExtensionRoundTrip(dir: Path, id: string)
    ensures RemoveDoubleExtension(dir + [id + NII_GZ]) == id
  {
    var r := RemoveDoubleExtension(dir + [id + NII_GZ]);
    assert Name(dir + [id + NII_GZ]) == id + NII_GZ;
    assert (id + NII_GZ)[|id + NII_GZ| - |NII_GZ|..] == NII_GZ;
    assert r + NII_GZ == id + NII_GZ;
    assert r == (r + NII_GZ)[..|r|] == (id + NII_GZ)[..|id|] == id;
  }

  // ---------------------------------------------------------------------------
  // The folder layout

  /** Every directory `mkdir(parents=True)` creates for `base / name`, over
      all the names. */
  function Created(base: Path, names: seq<string>): set<Path> {
    if names == [] then {}
    else Created(base, names[..|names| - 1]) + Ancestry(base + [names[|names| - 1]])
  }

  /** Each folder is among the directories created for it. */
  lemma {:induction false} CreatedContains(base: Path, names: seq<string>)
    ensures forall i | 0 <= i < |names| :: base + [names[i]] in Created(base, names)
    decreases |names|
  {
    if names != [] {
      var init := names[..|names| - 1];
      CreatedContains(base, init);
      var last := base + [names[|names| - 1]];
      assert last == last[..|last|];
      forall i | 0 <= i < |names|
        ensures base + [names[i]] in Created(base, names)
      {
        if i < |init| {
          assert init[i] == names[i];
        }
      }
    }
  }

  /** Creates `base / name` for each name, in order; the first regular file in
      the way raises. */
  method MakeFolders(fs: FileSystem, base: Path, names: seq<string>) returns (r: Result<FileSystem, Error>)
    ensures r.Success? <==> forall i | 0 <= i < |names| :: Creatable(fs.files, base + [names[i]])
    ensures r.Success? ==> r.value == FileSystem(fs.dirs + Created(base, names), fs.files)
  {
    var cur := fs;
    for i := 0 to |names|
      invariant cur == FileSystem(fs.dirs + Created(base, names[..i]), fs.files)
      invariant forall j | 0 <= j < i :: Creatable(fs.files, base + [names[j]])
    {
      assert names[..i + 1][..i] == names[..i];
      assert Created(base, names[..i + 1]) == Created(base, names[..i]) + Ancestry(base + [names[i]]);
      var next := MakeDirs(cur, base + [names[i]]);
      assert next.Success? <==> Creatable(fs.files, base + [names[i]]);
      if next.Failure? {
        assert !Creatable(fs.files, base + [names[i]]);
        return Failure(next.error);
      }
      cur := next.value;
      forall j | 0 <= j < i + 1 ensures Creatable(fs.files, base + [names[j]]) {
        if j == i {
          assert Creatable(fs.files, base + [names[i]]);
        }
      }
    }
    assert names[..|names|] == names;
    return Success(cur);
  }

  /** The directory name of each folder key. */
  const FOLDERS: seq<(string, string)> := [
    ("dicom", "DICOM"), ("nifti", "NIFTI"), ("freesurfer", "FREESURFER"), ("samseg", "SAMSEG"),
    ("workflows", "WORKFLOWS"), ("json", "JSON"), ("corestats", "CORESTATS")]

  predicate DistinctKeys(folders: seq<(string, string)>) {
    forall i, j | 0 <= i < j < |folders| :: folders[i].0 != folders[j].0
  }

  /** The dictionary `create_folders` returns: each key mapped to its
      directory under `base`. */
  function Layout(folders: seq<(string, string)>, base: Path): (m: map<string, Path>)
    requires DistinctKeys(folders)
    ensures forall k :: k in m <==> exists i | 0 <= i < |folders| :: folders[i].0 == k
    ensures forall i | 0 <= i < |folders| :: m[folders[i].0] == base + [folders[i].1]
  {
    map i | 0 <= i < |folders| :: folders[i].0 := base + [folders[i].1]
  }

  function DirNames(folders: seq<(string, string)>): (names: seq<string>)
    ensures |names| == |folders|
    ensures forall i | 0 <= i < |folders| :: names[i] == folders[i].1
  {
    MapSeq(folders, (f: (string, string)) => f.1)
  }

  /** Each folder's directory name is its key in upper case, and no key is
      listed twice. */
  lemma FoldersUpperCase()
    ensures DistinctKeys(FOLDERS)
    ensures forall i | 0 <= i < |FOLDERS| :: FOLDERS[i].1 == Upper(FOLDERS[i].0)
  {
    var initials := "dnfswjc";
    assert forall i | 0 <= i < |FOLDERS| :: FOLDERS[i].0[0] == initials[i];
    assert Upper("dicom") == "DICOM";
    assert Upper("nifti") == "NIFTI";
    assert Upper("freesurfer") == "FREESURFER";
    assert Upper("samseg") == "SAMSEG";
    assert Upper("workflows") == "WORKFLOWS";
    assert Upper("json") == "JSON";
    assert Upper("corestats") == "CORESTATS";
  }

  /** Each key is mapped to `base / KEY.upper()`. */
  lemma LayoutUpperCase(base: Path)
    ensures DistinctKeys(FOLDERS)
    ensures forall k | k in Layout(FOLDERS, base) :: Layout(FOLDERS, base)[k] == base + [Upper(k)]
  {
    FoldersUpperCase();
    var m := Layout(FOLDERS, base);
    forall k | k in m ensures m[k] == base + [Upper(k)] {
      var i :| 0 <= i < |FOLDERS| && FOLDERS[i].0 == k;
      assert m[FOLDERS[i].0] == base + [FOLDERS[i].1];
    }
  }

  /** `create_folders`: the seven-folder layout under `base`, with every
      folder created. */
  method CreateFolders(fs: FileSystem, base: Path) returns (r: Result<(map<string, Path>, FileSystem), Error>)
    ensures DistinctKeys(FOLDERS)
    ensures r.Success? <==> forall i | 0 <= i < |FOLDERS| :: Creatable(fs.files, base + [FOLDERS[i].1])
    ensures r.Success? ==> r.value.0 == Layout(FOLDERS, base)
    ensures r.Success? ==> r.value.1 == FileSystem(fs.dirs + Created(base, DirNames(FOLDERS)), fs.files)
    ensures r.Success? ==> forall k | k in r.value.0 :: IsDir(r.value.1, r.value.0[k])
  {
    FoldersUpperCase();
    var folders := Layout(FOLDERS, base);
    var created := MakeFolders(fs, base, DirNames(FOLDERS));
    CreatedContains(base, DirNames(FOLDERS));
    if created.Failure? {
      return Failure(created.error);
    }
    return Success((folders, created.value));
  }

  // ---------------------------------------------------------------------------
  // Listings

  /** `directory.iterdir()` can only list an existing directory. */
  function ListingError(fs: FileSystem, dir: Path): (e: Option<Error>)
    ensures e.None? <==> IsDir(fs, dir)
  {
    if IsDir(fs, dir) then None
    else if Exists(fs, dir) then Some(NotADirectory(dir))
    else Some(FileNotFound(dir))
  }

  /** `get_folder_names`: the names of the subdirectories, each once, in the
      order the directory lists them. */
  method GetFolderNames(fs: FileSystem, dir: Path) returns (r: Result<seq<string>, Error>)
    ensures r.Failure? <==> !IsDir(fs, dir)
    ensures r.Failure? ==> r.error == ListingError(fs, dir).value
    ensures r.Success? ==> forall n :: n in r.value <==> IsDir(fs, dir + [n])
    ensures r.Success? ==> forall i, j | 0 <= i < j < |r.value| :: r.value[i] != r.value[j]
  {
    var err := ListingError(fs, dir);
    if err.Some? {
      return Failure(err.value);
    }
    var names := [];
    var rest := Entries(fs, dir);
    while rest != {}
      invariant rest <= Entries(fs, dir)
      invariant forall n :: n in names <==> n in Entries(fs, dir) && n !in rest && IsDir(fs, dir + [n])
      invariant forall i, j | 0 <= i < j < |names| :: names[i] != names[j]
      decreases |rest|
    {
      var n :| n in rest;
      if IsDir(fs, dir + [n]) {
        names := names + [n];
      }
      rest := rest - {n};
    }
    return Success(names);
  }

  /** `[s.name for s in sorted(folder.iterdir()) if s.is_dir()]` over the
      sorted names of `folder`'s entries. */
  function KeepDirs(fs: FileSystem, folder: Path, names: seq<string>): (r: seq<string>)
    ensures forall n :: n in r <==> n in names && IsDir(fs, folder + [n])
    ensures SortedNames(names) ==> SortedNames(r)
  {
    if names == [] then []
    else
      var init := names[..|names| - 1];
      var last := names[|names| - 1];
      assert names == init + [last];
      var rest := KeepDirs(fs, folder, init);
      if IsDir(fs, folder + [last]) then
        assert SortedNames(names) ==> forall i | 0 <= i < |rest| :: StrLess(rest[i], last) by {
          if SortedNames(names) {
            forall i | 0 <= i < |rest| ensures StrLess(rest[i], last) {
              assert rest[i] in init;
              var j :| 0 <= j < |init| && init[j] == rest[i];
            }
          }
        }
        rest + [last]
      else rest
  }

  /** Pairs ordered by folder name, then by subfolder name. */
  predicate PairLess(a: (string, string), b: (string, string)) {
    StrLess(a.0, b.0) || (a.0 == b.0 && StrLess(a.1, b.1))
  }

  predicate SortedPairs(ps: seq<(string, string)>) {
    forall i, j | 0 <= i < j < |ps| :: PairLess(ps[i], ps[j])
  }

  /** The inner loop of `list_folder_subfolders`: one pair per subfolder. */
  method AppendSubfolders(pairs: seq<(string, string)>, folder: string, subs: seq<string>)
    returns (r: seq<(string, string)>)
    requires SortedPairs(pairs) && SortedNames(subs)
    requires forall i | 0 <= i < |pairs| :: StrLess(pairs[i].0, folder)
    ensures SortedPairs(r)
    ensures forall p :: p in r <==> p in pairs || (p.0 == folder && p.1 in subs)
    ensures forall i | 0 <= i < |r| :: StrLess(r[i].0, folder) || r[i].0 == folder
  {
    r := pairs;
    for k := 0 to |subs|
      invariant SortedPairs(r)
      invariant forall p :: p in r <==> p in pairs || (p.0 == folder && p.1 in subs[..k])
      invariant forall i | 0 <= i < |r| :: StrLess(r[i].0, folder) || (r[i].0 == folder && r[i].1 in subs[..k])
    {
      forall i | 0 <= i < |r| ensures PairLess(r[i], (folder, subs[k])) {
        if r[i].0 == folder {
          StrLessIrreflexive(folder);
          assert r[i].1 in subs[..k];
          var m :| 0 <= m < k && subs[..k][m] == r[i].1;
          assert subs[m] == r[i].1;
        }
      }
      assert subs[..k + 1] == subs[..k] + [subs[k]];
      r := r + [(folder, subs[k])];
    }
    assert subs[..|subs|] == subs;
  }

  /** `list_folder_subfolders`: every (folder, subfolder) pair of directories
      two levels down, ordered by folder name and then by subfolder name. */
  method ListFolderSubfolders(fs: FileSystem, dir: Path) returns (r: Result<seq<(string, string)>, Error>)
    ensures r.Failure? <==> !IsDir(fs, dir)
    ensures r.Failure? ==> r.error == ListingError(fs, dir).value
    ensures r.Success? ==> SortedPairs(r.value)
    ensures r.Success? ==> forall f, s :: (f, s) in r.value <==> IsDir(fs, dir + [f]) && IsDir(fs, dir + [f] + [s])
  {
    var err := ListingError(fs, dir);
    if err.Some? {
      return Failure(err.value);
    }
    var folders := SortNames(Entries(fs, dir));
    var pairs := [];
    for i := 0 to |folders|
      invariant SortedPairs(pairs)
      invariant forall f, s :: (f, s) in pairs <==>
        f in folders[..i] && IsDir(fs, dir + [f]) && IsDir(fs, dir + [f] + [s])
      invariant forall k | 0 <= k < |pairs| :: pairs[k].0 in folders[..i]
    {
      var folder := folders[i];
      assert folders[..i + 1] == folders[..i] + [folder];
      forall k | 0 <= k < |pairs| ensures StrLess(pairs[k].0, folder) {
        var m :| 0 <= m < i && folders[m] == pairs[k].0;
      }
      if IsDir(fs, dir + [folder]) {
        var subs := SortNames(Entries(fs, dir + [folder]));
        pairs := AppendSubfolders(pairs, folder, KeepDirs(fs, dir + [folder], subs));
      }
    }
    assert folders[..|folders|] == folders;
    return Success(pairs);
  }

  // ---------------------------------------------------------------------------
  // recon-all

  const NIFTI := "NIFTI"
  const FREESURFER := "FREESURFER"

  /** The outputs that mark a subject as reconstructed, relative to its
      subject directory. */
  const KEY_FILES: seq<Path> := [
    ["surf", "lh.white"], ["surf", "rh.white"], ["stats", "lh.aparc.stats"],
    ["stats", "rh.aparc.stats"], ["mri", "aparc+aseg.mgz"]]

  function KeyFiles(subjectDir: Path): (ps: seq<Path>)
    ensures |ps| == |KEY_FILES|
    ensures forall i | 0 <= i < |ps| :: ps[i] == subjectDir + KEY_FILES[i]
  {
    MapSeq(KEY_FILES, (rel: Path) => subjectDir + rel)
  }

  /** A subject whose FreeSurfer directory exists and holds all five key
      files is skipped. */
  predicate Reconstructed(fs: FileSystem, fsFolder: Path, id: string) {
    Exists(fs, fsFolder + [id]) && AllExist(fs, KeyFiles(fsFolder + [id]))
  }

  /** The selection loop's test on one (subject id, NIfTI file) pair. */
  function Pending(fs: FileSystem, fsFolder: Path): ((string, Path)) -> Option<(string, Path)> {
    (p: (string, Path)) => if Reconstructed(fs, fsFolder, p.0) then None else Some(p)
  }

  /** The loop of `reconall` that builds the two aligned lists of subjects
      and files to process. */
  method SelectSubjects(fs: FileSystem, fsFolder: Path, ids: seq<string>, niftis: seq<Path>)
    returns (subjects: seq<string>, inputs: seq<Path>)
    ensures |subjects| == |inputs|
    ensures Zip(subjects, inputs) == FilterMap(Zip(ids, niftis), Pending(fs, fsFolder))
  {
    subjects, inputs := [], [];
    var pairs := Zip(ids, niftis);
    for i := 0 to |pairs|
      invariant |subjects| == |inputs|
      invariant Zip(subjects, inputs) == FilterMap(pairs[..i], Pending(fs, fsFolder))
    {
      assert pairs[..i + 1][..i] == pairs[..i];
      var (id, nifti) := pairs[i];
      if Reconstructed(fs, fsFolder, id) {
        continue;
      }
      assert Zip(subjects + [id], inputs + [nifti]) == Zip(subjects, inputs) + [(id, nifti)];
      subjects := subjects + [id];
      inputs := inputs + [nifti];
    }
    assert pairs[..|pairs|] == pairs;
  }

  /** A pair is selected exactly when its subject is not yet reconstructed,
      and every selected pair is one of the input pairs. */
  lemma SelectionRule(fs: FileSystem, fsFolder: Path, ids: seq<string>, niftis: seq<Path>)
    requires |ids| == |niftis|
    ensures forall i | 0 <= i < |ids| ::
      (ids[i], niftis[i]) in FilterMap(Zip(ids, niftis), Pending(fs, fsFolder)) <==> !Reconstructed(fs, fsFolder, ids[i])
    ensures forall p | p in FilterMap(Zip(ids, niftis), Pending(fs, fsFolder)) ::
      !Reconstructed(fs, fsFolder, p.0) && exists i | 0 <= i < |ids| :: p == (ids[i], niftis[i])
  {
    var z := Zip(ids, niftis);
    FilterMapMembers(z, Pending(fs, fsFolder));
    forall i | 0 <= i < |ids| && !Reconstructed(fs, fsFolder, ids[i])
      ensures (ids[i], niftis[i]) in FilterMap(z, Pending(fs, fsFolder))
    {
      assert Pending(fs, fsFolder)(z[i]).Some?;
    }
  }

  function ReconCommand(base: Path, subjects: seq<string>, inputs: seq<Path>, cpu: Option<nat>): Command {
    Command("recon-all", [
      Words(subjects), PathList(inputs), Flag("-all"), PathArg(base + [FREESURFER]), Flag("-qcache"),
      PathArg(base + ["WORKFLOWS", "workingdir_reconflow"]), CpuCount(cpu)])
  }

  /** Each selected file is a NIfTI file of the data directory, next to the
      subject id derived from it, and that subject is not yet
      reconstructed. */
  lemma SelectedAligned(fs: FileSystem, data: Path, fsFolder: Path, names: seq<string>,
                        files: seq<Path>, ids: seq<string>, subjects: seq<string>, inputs: seq<Path>)
    requires forall i | 0 <= i < |names| :: names[i] in Glob(fs, data, NII_GZ)
    requires |files| == |names| && forall i | 0 <= i < |names| :: files[i] == data + [names[i]]
    requires |ids| == |files| && forall i | 0 <= i < |files| :: ids[i] == RemoveDoubleExtension(files[i])
    requires |subjects| == |inputs|
    requires Zip(subjects, inputs) == FilterMap(Zip(ids, files), Pending(fs, fsFolder))
    ensures forall k | 0 <= k < |inputs| ::
      InDir(data, inputs[k]) && EndsWith(Name(inputs[k]), NII_GZ) && Exists(fs, inputs[k])
      && subjects[k] == RemoveDoubleExtension(inputs[k]) && !Reconstructed(fs, fsFolder, subjects[k])
  {
    SelectionRule(fs, fsFolder, ids, files);
    var z := Zip(subjects, inputs);
    forall k | 0 <= k < |inputs|
      ensures InDir(data, inputs[k]) && EndsWith(Name(inputs[k]), NII_GZ) && Exists(fs, inputs[k])
      ensures subjects[k] == RemoveDoubleExtension(inputs[k]) && !Reconstructed(fs, fsFolder, subjects[k])
    {
      assert z[k] == (subjects[k], inputs[k]) && z[k] in z;
      var i :| 0 <= i < |ids| && z[k] == (ids[i], files[i]);
      assert inputs[k] == data + [names[i]];
      assert (data + [names[i]])[..|data|] == data;
    }
  }

  /** Every NIfTI file of the data directory is selected exactly when its
      subject is not yet reconstructed. */
  lemma SelectedExactly(fs: FileSystem, data: Path, fsFolder: Path, names: seq<string>,
                        files: seq<Path>, ids: seq<string>, subjects: seq<string>, inputs: seq<Path>)
    requires forall n | n in Glob(fs, data, NII_GZ) :: n in names
    requires |files| == |names| && forall i | 0 <= i < |names| :: files[i] == data + [names[i]]
    requires |ids| == |files| && forall i | 0 <= i < |files| :: ids[i] == RemoveDoubleExtension(files[i])
    requires |subjects| == |inputs|
    requires Zip(subjects, inputs) == FilterMap(Zip(ids, files), Pending(fs, fsFolder))
    ensures forall n | n in Glob(fs, data, NII_GZ) ::
      (data + [n] in inputs <==> !Reconstructed(fs, fsFolder, RemoveDoubleExtension(data + [n])))
  {
    SelectionRule(fs, fsFolder, ids, files);
    var z := Zip(subjects, inputs);
    forall n | n in Glob(fs, data, NII_GZ)
      ensures data + [n] in inputs <==> !Reconstructed(fs, fsFolder, RemoveDoubleExtension(data + [n]))
    {
      var i :| 0 <= i < |names| && names[i] == n;
      assert files[i] == data + [n] && ids[i] == RemoveDoubleExtension(data + [n]);
      if data + [n] in inputs {
        var k :| 0 <= k < |inputs| && inputs[k] == data + [n];
        assert z[k] == (subjects[k], inputs[k]) && z[k] in z;
        var j :| 0 <= j < |ids| && z[k] == (ids[j], files[j]);
        assert ids[j] == RemoveDoubleExtension(files[j]);
      }
      if !Reconstructed(fs, fsFolder, ids[i]) {
        assert (ids[i], files[i]) in z;
        var k :| 0 <= k < |z| && z[k] == (ids[i], files[i]);
        assert inputs[k] == data + [n];
      }
    }
  }

  /** `reconall`: one recon-all workflow over every NIfTI file in `base /
      NIFTI` whose subject is not yet reconstructed, none when there is no
      such file; a crash of the workflow escapes. */
  method Reconall(fs: FileSystem, base: Path, cpu: Option<nat>, failing: Failing)
    returns (run: Run, subjects: seq<string>, inputs: seq<Path>)
    ensures |subjects| == |inputs|
    ensures forall k | 0 <= k < |inputs| ::
      InDir(base + [NIFTI], inputs[k]) && EndsWith(Name(inputs[k]), NII_GZ) && Exists(fs, inputs[k])
      && subjects[k] == RemoveDoubleExtension(inputs[k]) && !Reconstructed(fs, base + [FREESURFER], subjects[k])
    ensures Exists(fs, base + [NIFTI]) ==> forall n | n in Glob(fs, base + [NIFTI], NII_GZ) ::
      (base + [NIFTI] + [n] in inputs <==> !Reconstructed(fs, base + [FREESURFER], RemoveDoubleExtension(base + [NIFTI] + [n])))
    ensures !Exists(fs, base + [NIFTI]) ==> subjects == []
    ensures run.launched == if subjects == [] then [] else [ReconCommand(base, subjects, inputs, cpu)]
    ensures run.raised.Some? <==> subjects != [] && ReconCommand(base, subjects, inputs, cpu) in failing
  {
    var data := base + [NIFTI];
    var fsFolder := base + [FREESURFER];
    run, subjects, inputs := Run([], None), [], [];
    if !Exists(fs, data) {
      return;
    }
    var names := SortNames(Glob(fs, data, NII_GZ));
    var files := MapSeq(names, (n: string) => data + [n]);
    if files == [] {
      return;
    }
    var ids := MapSeq(files, RemoveDoubleExtension);
    subjects, inputs := SelectSubjects(fs, fsFolder, ids, files);
    SelectedAligned(fs, data, fsFolder, names, files, ids, subjects, inputs);
    SelectedExactly(fs, data, fsFolder, names, files, ids, subjects, inputs);
    if subjects == [] {
      return;
    }
    var c := ReconCommand(base, subjects, inputs, cpu);
    run := Run([c], Launch(c, failing));
  }

  // ---------------------------------------------------------------------------
  // Guarded segmentation steps

  function SamsegCommand(freesurfer: Path, samseg: Path, series: string): Command {
    Command("run_samseg", [
      Flag("--input"), PathArg(freesurfer + [series, "mri", "brain.mgz"]),
      Flag("--output"), PathArg(samseg + [series]), Flag("--lesion")])
  }

  /** `process_lesions`: SAMSEG runs unless its statistics file is already
      there; a crash escapes. */
  function ProcessLesions(fs: FileSystem, freesurfer: Path, samseg: Path, series: string, failing: Failing): (r: Run)
    ensures r.launched == [] <==> IsFile(fs, samseg + [series, "samseg.stats"])
    ensures r.launched != [] ==> r.launched == [SamsegCommand(freesurfer, samseg, series)]
    ensures r.raised.Some? <==> r.launched != [] && SamsegCommand(freesurfer, samseg, series) in failing
  {
    Guarded(IsFile(fs, samseg + [series, "samseg.stats"]), SamsegCommand(freesurfer, samseg, series), failing, true)
  }

  const STRUCTURES := ["thalamus", "brainstem", "hippo-amygdala"]

  /** The files `segment_subregions` expects of a structure; none for a
      structure it does not know. */
  function SubregionOutputs(structure: string, subject: Path): (ps: seq<Path>)
    ensures structure !in STRUCTURES ==> ps == []
  {
    var mri := subject + ["mri"];
    if structure == "thalamus" then
      [mri + ["ThalamicNuclei.mgz"], mri + ["ThalamicNuclei.volumes.txt"]]
    else if structure == "brainstem" then
      [mri + ["brainstemSsLabels.mgz"], mri + ["brainstemSsLabels.volumes.txt"]]
    else if structure == "hippo-amygdala" then
      [mri + ["rh.amygNucVolumes.txt"], mri + ["rh.hippoSfVolumes.txt"],
       mri + ["lh.amygNucVolumes.txt"], mri + ["lh.hippoSfVolumes.txt"],
       mri + ["lh.hippoAmygLabels.mgz"], mri + ["rh.hippoAmygLabels.mgz"]]
    else []
  }

  function SubregionsCommand(structure: string, subjectId: string, subjectDir: Path): Command {
    Command("segment_subregions", [Word(structure), Flag("--cross"), Word(subjectId), Flag("--sd"), PathArg(subjectDir)])
  }

  /** `segment_subregions`: the segmentation runs when some expected output
      is missing; a crash escapes. */
  function SegmentSubregions(fs: FileSystem, structure: string, subjectId: string, subjectDir: Path, failing: Failing): (r: Run)
    ensures r.launched == [] <==> AllExist(fs, SubregionOutputs(structure, subjectDir + [subjectId]))
    ensures r.launched != [] ==> r.launched == [SubregionsCommand(structure, subjectId, subjectDir)]
    ensures r.raised.Some? <==> r.launched != [] && SubregionsCommand(structure, subjectId, subjectDir) in failing
  {
    Guarded(AllExist(fs, SubregionOutputs(structure, subjectDir + [subjectId])),
      SubregionsCommand(structure, subjectId, subjectDir), failing, true)
  }

  /** A structure without expected outputs is never segmented. */
  lemma UnknownStructureSkips(fs: FileSystem, structure: string, subjectId: string, subjectDir: Path, failing: Failing)
    requires structure !in STRUCTURES
    ensures SegmentSubregions(fs, structure, subjectId, subjectDir, failing) == Run([], None)
  {
  }

  function HypothalamusCommand(subjectId: string, subjectDir: Path, cpu: Option<nat>): Command {
    Command("mri_segment_hypothalamic_subunits", [
      Flag("--s"), Word(subjectId), Flag("--sd"), PathArg(subjectDir), Flag("--threads"), CpuCount(cpu)])
  }

  /** The CSV whose presence marks the hypothalamus as segmented. */
  function HypothalamusCsv(subjectId: string, subjectDir: Path): Path {
    subjectDir + [subjectId, "mri", "hypothalamic_subunits_volumes.v1.csv"]
  }

  /** `segment_hypothalamus`: the segmentation runs unless its CSV is already
      there; a crash escapes. */
  function SegmentHypothalamus(fs: FileSystem, subjectId: string, subjectDir: Path, cpu: Option<nat>, failing: Failing): (r: Run)
    ensures r.launched == [] <==> IsFile(fs, HypothalamusCsv(subjectId, subjectDir))
    ensures r.launched != [] ==> r.launched == [HypothalamusCommand(subjectId, subjectDir, cpu)]
    ensures r.raised.Some? <==> r.launched != [] && HypothalamusCommand(subjectId, subjectDir, cpu) in failing
  {
    Guarded(IsFile(fs, HypothalamusCsv(subjectId, subjectDir)), HypothalamusCommand(subjectId, subjectDir, cpu), failing, true)
  }

  // ---------------------------------------------------------------------------
  // Core statistics

  const STATS := ".stats"
  const TXT := ".txt"

  /** A name ending in ".txt" does not end in ".stats". */
  lemma TxtIsNotStats(n: string)
    requires EndsWith(n, TXT)
    ensures !EndsWith(n, STATS)
  {
    assert n[|n| - |TXT|..][|TXT| - 1] == n[|n| - 1] == 't';
    if |STATS| <= |n| {
      assert n[|n| - |STATS|..][|STATS| - 1] == n[|n| - 1];
    }
  }

  /** `with_suffix(".txt")` always yields a ".txt" name. */
  lemma WithTxtSuffix(n: string)
    ensures EndsWith(WithSuffix(n, TXT), TXT)
    ensures !EndsWith(WithSuffix(n, TXT), STATS)
  {
    var t := WithSuffix(n, TXT);
    assert t[|t| - |TXT|..] == TXT;
    TxtIsNotStats(t);
  }

  /** The paths of the named entries of `dir`. */
  function Under(dir: Path, names: set<string>): (ps: set<Path>)
    ensures forall n {:trigger dir + [n]} :: dir + [n] in ps <==> n in names
  {
    assert forall n, m | dir + [n] == dir + [m] :: n == (dir + [n])[|dir|] == (dir + [m])[|dir|] == m;
    set n | n in names :: dir + [n]
  }

  /** The ".txt" namesakes in `dir` of the named entries. */
  function Targets(dir: Path, names: set<string>): (ps: set<Path>)
    ensures forall n {:trigger WithSuffix(n, TXT)} | n in names :: dir + [WithSuffix(n, TXT)] in ps
  {
    set n | n in names :: dir + [WithSuffix(n, TXT)]
  }

  /** A ".txt" namesake in `dir` ends in ".txt", so never in ".stats". */
  lemma TargetNotStats(dir: Path, names: set<string>, n: string)
    requires dir + [n] in Targets(dir, names)
    ensures !EndsWith(n, STATS)
  {
    var m :| m in names && dir + [n] == dir + [WithSuffix(m, TXT)];
    assert n == (dir + [n])[|dir|] == WithSuffix(m, TXT);
    WithTxtSuffix(m);
  }

  /** `shutil.copy2(src / n, dest)` for each name: the copy lands at
      `dest / n`; a directory in the place of the source or of the copy
      raises. */
  method CopyInto(fs: FileSystem, src: Path, names: set<string>, dest: Path) returns (r: Result<FileSystem, Error>)
    ensures r.Success? <==> forall n | n in names :: src + [n] !in fs.dirs && dest + [n] !in fs.dirs
    ensures r.Success? ==> r.value == FileSystem(fs.dirs, fs.files + Under(dest, names))
  {
    var cur := fs;
    var rest := names;
    while rest != {}
      invariant rest <= names
      invariant cur == FileSystem(fs.dirs, fs.files + Under(dest, names - rest))
      invariant forall n | n in names - rest :: src + [n] !in fs.dirs && dest + [n] !in fs.dirs
      decreases |rest|
    {
      var n :| n in rest;
      if src + [n] in fs.dirs {
        return Failure(IsADirectory(src + [n]));
      }
      if dest + [n] in fs.dirs {
        return Failure(IsADirectory(dest + [n]));
      }
      assert Under(dest, names - (rest - {n})) == Under(dest, names - rest) + {dest + [n]};
      cur := FileSystem(cur.dirs, cur.files + {dest + [n]});
      rest := rest - {n};
    }
    assert names - rest == names;
    return Success(cur);
  }

  /** The regular files among the entries `dir.glob("*.stats")` yields. The
      directories it also yields are left out of the modelled rename loop. */
  function StatsFiles(fs: FileSystem, dir: Path): (names: set<string>)
    ensures forall n :: n in names <==> Exists(fs, dir + [n]) && EndsWith(n, STATS) && dir + [n] !in fs.dirs
  {
    set n | n in Glob(fs, dir, STATS) && dir + [n] !in fs.dirs
  }

  /** The entries of `dir` after each of `names` was renamed to its ".txt"
      namesake. */
  function Renamed(files: set<Path>, dir: Path, names: set<string>): set<Path> {
    files - Under(dir, names) + Targets(dir, names)
  }

  lemma UnderInsert(dir: Path, names: set<string>, n: string)
    ensures Under(dir, names + {n}) == Under(dir, names) + {dir + [n]}
  {
  }

  lemma TargetsInsert(dir: Path, names: set<string>, n: string)
    ensures Targets(dir, names + {n}) == Targets(dir, names) + {dir + [WithSuffix(n, TXT)]}
  {
  }

  /** Set algebra of one rename, on sets kept abstract. */
  lemma RenameOne<T>(files: set<T>, gone: set<T>, added: set<T>, src: T, dst: T)
    requires src !in added
    ensures files - (gone + {src}) + (added + {dst}) == (files - gone + added) - {src} + {dst}
  {
  }

  /** Renaming one more ".stats" file removes it and adds its namesake. */
  lemma RenamedStep(files: set<Path>, dir: Path, done: set<string>, n: string)
    requires EndsWith(n, STATS)
    ensures Renamed(files, dir, done + {n}) == Renamed(files, dir, done) - {dir + [n]} + {dir + [WithSuffix(n, TXT)]}
  {
    if dir + [n] in Targets(dir, done) {
      TargetNotStats(dir, done, n);
    }
    UnderInsert(dir, done, n);
    TargetsInsert(dir, done, n);
    RenameOne(files, Under(dir, done), Targets(dir, done), dir + [n], dir + [WithSuffix(n, TXT)]);
  }

  /** The entries of `dir` after renaming the names of `order` one by one. */
  function RenamedInOrder(files: set<Path>, dir: Path, order: seq<string>): set<Path>
    decreases |order|
  {
    if order == [] then files
    else
      var last := order[|order| - 1];
      RenamedInOrder(files, dir, order[..|order| - 1]) - {dir + [last]} + {dir + [WithSuffix(last, TXT)]}
  }

  /** The names a listing holds. */
  function Members(s: seq<string>): set<string> {
    set x | x in s
  }

  /** The members of a non-empty listing: those of all but the last, and the
      last. */
  lemma MembersLast(s: seq<string>)
    requires s != []
    ensures Members(s) == Members(s[..|s| - 1]) + {s[|s| - 1]}
  {
    assert s == s[..|s| - 1] + [s[|s| - 1]];
  }

  /** Renaming one ".stats" file at a time ends where renaming the whole set
      at once does, whatever the order. */
  lemma {:induction false} RenamedInOrderIsRenamed(files: set<Path>, dir: Path, order: seq<string>)
    requires forall i | 0 <= i < |order| :: EndsWith(order[i], STATS)
    ensures RenamedInOrder(files, dir, order) == Renamed(files, dir, Members(order))
    decreases |order|
  {
    if order != [] {
      var init := order[..|order| - 1];
      var last := order[|order| - 1];
      RenamedInOrderIsRenamed(files, dir, init);
      RenamedStep(files, dir, Members(init), last);
      MembersLast(order);
    }
  }

  /** The rename loop of `process_corestats` over the listing `order`: each
      name becomes its ".txt" namesake; the first directory in the way
      raises. */
  method RenameEach(fs: FileSystem, dir: Path, order: seq<string>) returns (r: Result<FileSystem, Error>)
    ensures r.Success? <==> forall i | 0 <= i < |order| :: dir + [WithSuffix(order[i], TXT)] !in fs.dirs
    ensures r.Success? ==> r.value == FileSystem(fs.dirs, RenamedInOrder(fs.files, dir, order))
    ensures r.Failure? ==> exists i | 0 <= i < |order| :: r.error == IsADirectory(dir + [WithSuffix(order[i], TXT)])
  {
    var files := fs.files;
    for i := 0 to |order|
      invariant files == RenamedInOrder(fs.files, dir, order[..i])
      invariant forall j | 0 <= j < i :: dir + [WithSuffix(order[j], TXT)] !in fs.dirs
    {
      var target := dir + [WithSuffix(order[i], TXT)];
      if target in fs.dirs {
        return Failure(IsADirectory(target));
      }
      assert order[..i + 1][..i] == order[..i];
      files := files - {dir + [order[i]]} + {target};
    }
    assert order[..|order|] == order;
    return Success(FileSystem(fs.dirs, files));
  }

  /** The rename loop of `process_corestats`: every `*.stats` file in `dir`
      becomes its ".txt" namesake; a directory in the way raises. The listing
      is taken in name order. */
  method RenameStats(fs: FileSystem, dir: Path) returns (r: Result<FileSystem, Error>)
    ensures r.Success? <==> forall n | n in StatsFiles(fs, dir) :: dir + [WithSuffix(n, TXT)] !in fs.dirs
    ensures r.Success? ==> r.value == FileSystem(fs.dirs, Renamed(fs.files, dir, StatsFiles(fs, dir)))
  {
    var names := StatsFiles(fs, dir);
    var order := SortNames(names);
    assert Members(order) == names;
    r := RenameEach(fs, dir, order);
    if r.Success? {
      RenamedInOrderIsRenamed(fs.files, dir, order);
    }
  }

  /** After the modelled rename loop no `*.stats` file is left in `dir`; a
      `*.stats` directory, which Python's loop would rename as well, is kept. */
  lemma NoStatsLeft(fs: FileSystem, dir: Path)
    ensures forall n | dir + [n] in Renamed(fs.files, dir, StatsFiles(fs, dir)) && EndsWith(n, STATS) :: dir + [n] in fs.dirs
  {
    var names := StatsFiles(fs, dir);
    forall n | dir + [n] in Renamed(fs.files, dir, names) && EndsWith(n, STATS)
      ensures dir + [n] in fs.dirs
    {
      if dir + [n] in Targets(dir, names) {
        TargetNotStats(dir, names, n);
      }
      assert dir + [n] in fs.files && n !in names;
    }
  }

  /** A ".stats" file copied in is renamed to its ".txt" namesake. */
  lemma StatsRenamed(fs: FileSystem, dir: Path, n: string)
    requires IsFile(fs, dir + [n]) && !IsDir(fs, dir + [n]) && EndsWith(n, STATS)
    ensures dir + [WithSuffix(n, TXT)] in Renamed(fs.files, dir, StatsFiles(fs, dir))
  {
    assert n in StatsFiles(fs, dir);
  }

  /** Renaming ".stats" files leaves every ".txt" file where it was. */
  lemma RenameKeepsTxt(fs: FileSystem, dir: Path, d: Path, n: string)
    requires IsFile(fs, d + [n]) && EndsWith(n, TXT)
    ensures d + [n] in Renamed(fs.files, dir, StatsFiles(fs, dir))
  {
    if d + [n] in Under(dir, StatsFiles(fs, dir)) {
      var m :| m in StatsFiles(fs, dir) && d + [n] == dir + [m];
      assert n == (d + [n])[|d|] == (dir + [m])[|dir|] == m;
      TxtIsNotStats(n);
    }
  }

  /** Copying ".txt" files in adds no ".stats" file. */
  lemma TxtCopyAddsNoStats(files: set<Path>, src: Path, fs: FileSystem, dir: Path, n: string)
    requires dir + [n] in files + Under(dir, Glob(fs, src, TXT)) && EndsWith(n, STATS)
    ensures dir + [n] in files
  {
    if n in Glob(fs, src, TXT) {
      TxtIsNotStats(n);
    }
  }

  /** The `*suffix` entries of `src` copied into `dest`, when `src` exists. */
  function CopiedIn(fs: FileSystem, src: Path, suffix: string, dest: Path): FileSystem {
    if Exists(fs, src) then FileSystem(fs.dirs, fs.files + Under(dest, Glob(fs, src, suffix))) else fs
  }

  /** Copying the `*suffix` entries of `src` into `dest` succeeds: none of
      them, and none of their copies, is a directory. */
  predicate CopyFits(fs: FileSystem, src: Path, suffix: string, dest: Path) {
    Exists(fs, src) ==> forall n | n in Glob(fs, src, suffix) :: src + [n] !in fs.dirs && dest + [n] !in fs.dirs
  }

  /** `corestats` created, with its missing parents. */
  function CorestatsMade(fs: FileSystem, corestats: Path): FileSystem {
    FileSystem(fs.dirs + Ancestry(corestats), fs.files)
  }

  /** The ".stats" files of `stats` copied in. */
  function CorestatsCopied(fs: FileSystem, fsPath: Path, corestats: Path): FileSystem {
    CopiedIn(CorestatsMade(fs, corestats), fsPath + ["stats"], STATS, corestats)
  }

  /** Every ".stats" file of `corestats` renamed to ".txt". */
  function CorestatsRenamed(fs: FileSystem, fsPath: Path, corestats: Path): FileSystem {
    var copied := CorestatsCopied(fs, fsPath, corestats);
    FileSystem(copied.dirs, Renamed(copied.files, corestats, StatsFiles(copied, corestats)))
  }

  /** When `process_corestats` returns: the FreeSurfer directory exists, no
      file stands in the way of `corestats`, and no copy or rename meets a
      directory. */
  predicate CorestatsSucceeds(fs: FileSystem, fsPath: Path, corestats: Path) {
    && Exists(fs, fsPath)
    && Creatable(fs.files, corestats)
    && CopyFits(CorestatsMade(fs, corestats), fsPath + ["stats"], STATS, corestats)
    && (var copied := CorestatsCopied(fs, fsPath, corestats);
        forall n | n in StatsFiles(copied, corestats) :: corestats + [WithSuffix(n, TXT)] !in copied.dirs)
    && CopyFits(CorestatsRenamed(fs, fsPath, corestats), fsPath + ["mri"], TXT, corestats)
  }

  /** The file system `process_corestats` leaves behind when it returns. */
  function CorestatsResult(fs: FileSystem, fsPath: Path, corestats: Path): FileSystem {
    CopiedIn(CorestatsRenamed(fs, fsPath, corestats), fsPath + ["mri"], TXT, corestats)
  }

  /** What a successful `process_corestats` leaves: the directories plus
      `corestats` and its parents; every ".stats" file of `stats` renamed to
      its ".txt" namesake in `corestats`, the `*.txt` files of `mri` copied
      in, and no ".stats" file left in `corestats`. */
  lemma CorestatsResultFacts(fs: FileSystem, fsPath: Path, corestats: Path)
    requires CorestatsSucceeds(fs, fsPath, corestats)
    ensures var r := CorestatsResult(fs, fsPath, corestats);
      && r.dirs == fs.dirs + Ancestry(corestats)
      && (forall n | IsFile(r, corestats + [n]) && EndsWith(n, STATS) :: IsDir(r, corestats + [n]))
      && (IsDir(fs, fsPath + ["stats"]) ==>
        forall n | IsFile(fs, fsPath + ["stats"] + [n]) && EndsWith(n, STATS) :: IsFile(r, corestats + [WithSuffix(n, TXT)]))
      && (IsDir(fs, fsPath + ["mri"]) ==>
        forall n | IsFile(fs, fsPath + ["mri"] + [n]) && EndsWith(n, TXT) :: IsFile(r, corestats + [n]))
  {
    var statsDir, mriDir := fsPath + ["stats"], fsPath + ["mri"];
    var made := CorestatsMade(fs, corestats);
    var copied := CorestatsCopied(fs, fsPath, corestats);
    var renamed := CorestatsRenamed(fs, fsPath, corestats);
    var r := CorestatsResult(fs, fsPath, corestats);
    // every ".stats" file of `stats` sits in `corestats` after the copy
    forall n | IsDir(fs, statsDir) && IsFile(fs, statsDir + [n]) && EndsWith(n, STATS)
      ensures IsFile(copied, corestats + [n]) && !IsDir(copied, corestats + [n])
    {
      assert n in Glob(made, statsDir, STATS);
    }
    forall n | IsDir(fs, statsDir) && IsFile(fs, statsDir + [n]) && EndsWith(n, STATS)
      ensures IsFile(renamed, corestats + [WithSuffix(n, TXT)])
    {
      StatsRenamed(copied, corestats, n);
    }
    forall n | IsFile(fs, mriDir + [n]) && EndsWith(n, TXT)
      ensures IsFile(renamed, mriDir + [n])
    {
      RenameKeepsTxt(copied, corestats, mriDir, n);
    }
    NoStatsLeft(copied, corestats);
    if Exists(renamed, mriDir) {
      forall n | IsFile(r, corestats + [n]) && EndsWith(n, STATS)
        ensures IsDir(r, corestats + [n])
      {
        TxtCopyAddsNoStats(renamed.files, mriDir, renamed, corestats, n);
      }
      forall n | IsFile(fs, mriDir + [n]) && EndsWith(n, TXT)
        ensures IsFile(r, corestats + [n])
      {
        assert n in Glob(renamed, mriDir, TXT);
      }
    }
  }

  /** The copies and renames all happen directly inside `dir`. */
  lemma UnderTargetsInDir(dir: Path, names: set<string>, p: Path)
    ensures p in Under(dir, names) ==> InDir(dir, p)
    ensures p in Targets(dir, names) ==> InDir(dir, p)
  {
    if p in Targets(dir, names) {
      var m :| m in names && p == dir + [WithSuffix(m, TXT)];
    }
  }

  /** A path not directly inside `corestats` is a file after each stage of
      `process_corestats` exactly when it was one before. */
  lemma CorestatsStagesOutside(fs: FileSystem, fsPath: Path, corestats: Path, p: Path)
    requires !InDir(corestats, p)
    ensures p in CorestatsRenamed(fs, fsPath, corestats).files <==> p in fs.files
    ensures p in CorestatsResult(fs, fsPath, corestats).files <==> p in fs.files
  {
    var made := CorestatsMade(fs, corestats);
    var copied := CorestatsCopied(fs, fsPath, corestats);
    UnderTargetsInDir(corestats, Glob(made, fsPath + ["stats"], STATS), p);
    UnderTargetsInDir(corestats, StatsFiles(copied, corestats), p);
    var renamed := CorestatsRenamed(fs, fsPath, corestats);
    UnderTargetsInDir(corestats, Glob(renamed, fsPath + ["mri"], TXT), p);
  }

  /** `process_corestats` changes no file outside `corestats`. */
  lemma CorestatsOutsideUnchanged(fs: FileSystem, fsPath: Path, corestats: Path)
    ensures forall p | !InDir(corestats, p) :: p in CorestatsResult(fs, fsPath, corestats).files <==> p in fs.files
  {
    forall p | !InDir(corestats, p)
      ensures p in CorestatsResult(fs, fsPath, corestats).files <==> p in fs.files
    {
      CorestatsStagesOutside(fs, fsPath, corestats, p);
    }
  }

  /** Every file a successful `process_corestats` adds to `corestats` is a
      ".txt" file: the namesake of a ".stats" file of `stats` or of
      `corestats` itself, or a copy of a `*.txt` file of `mri`. */
  lemma CorestatsNewEntries(fs: FileSystem, fsPath: Path, corestats: Path)
    requires CorestatsSucceeds(fs, fsPath, corestats)
    ensures forall n | IsFile(CorestatsResult(fs, fsPath, corestats), corestats + [n]) && !IsFile(fs, corestats + [n]) ::
      && EndsWith(n, TXT)
      && (|| IsFile(fs, fsPath + ["mri"] + [n])
          || exists m | EndsWith(m, STATS) && (IsFile(fs, fsPath + ["stats"] + [m]) || IsFile(fs, corestats + [m])) ::
               n == WithSuffix(m, TXT))
  {
    forall n | IsFile(CorestatsResult(fs, fsPath, corestats), corestats + [n]) && !IsFile(fs, corestats + [n])
      ensures EndsWith(n, TXT)
      ensures || IsFile(fs, fsPath + ["mri"] + [n])
              || exists m | EndsWith(m, STATS) && (IsFile(fs, fsPath + ["stats"] + [m]) || IsFile(fs, corestats + [m])) ::
                   n == WithSuffix(m, TXT)
    {
      CorestatsNewEntry(fs, fsPath, corestats, n);
    }
  }

  lemma CorestatsNewEntry(fs: FileSystem, fsPath: Path, corestats: Path, n: string)
    requires CorestatsSucceeds(fs, fsPath, corestats)
    requires IsFile(CorestatsResult(fs, fsPath, corestats), corestats + [n]) && !IsFile(fs, corestats + [n])
    ensures EndsWith(n, TXT)
    ensures || IsFile(fs, fsPath + ["mri"] + [n])
            || exists m | EndsWith(m, STATS) && (IsFile(fs, fsPath + ["stats"] + [m]) || IsFile(fs, corestats + [m])) ::
                 n == WithSuffix(m, TXT)
  {
    var statsDir, mriDir := fsPath + ["stats"], fsPath + ["mri"];
    var made := CorestatsMade(fs, corestats);
    var copied := CorestatsCopied(fs, fsPath, corestats);
    var renamed := CorestatsRenamed(fs, fsPath, corestats);
    var names := StatsFiles(copied, corestats);
    var p := corestats + [n];
    if p in renamed.files {
      // a copied ".stats" file does not survive the renames
      assert p in copied.files && p !in fs.files ==> n in Glob(made, statsDir, STATS) && n in names;
      var m :| m in names && p == corestats + [WithSuffix(m, TXT)];
      assert n == p[|corestats|] == WithSuffix(m, TXT);
      WithTxtSuffix(m);
      assert corestats + [m] in copied.files;
      if corestats + [m] !in fs.files {
        assert m in Glob(made, statsDir, STATS);
      }
    } else {
      assert n in Glob(renamed, mriDir, TXT);
      assert mriDir + [n] in renamed.files && mriDir + [n] != p;
      assert (mriDir + [n])[..|mriDir|] == mriDir;
      assert !InDir(corestats, mriDir + [n]);
      CorestatsStagesOutside(fs, fsPath, corestats, mriDir + [n]);
    }
  }

  /** `process_corestats`: copies the FreeSurfer `*.stats` files of `stats` into
      `corestats`, renames every `*.stats` file there to ".txt", and copies the
      `*.txt` files of `mri` in. A missing FreeSurfer directory raises. */
  method ProcessCorestats(fs: FileSystem, fsPath: Path, corestats: Path) returns (r: Result<FileSystem, Error>)
    ensures !Exists(fs, fsPath) ==> r == Failure(FileNotFound(fsPath))
    ensures r.Success? <==> CorestatsSucceeds(fs, fsPath, corestats)
    ensures r.Success? ==> r.value == CorestatsResult(fs, fsPath, corestats)
    ensures Exists(fs, fsPath) && !Creatable(fs.files, corestats) ==> r.Failure?
    ensures r.Success? ==> r.value.dirs == fs.dirs + Ancestry(corestats)
    ensures r.Success? ==> forall n | IsFile(r.value, corestats + [n]) && EndsWith(n, STATS) :: IsDir(r.value, corestats + [n])
    ensures r.Success? && IsDir(fs, fsPath + ["stats"]) ==>
      forall n | IsFile(fs, fsPath + ["stats"] + [n]) && EndsWith(n, STATS) :: IsFile(r.value, corestats + [WithSuffix(n, TXT)])
    ensures r.Success? && IsDir(fs, fsPath + ["mri"]) ==>
      forall n | IsFile(fs, fsPath + ["mri"] + [n]) && EndsWith(n, TXT) :: IsFile(r.value, corestats + [n])
    ensures r.Success? ==> forall p | !InDir(corestats, p) :: p in r.value.files <==> p in fs.files
    ensures r.Success? ==> forall n | IsFile(r.value, corestats + [n]) && !IsFile(fs, corestats + [n]) ::
      && EndsWith(n, TXT)
      && (|| IsFile(fs, fsPath + ["mri"] + [n])
          || exists m | EndsWith(m, STATS) && (IsFile(fs, fsPath + ["stats"] + [m]) || IsFile(fs, corestats + [m])) ::
               n == WithSuffix(m, TXT))
  {
    if !Exists(fs, fsPath) {
      return Failure(FileNotFound(fsPath));
    }
    var statsDir := fsPath + ["stats"];
    var mriDir := fsPath + ["mri"];
    var made := MakeDirs(fs, corestats);
    if made.Failure? {
      return Failure(made.error);
    }
    var cur := made.value;
    if Exists(cur, statsDir) {
      var copied := CopyInto(cur, statsDir, Glob(cur, statsDir, STATS), corestats);
      if copied.Failure? {
        return Failure(copied.error);
      }
      cur := copied.value;
    }
    assert cur == CorestatsCopied(fs, fsPath, corestats);
    var renamed := RenameStats(cur, corestats);
    if renamed.Failure? {
      return Failure(renamed.error);
    }
    cur := renamed.value;
    assert cur == CorestatsRenamed(fs, fsPath, corestats);
    if Exists(cur, mriDir) {
      var copied := CopyInto(cur, mriDir, Glob(cur, mriDir, TXT), corestats);
      if copied.Failure? {
        return Failure(copied.error);
      }
      cur := copied.value;
    }
    CorestatsResultFacts(fs, fsPath, corestats);
    CorestatsOutsideUnchanged(fs, fsPath, corestats);
    CorestatsNewEntries(fs, fsPath, corestats);
    return Success(cur);
  }

}
