/** Paths, the existence-only view of the filesystem that the pipeline steps
    consult, and the exceptions the modelled code raises. */
module Files {
  import opened Wrappers
  import opened Text

  /** A path as its sequence of components: `p + [n]` is Python's `p / n`. */
  type Path = seq<string>

  /** The exceptions the modelled code raises, lets through or catches. */
  datatype Error =
    | FileNotFound(path: Path)
    | FileExists(path: Path)
    | IndexError
    | ValueError
    | KeyError(key: string)
    | JsonDecodeError(path: Path)
    | ReadError(path: Path)
    | ToolError(command: string)
    | IsADirectory(path: Path)
    | NotADirectory(path: Path)
    | TypeError
      /** A nipype input trait refused a value, e.g. a `File(exists=True)`
          input set to a path that does not exist. */
    | TraitError(path: Path)

  /** Which paths exist, as directories and as regular files. */
  datatype FileSystem = FileSystem(dirs: set<Path>, files: set<Path>)

  /** `p.exists()`. */
  predicate Exists(fs: FileSystem, p: Path) {
    p in fs.dirs || p in fs.files
  }

  /** `p.is_file()`. */
  predicate IsFile(fs: FileSystem, p: Path) {
    p in fs.files
  }

  /** `p.is_dir()`. */
  predicate IsDir(fs: FileSystem, p: Path) {
    p in fs.dirs
  }

  /** `p.name`: the last component. */
  function Name(p: Path): string {
    if p == [] then "" else p[|p| - 1]
  }

  predicate InDir(d: Path, p: Path) {
    |p| == |d| + 1 && p[..|d|] == d
  }

  /** The names `d.iterdir()` lists: the entries directly inside `d`. */
  function Entries(fs: FileSystem, d: Path): (names: set<string>)
    ensures forall n | n in names :: Exists(fs, d + [n])
    ensures forall n | Exists(fs, d + [n]) :: n in names
  {
    var names := set p | p in fs.dirs + fs.files && InDir(d, p) :: p[|d|];
    assert forall n | Exists(fs, d + [n]) :: InDir(d, d + [n]) && (d + [n])[|d|] == n;
    assert forall p | InDir(d, p) :: p == d + [p[|d|]];
    names
  }

  /** Names of the directories directly inside `d`. */
  function SubdirNames(fs: FileSystem, d: Path): (names: set<string>)
    ensures forall n :: n in names <==> IsDir(fs, d + [n])
  {
    set n | n in Entries(fs, d) && IsDir(fs, d + [n])
  }

  /** `d.glob("*" + suffix)`: entries of `d` whose name ends with `suffix`
      (pathlib's `*` also matches names that start with a dot). */
  function Glob(fs: FileSystem, d: Path, suffix: string): (names: set<string>)
    ensures forall n :: n in names <==> Exists(fs, d + [n]) && EndsWith(n, suffix)
  {
    set n | n in Entries(fs, d) && EndsWith(n, suffix)
  }

  /** Python's `s.rfind(c)`: the last index of `c`, or -1. */
  function LastIndexOf(s: string, c: char): (i: int)
    ensures -1 <= i < |s|
    ensures i >= 0 ==> s[i] == c
    ensures forall j | i < j < |s| :: s[j] != c
  {
    if s == [] then -1
    else if s[|s| - 1] == c then |s| - 1
    else LastIndexOf(s[..|s| - 1], c)
  }

  /** Where pathlib's `suffix` of a name starts: at the last dot, when that dot
      is neither the first nor the last character; otherwise at the end. */
  function SuffixStart(name: string): (i: nat)
    ensures i <= |name|
    ensures i < |name| ==> 0 < i < |name| - 1 && name[i] == '.'
    ensures i < |name| ==> forall j | i < j < |name| :: name[j] != '.'
    ensures forall j | 0 < j < |name| - 1 && name[j] == '.' && (forall k | j < k < |name| :: name[k] != '.') :: i == j
  {
    var i := LastIndexOf(name, '.');
    if 0 < i < |name| - 1 then i else |name|
  }

  /** pathlib's `stem`: the name without its last suffix. */
  function Stem(name: string): (r: string)
    ensures r == name[..SuffixStart(name)]
    ensures |r| < |name| ==> r != [] && name[|r|] == '.' && forall j | |r| < j < |name| :: name[j] != '.'
  {
    name[..SuffixStart(name)]
  }

  /** pathlib's `with_suffix(suffix)` on a name. */
  function WithSuffix(name: string, suffix: string): string {
    Stem(name) + suffix
  }

  /** Every non-empty prefix of `p`: what `mkdir(parents=True)` creates. */
  function Ancestry(p: Path): (r: set<Path>)
    ensures forall q :: q in r <==> 0 < |q| <= |p| && q == p[..|q|]
  {
    set k | 1 <= k <= |p| :: p[..k]
  }

  /** `mkdir(parents=True, exist_ok=True)` succeeds on `p`: no regular file
      stands where `p` or one of its parents should be. */
  predicate Creatable(files: set<Path>, p: Path) {
    forall q | q in Ancestry(p) :: q !in files
  }

  /** `p.mkdir(parents=True, exist_ok=True)`: creates `p` and its missing
      parents. A regular file at `p` raises `FileExistsError`; one at a
      parent of `p` raises `NotADirectoryError`. */
  function MakeDirs(fs: FileSystem, p: Path): (r: Result<FileSystem, Error>)
    ensures r.Success? <==> Creatable(fs.files, p)
    ensures r.Success? ==> r.value == FileSystem(fs.dirs + Ancestry(p), fs.files)
    ensures r.Failure? && p in fs.files ==> r.error == FileExists(p)
    ensures r.Failure? && p !in fs.files ==> r.error == NotADirectory(p)
  {
    if exists q | q in Ancestry(p) :: q in fs.files then
      if p in fs.files then Failure(FileExists(p)) else Failure(NotADirectory(p))
    else Success(FileSystem(fs.dirs + Ancestry(p), fs.files))
  }

  /** Names in strictly increasing order, as `sorted` leaves distinct names. */
  predicate SortedNames(s: seq<string>) {
    forall i, j | 0 <= i < j < |s| :: StrLess(s[i], s[j])
  }

  function InsertName(s: seq<string>, x: string): (r: seq<string>)
    requires SortedNames(s) && x !in s
    ensures SortedNames(r)
    ensures forall y :: y in r <==> y in s || y == x
    ensures |r| == |s| + 1
  {
    if s == [] then [x]
    else if StrLess(x, s[0]) then
      assert forall i | 1 <= i < |s| :: StrLess(x, s[i]) by {
        forall i | 1 <= i < |s| ensures StrLess(x, s[i]) {
          StrLessTransitive(x, s[0], s[i]);
        }
      }
      [x] + s
    else
      StrLessTotal(x, s[0]);
      assert s == [s[0]] + s[1..];
      var rest := InsertName(s[1..], x);
      assert forall i | 0 <= i < |rest| :: StrLess(s[0], rest[i]) by {
        forall i | 0 <= i < |rest| ensures StrLess(s[0], rest[i]) {
          assert rest[i] in rest;
        }
      }
      [s[0]] + rest
  }

  /** `sorted(names)`: the names of a directory listing in increasing order. */
  method SortNames(names: set<string>) returns (r: seq<string>)
    ensures SortedNames(r)
    ensures forall n :: n in r <==> n in names
    ensures |r| == |names|
  {
    r := [];
    var rest := names;
    while rest != {}
      invariant SortedNames(r)
      invariant forall n :: n in r <==> n in names && n !in rest
      invariant rest <= names
      invariant |r| + |rest| == |names|
      decreases |rest|
    {
      var n :| n in rest;
      r := InsertName(r, n);
      rest := rest - {n};
    }
  }

  /** In a strictly sorted list each name occurs once. */
  lemma SortedNamesDistinct(s: seq<string>)
    requires SortedNames(s)
    ensures forall i, j | 0 <= i < j < |s| :: s[i] != s[j]
  {
    forall i, j | 0 <= i < j < |s| ensures s[i] != s[j] {
      StrLessIrreflexive(s[i]);
    }
  }
}
