/** The stats-file parsers of core/jsonifier.py: whitespace-tokenised rows are
    turned into volume records, with malformed rows skipped where the source
    catches the error and raising where it does not. */
module Jsonifier {
  import opened Wrappers
  import opened Text
  import opened Numbers
  import opened Files
  import opened Records

  /** One line of a stats file, split into whitespace tokens. */
  type Row = seq<string>

  /** The text files the parsers read: each existing path with its lines. */
  type TextFiles = map<Path, seq<string>>

  // ---------------------------------------------------------------------------
  // Looking up a nucleus

  /** `get_volume`: the value stored under `name` in the first dictionary that
      has it, or `None`. */
  function GetVolume<V>(name: string, nuclei: seq<map<string, V>>): (r: Option<V>)
    ensures r.None? <==> forall i | 0 <= i < |nuclei| :: name !in nuclei[i]
    ensures r.Some? ==> exists i | 0 <= i < |nuclei| ::
      name in nuclei[i] && nuclei[i][name] == r.value && forall j | 0 <= j < i :: name !in nuclei[j]
  {
    if nuclei == [] then None
    else if name in nuclei[0] then Some(nuclei[0][name])
    else
      var r := GetVolume(name, nuclei[1..]);
      assert forall i | 1 <= i < |nuclei| :: nuclei[i] == nuclei[1..][i - 1];
      r
  }

  /** The first dictionary holding `name` decides the result. */
  lemma GetVolumeAt<V>(name: string, nuclei: seq<map<string, V>>, k: nat)
    requires k < |nuclei| && name in nuclei[k]
    requires forall j | 0 <= j < k :: name !in nuclei[j]
    ensures GetVolume(name, nuclei) == Some(nuclei[k][name])
  {
    var r := GetVolume(name, nuclei);
    var i :| 0 <= i < |nuclei| && name in nuclei[i] && nuclei[i][name] == r.value
      && forall j | 0 <= j < i :: name !in nuclei[j];
    assert i == k;
  }

  /** Looking a name up in dictionaries built row by row: the first row whose
      dictionary holds the name decides. */
  lemma GetVolumeFirstRow<T, V>(name: string, xs: seq<T>, f: T -> Option<map<string, V>>, j: nat)
    requires j < |xs| && f(xs[j]).Some? && name in f(xs[j]).value
    requires forall i | 0 <= i < j :: f(xs[i]).None? || name !in f(xs[i]).value
    ensures GetVolume(name, FilterMap(xs, f)) == Some(f(xs[j]).value[name])
  {
    var before := FilterMap(xs[..j], f);
    assert xs == xs[..j] + ([xs[j]] + xs[j + 1..]);
    FilterMapAppend(xs[..j], [xs[j]] + xs[j + 1..], f);
    FilterMapAppend([xs[j]], xs[j + 1..], f);
    assert FilterMap([xs[j]], f) == [f(xs[j]).value] by {
      assert [xs[j]][..0] == [];
    }
    FilterMapMembers(xs[..j], f);
    forall i | 0 <= i < |before| ensures name !in before[i] {
      assert before[i] in before;
    }
    GetVolumeAt(name, FilterMap(xs, f), |before|);
  }

  /** No row's dictionary holds the name: the lookup finds nothing. */
  lemma GetVolumeNoRow<T, V>(name: string, xs: seq<T>, f: T -> Option<map<string, V>>)
    requires forall i | 0 <= i < |xs| :: f(xs[i]).None? || name !in f(xs[i]).value
    ensures GetVolume(name, FilterMap(xs, f)).None?
  {
    FilterMapMembers(xs, f);
    var ds := FilterMap(xs, f);
    forall i | 0 <= i < |ds| ensures name !in ds[i] {
      assert ds[i] in ds;
    }
  }

  // ---------------------------------------------------------------------------
  // Reading a stats file

  /** One line as `read_volume_file` keeps it: `None` for a blank line,
      otherwise the tokens of the stripped line. */
  function LineTokens(line: string): (r: Option<Row>)
    ensures r.None? <==> IsBlank(line)
    ensures r.Some? ==> r.value == Split(line) && r.value != []
  {
    StripEmptyIffBlank(line);
    SplitEmptyIffBlank(line);
    SplitStrip(line);
    var s := Strip(line);
    if s == [] then None else Some(Split(s))
  }

  /** The rows of a file's lines: the tokens of each non-blank line, in order. */
  function TokenRows(lines: seq<string>): seq<Row> {
    FilterMap(lines, LineTokens)
  }

  /** No row of `read_volume_file` is empty. */
  lemma TokenRowsNonEmpty(lines: seq<string>)
    ensures forall i | 0 <= i < |TokenRows(lines)| :: TokenRows(lines)[i] != []
  {
    FilterMapMembers(lines, LineTokens);
    forall i | 0 <= i < |TokenRows(lines)|
      ensures TokenRows(lines)[i] != []
    {
      assert TokenRows(lines)[i] in TokenRows(lines);
    }
  }

  /** `read_volume_file`: FileNotFoundError for a missing path, otherwise the
      non-blank rows. */
  function ReadVolumeFile(files: TextFiles, p: Path): (r: Result<seq<Row>, Error>)
    ensures r.Failure? <==> p !in files
    ensures r.Failure? ==> r.error == FileNotFound(p)
    ensures r.Success? ==> r.value == TokenRows(files[p])
    ensures r.Success? ==> forall i | 0 <= i < |r.value| :: r.value[i] != []
  {
    if p !in files then Failure(FileNotFound(p))
    else
      TokenRowsNonEmpty(files[p]);
      Success(TokenRows(files[p]))
  }

  /** `read_volume_file_skip`: the same rows with the first `skip` dropped. */
  function ReadVolumeFileSkip(files: TextFiles, p: Path, skip: nat): (r: Result<seq<Row>, Error>)
    ensures r.Failure? <==> p !in files
    ensures r.Success? ==> r.value == Drop(TokenRows(files[p]), skip)
  {
    var rows :- ReadVolumeFile(files, p);
    Success(Drop(rows, skip))
  }

  // ---------------------------------------------------------------------------
  // Paired left/right files

  /** One `zip`ped pair of `process_paired_volumes`: the structure and left
      volume from the left row, the right volume from the right row; a pair with
      a missing token or a non-numeric volume is skipped. */
  function PairedEntry(rows: (Row, Row)): Option<Record> {
    var (left, right) := rows;
    if |left| < 2 || |right| < 2 then None
    else
      var lhs, rhs := ParseNum(left[1]), ParseNum(right[1]);
      if lhs.Some? && rhs.Some? then Some(PairRecord(left[0], Num(Round2(lhs.value)), Num(Round2(rhs.value))))
      else None
  }

  function PairedVolumes(left: seq<Row>, right: seq<Row>): seq<Record> {
    FilterMap(Zip(left, right), PairedEntry)
  }

  /** `process_paired_volumes`. */
  method ProcessPairedVolumes(files: TextFiles, leftFile: Path, rightFile: Path)
    returns (r: Result<seq<Record>, Error>)
    ensures leftFile !in files ==> r == Failure(FileNotFound(leftFile))
    ensures leftFile in files && rightFile !in files ==> r == Failure(FileNotFound(rightFile))
    ensures leftFile in files && rightFile in files ==>
      r == Success(PairedVolumes(TokenRows(files[leftFile]), TokenRows(files[rightFile])))
  {
    var left :- ReadVolumeFile(files, leftFile);
    var right :- ReadVolumeFile(files, rightFile);
    var volumes := PairRows(left, right);
    return Success(volumes);
  }

  /** The loop of `process_paired_volumes` over the zipped rows. */
  method PairRows(left: seq<Row>, right: seq<Row>) returns (volumes: seq<Record>)
    ensures volumes == PairedVolumes(left, right)
  {
    var n := if |left| < |right| then |left| else |right|;
    ghost var pairs := Zip(left, right);
    volumes := [];
    var i := 0;
    while i < n
      invariant 0 <= i <= n
      invariant volumes == FilterMap(pairs[..i], PairedEntry)
    {
      FilterMapStep(pairs, i, PairedEntry);
      var leftRow, rightRow := left[i], right[i];
      if |leftRow| >= 2 && |rightRow| >= 2 {
        var lhs := ParseNum(leftRow[1]);
        var rhs := ParseNum(rightRow[1]);
        if lhs.Some? && rhs.Some? {
          volumes := volumes + [PairRecord(leftRow[0], Num(Round2(lhs.value)), Num(Round2(rhs.value)))];
        }
      }
      i := i + 1;
    }
    assert pairs[..n] == pairs;
  }

  /** At most one record per pair, and a malformed pair is skipped without
      disturbing the pairs before or after it. */
  lemma PairedVolumesSkip(left: seq<Row>, right: seq<Row>, i: nat)
    requires i < |left| && i < |right|
    requires PairedEntry((left[i], right[i])).None?
    ensures |PairedVolumes(left, right)| <= if |left| < |right| then |left| else |right|
    ensures PairedVolumes(left, right)
      == PairedVolumes(left[..i], right[..i]) + PairedVolumes(left[i + 1..], right[i + 1..])
  {
    ZipSplit(left, right, i);
    FilterMapSkip(Zip(left[..i], right[..i]), (left[i], right[i]), Zip(left[i + 1..], right[i + 1..]), PairedEntry);
  }

  /** When every pair is well formed, record `i` holds left row `i`'s name and
      rounded volume and right row `i`'s rounded volume. */
  lemma PairedVolumesWellFormed(left: seq<Row>, right: seq<Row>)
    requires forall i | 0 <= i < |left| && i < |right| ::
      |left[i]| >= 2 && |right[i]| >= 2 && ParseNum(left[i][1]).Some? && ParseNum(right[i][1]).Some?
    ensures |PairedVolumes(left, right)| == if |left| < |right| then |left| else |right|
    ensures forall i | 0 <= i < |PairedVolumes(left, right)| ::
      PairedVolumes(left, right)[i] == PairRecord(left[i][0],
        Num(Round2(ParseNum(left[i][1]).value)), Num(Round2(ParseNum(right[i][1]).value)))
  {
    FilterMapNoneSkipped(Zip(left, right), PairedEntry);
  }

  const LH_HIPPOCAMPUS_FILE := "lh.hippoSfVolumes.txt"
  const RH_HIPPOCAMPUS_FILE := "rh.hippoSfVolumes.txt"
  const LH_AMYGDALA_FILE := "lh.amygNucVolumes.txt"
  const RH_AMYGDALA_FILE := "rh.amygNucVolumes.txt"

  /** `process_hippocampus`: the paired volumes of the two hemisphere files. */
  method ProcessHippocampus(files: TextFiles, mri: Path) returns (r: Result<seq<Record>, Error>)
    ensures r.Failure? <==> mri + [LH_HIPPOCAMPUS_FILE] !in files || mri + [RH_HIPPOCAMPUS_FILE] !in files
    ensures r.Success? ==>
      r.value == PairedVolumes(TokenRows(files[mri + [LH_HIPPOCAMPUS_FILE]]), TokenRows(files[mri + [RH_HIPPOCAMPUS_FILE]]))
  {
    r := ProcessPairedVolumes(files, mri + [LH_HIPPOCAMPUS_FILE], mri + [RH_HIPPOCAMPUS_FILE]);
  }

  /** `process_amygdala`: the paired volumes of the two hemisphere files. */
  method ProcessAmygdala(files: TextFiles, mri: Path) returns (r: Result<seq<Record>, Error>)
    ensures r.Failure? <==> mri + [LH_AMYGDALA_FILE] !in files || mri + [RH_AMYGDALA_FILE] !in files
    ensures r.Success? ==>
      r.value == PairedVolumes(TokenRows(files[mri + [LH_AMYGDALA_FILE]]), TokenRows(files[mri + [RH_AMYGDALA_FILE]]))
  {
    r := ProcessPairedVolumes(files, mri + [LH_AMYGDALA_FILE], mri + [RH_AMYGDALA_FILE]);
  }

  // ---------------------------------------------------------------------------
  // Brain stem

  /** A brain-stem row: name and rounded volume, skipped when short or non-numeric. */
  function BrainStemEntry(row: Row): Option<Record> {
    if |row| < 2 then None
    else
      match ParseNum(row[1])
      case Some(v) => Some(VolumeRecord(row[0], Round2(v)))
      case None => None
  }

  const BRAIN_STEM_FILE := "brainstemSsLabels.volumes.txt"

  /** `process_brain_stem`. */
  method ProcessBrainStem(files: TextFiles, mri: Path) returns (r: Result<seq<Record>, Error>)
    ensures r.Failure? <==> mri + [BRAIN_STEM_FILE] !in files
    ensures r.Success? ==> r.value == FilterMap(TokenRows(files[mri + [BRAIN_STEM_FILE]]), BrainStemEntry)
  {
    var data :- ReadVolumeFile(files, mri + [BRAIN_STEM_FILE]);
    var volumes: seq<Record> := [];
    var i := 0;
    while i < |data|
      invariant 0 <= i <= |data|
      invariant volumes == FilterMap(data[..i], BrainStemEntry)
    {
      FilterMapStep(data, i, BrainStemEntry);
      var row := data[i];
      if |row| >= 2 {
        var v := ParseNum(row[1]);
        if v.Some? {
          volumes := volumes + [VolumeRecord(row[0], Round2(v.value))];
        }
      }
      i := i + 1;
    }
    assert data[..|data|] == data;
    return Success(volumes);
  }

  // ---------------------------------------------------------------------------
  // Left/right pairing by name (thalamus, hypothalamus v1, white matter)

  /** The comprehension that closes `process_thalamus`, `process_hypothalamus_v1`
      and the white-matter part of `get_cortical`: one record per name, its left
      and right volumes looked up by name, `null` where absent. */
  function PairRecords(names: seq<string>, lhs: seq<map<string, Value>>, rhs: seq<map<string, Value>>)
    : (r: seq<Record>)
    ensures |r| == |names|
    ensures forall i | 0 <= i < |r| :: r[i].Keys == {STRUCTURE, LHS_VOLUME, RHS_VOLUME}
    ensures forall i | 0 <= i < |r| :: r[i][STRUCTURE] == Str(names[i])
    ensures forall i | 0 <= i < |r| :: r[i][LHS_VOLUME] == OrNull(GetVolume(names[i], lhs))
    ensures forall i | 0 <= i < |r| :: r[i][RHS_VOLUME] == OrNull(GetVolume(names[i], rhs))
  {
    var r := seq(|names|, i requires 0 <= i < |names| =>
      PairRecord(names[i], OrNull(GetVolume(names[i], lhs)), OrNull(GetVolume(names[i], rhs))));
    assert forall i | 0 <= i < |r| :: r[i] == PairRecord(names[i], OrNull(GetVolume(names[i], lhs)), OrNull(GetVolume(names[i], rhs)));
    r
  }

  /** A thalamus row counted as left: its first token contains "Left" and its
      volume parses. */
  predicate IsLeftNucleus(row: Row) {
    |row| >= 2 && Contains(row[0], "Left") && ParseNum(row[1]).Some?
  }

  function LeftName(row: Row): Option<string> {
    if IsLeftNucleus(row) then Some(Replace(row[0], "Left-", "")) else None
  }

  function LeftNucleus(row: Row): Option<map<string, Value>> {
    if IsLeftNucleus(row) then Some(map[Replace(row[0], "Left-", "") := Num(Round2(ParseNum(row[1]).value))])
    else None
  }

  /** A thalamus row counted as right: not a left row, its first token contains
      "Right" and its volume parses. */
  function RightNucleus(row: Row): Option<map<string, Value>> {
    if |row| < 2 || Contains(row[0], "Left") || !Contains(row[0], "Right") then None
    else
      match ParseNum(row[1])
      case Some(v) => Some(map[Replace(row[0], "Right-", "") := Num(Round2(v))])
      case None => None
  }

  /** The name a right row files its volume under. */
  function RightName(row: Row): Option<string> {
    if RightNucleus(row).Some? then Some(Replace(row[0], "Right-", "")) else None
  }

  function ThalamusVolumes(rows: seq<Row>): seq<Record> {
    PairRecords(FilterMap(rows, LeftName), FilterMap(rows, LeftNucleus), FilterMap(rows, RightNucleus))
  }

  const THALAMUS_FILE := "ThalamicNuclei.volumes.txt"

  /** `process_thalamus`. */
  method ProcessThalamus(files: TextFiles, mri: Path) returns (r: Result<seq<Record>, Error>)
    ensures r.Failure? <==> mri + [THALAMUS_FILE] !in files
    ensures r.Success? ==> r.value == ThalamusVolumes(TokenRows(files[mri + [THALAMUS_FILE]]))
  {
    var data :- ReadVolumeFile(files, mri + [THALAMUS_FILE]);
    var lhsNuclei: seq<map<string, Value>> := [];
    var rhsNuclei: seq<map<string, Value>> := [];
    var names: seq<string> := [];
    var i := 0;
    while i < |data|
      invariant 0 <= i <= |data|
      invariant lhsNuclei == FilterMap(data[..i], LeftNucleus)
      invariant rhsNuclei == FilterMap(data[..i], RightNucleus)
      invariant names == FilterMap(data[..i], LeftName)
    {
      FilterMapStep(data, i, LeftNucleus);
      FilterMapStep(data, i, RightNucleus);
      FilterMapStep(data, i, LeftName);
      var name, lhs, rhs := ThalamusRow(data[i]);
      if lhs.Some? {
        lhsNuclei := lhsNuclei + [lhs.value];
        names := names + [name.value];
      }
      if rhs.Some? {
        rhsNuclei := rhsNuclei + [rhs.value];
      }
      i := i + 1;
    }
    assert data[..|data|] == data;
    return Success(PairRecords(names, lhsNuclei, rhsNuclei));
  }

  /** One row of `process_thalamus`'s loop: a left nucleus with its name, a
      right nucleus, or nothing. */
  method ThalamusRow(row: Row) returns (name: Option<string>, lhs: Option<map<string, Value>>, rhs: Option<map<string, Value>>)
    ensures name == LeftName(row) && lhs == LeftNucleus(row) && rhs == RightNucleus(row)
    ensures lhs.Some? <==> name.Some?
  {
    name, lhs, rhs := None, None, None;
    if |row| >= 1 {
      if Contains(row[0], "Left") {
        var n := Replace(row[0], "Left-", "");
        if |row| >= 2 {
          var v := ParseNum(row[1]);
          if v.Some? {
            lhs := Some(map[n := Num(Round2(v.value))]);
            name := Some(n);
          }
        }
      } else if Contains(row[0], "Right") {
        var n := Replace(row[0], "Right-", "");
        if |row| >= 2 {
          var v := ParseNum(row[1]);
          if v.Some? {
            rhs := Some(map[n := Num(Round2(v.value))]);
          }
        }
      }
    }
  }

  /** The left names and the left nuclei line up: entry `k` of each comes from
      the same row, and that nucleus holds exactly that name. */
  lemma {:induction false} LeftNucleiAligned(rows: seq<Row>)
    ensures |FilterMap(rows, LeftName)| == |FilterMap(rows, LeftNucleus)|
    ensures forall k | 0 <= k < |FilterMap(rows, LeftName)| ::
      FilterMap(rows, LeftNucleus)[k].Keys == {FilterMap(rows, LeftName)[k]}
    decreases |rows|
  {
    if rows != [] {
      LeftNucleiAligned(rows[..|rows| - 1]);
    }
  }

  /** Each thalamus record whose name no earlier left row shares carries the
      volume of its own left row. */
  lemma ThalamusOwnLeftVolume(rows: seq<Row>, k: nat)
    requires k < |FilterMap(rows, LeftName)|
    requires forall j | 0 <= j < k :: FilterMap(rows, LeftName)[j] != FilterMap(rows, LeftName)[k]
    ensures |ThalamusVolumes(rows)| == |FilterMap(rows, LeftName)| == |FilterMap(rows, LeftNucleus)|
    ensures FilterMap(rows, LeftName)[k] in FilterMap(rows, LeftNucleus)[k]
    ensures ThalamusVolumes(rows)[k][LHS_VOLUME]
      == FilterMap(rows, LeftNucleus)[k][FilterMap(rows, LeftName)[k]]
  {
    var names, lhs := FilterMap(rows, LeftName), FilterMap(rows, LeftNucleus);
    LeftNucleiAligned(rows);
    GetVolumeAt(names[k], lhs, k);
  }

  /** The left volume of every thalamus record, a repeated name included, is
      the rounded volume of the first left row with that name. */
  lemma ThalamusLeftVolume(rows: seq<Row>, k: nat, j: nat)
    requires k < |FilterMap(rows, LeftName)|
    requires j < |rows| && LeftName(rows[j]) == Some(FilterMap(rows, LeftName)[k])
    requires forall i | 0 <= i < j :: LeftName(rows[i]) != LeftName(rows[j])
    ensures k < |ThalamusVolumes(rows)|
    ensures ThalamusVolumes(rows)[k][LHS_VOLUME] == Num(Round2(ParseNum(rows[j][1]).value))
  {
    var name := FilterMap(rows, LeftName)[k];
    GetVolumeFirstRow(name, rows, LeftNucleus, j);
  }

  /** The right volume of a thalamus record is the rounded volume of the first
      right row whose name, once "Right-" is removed, is the record's name. */
  lemma ThalamusRightVolume(rows: seq<Row>, k: nat, j: nat)
    requires k < |FilterMap(rows, LeftName)|
    requires j < |rows| && RightName(rows[j]) == Some(FilterMap(rows, LeftName)[k])
    requires forall i | 0 <= i < j :: RightName(rows[i]) != RightName(rows[j])
    ensures k < |ThalamusVolumes(rows)|
    ensures ThalamusVolumes(rows)[k][RHS_VOLUME] == Num(Round2(ParseNum(rows[j][1]).value))
  {
    var name := FilterMap(rows, LeftName)[k];
    GetVolumeFirstRow(name, rows, RightNucleus, j);
  }

  /** A thalamus record with no right row of its name has a `null` right volume. */
  lemma ThalamusRightMissing(rows: seq<Row>, k: nat)
    requires k < |FilterMap(rows, LeftName)|
    requires forall i | 0 <= i < |rows| :: RightName(rows[i]) != Some(FilterMap(rows, LeftName)[k])
    ensures k < |ThalamusVolumes(rows)|
    ensures ThalamusVolumes(rows)[k][RHS_VOLUME] == Null
  {
    GetVolumeNoRow(FilterMap(rows, LeftName)[k], rows, RightNucleus);
  }

  // ---------------------------------------------------------------------------
  // Hypothalamus from the FreeSurfer CSV (the record dictionary onward)

  /** The first data row of the CSV as the ordered dictionary pandas returns. */
  type CsvRecord = seq<(string, Value)>

  /** `d.get(k)`. */
  function Lookup(d: CsvRecord, k: string): Option<Value> {
    if d == [] then None
    else if d[0].0 == k then Some(d[0].1)
    else Lookup(d[1..], k)
  }

  /** `d` without key `k`. */
  function Remove(d: CsvRecord, k: string): (r: CsvRecord)
    ensures Lookup(r, k).None?
  {
    if d == [] then []
    else if d[0].0 == k then Remove(d[1..], k)
    else [d[0]] + Remove(d[1..], k)
  }

  /** `d[k] = v`: an existing key keeps its place, a new key goes last. */
  function Put(d: CsvRecord, k: string, v: Value): (r: CsvRecord)
    ensures Lookup(r, k) == Some(v)
  {
    if d == [] then [(k, v)]
    else if d[0].0 == k then [(k, v)] + d[1..]
    else [d[0]] + Put(d[1..], k, v)
  }

  /** `d.pop(k)`: KeyError when `k` is absent. */
  function Pop(d: CsvRecord, k: string): (r: Result<(Value, CsvRecord), Error>)
    ensures r.Failure? <==> Lookup(d, k).None?
    ensures r.Failure? ==> r.error == KeyError(k)
    ensures r.Success? ==> Some(r.value.0) == Lookup(d, k) && Lookup(r.value.1, k).None?
  {
    match Lookup(d, k)
    case None => Failure(KeyError(k))
    case Some(v) => Success((v, Remove(d, k)))
  }

  lemma {:induction false} LookupRemoveOther(d: CsvRecord, k: string, other: string)
    requires k != other
    ensures Lookup(Remove(d, k), other) == Lookup(d, other)
    decreases |d|
  {
    if d != [] {
      LookupRemoveOther(d[1..], k, other);
    }
  }

  lemma {:induction false} LookupPutOther(d: CsvRecord, k: string, v: Value, other: string)
    requires k != other
    ensures Lookup(Put(d, k, v), other) == Lookup(d, other)
    decreases |d|
  {
    if d != [] && d[0].0 != k {
      LookupPutOther(d[1..], k, v, other);
    }
  }

  /** The dictionary after `pop("subject", None)` and the renaming of "whole
      left"/"whole right" to "left whole"/"right whole". */
  function RenamedHypothalamus(d: CsvRecord): Result<CsvRecord, Error> {
    var d1 := Remove(d, "subject");
    var left :- Pop(d1, "whole left");
    var d2 := Put(left.1, "left whole", left.0);
    var right :- Pop(d2, "whole right");
    Success(Put(right.1, "right whole", right.0))
  }

  /** The renaming fails exactly when either whole-structure column is missing,
      and otherwise moves both values to their new keys and drops "subject". */
  lemma RenamedHypothalamusSpec(d: CsvRecord)
    ensures RenamedHypothalamus(d).Failure?
      <==> Lookup(d, "whole left").None? || Lookup(d, "whole right").None?
    ensures RenamedHypothalamus(d).Success? ==>
      var r := RenamedHypothalamus(d).value;
      && Lookup(r, "left whole") == Lookup(d, "whole left")
      && Lookup(r, "right whole") == Lookup(d, "whole right")
      && Lookup(r, "subject").None?
      && Lookup(r, "whole left").None?
      && Lookup(r, "whole right").None?
  {
    var d1 := Remove(d, "subject");
    LookupRemoveOther(d, "subject", "whole left");
    LookupRemoveOther(d, "subject", "whole right");
    if Lookup(d1, "whole left").Some? {
      var left := Pop(d1, "whole left").value;
      LookupRemoveOther(d1, "whole left", "whole right");
      LookupRemoveOther(d1, "whole left", "subject");
      var d2 := Put(left.1, "left whole", left.0);
      LookupPutOther(left.1, "left whole", left.0, "whole right");
      LookupPutOther(left.1, "left whole", left.0, "whole left");
      LookupPutOther(left.1, "left whole", left.0, "subject");
      if Lookup(d2, "whole right").Some? {
        var right := Pop(d2, "whole right").value;
        LookupRemoveOther(d2, "whole right", "left whole");
        LookupRemoveOther(d2, "whole right", "whole left");
        LookupRemoveOther(d2, "whole right", "subject");
        LookupPutOther(right.1, "right whole", right.0, "left whole");
        LookupPutOther(right.1, "right whole", right.0, "whole left");
        LookupPutOther(right.1, "right whole", right.0, "whole right");
        LookupPutOther(right.1, "right whole", right.0, "subject");
      }
    }
  }

  function LeftKeyName(item: (string, Value)): Option<string> {
    if Contains(item.0, "left") then Some(Replace(item.0, "left ", "")) else None
  }

  function LeftKeyItem(item: (string, Value)): Option<map<string, Value>> {
    if Contains(item.0, "left") then Some(map[Replace(item.0, "left ", "") := item.1]) else None
  }

  function RightKeyItem(item: (string, Value)): Option<map<string, Value>> {
    if Contains(item.0, "right") then Some(map[Replace(item.0, "right ", "") := item.1]) else None
  }

  function RightKeyName(item: (string, Value)): Option<string> {
    if Contains(item.0, "right") then Some(Replace(item.0, "right ", "")) else None
  }

  /** `process_hypothalamus_v1` from the record dictionary onward: KeyError
      when a whole-structure column is missing; otherwise one record per
      renamed column whose key contains "left", in column order, named by
      the key without "left ". */
  function HypothalamusV1(d: CsvRecord): (r: Result<seq<Record>, Error>)
    ensures r.Failure? <==> RenamedHypothalamus(d).Failure?
    ensures r.Success? ==> |r.value| == |FilterMap(RenamedHypothalamus(d).value, LeftKeyName)|
    ensures r.Success? ==> forall i | 0 <= i < |r.value| ::
      r.value[i].Keys == {STRUCTURE, LHS_VOLUME, RHS_VOLUME}
      && r.value[i][STRUCTURE] == Str(FilterMap(RenamedHypothalamus(d).value, LeftKeyName)[i])
  {
    var r :- RenamedHypothalamus(d);
    Success(PairRecords(FilterMap(r, LeftKeyName), FilterMap(r, LeftKeyItem), FilterMap(r, RightKeyItem)))
  }

  /** Records named after the "left" columns, one per column in order: every
      such column names a record, and every record is named by such a column. */
  lemma NamedByLeftColumns(c: CsvRecord, r: seq<Record>)
    requires |r| == |FilterMap(c, LeftKeyName)|
    requires forall i | 0 <= i < |r| :: STRUCTURE in r[i] && r[i][STRUCTURE] == Str(FilterMap(c, LeftKeyName)[i])
    ensures forall j | 0 <= j < |c| && Contains(c[j].0, "left") ::
      exists i | 0 <= i < |r| :: r[i][STRUCTURE] == Str(Replace(c[j].0, "left ", ""))
    ensures forall i | 0 <= i < |r| :: exists j | 0 <= j < |c| ::
      Contains(c[j].0, "left") && r[i][STRUCTURE] == Str(Replace(c[j].0, "left ", ""))
  {
    var names := FilterMap(c, LeftKeyName);
    FilterMapMembers(c, LeftKeyName);
    forall j | 0 <= j < |c| && Contains(c[j].0, "left")
      ensures exists i | 0 <= i < |r| :: r[i][STRUCTURE] == Str(Replace(c[j].0, "left ", ""))
    {
      assert LeftKeyName(c[j]).value in names;
      var i :| 0 <= i < |names| && names[i] == LeftKeyName(c[j]).value;
      assert 0 <= i < |r| && r[i][STRUCTURE] == Str(Replace(c[j].0, "left ", ""));
    }
    forall i | 0 <= i < |r|
      ensures exists j | 0 <= j < |c| :: Contains(c[j].0, "left") && r[i][STRUCTURE] == Str(Replace(c[j].0, "left ", ""))
    {
      assert names[i] in names;
      var j :| 0 <= j < |c| && LeftKeyName(c[j]) == Some(names[i]);
      assert Contains(c[j].0, "left") && r[i][STRUCTURE] == Str(Replace(c[j].0, "left ", ""));
    }
  }

  /** Every renamed column whose key contains "left" gives a record named by
      its key without "left ", and every record comes from such a column. */
  lemma HypothalamusV1Names(d: CsvRecord, c: CsvRecord, r: seq<Record>)
    requires HypothalamusV1(d) == Success(r) && RenamedHypothalamus(d) == Success(c)
    ensures forall j | 0 <= j < |c| && Contains(c[j].0, "left") ::
      exists i | 0 <= i < |r| :: r[i][STRUCTURE] == Str(Replace(c[j].0, "left ", ""))
    ensures forall i | 0 <= i < |r| :: exists j | 0 <= j < |c| ::
      Contains(c[j].0, "left") && r[i][STRUCTURE] == Str(Replace(c[j].0, "left ", ""))
  {
    NamedByLeftColumns(c, r);
  }

  /** The left volume of a record, a repeated name included, is the value of
      the first renamed column that carries that name on the left. */
  lemma HypothalamusV1Left(d: CsvRecord, k: nat, j: nat)
    requires HypothalamusV1(d).Success? && k < |HypothalamusV1(d).value|
    requires var c := RenamedHypothalamus(d).value;
      && j < |c| && LeftKeyName(c[j]) == Some(FilterMap(c, LeftKeyName)[k])
      && forall i | 0 <= i < j :: LeftKeyName(c[i]) != LeftKeyName(c[j])
    ensures HypothalamusV1(d).value[k][LHS_VOLUME] == RenamedHypothalamus(d).value[j].1
  {
    var c := RenamedHypothalamus(d).value;
    GetVolumeFirstRow(FilterMap(c, LeftKeyName)[k], c, LeftKeyItem, j);
  }

  /** The right volume of a record is the value of the first renamed column
      whose key contains "right" and, without "right ", is the record's name. */
  lemma HypothalamusV1Right(d: CsvRecord, k: nat, j: nat)
    requires HypothalamusV1(d).Success? && k < |HypothalamusV1(d).value|
    requires var c := RenamedHypothalamus(d).value;
      && j < |c| && RightKeyName(c[j]) == Some(FilterMap(c, LeftKeyName)[k])
      && forall i | 0 <= i < j :: RightKeyName(c[i]) != RightKeyName(c[j])
    ensures HypothalamusV1(d).value[k][RHS_VOLUME] == RenamedHypothalamus(d).value[j].1
  {
    var c := RenamedHypothalamus(d).value;
    GetVolumeFirstRow(FilterMap(c, LeftKeyName)[k], c, RightKeyItem, j);
  }

  /** A record with no right column of its name has a `null` right volume. */
  lemma HypothalamusV1RightMissing(d: CsvRecord, k: nat)
    requires HypothalamusV1(d).Success? && k < |HypothalamusV1(d).value|
    requires var c := RenamedHypothalamus(d).value;
      forall i | 0 <= i < |c| :: RightKeyName(c[i]) != Some(FilterMap(c, LeftKeyName)[k])
    ensures HypothalamusV1(d).value[k][RHS_VOLUME] == Null
  {
    var c := RenamedHypothalamus(d).value;
    GetVolumeNoRow(FilterMap(c, LeftKeyName)[k], c, RightKeyItem);
  }

  const HYPOTHALAMUS_CSV := "hypothalamic_subunits_volumes.v1.csv"

  /** The first record `pandas.read_csv` yields for each CSV file that exists
      and parses. */
  type CsvFiles = map<Path, CsvRecord>

  /** `process_hypothalamus_v1`: FileNotFoundError when the CSV is absent. */
  function ProcessHypothalamusV1(csvs: CsvFiles, mri: Path): (r: Result<seq<Record>, Error>)
    ensures mri + [HYPOTHALAMUS_CSV] !in csvs ==> r == Failure(FileNotFound(mri + [HYPOTHALAMUS_CSV]))
    ensures mri + [HYPOTHALAMUS_CSV] in csvs ==> r == HypothalamusV1(csvs[mri + [HYPOTHALAMUS_CSV]])
  {
    var path := mri + [HYPOTHALAMUS_CSV];
    if path !in csvs then Failure(FileNotFound(path)) else HypothalamusV1(csvs[path])
  }

  /** The FreeSurfer text files `get_subcortical` reads are all there. */
  predicate SubcorticalFilesPresent(files: TextFiles, mri: Path) {
    && mri + [LH_HIPPOCAMPUS_FILE] in files && mri + [RH_HIPPOCAMPUS_FILE] in files
    && mri + [THALAMUS_FILE] in files
    && mri + [LH_AMYGDALA_FILE] in files && mri + [RH_AMYGDALA_FILE] in files
    && mri + [BRAIN_STEM_FILE] in files
  }

  /** The four text-file lists of `get_subcortical`: hippocampus, thalamus,
      amygdala and brain stem, read in that order. */
  method SubcorticalLists(files: TextFiles, mri: Path)
    returns (r: Result<(seq<Record>, seq<Record>, seq<Record>, seq<Record>), Error>)
    ensures r.Success? <==> SubcorticalFilesPresent(files, mri)
    ensures r.Success? ==>
      && r.value.0
        == PairedVolumes(TokenRows(files[mri + [LH_HIPPOCAMPUS_FILE]]), TokenRows(files[mri + [RH_HIPPOCAMPUS_FILE]]))
      && r.value.1 == ThalamusVolumes(TokenRows(files[mri + [THALAMUS_FILE]]))
      && r.value.2
        == PairedVolumes(TokenRows(files[mri + [LH_AMYGDALA_FILE]]), TokenRows(files[mri + [RH_AMYGDALA_FILE]]))
      && r.value.3 == FilterMap(TokenRows(files[mri + [BRAIN_STEM_FILE]]), BrainStemEntry)
  {
    var hippocampus :- ProcessHippocampus(files, mri);
    var thalamus :- ProcessThalamus(files, mri);
    var amygdala :- ProcessAmygdala(files, mri);
    var brainStem :- ProcessBrainStem(files, mri);
    return Success((hippocampus, thalamus, amygdala, brainStem));
  }

  /** `get_subcortical`: the five FreeSurfer subcortical lists, or the first
      exception in the order the dictionary is built. */
  method GetSubcortical(files: TextFiles, csvs: CsvFiles, mri: Path) returns (r: Result<Report, Error>)
    ensures r.Success? <==> SubcorticalFilesPresent(files, mri) && ProcessHypothalamusV1(csvs, mri).Success?
    ensures r.Success? ==> r.value.Keys == {"hippocampus", "thalamus", "amygdala", "brain_stem", "hypothalamus"}
    ensures r.Success? ==>
      && r.value["hippocampus"]
        == PairedVolumes(TokenRows(files[mri + [LH_HIPPOCAMPUS_FILE]]), TokenRows(files[mri + [RH_HIPPOCAMPUS_FILE]]))
      && r.value["thalamus"] == ThalamusVolumes(TokenRows(files[mri + [THALAMUS_FILE]]))
      && r.value["amygdala"]
        == PairedVolumes(TokenRows(files[mri + [LH_AMYGDALA_FILE]]), TokenRows(files[mri + [RH_AMYGDALA_FILE]]))
      && r.value["brain_stem"] == FilterMap(TokenRows(files[mri + [BRAIN_STEM_FILE]]), BrainStemEntry)
      && r.value["hypothalamus"] == ProcessHypothalamusV1(csvs, mri).value
  {
    var lists :- SubcorticalLists(files, mri);
    var hypothalamus :- ProcessHypothalamusV1(csvs, mri);
    return Success(SubcorticalReport(lists.0, lists.1, lists.2, lists.3, hypothalamus));
  }

  /** The dictionary `get_subcortical` returns, from its five lists. */
  function SubcorticalReport(hippocampus: seq<Record>, thalamus: seq<Record>, amygdala: seq<Record>,
                             brainStem: seq<Record>, hypothalamus: seq<Record>): (m: Report)
    ensures m.Keys == {"hippocampus", "thalamus", "amygdala", "brain_stem", "hypothalamus"}
    ensures m["hippocampus"] == hippocampus && m["thalamus"] == thalamus && m["amygdala"] == amygdala
    ensures m["brain_stem"] == brainStem && m["hypothalamus"] == hypothalamus
  {
    map[
      "hippocampus" := hippocampus,
      "thalamus" := thalamus,
      "amygdala" := amygdala,
      "brain_stem" := brainStem,
      "hypothalamus" := hypothalamus]
  }

  // ---------------------------------------------------------------------------
  // FastSurfer stats files (hypothalamus, cerebellum)

  const FASTSURFER_HEADER: nat := 55

  /** "L-x" becomes "Leftx" and "R-x" becomes "Rightx" (the hyphen is dropped
      with the prefix); other names are kept. */
  function HypothalamusName(name: string): (r: string)
    ensures StartsWith(name, "L-") ==> StartsWith(r, "Left") && r[4..] == name[2..]
    ensures !StartsWith(name, "L-") && StartsWith(name, "R-") ==> StartsWith(r, "Right") && r[5..] == name[2..]
    ensures !StartsWith(name, "L-") && !StartsWith(name, "R-") ==> r == name
  {
    if StartsWith(name, "L-") then "Left" + name[2..]
    else if StartsWith(name, "R-") then "Right" + name[2..]
    else name
  }

  /** A FastSurfer row: kept when it has at least five tokens and its fourth
      parses; the volume is token 4, the name token 5. */
  predicate IsVolumeRow(row: Row) {
    |row| >= 5 && ParseNum(row[3]).Some?
  }

  function HypothalamusEntry(row: Row): Option<Record> {
    if IsVolumeRow(row) then Some(VolumeRecord(HypothalamusName(row[4]), Round2(ParseNum(row[3]).value)))
    else None
  }

  function CerebellumEntry(row: Row): Option<Record> {
    if IsVolumeRow(row) then Some(VolumeRecord(row[4], Round2(ParseNum(row[3]).value))) else None
  }

  /** `process_hypothalamus_v2`. */
  method ProcessHypothalamusV2(files: TextFiles, path: Path) returns (r: Result<seq<Record>, Error>)
    ensures r.Failure? <==> path !in files
    ensures r.Success? ==> r.value == FilterMap(Drop(TokenRows(files[path]), FASTSURFER_HEADER), HypothalamusEntry)
  {
    var lines :- ReadVolumeFileSkip(files, path, FASTSURFER_HEADER);
    var volumes: seq<Record> := [];
    for i := 0 to |lines|
      invariant volumes == FilterMap(lines[..i], HypothalamusEntry)
    {
      FilterMapStep(lines, i, HypothalamusEntry);
      var row := lines[i];
      if |row| < 5 {
        continue;
      }
      var volume := ParseNum(row[3]);
      if volume.Some? {
        var name := row[4];
        if StartsWith(name, "L-") {
          name := "Left" + name[2..];
        } else if StartsWith(name, "R-") {
          name := "Right" + name[2..];
        }
        assert HypothalamusEntry(row) == Some(VolumeRecord(name, Round2(volume.value)));
        volumes := volumes + [VolumeRecord(name, Round2(volume.value))];
      }
    }
    assert lines[..|lines|] == lines;
    return Success(volumes);
  }

  /** `process_cerebellum`. */
  method ProcessCerebellum(files: TextFiles, path: Path) returns (r: Result<seq<Record>, Error>)
    ensures r.Failure? <==> path !in files
    ensures r.Success? ==> r.value == FilterMap(Drop(TokenRows(files[path]), FASTSURFER_HEADER), CerebellumEntry)
  {
    var lines :- ReadVolumeFileSkip(files, path, FASTSURFER_HEADER);
    var volumes: seq<Record> := [];
    for i := 0 to |lines|
      invariant volumes == FilterMap(lines[..i], CerebellumEntry)
    {
      FilterMapStep(lines, i, CerebellumEntry);
      var row := lines[i];
      if |row| < 5 {
        continue;
      }
      var volume := ParseNum(row[3]);
      if volume.Some? {
        volumes := volumes + [VolumeRecord(row[4], Round2(volume.value))];
      }
    }
    assert lines[..|lines|] == lines;
    return Success(volumes);
  }

  /** Exactly the rows of at least five tokens with a numeric fourth token are
      kept, in order, each named by its fifth token. */
  lemma CerebellumKeepsVolumeRows(rows: seq<Row>)
    ensures forall y | y in FilterMap(rows, CerebellumEntry) ::
      exists i | 0 <= i < |rows| :: IsVolumeRow(rows[i]) && y == VolumeRecord(rows[i][4], Round2(ParseNum(rows[i][3]).value))
    ensures forall i | 0 <= i < |rows| && IsVolumeRow(rows[i]) ::
      VolumeRecord(rows[i][4], Round2(ParseNum(rows[i][3]).value)) in FilterMap(rows, CerebellumEntry)
  {
    FilterMapMembers(rows, CerebellumEntry);
  }

  // ---------------------------------------------------------------------------
  // aseg.stats: general volumes and hypointensities

  const ASEG_HEADER: nat := 80

  /** A row of the aseg list of `get_general`: a short row raises IndexError,
      a kept row with a non-numeric volume raises ValueError. */
  function AsegEntry(row: Row): Result<Option<Record>, Error> {
    if |row| < 5 then Failure(IndexError)
    else if Contains(row[4], "hypointensities") then Success(None)
    else
      match ParseNum(row[3])
      case Some(v) => Success(Some(VolumeRecord(row[4], v)))
      case None => Failure(ValueError)
  }

  /** A row of the hypointensity list of `get_lesions`. */
  function HypointensityEntry(row: Row): Result<Option<Record>, Error> {
    if |row| < 5 then Failure(IndexError)
    else if !Contains(row[4], "hypointensities") then Success(None)
    else
      match ParseNum(row[3])
      case Some(v) => Success(Some(VolumeRecord(row[4], v)))
      case None => Failure(ValueError)
  }

  /** A row of the lesion list of `get_lesions` (samseg.fs.stats). */
  function LesionEntry(row: Row): Result<Option<Record>, Error> {
    if |row| < 5 then Failure(IndexError)
    else if !Contains(row[4], "Lesions") then Success(None)
    else
      match ParseNum(row[3])
      case Some(v) => Success(Some(VolumeRecord(row[4], v)))
      case None => Failure(ValueError)
  }

  /** The record of a well-formed aseg.stats row whose name (fifth token) does
      not mention "hypointensities": the aseg list's rows. */
  function AsegVolume(row: Row): Option<Record> {
    if IsVolumeRow(row) && !Contains(row[4], "hypointensities") then Some(VolumeRecord(row[4], ParseNum(row[3]).value))
    else None
  }

  /** The record of a well-formed aseg.stats row whose name mentions
      "hypointensities": the hypointensity list's rows. */
  function HypointensityVolume(row: Row): Option<Record> {
    if IsVolumeRow(row) && Contains(row[4], "hypointensities") then Some(VolumeRecord(row[4], ParseNum(row[3]).value))
    else None
  }

  /** Over the same rows, the aseg list and the hypointensity list both succeed
      exactly when every row has five tokens and a numeric fourth token; then
      the aseg list holds the records of the rows whose name lacks
      "hypointensities" and the hypointensity list those of the others, each
      in row order, so every row lands in exactly one of them. */
  lemma AsegHypointensityPartition(rows: seq<Row>)
    ensures TryFilterMap(rows, AsegEntry).Success? && TryFilterMap(rows, HypointensityEntry).Success?
      <==> forall i | 0 <= i < |rows| :: IsVolumeRow(rows[i])
    ensures TryFilterMap(rows, AsegEntry).Success? && TryFilterMap(rows, HypointensityEntry).Success? ==>
      && TryFilterMap(rows, AsegEntry).value == FilterMap(rows, AsegVolume)
      && TryFilterMap(rows, HypointensityEntry).value == FilterMap(rows, HypointensityVolume)
      && (forall i | 0 <= i < |rows| :: AsegVolume(rows[i]).Some? != HypointensityVolume(rows[i]).Some?)
      && |TryFilterMap(rows, AsegEntry).value| + |TryFilterMap(rows, HypointensityEntry).value| == |rows|
  {
    TryFilterMapSucceeds(rows, AsegEntry);
    TryFilterMapSucceeds(rows, HypointensityEntry);
    if forall i | 0 <= i < |rows| :: IsVolumeRow(rows[i]) {
      TryFilterMapAsFilterMap(rows, AsegEntry);
      TryFilterMapAsFilterMap(rows, HypointensityEntry);
      FilterMapAgree(rows, Successes(AsegEntry), AsegVolume);
      FilterMapAgree(rows, Successes(HypointensityEntry), HypointensityVolume);
      FilterMapPartition(rows, AsegVolume, HypointensityVolume);
    } else {
      var i :| 0 <= i < |rows| && !IsVolumeRow(rows[i]);
      assert AsegEntry(rows[i]).Failure? || HypointensityEntry(rows[i]).Failure?;
    }
  }

  /** `get_lesions`: the hypointensities of aseg.stats (after its 80-row header)
      followed by the lesions of samseg.fs.stats, volumes unrounded. */
  function GetLesions(files: TextFiles, stats: Path, samseg: Path): Result<seq<Record>, Error> {
    var aseg :- ReadVolumeFileSkip(files, stats + ["aseg.stats"], ASEG_HEADER);
    var hypointensities :- TryFilterMap(aseg, HypointensityEntry);
    var samsegRows :- ReadVolumeFile(files, samseg + ["samseg.fs.stats"]);
    var lesions :- TryFilterMap(samsegRows, LesionEntry);
    Success(hypointensities + lesions)
  }

  /** `get_general`: the aseg list and the lesions. */
  function GetGeneral(files: TextFiles, stats: Path, samseg: Path): (r: Result<Report, Error>)
    ensures r.Success? ==> r.value.Keys == {"aseg", "lesions"}
  {
    var aseg :- ReadVolumeFileSkip(files, stats + ["aseg.stats"], ASEG_HEADER);
    var asegList :- TryFilterMap(aseg, AsegEntry);
    var lesions :- GetLesions(files, stats, samseg);
    Success(GeneralReport(asegList, lesions))
  }

  /** The two lists of a general report under their keys. */
  function GeneralReport(aseg: seq<Record>, lesions: seq<Record>): (m: Report)
    ensures m.Keys == {"aseg", "lesions"}
    ensures m["aseg"] == aseg && m["lesions"] == lesions
  {
    map["aseg" := aseg, "lesions" := lesions]
  }

  /** When `get_general` builds its report, the aseg.stats rows after the
      header are well formed, its aseg list holds the records of the rows
      whose name lacks "hypointensities", and its lesion list starts with the
      records of the others: the two share out the rows. */
  lemma GeneralPartitionsAseg(files: TextFiles, stats: Path, samseg: Path)
    requires GetGeneral(files, stats, samseg).Success?
    ensures var rows := Drop(TokenRows(files[stats + ["aseg.stats"]]), ASEG_HEADER);
      && (forall i | 0 <= i < |rows| :: IsVolumeRow(rows[i]))
      && GetGeneral(files, stats, samseg).value["aseg"] == FilterMap(rows, AsegVolume)
      && FilterMap(rows, HypointensityVolume) <= GetGeneral(files, stats, samseg).value["lesions"]
      && |GetGeneral(files, stats, samseg).value["aseg"]| + |FilterMap(rows, HypointensityVolume)| == |rows|
  {
    var rows := Drop(TokenRows(files[stats + ["aseg.stats"]]), ASEG_HEADER);
    var read := ReadVolumeFileSkip(files, stats + ["aseg.stats"], ASEG_HEADER);
    assert read.Success? && read.value == rows;
    assert GetLesions(files, stats, samseg).Success?;
    assert GetGeneral(files, stats, samseg).value["aseg"] == TryFilterMap(rows, AsegEntry).value;
    assert TryFilterMap(rows, HypointensityEntry).Success?;
    var hypointensities := TryFilterMap(rows, HypointensityEntry).value;
    var samsegRows := ReadVolumeFile(files, samseg + ["samseg.fs.stats"]).value;
    assert GetLesions(files, stats, samseg).value == hypointensities + TryFilterMap(samsegRows, LesionEntry).value;
    assert GetGeneral(files, stats, samseg).value["lesions"] == GetLesions(files, stats, samseg).value;
    AsegHypointensityPartition(rows);
  }

  // ---------------------------------------------------------------------------
  // Cortical volumes

  /** A brainvol.stats row: the third token without commas, and the
      second-to-last token minus its last character, parsed and truncated. */
  function BrainvolEntry(row: Row): Option<Record> {
    if |row| < 3 then None
    else
      var token := row[|row| - 2];
      var number := if token == [] then [] else token[..|token| - 1];
      match ParseNum(number)
      case Some(x) => Some(map[STRUCTURE := Str(Replace(row[2], ",", "")), VOLUME := Num(TruncToInt(x) as real)])
      case None => None
  }

  const WM_HEADER: nat := 66
  const DKT_HEADER: nat := 61

  function WmLeft(row: Row): Result<Option<map<string, Value>>, Error> {
    if |row| < 5 then Failure(IndexError)
    else if !Contains(row[4], "wm-lh") then Success(None)
    else
      match ParseNum(row[3])
      case Some(v) => Success(Some(map[Replace(row[4], "wm-lh-", "") := Num(v)]))
      case None => Failure(ValueError)
  }

  function WmRight(row: Row): Result<Option<map<string, Value>>, Error> {
    if |row| < 5 then Failure(IndexError)
    else if !Contains(row[4], "wm-rh") then Success(None)
    else
      match ParseNum(row[3])
      case Some(v) => Success(Some(map[Replace(row[4], "wm-rh-", "") := Num(v)]))
      case None => Failure(ValueError)
  }

  function WmLeftName(row: Row): Result<Option<string>, Error> {
    if |row| < 5 then Failure(IndexError)
    else if Contains(row[4], "wm-lh") then Success(Some(Replace(row[4], "wm-lh-", "")))
    else Success(None)
  }

  /** A DKT atlas row: needs seven tokens, integer surface area and grey-matter
      volume, numeric thickness and curvature. */
  function DktEntry(fields: Row): Option<Record> {
    if |fields| < 7 then None
    else
      match (ParseInt(fields[2]), ParseInt(fields[3]), ParseNum(fields[4]), ParseNum(fields[6]))
      case (Some(area), Some(gray), Some(thickness), Some(curvature)) =>
        Some(map[
          STRUCTURE := Str(fields[0]),
          "Surface Area (mm2)" := Num(area as real),
          "Gray Matter Vol (mm3)" := Num(gray as real),
          "Thickness Avg (mm)" := Num(thickness),
          "Mean Curvature (mm-1)" := Num(curvature)])
      case _ => None
  }

  /** `parse_dkt` inside `get_cortical`. */
  method ParseDkt(files: TextFiles, file: Path) returns (r: Result<seq<Record>, Error>)
    ensures r.Failure? <==> file !in files
    ensures r.Failure? ==> r.error == FileNotFound(file)
    ensures r.Success? ==> r.value == FilterMap(Drop(TokenRows(files[file]), DKT_HEADER), DktEntry)
  {
    var rows :- ReadVolumeFileSkip(files, file, DKT_HEADER);
    var entries: seq<Record> := [];
    var i := 0;
    while i < |rows|
      invariant 0 <= i <= |rows|
      invariant entries == FilterMap(rows[..i], DktEntry)
    {
      FilterMapStep(rows, i, DktEntry);
      var fields := rows[i];
      if |fields| >= 7 {
        var area := ParseInt(fields[2]);
        var gray := ParseInt(fields[3]);
        var thickness := ParseNum(fields[4]);
        var curvature := ParseNum(fields[6]);
        if area.Some? && gray.Some? && thickness.Some? && curvature.Some? {
          entries := entries + [map[
            STRUCTURE := Str(fields[0]),
            "Surface Area (mm2)" := Num(area.value as real),
            "Gray Matter Vol (mm3)" := Num(gray.value as real),
            "Thickness Avg (mm)" := Num(thickness.value),
            "Mean Curvature (mm-1)" := Num(curvature.value)]];
        }
      }
      i := i + 1;
    }
    assert rows[..|rows|] == rows;
    return Success(entries);
  }

  /** The brain-volume loop of `get_cortical`. */
  method BrainVolumes(rows: seq<Row>) returns (brain: seq<Record>)
    ensures brain == FilterMap(rows, BrainvolEntry)
  {
    brain := [];
    var i := 0;
    while i < |rows|
      invariant 0 <= i <= |rows|
      invariant brain == FilterMap(rows[..i], BrainvolEntry)
    {
      FilterMapStep(rows, i, BrainvolEntry);
      var row := rows[i];
      if |row| >= 3 {
        var token := row[|row| - 2];
        var number := if token == [] then [] else token[..|token| - 1];
        var x := ParseNum(number);
        if x.Some? {
          var entry := map[STRUCTURE := Str(Replace(row[2], ",", "")), VOLUME := Num(TruncToInt(x.value) as real)];
          assert BrainvolEntry(row) == Some(entry);
          brain := brain + [entry];
        } else {
          assert BrainvolEntry(row).None?;
        }
      } else {
        assert BrainvolEntry(row).None?;
      }
      assert brain == FilterMap(rows[..i + 1], BrainvolEntry);
      i := i + 1;
    }
    assert rows[..|rows|] == rows;
  }

  /** The reference for `get_cortical`, read in the source's order. */
  function Cortical(files: TextFiles, stats: Path): (r: Result<Report, Error>)
    ensures r.Success? ==> r.value.Keys == {"brain", "whitematter", "lh_dkatlas", "rh_dkatlas"}
  {
    var brainRows :- ReadVolumeFile(files, stats + ["brainvol.stats"]);
    var wm :- ReadVolumeFileSkip(files, stats + ["wmparc.stats"], WM_HEADER);
    var lhs :- TryFilterMap(wm, WmLeft);
    var rhs :- TryFilterMap(wm, WmRight);
    var names :- TryFilterMap(wm, WmLeftName);
    var lh :- ReadVolumeFileSkip(files, stats + ["lh.aparc.DKTatlas.stats"], DKT_HEADER);
    var rh :- ReadVolumeFileSkip(files, stats + ["rh.aparc.DKTatlas.stats"], DKT_HEADER);
    Success(map[
      "brain" := FilterMap(brainRows, BrainvolEntry),
      "whitematter" := PairRecords(names, lhs, rhs),
      "lh_dkatlas" := FilterMap(lh, DktEntry),
      "rh_dkatlas" := FilterMap(rh, DktEntry)])
  }

  /** `get_cortical`. */
  method GetCortical(files: TextFiles, stats: Path) returns (r: Result<Report, Error>)
    ensures r == Cortical(files, stats)
  {
    var brainRows :- ReadVolumeFile(files, stats + ["brainvol.stats"]);
    var brain := BrainVolumes(brainRows);
    var wm :- ReadVolumeFileSkip(files, stats + ["wmparc.stats"], WM_HEADER);
    var lhs :- TryFilterMap(wm, WmLeft);
    var rhs :- TryFilterMap(wm, WmRight);
    var names :- TryFilterMap(wm, WmLeftName);
    var lh :- ParseDkt(files, stats + ["lh.aparc.DKTatlas.stats"]);
    var rh :- ParseDkt(files, stats + ["rh.aparc.DKTatlas.stats"]);
    return Success(map["brain" := brain, "whitematter" := PairRecords(names, lhs, rhs), "lh_dkatlas" := lh, "rh_dkatlas" := rh]);
  }
}
