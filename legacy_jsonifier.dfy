/** The older stats-file parsers of jsonifier.py. Unlike core/jsonifier.py they
    keep a blank line as an empty row, and their list comprehensions raise on
    the first malformed row where the newer loops skip it. Each parser here is
    related to its newer counterpart in module Jsonifier. */
module LegacyJsonifier {
  import opened Wrappers
  import opened Text
  import opened Numbers
  import opened Files
  import opened Records
  import J = Jsonifier
  import A = JsonAverage

  type Row = J.Row
  type TextFiles = J.TextFiles

  // ---------------------------------------------------------------------------
  // Looking up a nucleus

  /** `get_volume`: a loop that returns from the first dictionary holding
      `name`; it agrees with the newer generator expression. */
  method GetVolume<V>(name: string, nuclei: seq<map<string, V>>) returns (r: Option<V>)
    ensures r == J.GetVolume(name, nuclei)
  {
    for i := 0 to |nuclei|
      invariant forall j | 0 <= j < i :: name !in nuclei[j]
    {
      if name in nuclei[i] {
        J.GetVolumeAt(name, nuclei, i);
        return Some(nuclei[i][name]);
      }
    }
    return None;
  }

  // ---------------------------------------------------------------------------
  // Reading a stats file

  lemma SplitLinesEmptyIffBlank(lines: seq<string>)
    ensures forall i | 0 <= i < |lines| :: Split(lines[i]) == [] <==> IsBlank(lines[i])
  {
    forall i | 0 <= i < |lines|
      ensures Split(lines[i]) == [] <==> IsBlank(lines[i])
    {
      SplitEmptyIffBlank(lines[i]);
    }
  }

  /** The rows `read_volume_file` returns: one per line, in order, a blank
      line giving an empty row. */
  function Rows(lines: seq<string>): (rows: seq<Row>)
    ensures |rows| == |lines|
    ensures forall i | 0 <= i < |lines| :: rows[i] == [] <==> IsBlank(lines[i])
  {
    SplitLinesEmptyIffBlank(lines);
    MapSeq(lines, Split)
  }

  /** `read_volume_file`: FileNotFoundError for a missing path, otherwise one
      row per line. */
  function ReadVolumeFile(files: TextFiles, p: Path): (r: Result<seq<Row>, Error>)
    ensures r.Failure? <==> p !in files
    ensures r.Failure? ==> r.error == FileNotFound(p)
    ensures r.Success? ==> |r.value| == |files[p]| && r.value == Rows(files[p])
  {
    if p !in files then Failure(FileNotFound(p)) else Success(Rows(files[p]))
  }

  /** A row the newer reader keeps: any non-empty one. */
  function NonEmpty(row: Row): Option<Row> {
    if row == [] then None else Some(row)
  }

  /** The newer reader returns exactly the non-empty rows of the older one,
      in order. */
  lemma {:induction false} TokenRowsDropEmptyRows(lines: seq<string>)
    ensures J.TokenRows(lines) == FilterMap(Rows(lines), NonEmpty)
    decreases |lines|
  {
    if lines != [] {
      var init := lines[..|lines| - 1];
      TokenRowsDropEmptyRows(init);
      assert Rows(lines)[..|lines| - 1] == Rows(init);
      SplitEmptyIffBlank(lines[|lines| - 1]);
    }
  }

  /** Where the first `k` lines hold tokens, both readers begin with the same
      `k` rows. */
  lemma TokenRowsPrefix(lines: seq<string>, k: nat)
    requires k <= |lines|
    requires forall i | 0 <= i < k :: Rows(lines)[i] != []
    ensures |J.TokenRows(lines)| >= k
    ensures J.TokenRows(lines)[..k] == Rows(lines)[..k]
  {
    var rows := Rows(lines);
    TokenRowsDropEmptyRows(lines);
    assert rows == rows[..k] + rows[k..];
    FilterMapAppend(rows[..k], rows[k..], NonEmpty);
    FilterMapNoneSkipped(rows[..k], NonEmpty);
    assert FilterMap(rows[..k], NonEmpty) == rows[..k];
  }

  /** A file without blank lines reads the same with either reader. */
  lemma RowsWithoutBlankLines(lines: seq<string>)
    requires forall i | 0 <= i < |lines| :: Rows(lines)[i] != []
    ensures J.TokenRows(lines) == Rows(lines)
  {
    TokenRowsPrefix(lines, |lines|);
    assert Rows(lines)[..|lines|] == Rows(lines);
    assert |J.TokenRows(lines)| <= |lines|;
  }

  // ---------------------------------------------------------------------------
  // Hippocampus and amygdala

  /** One `zip`ped pair of `process_hippocampus`/`process_amygdala`, with the
      tokens read in the order the dictionary is written: the first missing
      token raises IndexError, the first non-numeric volume ValueError. The
      pairs it accepts are exactly those the newer loop keeps. */
  function PairedEntry(rows: (Row, Row)): (r: Result<Option<Record>, Error>)
    ensures r.Success? <==> J.PairedEntry(rows).Some?
    ensures r.Success? ==> r.value == J.PairedEntry(rows)
  {
    var (left, right) := rows;
    if |left| < 2 then Failure(IndexError)
    else
      match ParseNum(left[1])
      case None => Failure(ValueError)
      case Some(lhs) =>
        if |right| < 2 then Failure(IndexError)
        else
          match ParseNum(right[1])
          case None => Failure(ValueError)
          case Some(rhs) => Success(Some(PairRecord(left[0], Num(Round2(lhs)), Num(Round2(rhs)))))
  }

  function PairedVolumes(left: seq<Row>, right: seq<Row>): Result<seq<Record>, Error> {
    TryFilterMap(Zip(left, right), PairedEntry)
  }

  /** The comprehension over the zipped rows succeeds exactly when the newer
      loop would skip no pair, and then it yields the same records, one per
      pair of the shorter file. */
  lemma PairedVolumesAgainstCore(left: seq<Row>, right: seq<Row>)
    ensures PairedVolumes(left, right).Success?
      <==> forall i | 0 <= i < |left| && i < |right| :: J.PairedEntry((left[i], right[i])).Some?
    ensures PairedVolumes(left, right).Success? ==>
      && PairedVolumes(left, right).value == J.PairedVolumes(left, right)
      && |PairedVolumes(left, right).value| == if |left| < |right| then |left| else |right|
  {
    var pairs := Zip(left, right);
    TryFilterMapSucceeds(pairs, PairedEntry);
    if PairedVolumes(left, right).Success? {
      TryFilterMapRefines(pairs, PairedEntry, J.PairedEntry);
      FilterMapNoneSkipped(pairs, J.PairedEntry);
    }
  }

  /** Two pairs of lists that agree on their first `n` rows, `n` being the
      length of the shorter of each pair, zip alike. */
  lemma ZipAgree<T>(a: seq<T>, b: seq<T>, c: seq<T>, d: seq<T>, n: nat)
    requires n <= |a| && n <= |b| && (n == |a| || n == |b|)
    requires n <= |c| && n <= |d| && (n == |c| || n == |d|)
    requires a[..n] == c[..n] && b[..n] == d[..n]
    ensures Zip(a, b) == Zip(c, d)
  {
    assert forall i | 0 <= i < n :: a[i] == a[..n][i] && b[i] == b[..n][i] && c[i] == c[..n][i] && d[i] == d[..n][i];
  }

  /** The rows of a zipped range that raises nothing are non-empty. */
  lemma PairedRowsNonEmpty(left: seq<Row>, right: seq<Row>)
    requires PairedVolumes(left, right).Success?
    ensures forall i | 0 <= i < |left| && i < |right| :: left[i] != [] && right[i] != []
  {
    PairedVolumesAgainstCore(left, right);
    forall i | 0 <= i < |left| && i < |right|
      ensures left[i] != [] && right[i] != []
    {
      assert J.PairedEntry((left[i], right[i])).Some?;
    }
  }

  /** When the two files read without error, the older parser gives what the
      newer one gives on the same files: every zipped line is non-blank, so
      dropping blank lines changes neither the pairs nor their number. */
  lemma PairedFilesAgainstCore(leftLines: seq<string>, rightLines: seq<string>)
    requires PairedVolumes(Rows(leftLines), Rows(rightLines)).Success?
    ensures PairedVolumes(Rows(leftLines), Rows(rightLines)).value
      == J.PairedVolumes(J.TokenRows(leftLines), J.TokenRows(rightLines))
  {
    var left, right := Rows(leftLines), Rows(rightLines);
    var n := if |left| < |right| then |left| else |right|;
    PairedRowsNonEmpty(left, right);
    TokenRowsPrefix(leftLines, n);
    TokenRowsPrefix(rightLines, n);
    var tl, tr := J.TokenRows(leftLines), J.TokenRows(rightLines);
    ZipAgree(tl, tr, left, right, n);
    PairedVolumesAgainstCore(left, right);
  }

  /** `process_hippocampus`. */
  function ProcessHippocampus(files: TextFiles, mri: Path): Result<seq<Record>, Error> {
    var left :- ReadVolumeFile(files, mri + [J.LH_HIPPOCAMPUS_FILE]);
    var right :- ReadVolumeFile(files, mri + [J.RH_HIPPOCAMPUS_FILE]);
    PairedVolumes(left, right)
  }

  /** `process_amygdala`. */
  function ProcessAmygdala(files: TextFiles, mri: Path): Result<seq<Record>, Error> {
    var left :- ReadVolumeFile(files, mri + [J.LH_AMYGDALA_FILE]);
    var right :- ReadVolumeFile(files, mri + [J.RH_AMYGDALA_FILE]);
    PairedVolumes(left, right)
  }

  /** A blank line within the zipped range aborts the whole hippocampus list,
      where the newer reader never sees it. */
  lemma HippocampusBlankLineRaises(files: TextFiles, mri: Path, i: nat)
    requires mri + [J.LH_HIPPOCAMPUS_FILE] in files && mri + [J.RH_HIPPOCAMPUS_FILE] in files
    requires i < |files[mri + [J.LH_HIPPOCAMPUS_FILE]]| && i < |files[mri + [J.RH_HIPPOCAMPUS_FILE]]|
    requires IsBlank(files[mri + [J.LH_HIPPOCAMPUS_FILE]][i])
    ensures ProcessHippocampus(files, mri).Failure?
  {
    var left, right := Rows(files[mri + [J.LH_HIPPOCAMPUS_FILE]]), Rows(files[mri + [J.RH_HIPPOCAMPUS_FILE]]);
    PairedVolumesAgainstCore(left, right);
    assert left[i] == [];
    assert J.PairedEntry((left[i], right[i])).None?;
  }

  /** A hippocampus list that reads without error is the newer one. */
  lemma HippocampusAgainstCore(files: TextFiles, mri: Path)
    requires ProcessHippocampus(files, mri).Success?
    ensures ProcessHippocampus(files, mri).value
      == J.PairedVolumes(J.TokenRows(files[mri + [J.LH_HIPPOCAMPUS_FILE]]), J.TokenRows(files[mri + [J.RH_HIPPOCAMPUS_FILE]]))
  {
    PairedFilesAgainstCore(files[mri + [J.LH_HIPPOCAMPUS_FILE]], files[mri + [J.RH_HIPPOCAMPUS_FILE]]);
  }

  /** An amygdala list that reads without error is the newer one. */
  lemma AmygdalaAgainstCore(files: TextFiles, mri: Path)
    requires ProcessAmygdala(files, mri).Success?
    ensures ProcessAmygdala(files, mri).value
      == J.PairedVolumes(J.TokenRows(files[mri + [J.LH_AMYGDALA_FILE]]), J.TokenRows(files[mri + [J.RH_AMYGDALA_FILE]]))
  {
    PairedFilesAgainstCore(files[mri + [J.LH_AMYGDALA_FILE]], files[mri + [J.RH_AMYGDALA_FILE]]);
  }

  // ---------------------------------------------------------------------------
  // Brain stem

  /** A brain-stem row of the comprehension: IndexError on a short row,
      ValueError on a non-numeric volume; it accepts exactly the rows the newer
      loop keeps. */
  function BrainStemEntry(row: Row): (r: Result<Option<Record>, Error>)
    ensures r.Success? <==> J.BrainStemEntry(row).Some?
    ensures r.Success? ==> r.value == J.BrainStemEntry(row)
  {
    if |row| < 2 then Failure(IndexError)
    else
      match ParseNum(row[1])
      case None => Failure(ValueError)
      case Some(v) => Success(Some(VolumeRecord(row[0], Round2(v))))
  }

  /** `process_brain_stem`. */
  function ProcessBrainStem(files: TextFiles, mri: Path): Result<seq<Record>, Error> {
    var data :- ReadVolumeFile(files, mri + [J.BRAIN_STEM_FILE]);
    TryFilterMap(data, BrainStemEntry)
  }

  /** A brain-stem list that reads without error has exactly one record per
      line of the file, and it is the newer list. */
  lemma BrainStemOnePerLine(files: TextFiles, mri: Path)
    requires ProcessBrainStem(files, mri).Success?
    ensures |ProcessBrainStem(files, mri).value| == |files[mri + [J.BRAIN_STEM_FILE]]|
    ensures ProcessBrainStem(files, mri).value
      == FilterMap(J.TokenRows(files[mri + [J.BRAIN_STEM_FILE]]), J.BrainStemEntry)
  {
    var lines := files[mri + [J.BRAIN_STEM_FILE]];
    var rows := Rows(lines);
    TryFilterMapSucceeds(rows, BrainStemEntry);
    TryFilterMapRefines(rows, BrainStemEntry, J.BrainStemEntry);
    FilterMapNoneSkipped(rows, J.BrainStemEntry);
    assert forall i | 0 <= i < |rows| :: rows[i] != [] by {
      forall i | 0 <= i < |rows|
        ensures rows[i] != []
      {
        assert BrainStemEntry(rows[i]).Success?;
      }
    }
    RowsWithoutBlankLines(lines);
  }

  // ---------------------------------------------------------------------------
  // Thalamus

  /** A row of the left-nucleus comprehension: the test reads the first
      token, the element the second. */
  function LeftNucleus(row: Row): Result<Option<map<string, Value>>, Error> {
    if |row| < 1 then Failure(IndexError)
    else if !Contains(row[0], "Left") then Success(None)
    else if |row| < 2 then Failure(IndexError)
    else
      match ParseNum(row[1])
      case None => Failure(ValueError)
      case Some(v) => Success(Some(map[Replace(row[0], "Left-", "") := Num(Round2(v))]))
  }

  /** A row of the right-nucleus comprehension: every row naming "Right",
      whether or not it also names "Left". */
  function RightNucleus(row: Row): Result<Option<map<string, Value>>, Error> {
    if |row| < 1 then Failure(IndexError)
    else if !Contains(row[0], "Right") then Success(None)
    else if |row| < 2 then Failure(IndexError)
    else
      match ParseNum(row[1])
      case None => Failure(ValueError)
      case Some(v) => Success(Some(map[Replace(row[0], "Right-", "") := Num(Round2(v))]))
  }

  function LeftName(row: Row): Result<Option<string>, Error> {
    if |row| < 1 then Failure(IndexError)
    else if Contains(row[0], "Left") then Success(Some(Replace(row[0], "Left-", "")))
    else Success(None)
  }

  /** The three comprehensions of `process_thalamus`, in source order, then
      the records by name. */
  function ThalamusVolumes(rows: seq<Row>): Result<seq<Record>, Error> {
    var lhs :- TryFilterMap(rows, LeftNucleus);
    var rhs :- TryFilterMap(rows, RightNucleus);
    var names :- TryFilterMap(rows, LeftName);
    Success(J.PairRecords(names, lhs, rhs))
  }

  /** `process_thalamus`. */
  function ProcessThalamus(files: TextFiles, mri: Path): Result<seq<Record>, Error> {
    var data :- ReadVolumeFile(files, mri + [J.THALAMUS_FILE]);
    ThalamusVolumes(data)
  }

  /** Whether some row names both hemispheres: the only rows the older
      right-hand filter keeps and the newer `elif` drops. */
  predicate NamesBothSides(row: Row) {
    row != [] && Contains(row[0], "Left") && Contains(row[0], "Right")
  }

  /** Thalamus rows that raise nothing, none naming both hemispheres, give
      the records of the newer loop. */
  lemma ThalamusAgainstCore(rows: seq<Row>)
    requires ThalamusVolumes(rows).Success?
    requires forall i | 0 <= i < |rows| :: !NamesBothSides(rows[i])
    ensures ThalamusVolumes(rows).value == J.ThalamusVolumes(rows)
  {
    TryFilterMapSucceeds(rows, LeftNucleus);
    TryFilterMapSucceeds(rows, RightNucleus);
    TryFilterMapSucceeds(rows, LeftName);
    TryFilterMapRefines(rows, LeftNucleus, J.LeftNucleus);
    TryFilterMapRefines(rows, RightNucleus, J.RightNucleus);
    assert forall i | 0 <= i < |rows| :: LeftName(rows[i]).value == J.LeftName(rows[i]) by {
      forall i | 0 <= i < |rows|
        ensures LeftName(rows[i]).value == J.LeftName(rows[i])
      {
        assert LeftNucleus(rows[i]).Success?;
      }
    }
    TryFilterMapRefines(rows, LeftName, J.LeftName);
  }

  /** A thalamus file that reads without error has no blank line, so under
      the same condition the older list is the newer one. */
  lemma ProcessThalamusAgainstCore(files: TextFiles, mri: Path)
    requires ProcessThalamus(files, mri).Success?
    requires forall i | 0 <= i < |files[mri + [J.THALAMUS_FILE]]| :: !NamesBothSides(Rows(files[mri + [J.THALAMUS_FILE]])[i])
    ensures ProcessThalamus(files, mri).value == J.ThalamusVolumes(J.TokenRows(files[mri + [J.THALAMUS_FILE]]))
  {
    var lines := files[mri + [J.THALAMUS_FILE]];
    var rows := Rows(lines);
    TryFilterMapSucceeds(rows, LeftName);
    assert forall i | 0 <= i < |rows| :: rows[i] != [] by {
      forall i | 0 <= i < |rows|
        ensures rows[i] != []
      {
        assert LeftName(rows[i]).Success?;
      }
    }
    RowsWithoutBlankLines(lines);
    ThalamusAgainstCore(rows);
  }

  // ---------------------------------------------------------------------------
  // Hypothalamus from the FreeSurfer CSV (the record dictionary onward)

  function Field(r: Record, k: string): Value {
    if k in r then r[k] else Null
  }

  /** The older record layout: the same three values under "name",
      "lhs_volume" and "rhs_volume". */
  function Relabel(r: Record): Record {
    map["name" := Field(r, STRUCTURE), "lhs_volume" := Field(r, LHS_VOLUME), "rhs_volume" := Field(r, RHS_VOLUME)]
  }

  /** `process_hypothalamus`: `del` of "subject" raises KeyError where the
      newer `pop("subject", None)` does not; otherwise the records are the
      newer ones under the older field names. */
  method ProcessHypothalamus(record: J.CsvRecord) returns (r: Result<seq<Record>, Error>)
    ensures r.Failure? <==> J.Lookup(record, "subject").None? || J.HypothalamusV1(record).Failure?
    ensures J.Lookup(record, "subject").None? ==> r == Failure(KeyError("subject"))
    ensures r.Success? ==> r.value == MapSeq(J.HypothalamusV1(record).value, Relabel)
  {
    var d := record;
    if J.Lookup(d, "subject").None? {
      return Failure(KeyError("subject"));
    }
    d := J.Remove(d, "subject");
    var left :- J.Pop(d, "whole left");
    d := J.Put(left.1, "left whole", left.0);
    var right :- J.Pop(d, "whole right");
    d := J.Put(right.1, "right whole", right.0);
    var lhs := FilterMap(d, J.LeftKeyItem);
    var rhs := FilterMap(d, J.RightKeyItem);
    var names := FilterMap(d, J.LeftKeyName);
    var volumes := seq(|names|, i requires 0 <= i < |names| => map[
      "name" := Str(names[i]),
      "lhs_volume" := OrNull(J.GetVolume(names[i], lhs)),
      "rhs_volume" := OrNull(J.GetVolume(names[i], rhs))]);
    assert volumes == MapSeq(J.PairRecords(names, lhs, rhs), Relabel);
    return Success(volumes);
  }

  // ---------------------------------------------------------------------------
  // FastSurfer stats files (hypothalamus, cerebellum)

  /** "L-x" becomes "Left-x" and "R-x" becomes "Right-x": the hyphen is kept,
      unlike the newer renaming. */
  function HypothalamusName(name: string): (r: string)
    ensures StartsWith(name, "L-") ==> r == "Left-" + name[2..]
    ensures !StartsWith(name, "L-") && StartsWith(name, "R-") ==> r == "Right-" + name[2..]
    ensures !StartsWith(name, "L-") && !StartsWith(name, "R-") ==> r == name
  {
    if StartsWith(name, "L-") then "Left" + name[1..]
    else if StartsWith(name, "R-") then "Right" + name[1..]
    else name
  }

  /** The older name is the newer one with a hyphen after the hemisphere. */
  lemma HypothalamusNameAgainstCore(name: string)
    ensures StartsWith(name, "L-") ==>
      HypothalamusName(name) == J.HypothalamusName(name)[..4] + "-" + J.HypothalamusName(name)[4..]
    ensures !StartsWith(name, "L-") && StartsWith(name, "R-") ==>
      HypothalamusName(name) == J.HypothalamusName(name)[..5] + "-" + J.HypothalamusName(name)[5..]
    ensures !StartsWith(name, "L-") && !StartsWith(name, "R-") ==> HypothalamusName(name) == J.HypothalamusName(name)
  {
    if StartsWith(name, "L-") {
      assert J.HypothalamusName(name)[..4] == "Left";
    } else if StartsWith(name, "R-") {
      assert J.HypothalamusName(name)[..5] == "Right";
    }
  }

  /** A FastSurfer row as the older loops keep it: the same rows as the newer
      ones, the volume unrounded. */
  function HypothalamusEntry(row: Row): (r: Option<Record>)
    ensures r.Some? <==> J.IsVolumeRow(row)
  {
    if J.IsVolumeRow(row) then Some(VolumeRecord(HypothalamusName(row[4]), ParseNum(row[3]).value)) else None
  }

  function CerebellumEntry(row: Row): (r: Option<Record>)
    ensures r.Some? <==> J.IsVolumeRow(row)
  {
    if J.IsVolumeRow(row) then Some(VolumeRecord(row[4], ParseNum(row[3]).value)) else None
  }

  /** The header the older FastSurfer parsers drop counts blank lines too. */
  const FASTSURFER_HEADER: nat := 55

  /** `process_hypothalamus_v2`. */
  method ProcessHypothalamusV2(files: TextFiles, path: Path) returns (r: Result<seq<Record>, Error>)
    ensures r.Failure? <==> path !in files
    ensures r.Success? ==> r.value == FilterMap(Drop(Rows(files[path]), FASTSURFER_HEADER), HypothalamusEntry)
  {
    var data :- ReadVolumeFile(files, path);
    var lines := Drop(data, FASTSURFER_HEADER);
    var volumes: seq<Record> := [];
    for i := 0 to |lines|
      invariant volumes == FilterMap(lines[..i], HypothalamusEntry)
    {
      FilterMapStep(lines, i, HypothalamusEntry);
      var line := lines[i];
      if |line| >= 5 {
        var volume := ParseNum(line[3]);
        if volume.Some? {
          var name := line[4];
          if StartsWith(name, "L-") {
            name := "Left" + name[1..];
          } else if StartsWith(name, "R-") {
            name := "Right" + name[1..];
          }
          volumes := volumes + [VolumeRecord(name, volume.value)];
        }
      }
    }
    assert lines[..|lines|] == lines;
    return Success(volumes);
  }

  /** `process_cerebellum`. */
  method ProcessCerebellum(files: TextFiles, path: Path) returns (r: Result<seq<Record>, Error>)
    ensures r.Failure? <==> path !in files
    ensures r.Success? ==> r.value == FilterMap(Drop(Rows(files[path]), FASTSURFER_HEADER), CerebellumEntry)
  {
    var data :- ReadVolumeFile(files, path);
    var lines := Drop(data, FASTSURFER_HEADER);
    var result: seq<Record> := [];
    for i := 0 to |lines|
      invariant result == FilterMap(lines[..i], CerebellumEntry)
    {
      FilterMapStep(lines, i, CerebellumEntry);
      var line := lines[i];
      if |line| >= 5 {
        var volume := ParseNum(line[3]);
        if volume.Some? {
          result := result + [VolumeRecord(line[4], volume.value)];
        }
      }
    }
    assert lines[..|lines|] == lines;
    return Success(result);
  }

  /** A volume record with its volume rounded as the newer parsers store it. */
  function RoundVolume(r: Record): Record {
    if VOLUME in r && r[VOLUME].Num? then r[VOLUME := Num(Round2(r[VOLUME].x))] else r
  }

  /** Over the same rows, the newer cerebellum list is the older one with
      every volume rounded: the same rows are kept, in the same order. */
  lemma CerebellumAgainstCore(rows: seq<Row>)
    ensures FilterMap(rows, J.CerebellumEntry) == MapSeq(FilterMap(rows, CerebellumEntry), RoundVolume)
  {
    forall i | 0 <= i < |rows|
      ensures J.CerebellumEntry(rows[i])
        == if CerebellumEntry(rows[i]).Some? then Some(RoundVolume(CerebellumEntry(rows[i]).value)) else None
    {
      if J.IsVolumeRow(rows[i]) {
        var row := rows[i];
        assert RoundVolume(VolumeRecord(row[4], ParseNum(row[3]).value))
          == VolumeRecord(row[4], Round2(ParseNum(row[3]).value));
      }
    }
    FilterMapThen(rows, CerebellumEntry, J.CerebellumEntry, RoundVolume);
  }

  const HYPOTHALAMUS_STATS := "hypothalamus.HypVINN.stats"
  const CEREBELLUM_STATS := "cerebellum.CerebNet.stats"

  /** `get_subcortical`: the six lists, FreeSurfer ones from `mri` and
      FastSurfer ones from `stats`, or the first exception in the order the
      dictionary is built. */
  method GetSubcortical(files: TextFiles, mri: Path, stats: Path) returns (r: Result<Report, Error>)
    ensures r.Success? <==>
      && ProcessHippocampus(files, mri).Success? && ProcessThalamus(files, mri).Success?
      && ProcessAmygdala(files, mri).Success? && ProcessBrainStem(files, mri).Success?
      && stats + [HYPOTHALAMUS_STATS] in files && stats + [CEREBELLUM_STATS] in files
    ensures r.Success? ==>
      r.value.Keys == {"hippocampus", "thalamus", "amygdala", "brain_stem", "hypothalamus", "cerebellum"}
    ensures r.Success? ==>
      && r.value["hippocampus"] == ProcessHippocampus(files, mri).value
      && r.value["thalamus"] == ProcessThalamus(files, mri).value
      && r.value["amygdala"] == ProcessAmygdala(files, mri).value
      && r.value["brain_stem"] == ProcessBrainStem(files, mri).value
      && r.value["hypothalamus"]
        == FilterMap(Drop(Rows(files[stats + [HYPOTHALAMUS_STATS]]), FASTSURFER_HEADER), HypothalamusEntry)
      && r.value["cerebellum"]
        == FilterMap(Drop(Rows(files[stats + [CEREBELLUM_STATS]]), FASTSURFER_HEADER), CerebellumEntry)
  {
    var hippocampus :- ProcessHippocampus(files, mri);
    var thalamus :- ProcessThalamus(files, mri);
    var amygdala :- ProcessAmygdala(files, mri);
    var brainStem :- ProcessBrainStem(files, mri);
    var hypothalamus :- ProcessHypothalamusV2(files, stats + [HYPOTHALAMUS_STATS]);
    var cerebellum :- ProcessCerebellum(files, stats + [CEREBELLUM_STATS]);
    return Success(SubcorticalReport(hippocampus, thalamus, amygdala, brainStem, hypothalamus, cerebellum));
  }

  /** The dictionary the legacy `get_subcortical` returns, from its six
      lists. */
  function SubcorticalReport(hippocampus: seq<Record>, thalamus: seq<Record>, amygdala: seq<Record>,
                             brainStem: seq<Record>, hypothalamus: seq<Record>, cerebellum: seq<Record>): (m: Report)
    ensures m.Keys == {"hippocampus", "thalamus", "amygdala", "brain_stem", "hypothalamus", "cerebellum"}
    ensures m["hippocampus"] == hippocampus && m["thalamus"] == thalamus && m["amygdala"] == amygdala
    ensures m["brain_stem"] == brainStem && m["hypothalamus"] == hypothalamus && m["cerebellum"] == cerebellum
  {
    map[
      "hippocampus" := hippocampus,
      "thalamus" := thalamus,
      "amygdala" := amygdala,
      "brain_stem" := brainStem,
      "hypothalamus" := hypothalamus,
      "cerebellum" := cerebellum]
  }

  // ---------------------------------------------------------------------------
  // aseg.stats and samseg: lesions and general volumes

  /** The older header of aseg.stats: one row shorter than the newer one, and
      counted with blank lines. */
  const ASEG_HEADER: nat := 79

  /** `get_lesions`. */
  function GetLesions(files: TextFiles, stats: Path, samseg: Path): Result<seq<Record>, Error> {
    var aseg :- ReadVolumeFile(files, stats + ["aseg.stats"]);
    var hypointensities :- TryFilterMap(Drop(aseg, ASEG_HEADER), J.HypointensityEntry);
    var samsegRows :- ReadVolumeFile(files, samseg + ["samseg.fs.stats"]);
    var lesions :- TryFilterMap(samsegRows, J.LesionEntry);
    Success(hypointensities + lesions)
  }

  /** `get_general`. */
  function GetGeneral(files: TextFiles, stats: Path, samseg: Path): (r: Result<Report, Error>)
    ensures r.Success? ==> r.value.Keys == {"aseg", "lesions"}
  {
    var aseg :- ReadVolumeFile(files, stats + ["aseg.stats"]);
    var asegList :- TryFilterMap(Drop(aseg, ASEG_HEADER), J.AsegEntry);
    var lesions :- GetLesions(files, stats, samseg);
    Success(J.GeneralReport(asegList, lesions))
  }

  /** On an aseg.stats without blank lines, the older parsers read one row
      more than the newer ones: the 80th, which the newer header swallows. */
  lemma AsegOneRowMore(lines: seq<string>)
    requires |lines| > ASEG_HEADER
    requires forall i | 0 <= i < |lines| :: Rows(lines)[i] != []
    ensures Drop(Rows(lines), ASEG_HEADER) == [Rows(lines)[ASEG_HEADER]] + Drop(J.TokenRows(lines), J.ASEG_HEADER)
  {
    RowsWithoutBlankLines(lines);
    DropOneMore(Rows(lines), ASEG_HEADER);
  }

  /** When the older `get_general` builds its report, the lines after its
      header are well-formed rows, its aseg list holds the records of the rows
      whose name lacks "hypointensities", and its lesion list starts with the
      records of the others, as in the newer parser after its header. */
  lemma GeneralPartitionsAseg(files: TextFiles, stats: Path, samseg: Path)
    requires GetGeneral(files, stats, samseg).Success?
    ensures var rows := Drop(Rows(files[stats + ["aseg.stats"]]), ASEG_HEADER);
      && (forall i | 0 <= i < |rows| :: J.IsVolumeRow(rows[i]))
      && GetGeneral(files, stats, samseg).value["aseg"] == FilterMap(rows, J.AsegVolume)
      && FilterMap(rows, J.HypointensityVolume) <= GetGeneral(files, stats, samseg).value["lesions"]
      && |GetGeneral(files, stats, samseg).value["aseg"]| + |FilterMap(rows, J.HypointensityVolume)| == |rows|
  {
    var rows := Drop(Rows(files[stats + ["aseg.stats"]]), ASEG_HEADER);
    assert TryFilterMap(rows, J.AsegEntry).Success?;
    assert GetLesions(files, stats, samseg).Success?;
    assert TryFilterMap(rows, J.HypointensityEntry).Success?;
    var hypointensities := TryFilterMap(rows, J.HypointensityEntry).value;
    var samsegRows := ReadVolumeFile(files, samseg + ["samseg.fs.stats"]).value;
    assert GetLesions(files, stats, samseg).value == hypointensities + TryFilterMap(samsegRows, J.LesionEntry).value;
    assert GetGeneral(files, stats, samseg).value["lesions"] == GetLesions(files, stats, samseg).value;
    J.AsegHypointensityPartition(rows);
  }

  // ---------------------------------------------------------------------------
  // Cortical volumes

  /** A brainvol.stats row of the comprehension: IndexError when the third
      token is missing, ValueError when the volume does not parse; it accepts
      exactly the rows the newer loop keeps. */
  function BrainvolEntry(row: Row): (r: Result<Option<Record>, Error>)
    ensures r.Success? <==> J.BrainvolEntry(row).Some?
    ensures r.Success? ==> r.value == J.BrainvolEntry(row)
  {
    if |row| < 3 then Failure(IndexError)
    else
      var token := row[|row| - 2];
      var number := if token == [] then [] else token[..|token| - 1];
      match ParseNum(number)
      case Some(x) => Success(Some(map[STRUCTURE := Str(Replace(row[2], ",", "")), VOLUME := Num(TruncToInt(x) as real)]))
      case None => Failure(ValueError)
  }

  /** A DKT atlas row of the comprehension, tokens read in dictionary order:
      the name, then surface area, grey-matter volume, thickness and
      curvature; it accepts exactly the rows the newer loop keeps. */
  function DktEntry(fields: Row): (r: Result<Option<Record>, Error>)
    ensures r.Success? <==> J.DktEntry(fields).Some?
    ensures r.Success? ==> r.value == J.DktEntry(fields)
  {
    if |fields| < 3 then Failure(IndexError)
    else if ParseInt(fields[2]).None? then Failure(ValueError)
    else if |fields| < 4 then Failure(IndexError)
    else if ParseInt(fields[3]).None? then Failure(ValueError)
    else if |fields| < 5 then Failure(IndexError)
    else if ParseNum(fields[4]).None? then Failure(ValueError)
    else if |fields| < 7 then Failure(IndexError)
    else if ParseNum(fields[6]).None? then Failure(ValueError)
    else
      Success(Some(map[
        STRUCTURE := Str(fields[0]),
        "Surface Area (mm2)" := Num(ParseInt(fields[2]).value as real),
        "Gray Matter Vol (mm3)" := Num(ParseInt(fields[3]).value as real),
        "Thickness Avg (mm)" := Num(ParseNum(fields[4]).value),
        "Mean Curvature (mm-1)" := Num(ParseNum(fields[6]).value)]))
  }

  /** The older white-matter header. */
  const WM_HEADER: nat := 65

  /** `get_cortical`, read in the source's order. */
  function GetCortical(files: TextFiles, stats: Path): (r: Result<Report, Error>)
    ensures r.Success? ==> r.value.Keys == {"brain", "whitematter", "lh_dkatlas", "rh_dkatlas"}
  {
    var brain :- ParsedFile(files, stats + ["brainvol.stats"], 0, BrainvolEntry);
    var wm :- ReadVolumeFile(files, stats + ["wmparc.stats"]);
    var lhs :- TryFilterMap(Drop(wm, WM_HEADER), J.WmLeft);
    var rhs :- TryFilterMap(Drop(wm, WM_HEADER), J.WmRight);
    var names :- TryFilterMap(Drop(wm, WM_HEADER), J.WmLeftName);
    var lhAtlas :- ParsedFile(files, stats + ["lh.aparc.DKTatlas.stats"], J.DKT_HEADER, DktEntry);
    var rhAtlas :- ParsedFile(files, stats + ["rh.aparc.DKTatlas.stats"], J.DKT_HEADER, DktEntry);
    Success(CorticalReport(brain, J.PairRecords(names, lhs, rhs), lhAtlas, rhAtlas))
  }

  /** One volume file read and its rows after the header parsed, failing at
      the first missing file or malformed row. */
  function ParsedFile(files: TextFiles, p: Path, header: nat, parse: Row -> Result<Option<Record>, Error>): (r: Result<seq<Record>, Error>)
    ensures p !in files ==> r == Failure(FileNotFound(p))
    ensures p in files ==> r == TryFilterMap(Drop(Rows(files[p]), header), parse)
  {
    var rows :- ReadVolumeFile(files, p);
    TryFilterMap(Drop(rows, header), parse)
  }

  /** The four lists of a cortical report under their keys. */
  function CorticalReport(brain: seq<Record>, whitematter: seq<Record>, lhAtlas: seq<Record>, rhAtlas: seq<Record>): (m: Report)
    ensures m.Keys == {"brain", "whitematter", "lh_dkatlas", "rh_dkatlas"}
    ensures m["brain"] == brain && m["whitematter"] == whitematter
    ensures m["lh_dkatlas"] == lhAtlas && m["rh_dkatlas"] == rhAtlas
  {
    map[
      "brain" := brain,
      "whitematter" := whitematter,
      "lh_dkatlas" := lhAtlas,
      "rh_dkatlas" := rhAtlas]
  }

  /** A cortical report that reads without error holds, for the brain and
      the atlases, what the newer loops keep of the same rows. */
  lemma CorticalAgainstCore(files: TextFiles, stats: Path)
    requires GetCortical(files, stats).Success?
    ensures var report := GetCortical(files, stats).value;
      && report["brain"] == FilterMap(Rows(files[stats + ["brainvol.stats"]]), J.BrainvolEntry)
      && report["lh_dkatlas"] == FilterMap(Drop(Rows(files[stats + ["lh.aparc.DKTatlas.stats"]]), J.DKT_HEADER), J.DktEntry)
      && report["rh_dkatlas"] == FilterMap(Drop(Rows(files[stats + ["rh.aparc.DKTatlas.stats"]]), J.DKT_HEADER), J.DktEntry)
  {
    var brainFile, lhFile, rhFile := stats + ["brainvol.stats"], stats + ["lh.aparc.DKTatlas.stats"], stats + ["rh.aparc.DKTatlas.stats"];
    var report := GetCortical(files, stats).value;
    var brain := ParsedFile(files, brainFile, 0, BrainvolEntry);
    var lhAtlas := ParsedFile(files, lhFile, J.DKT_HEADER, DktEntry);
    var rhAtlas := ParsedFile(files, rhFile, J.DKT_HEADER, DktEntry);
    assert brain == Success(report["brain"]) && lhAtlas == Success(report["lh_dkatlas"]) && rhAtlas == Success(report["rh_dkatlas"]);
    var brainRows, lh, rh := Rows(files[brainFile]), Drop(Rows(files[lhFile]), J.DKT_HEADER), Drop(Rows(files[rhFile]), J.DKT_HEADER);
    assert Drop(brainRows, 0) == brainRows;
    TryFilterMapRefines(brainRows, BrainvolEntry, J.BrainvolEntry);
    TryFilterMapRefines(lh, DktEntry, J.DktEntry);
    TryFilterMapRefines(rh, DktEntry, J.DktEntry);
  }

  /** The white-matter list of a cortical report that reads without error
      pairs, name by name, the left and right volumes of the rows after the
      older 65-row header. */
  lemma WhiteMatterRows(files: TextFiles, stats: Path)
    requires GetCortical(files, stats).Success?
    ensures var wm := Drop(Rows(files[stats + ["wmparc.stats"]]), WM_HEADER);
      && TryFilterMap(wm, J.WmLeft).Success? && TryFilterMap(wm, J.WmRight).Success? && TryFilterMap(wm, J.WmLeftName).Success?
      && GetCortical(files, stats).value["whitematter"]
         == J.PairRecords(TryFilterMap(wm, J.WmLeftName).value, TryFilterMap(wm, J.WmLeft).value, TryFilterMap(wm, J.WmRight).value)
  {
  }

  /** On a wmparc.stats without blank lines, the older parser reads one row
      more than the newer one: the 66th, which the newer header swallows. */
  lemma WhiteMatterOneRowMore(lines: seq<string>)
    requires |lines| > WM_HEADER
    requires forall i | 0 <= i < |lines| :: Rows(lines)[i] != []
    ensures Drop(Rows(lines), WM_HEADER) == [Rows(lines)[WM_HEADER]] + Drop(J.TokenRows(lines), J.WM_HEADER)
  {
    RowsWithoutBlankLines(lines);
    DropOneMore(Rows(lines), WM_HEADER);
  }

  // ---------------------------------------------------------------------------
  // run_json_average

  /** `run_json_average`: missing, undecodable and unreadable files are all
      skipped, so it always produces the average of the documents that
      decode. */
  method RunJsonAverage(files: A.JsonFiles, jsonPath: Path, folders: seq<string>, mainType: string)
    returns (out: Doc)
    ensures A.IsAverage(out, A.AverageInputs(files, jsonPath, mainType, folders))
  {
    var tops, acc := [], A.NoSums;
    ghost var docs: seq<Doc> := [];
    ghost var keys, es := [], [];
    for i := 0 to |folders|
      invariant docs == A.AverageInputs(files, jsonPath, mainType, folders[..i])
      invariant keys == A.AllKeys(docs) && es == A.AllEntries(docs)
      invariant tops == A.FirstAppearance(keys)
      invariant A.Tallies(acc, es)
    {
      A.InputsStep(files, jsonPath, mainType, folders, i);
      var path := A.SeriesFile(jsonPath, folders[i], mainType);
      if path !in files {
        continue;
      }
      match files[path]
      case Malformed =>
      case Unreadable =>
      case Parsed(doc) =>
        tops, acc := A.AddDoc(tops, acc, doc, keys, es);
        A.AllDocsStep(docs, doc);
        docs, keys, es := docs + [doc], keys + A.DocKeys(doc), es + A.DocEntries(doc);
    }
    assert folders[..|folders|] == folders;
    out := A.Averages(tops, acc, es);
  }
}
