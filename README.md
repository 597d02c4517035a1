# NeuroVista back end — a verified model of the processing core

NeuroVista's back end takes the DICOM files of one study upload and produces volumetric reports.
It runs them through a fixed chain of stages:

- DICOM routing;
- NIfTI conversion;
- FreeSurfer recon-all;
- SAMSEG lesions;
- subregion segmentation;
- hypothalamus segmentation;
- JSON reports;
- copying of the core statistics.

It reports each stage on a completion queue. This project models, in Dafny, the logic that decides what the
pipeline does, and proves what that logic promises:

- the stats-file parsers, the report builders and the cross-series averaging and consolidation of
  `core/jsonifier.py`, and the older variants of `jsonifier.py`, each proved against the newer one where they
  agree and shown to differ where they do not (module `Jsonifier`, `LegacyJsonifier`, `JsonAverage`);
- the name and path helpers, the folder layout, the recon-all subject selection, the skip-or-run rule of every
  external tool step and the core-statistics copy and rename of `core/utils.py` and `utils.py` (modules
  `Utils`, `LegacyUtils`);
- the FastSurfer step of `experimental/fastsurfer.py` (module `FastSurfer`);
- the orchestrator of `core/processing.py`: the per-series loops, the DICOM routing rule, and the stage
  machine, which pushes tags onto the completion queue and always clears the processing flag (module
  `Processing`, with `class Pipeline`).

Shared modules model the Python and pathlib behaviour the core relies on:

- `Text`: `str.split`, `strip`, `replace`, ASCII `lower`/`upper`, string order;
- `Numbers`: `float()`, `round(x, 2)`, `int()`;
- `Files`: a file system of existing directories and files, `iterdir`, `glob`, `stem`,
  `mkdir(parents=True)`, `sorted`;
- `Records`: comprehensions, `zip`, slicing, volume records;
- `Steps`: launches of external tools, and runs whose errors escape or are logged;
- `Wrappers`: `Option` and `Result`.

The legacy `add_dcm_extension` (`utils.py`, lines 24-28), `get_folder_names` (lines 31-35) and
`remove_double_extension` (lines 67-74) have the same bodies as their core counterparts. The members
`Utils.AddDcmExtension`, `Utils.GetFolderNames` and `Utils.RemoveDoubleExtension` model both versions.

Modelling choices:

- A text file is its sequence of lines.
- A JSON document is a sequence of (top key, records) pairs in file order.
- An external tool is a command that either runs or crashes. The set `failing` says which commands crash.
- A step's effect is the list of commands it launched and the exception that escaped it.
- The thread pools are modelled as sequential loops that keep the error propagation of each helper.

## Model

| member | source | states |
|---|---|---|
| Text.Split | core/jsonifier.py:27 | `line.split()`: every token is a non-empty run without whitespace |
| Text.SplitLayout | core/jsonifier.py:27 | every line is its tokens laid out between blank gaps, the inner gaps non-empty: the tokens are the maximal whitespace-free runs, in order |
| Text.SplitSpaced | core/jsonifier.py:27 | words laid out between whitespace split back into exactly those words |
| Text.SplitEmptyIffBlank | core/jsonifier.py:26-27 | a line has no tokens exactly when it is all whitespace, so the blank-line filter and the empty-row test agree |
| Text.StripEmptyIffBlank | core/jsonifier.py:26 | `line.strip()` is empty exactly for an all-whitespace line |
| Text.SplitStrip | core/jsonifier.py:27 | `line.strip().split()` gives the same tokens as `line.split()` |
| Text.SplitAppendBlank | core/jsonifier.py:27 | trailing whitespace, a newline included, adds no token |
| Text.ReplaceAbsent | core/jsonifier.py:102 | `replace` leaves a string without the pattern unchanged |
| Text.Lower | core/utils.py:29 | `lower()` maps each ASCII letter to lower case and keeps the length |
| Text.Upper | core/processing.py:56 | `upper()` maps each ASCII letter to upper case and keeps the length |
| Numbers.ParseNum | core/jsonifier.py:48-49 | `float(token)` never yields a value for the empty token |
| Numbers.Round2 | core/jsonifier.py:48-49 | `round(x, 2)` is a whole number of hundredths within 0.005 of `x` |
| Numbers.TruncToInt | core/jsonifier.py:221 | `int(x)` truncates toward zero, from either side |
| Files.Entries | core/utils.py:45 | `iterdir()` lists exactly the existing entries directly inside a directory |
| Files.SubdirNames | core/utils.py:45 | the names `is_dir()` keeps are exactly the subdirectories |
| Files.Glob | core/utils.py:181 | `glob("*.nii.gz")` yields exactly the entries whose name ends with the suffix |
| Files.Stem | core/utils.py:128 | `stem` is the name up to its suffix: all of it when there is none, otherwise the non-empty part before a last dot after which no dot follows |
| Files.SuffixStart | core/utils.py:128 | the suffix starts at the last dot when that dot is neither the first nor the last character, and is empty otherwise |
| Files.LastIndexOf | core/utils.py:128 | `rfind` gives the last index of the character, or -1 |
| Files.Ancestry | core/utils.py:86 | `mkdir(parents=True)` creates exactly the non-empty prefixes of the path |
| Files.MakeDirs | core/utils.py:86 | `mkdir(parents=True, exist_ok=True)` succeeds exactly when no regular file is in the way, and then adds the path's ancestry to the directories; otherwise FileExistsError for a file at the path itself, NotADirectoryError for a file at a parent |
| Files.SortNames | core/utils.py:146 | `sorted` returns the listed names, each once, strictly increasing |
| Files.SortedNamesDistinct | core/utils.py:146 | a strictly sorted list holds each name once |
| Records.FilterMap | core/jsonifier.py:79-88 | an append loop that skips rows yields at most one result per row |
| Records.FilterMapAppend | core/jsonifier.py:79-88 | rows are handled one at a time: the result over a concatenation is the concatenation of the results |
| Records.FilterMapSkip | core/jsonifier.py:80-87 | a skipped row leaves no trace: the rows around it give what they give without it |
| Records.FilterMapNoneSkipped | core/jsonifier.py:79-88 | with no row skipped, there is one result per row, in row order |
| Records.FilterMapMembers | core/jsonifier.py:79-88 | every result comes from a kept row, and every kept row contributes its result |
| Records.TryFilterMap | jsonifier.py:73 | a comprehension whose element expression may raise yields at most one result per row |
| Records.TryFilterMapSucceeds | jsonifier.py:73 | the comprehension succeeds exactly when no row raises |
| Records.TryFilterMapAsFilterMap | jsonifier.py:73 | a comprehension in which no row raises is the plain filter over the same rows |
| Records.TryFilterMapRefines | jsonifier.py:73 | a comprehension that raises on the rows a loop skips yields, when it succeeds, what the loop yields |
| Records.FilterMapPartition | core/jsonifier.py:199-203 | two filters keeping complementary rows share out the input: each row's result sits in its own list right after the results of the earlier rows of its kind, and the lengths add up to the row count |
| Records.FilterMapAgree | core/jsonifier.py:79-88 | filters that agree on every row give the same list |
| Records.FilterMapPlace | core/jsonifier.py:79-88 | a kept row's result follows the results of the rows before it |
| Records.FilterMapThen | jsonifier.py:136-140 | keeping the same rows and transforming each result gives the transformed list |
| Records.MapSeq | jsonifier.py:90-94 | `[h(y) for y in ys]` has one result per element, in order |
| Records.FlatMapAppend | core/jsonifier.py:328-332 | a nested loop over a concatenation is the loop over each part in turn |
| Records.Zip | core/jsonifier.py:45 | `zip` gives as many pairs as the shorter list, pair `i` holding element `i` of each |
| Records.Drop | core/jsonifier.py:35 | `rows[k:]` is empty once `k` passes the end; otherwise row `i` of the result is row `i + k` |
| Records.DropOneMore | core/jsonifier.py:35 | skipping one row fewer keeps that row in front |
| Records.VolumeRecord | core/jsonifier.py:82-85 | a volume record has exactly the keys Structure and Volume (mm3), holding the name and the volume |
| Records.PairRecord | core/jsonifier.py:50-54 | a bilateral record has exactly the keys Structure, LHS and RHS Volume (mm3), holding the name and the two volumes |
| Steps.Launch | core/utils.py:270-277 | a command raises exactly when it is one of the failing commands, and the error names its program |
| Steps.Guarded | core/utils.py:264-277 | a guarded step launches nothing when its outputs are there, otherwise its command once; a crash escapes only when the step re-raises |
| Steps.Sequenced | core/processing.py:196-206 | every run is carried out: the launches are all those of the runs, and the exception is the first run's that raised |
| Steps.SequencedSnoc | core/processing.py:126-131 | one more run of a loop follows those before it |
| Steps.SequencedAppend | core/processing.py:126-131 | running two lists of steps in turn is running their concatenation |
| Steps.Swallowed | core/processing.py:128-131 | a caught and logged step keeps its launches and lets nothing escape |
| Steps.Workers | core/processing.py:118 | `max(1, os.cpu_count())` is a TypeError when the count is unknown, otherwise at least 1 and at least the count |
| Jsonifier.GetVolume | core/jsonifier.py:12-16 | `None` exactly when no dictionary holds the name; otherwise the value of the first dictionary that does |
| Jsonifier.GetVolumeAt | core/jsonifier.py:16 | the first dictionary holding the name decides the result |
| Jsonifier.GetVolumeFirstRow | core/jsonifier.py:12-16 | over an append loop, the name's value in the first row that holds it |
| Jsonifier.GetVolumeNoRow | core/jsonifier.py:12-16 | `None` when no row holds the name |
| Jsonifier.LineTokens | core/jsonifier.py:26-27 | a line is dropped exactly when it is blank; otherwise it gives its non-empty token list |
| Jsonifier.TokenRowsNonEmpty | core/jsonifier.py:27 | no row `read_volume_file` returns is empty |
| Jsonifier.ReadVolumeFile | core/jsonifier.py:19-27 | FileNotFoundError exactly for a missing path; otherwise the token rows of the non-blank lines, in order, none empty |
| Jsonifier.ReadVolumeFileSkip | core/jsonifier.py:30-35 | the same outcome, with the first `skip` rows dropped |
| Jsonifier.ProcessPairedVolumes | core/jsonifier.py:38-57 | FileNotFoundError for the left file, then for the right one; otherwise the records of the zipped rows |
| Jsonifier.PairRows | core/jsonifier.py:44-57 | the append loop over the zipped rows yields the paired records |
| Jsonifier.PairedVolumesSkip | core/jsonifier.py:45-56 | at most min(left, right) records; a malformed pair is skipped without disturbing the pairs before or after it |
| Jsonifier.PairedVolumesWellFormed | core/jsonifier.py:45-54 | when every pair is well formed, there is one record per pair of the shorter file: record `i` holds left row `i`'s name and rounded volume and right row `i`'s rounded volume |
| Jsonifier.ProcessHippocampus | core/jsonifier.py:60-64 | fails exactly when a hemisphere file is missing; otherwise the paired records of the two hippocampus files |
| Jsonifier.ProcessAmygdala | core/jsonifier.py:67-71 | fails exactly when a hemisphere file is missing; otherwise the paired records of the two amygdala files |
| Jsonifier.ProcessBrainStem | core/jsonifier.py:74-88 | fails exactly when the file is missing; otherwise one record for each row with a name and a numeric volume, in order |
| Jsonifier.PairRecords | core/jsonifier.py:110-114 | one record per name, in order: Structure the name, LHS and RHS the `get_volume` of the name in each hemisphere's list, or null |
| Jsonifier.ProcessThalamus | core/jsonifier.py:91-114 | fails exactly when the thalamus file is missing; otherwise the thalamus records of its rows, whose volumes `ThalamusLeftVolume`, `ThalamusRightVolume` and `ThalamusRightMissing` state |
| Jsonifier.ThalamusRow | core/jsonifier.py:100-109 | a row yields a left name exactly when it yields a left nucleus, so names and left volumes stay in step |
| Jsonifier.LeftNucleiAligned | core/jsonifier.py:101-104 | the left names and the left nuclei line up one to one, each nucleus keyed by exactly its own name |
| Jsonifier.ThalamusOwnLeftVolume | core/jsonifier.py:110-114 | one record per left row, and the record of a left row whose name has not come before holds that row's own nucleus volume |
| Jsonifier.ThalamusLeftVolume | core/jsonifier.py:101-113 | every record, a repeated name included, holds as LHS the rounded volume of the first left row of its name |
| Jsonifier.ThalamusRightVolume | core/jsonifier.py:105-113 | every record holds as RHS the rounded volume of the first right row whose name, without "Right-", is the record's |
| Jsonifier.ThalamusRightMissing | core/jsonifier.py:105-113 | a record with no right row of its name has a null RHS |
| Jsonifier.Remove | core/jsonifier.py:123 | `pop("subject", None)` leaves no "subject" key |
| Jsonifier.Put | core/jsonifier.py:126-127 | `d[k] = v` then maps `k` to `v` |
| Jsonifier.Pop | core/jsonifier.py:126-127 | `d.pop(k)` raises KeyError exactly when `k` is absent; otherwise it returns the value and removes the key |
| Jsonifier.LookupRemoveOther | core/jsonifier.py:123 | removing a key leaves every other key's value |
| Jsonifier.LookupPutOther | core/jsonifier.py:126-127 | setting a key leaves every other key's value |
| Jsonifier.RenamedHypothalamusSpec | core/jsonifier.py:123-127 | the renaming fails exactly when a whole-structure column is missing; otherwise both values move to "left whole" and "right whole", and the old keys and "subject" are gone |
| Jsonifier.HypothalamusV1 | core/jsonifier.py:129-137 | fails exactly when the renaming does; otherwise one record per renamed column whose key contains "left", in column order, named by the key without "left " |
| Jsonifier.HypothalamusV1Names | core/jsonifier.py:129-137 | every "left" column gives a record of its name, and every record comes from one |
| Jsonifier.HypothalamusV1Left | core/jsonifier.py:130-136 | a record's LHS, a repeated name included, is the value of the first "left" column of its name |
| Jsonifier.HypothalamusV1Right | core/jsonifier.py:131-136 | a record's RHS is the value of the first "right" column of its name |
| Jsonifier.HypothalamusV1RightMissing | core/jsonifier.py:131-136 | a record with no "right" column of its name has a null RHS |
| Jsonifier.ProcessHypothalamusV1 | core/jsonifier.py:117-137 | FileNotFoundError when the CSV is absent; otherwise the records `HypothalamusV1` builds from its first row |
| Jsonifier.SubcorticalLists | core/jsonifier.py:186-190 | the four text-file lists in the order they are built, failing exactly when one of their files is missing |
| Jsonifier.GetSubcortical | core/jsonifier.py:182-192 | succeeds exactly when all five lists can be built; then the report has exactly the five keys, each holding its list |
| Jsonifier.SubcorticalReport | core/jsonifier.py:186-192 | the subcortical dictionary has exactly its five keys, each mapped to its list |
| Jsonifier.HypothalamusName | core/jsonifier.py:153-156 | "L-x" becomes "Leftx" and "R-x" becomes "Rightx"; other names are kept |
| Jsonifier.ProcessHypothalamusV2 | core/jsonifier.py:140-160 | fails exactly when the file is missing; otherwise one record for each row after the 55-row header that has five tokens and a numeric fourth, in order |
| Jsonifier.ProcessCerebellum | core/jsonifier.py:163-179 | fails exactly when the file is missing; otherwise one record for each volume row after the 55-row header, in order |
| Jsonifier.CerebellumKeepsVolumeRows | core/jsonifier.py:169-176 | every record comes from a row with at least five tokens and a numeric fourth, named by the fifth with the volume rounded, and every such row gives its record |
| Jsonifier.AsegHypointensityPartition | core/jsonifier.py:199-276 | the aseg and hypointensity lists both succeed exactly when every row is a volume row; then the aseg list holds the records of the rows whose name lacks "hypointensities", the other list those of the rest, in row order, each row in exactly one |
| Jsonifier.GetGeneral | core/jsonifier.py:268-278 | a general report that builds has exactly the keys aseg and lesions |
| Jsonifier.GeneralReport | core/jsonifier.py:278 | the general dictionary maps aseg and lesions to their lists |
| Jsonifier.GeneralPartitionsAseg | core/jsonifier.py:268-278 | when the general report builds, every aseg.stats row after the 80-row header is a volume row, the aseg list is the records of the rows without "hypointensities", and the lesion list begins with the records of the others |
| Jsonifier.ParseDkt | core/jsonifier.py:242-255 | FileNotFoundError exactly for a missing file; otherwise one record for each well-formed DKT row after the 61-row header, in order |
| Jsonifier.BrainVolumes | core/jsonifier.py:216-224 | the brain-volume loop keeps exactly the well-formed brainvol.stats rows, in order |
| Jsonifier.Cortical | core/jsonifier.py:212-265 | a cortical report that builds has exactly the keys brain, whitematter, lh_dkatlas and rh_dkatlas |
| Jsonifier.GetCortical | core/jsonifier.py:212-265 | the method builds exactly the report that `Cortical` specifies, with its four keys when it succeeds |
| JsonAverage.StructureOf | core/jsonifier.py:333-336 | an entry is counted exactly when its Structure is a non-empty string |
| JsonAverage.AppendEntry | core/jsonifier.py:337-347 | one more entry changes the count, the fields and the totals of its own (top key, Structure) alone |
| JsonAverage.TotalWithoutField | core/jsonifier.py:338-345 | a field that never received a number has a zero total |
| JsonAverage.AppendEntries | core/jsonifier.py:328-347 | counts, fields and totals add up over consecutive files |
| JsonAverage.UnnamedEntryIgnored | core/jsonifier.py:333-336 | an entry without a Structure changes no count, field or total |
| JsonAverage.Tag | core/jsonifier.py:328-332 | the entries of one top key, each tagged with that key, in order |
| JsonAverage.DocKeys | core/jsonifier.py:328 | a document's top keys in file order |
| JsonAverage.FirstAppearanceKeys | core/jsonifier.py:329-331 | the order of `cumulative_data` holds each top key seen once and nothing else |
| JsonAverage.FirstAppearanceStep | core/jsonifier.py:329-331 | a top key joins that order only when it is first seen |
| JsonAverage.SortedSameMembers | core/jsonifier.py:361 | two lists sorted strictly by Structure with the same members are equal |
| JsonAverage.AverageIsUnique | core/jsonifier.py:349-361 | at most one document meets the averaging specification |
| JsonAverage.Insert | core/jsonifier.py:361 | inserting a record keeps a list sorted by Structure and adds exactly that record |
| JsonAverage.SortByStructure | core/jsonifier.py:361 | the sort returns a permutation of its input, sorted strictly by Structure |
| JsonAverage.AddEntry | core/jsonifier.py:332-347 | after one entry, the running counts and totals are those of every entry read so far |
| JsonAverage.AddFields | core/jsonifier.py:341-347 | every numeric field except Structure is added to its running total |
| JsonAverage.AddEntries | core/jsonifier.py:332-347 | after the entries of one top key, the tallies are those of every entry read so far |
| JsonAverage.Register | core/jsonifier.py:329-331 | registering a top key gives the order of first appearance |
| JsonAverage.AddTopKey | core/jsonifier.py:328-347 | one top key updates both the key order and the tallies |
| JsonAverage.AddDoc | core/jsonifier.py:328-347 | one decoded file updates the key order and the tallies by its keys and entries |
| JsonAverage.StructuresUnder | core/jsonifier.py:352 | the structures of a top key are exactly those counted under it |
| JsonAverage.AveragedEntry | core/jsonifier.py:353-359 | the averaged entry is the Structure plus each field's total divided by the count, rounded to two places |
| JsonAverage.GatherAverages | core/jsonifier.py:352-360 | one averaged entry per counted structure, each named once, and nothing else |
| JsonAverage.AveragesFor | core/jsonifier.py:350-361 | a top key's list holds exactly one averaged entry per structure, sorted by Structure |
| JsonAverage.Averages | core/jsonifier.py:349-361 | the averaged document keeps the order of `cumulative_data`, each key with its averaged list |
| JsonAverage.ReadSeries | core/jsonifier.py:318-326 | a series file is skipped when missing or undecodable, raises exactly when it cannot be opened, and is otherwise tallied |
| JsonAverage.FirstUnreadable | core/jsonifier.py:317-326 | whenever some series file cannot be opened, there is a first such file, at or before it, all files before which can be opened |
| JsonAverage.RunJsonAverage | core/jsonifier.py:308-371 | the read error of the first series file that exists but cannot be opened, exactly when there is one; otherwise the average of the documents that decode |
| JsonAverage.TallyAll | core/jsonifier.py:317-347 | the tallies of every readable series file, or the index of the first that cannot be opened |
| JsonAverage.ReadJson | core/jsonifier.py:384-385 | `json.load` succeeds exactly on a file that decodes, returning its document; FileNotFoundError for a missing file |
| JsonAverage.GatherDir | core/jsonifier.py:382-391 | the try block of one directory keeps each kind until the first file that fails |
| JsonAverage.GatherStep | core/jsonifier.py:382-391 | one more directory keeps the gathered documents faithful to the files |
| JsonAverage.RunGlobalJson | core/jsonifier.py:374-401 | each series and then AVERAGES is a key of a kind exactly when that file and the earlier files of its try block decode, with the decoded document; general keys are cortical keys, which are subcortical keys |
| LegacyJsonifier.GetVolume | jsonifier.py:9-14 | the early-return loop returns what the newer `get_volume` returns |
| LegacyJsonifier.SplitLinesEmptyIffBlank | jsonifier.py:21 | a line's row is empty exactly when the line is blank |
| LegacyJsonifier.Rows | jsonifier.py:21 | one row per line, in order; a blank line gives an empty row |
| LegacyJsonifier.ReadVolumeFile | jsonifier.py:17-23 | FileNotFoundError exactly for a missing path; otherwise one row per line |
| LegacyJsonifier.TokenRowsDropEmptyRows | jsonifier.py:17-23 | the newer reader returns exactly the non-empty rows of the older one, in order |
| LegacyJsonifier.TokenRowsPrefix | jsonifier.py:21 | where the first `k` lines hold tokens, both readers begin with the same `k` rows |
| LegacyJsonifier.RowsWithoutBlankLines | jsonifier.py:21 | a file without blank lines reads the same with either reader |
| LegacyJsonifier.PairedEntry | jsonifier.py:31-35 | a zipped pair raises exactly where the newer loop skips it, and otherwise gives the same record |
| LegacyJsonifier.PairedVolumesAgainstCore | jsonifier.py:31-35 | the comprehension succeeds exactly when the newer loop would skip no pair, and then it gives the same records, one per pair of the shorter file |
| LegacyJsonifier.ZipAgree | jsonifier.py:35 | lists that agree up to the shorter length zip alike |
| LegacyJsonifier.PairedRowsNonEmpty | jsonifier.py:31-35 | in a zipped range that raises nothing, no row is empty |
| LegacyJsonifier.PairedFilesAgainstCore | jsonifier.py:28-35 | when the two files parse without error, the older result is the newer one on the same files |
| LegacyJsonifier.HippocampusBlankLineRaises | jsonifier.py:28-35 | a blank line within the zipped range makes the whole hippocampus list raise |
| LegacyJsonifier.HippocampusAgainstCore | jsonifier.py:26-35 | a hippocampus list that builds without error equals the newer one |
| LegacyJsonifier.AmygdalaAgainstCore | jsonifier.py:58-67 | an amygdala list that builds without error equals the newer one |
| LegacyJsonifier.BrainStemEntry | jsonifier.py:73 | a brain-stem row raises exactly where the newer loop skips it, and otherwise gives the same record |
| LegacyJsonifier.BrainStemOnePerLine | jsonifier.py:70-73 | a brain-stem list that builds without error has one record per line of the file, and it is the newer list |
| LegacyJsonifier.ThalamusAgainstCore | jsonifier.py:38-55 | thalamus rows that raise nothing, none naming both hemispheres, give the newer records |
| LegacyJsonifier.ProcessThalamusAgainstCore | jsonifier.py:38-55 | under the same condition, a thalamus file that builds without error gives the newer records |
| LegacyJsonifier.ProcessHypothalamus | jsonifier.py:76-94 | KeyError when "subject" is missing or a whole-structure column is; otherwise the newer records under the field names "name", "lhs_volume" and "rhs_volume" |
| LegacyJsonifier.HypothalamusName | jsonifier.py:112-115 | "L-x" becomes "Left-x" and "R-x" becomes "Right-x", the hyphen kept; other names are kept |
| LegacyJsonifier.HypothalamusNameAgainstCore | jsonifier.py:112-115 | the older name is the newer one with a hyphen after the hemisphere |
| LegacyJsonifier.HypothalamusEntry | jsonifier.py:105-118 | a row is kept exactly when the newer parser keeps it |
| LegacyJsonifier.CerebellumEntry | jsonifier.py:133-140 | a row is kept exactly when the newer parser keeps it |
| LegacyJsonifier.ProcessHypothalamusV2 | jsonifier.py:98-123 | fails exactly when the file is missing; otherwise one unrounded record per kept row after the first 55 lines, blank lines included |
| LegacyJsonifier.ProcessCerebellum | jsonifier.py:126-145 | fails exactly when the file is missing; otherwise one unrounded record per kept row after the first 55 lines, blank lines included |
| LegacyJsonifier.CerebellumAgainstCore | jsonifier.py:126-145 | over the same rows, the newer cerebellum list is the older one with every volume rounded |
| LegacyJsonifier.GetSubcortical | jsonifier.py:148-158 | succeeds exactly when all six lists can be built; then exactly the six keys, each holding its list |
| LegacyJsonifier.SubcorticalReport | jsonifier.py:150-157 | the legacy dictionary has exactly its six keys, each mapped to its list |
| LegacyJsonifier.GetGeneral | jsonifier.py:217-232 | a general report that builds has exactly the keys aseg and lesions |
| LegacyJsonifier.AsegOneRowMore | jsonifier.py:221 | on a file without blank lines, the older aseg rows are the newer ones plus the 80th row in front |
| LegacyJsonifier.GeneralPartitionsAseg | jsonifier.py:217-232 | when the general report builds, every aseg.stats row after the 79-line header is a volume row, the aseg list is the records of the rows without "hypointensities", and the lesion list begins with the records of the others |
| LegacyJsonifier.BrainvolEntry | jsonifier.py:177-178 | a brainvol.stats row raises exactly where the newer loop skips it, and otherwise gives the same record |
| LegacyJsonifier.DktEntry | jsonifier.py:191-205 | a DKT row raises exactly where the newer loop skips it, and otherwise gives the same record |
| LegacyJsonifier.GetCortical | jsonifier.py:174-214 | a cortical report that builds has exactly the keys brain, whitematter, lh_dkatlas and rh_dkatlas |
| LegacyJsonifier.ParsedFile | jsonifier.py:177-205 | FileNotFoundError for a missing file; otherwise the comprehension over its rows after the header |
| LegacyJsonifier.CorticalReport | jsonifier.py:207-212 | the cortical dictionary maps its four keys to their lists |
| LegacyJsonifier.CorticalAgainstCore | jsonifier.py:174-214 | a cortical report that builds without error holds the newer brain and atlas lists of the same rows |
| LegacyJsonifier.WhiteMatterRows | jsonifier.py:179-188 | the white-matter list of a report that builds pairs the "wm-lh" and "wm-rh" volumes of the rows after the first 65 lines, as `PairRecords` does |
| LegacyJsonifier.WhiteMatterOneRowMore | jsonifier.py:180 | on a file without blank lines, the older reader keeps one white-matter row more in front than the newer one, which skips 66 rows |
| LegacyJsonifier.RunJsonAverage | jsonifier.py:254-328 | every unreadable file is skipped, so the result is always the average of the documents that decode |
| Utils.AddDcmExtension | core/utils.py:16-29 | the result ends in ".dcm" in any letter case; a name already ending so is unchanged, any other gets ".dcm" appended |
| Utils.AddDcmExtensionIdempotent | core/utils.py:16-29 | adding the extension twice adds it once |
| Utils.SanitizeName | core/utils.py:48-60 | only `[A-Za-z0-9_-]` remain, the result is no longer than the name, and a safe name is unchanged |
| Utils.SanitizeNameChar | core/utils.py:60 | one character survives exactly when it is safe |
| Utils.SanitizeNameAppend | core/utils.py:60 | sanitising works character by character over a concatenation, keeping order |
| Utils.SanitizeNameSafe | core/utils.py:48-60 | the result has no '/' and no '.', and sanitising again changes nothing |
| Utils.RemoveDoubleExtension | core/utils.py:112-128 | a ".nii.gz" name loses exactly that suffix; any other name gives its stem |
| Utils.RemoveDoubleExtensionRoundTrip | core/utils.py:112-128 | the file `<id>.nii.gz` gives back `id`, whatever dots `id` contains |
| Utils.CreatedContains | core/utils.py:85-86 | each folder is among the directories created |
| Utils.MakeFolders | core/utils.py:85-86 | creating the folders succeeds exactly when no regular file is in the way, and then adds exactly their ancestry |
| Utils.Layout | core/utils.py:76-84 | the dictionary holds exactly the listed keys, each mapped to its folder under the base |
| Utils.FoldersUpperCase | core/utils.py:76-84 | each folder name is its key in upper case, and no key repeats |
| Utils.LayoutUpperCase | core/utils.py:76-84 | each key maps to `base / KEY` |
| Utils.CreateFolders | core/utils.py:63-87 | succeeds exactly when every folder can be made; returns the seven-key layout, and every folder then exists |
| Utils.ListingError | core/utils.py:32-45 | listing fails exactly for a path that is not a directory |
| Utils.GetFolderNames | core/utils.py:32-45 | fails exactly for a missing directory; otherwise exactly the subdirectory names, each once |
| Utils.KeepDirs | core/utils.py:148 | exactly the listed names that are directories, still sorted |
| Utils.AppendSubfolders | core/utils.py:149-150 | one pair per subfolder is appended, keeping the pairs sorted by folder and then subfolder |
| Utils.ListFolderSubfolders | core/utils.py:131-152 | fails exactly for a missing directory; otherwise exactly the (folder, subfolder) directory pairs, sorted by folder and then by subfolder |
| Utils.KeyFiles | core/utils.py:195-201 | the five key files under the subject directory |
| Utils.SelectSubjects | core/utils.py:189-211 | the two lists stay aligned and hold exactly the pairs the loop keeps, in order |
| Utils.SelectionRule | core/utils.py:192-211 | a pair is selected exactly when its subject is not reconstructed, and every selected pair is an input pair |
| Utils.SelectedAligned | core/utils.py:185-211 | each selected file is a NIfTI file of the data folder, next to the subject id derived from it, whose subject is not reconstructed |
| Utils.SelectedExactly | core/utils.py:181-211 | every NIfTI file of the data folder is selected exactly when its subject is not reconstructed |
| Utils.Reconall | core/utils.py:155-242 | the aligned lists hold exactly the pending subjects; one workflow over them, none when empty; a crash escapes |
| Utils.ProcessLesions | core/utils.py:245-277 | SAMSEG runs exactly when samseg.stats is absent, once; its crash escapes |
| Utils.SubregionOutputs | core/utils.py:299-317 | a structure the step does not know has no expected outputs |
| Utils.SegmentSubregions | core/utils.py:280-330 | the segmentation runs exactly when some expected output is missing, once; its crash escapes |
| Utils.UnknownStructureSkips | core/utils.py:317-320 | an unknown structure is never segmented |
| Utils.SegmentHypothalamus | core/utils.py:333-363 | the segmentation runs exactly when its CSV is absent, once; its crash escapes |
| Utils.TxtIsNotStats | core/utils.py:401 | a ".txt" name is not a ".stats" name |
| Utils.WithTxtSuffix | core/utils.py:401 | `with_suffix(".txt")` gives a ".txt" name, never a ".stats" one |
| Utils.TargetNotStats | core/utils.py:401 | a renamed file never ends in ".stats" |
| Utils.CopyInto | core/utils.py:395 | copying succeeds exactly when no directory stands at a source or a copy; then exactly the copies are added |
| Utils.StatsFiles | core/utils.py:394 | the non-directory entries among those `glob("*.stats")` yields: exactly the existing ".stats" files (directories left out, see Left out) |
| Utils.RenamedStep | core/utils.py:400-407 | one more rename removes that file and adds its ".txt" namesake |
| Utils.RenamedInOrderIsRenamed | core/utils.py:400-407 | renaming one file at a time ends where renaming the whole set at once does, in any order |
| Utils.RenameEach | core/utils.py:400-407 | the rename loop succeeds exactly when no directory is in the way, and then renames each listed file |
| Utils.RenameStats | core/utils.py:400-407 | every ".stats" file becomes its ".txt" namesake; a directory in the way raises |
| Utils.NoStatsLeft | core/utils.py:400-407 | after the renames no ".stats" file is left; the model keeps ".stats" directories, which the source renames too (see Left out) |
| Utils.StatsRenamed | core/utils.py:400-407 | a ".stats" file copied in ends up as its ".txt" namesake |
| Utils.RenameKeepsTxt | core/utils.py:400-407 | the renames leave every ".txt" file where it was |
| Utils.TxtCopyAddsNoStats | core/utils.py:409-412 | copying ".txt" files adds no ".stats" file |
| Utils.ProcessCorestats | core/utils.py:366-414 | FileNotFoundError for a missing FreeSurfer folder; succeeds exactly when every mkdir, copy and rename fits, and then leaves exactly the `CorestatsResult` file system: files outside the target unchanged, every new file a ".txt" copy of an `mri` file or a renamed ".stats" file, every FreeSurfer ".stats" file there as ".txt", and no ".stats" file left |
| Utils.CorestatsResultFacts | core/utils.py:394-412 | the result holds the old folders plus the target and its parents, every FreeSurfer ".stats" file as ".txt", every `mri/*.txt` file, and no ".stats" file |
| Utils.CorestatsOutsideUnchanged | core/utils.py:388-412 | nothing outside the target folder changes |
| Utils.CorestatsNewEntries | core/utils.py:394-412 | every new file in the target is a ".txt" file copied from `mri` or renamed from a ".stats" file of the FreeSurfer `stats` folder or of the target |
| LegacyUtils.LegacyKeysDistinct | utils.py:42-51 | no folder key is listed twice |
| LegacyUtils.LegacyLayoutExtendsCore | utils.py:42-51 | the layout is the core one with FASTSURFER inserted after SAMSEG |
| LegacyUtils.LegacyFoldersUpperCase | utils.py:42-51 | each folder name is its key in upper case |
| LegacyUtils.CreateFolders | utils.py:38-54 | succeeds exactly when every folder can be made; returns the eight-key layout, and every folder then exists |
| LegacyUtils.Reconall | utils.py:77-153 | the same selection as the core version, and the same single workflow, but its crash is logged and nothing escapes |
| LegacyUtils.ProcessLesions | utils.py:156-179 | the core step with its crash logged: SAMSEG runs exactly when samseg.stats is absent |
| LegacyUtils.SegmentSubregions | utils.py:182-222 | the core step with its crash logged: the segmentation runs exactly when an output is missing |
| LegacyUtils.SegmentHypothalamus | utils.py:225-240 | the segmentation runs every time, exactly once, and nothing escapes |
| LegacyUtils.HypothalamusRerunsWhenDone | utils.py:225-240 | the legacy step equals the core one with its crash logged exactly when the CSV is absent |
| LegacyUtils.RunFastsurfer | utils.py:258-299 | nothing runs when all five outputs exist or the T1 file is missing; a missing T1 file escapes as an input error, a workflow crash is logged |
| LegacyUtils.RunFastsurferAgreesWithCore | utils.py:258-299 | without `--parallel`, the legacy step launches what the core one does and differs only in not re-raising the workflow crash |
| LegacyUtils.CopyStats | utils.py:321-333 | succeeds exactly when no directory stands in the way, and then adds exactly the copies of the source's ".stats" files; a missing source changes nothing |
| LegacyUtils.ProcessCorestats | utils.py:302-341 | FileNotFoundError for a missing FreeSurfer and then FastSurfer folder; succeeds exactly when every mkdir, copy and rename fits, and then leaves exactly the `CorestatsResult` file system: files outside the target unchanged, every new file a renamed ".stats" file, the ".stats" files of both sources there as ".txt", and no ".stats" file left |
| LegacyUtils.CorestatsResultFacts | utils.py:321-341 | the result holds the old folders plus the target and its parents, the ".stats" files of both sources as ".txt", and no ".stats" file |
| LegacyUtils.CorestatsOutsideUnchanged | utils.py:311-341 | nothing outside the target folder changes |
| LegacyUtils.CorestatsNewEntries | utils.py:321-341 | every new file in the target is a ".txt" file renamed from a ".stats" file of either source's `stats` folder or of the target |
| FastSurfer.Outputs | experimental/fastsurfer.py:39-45 | the five outputs under `sd / sid` |
| FastSurfer.Step | experimental/fastsurfer.py:35-66 | nothing runs when all outputs exist or the T1 file is missing; a missing T1 file raises; otherwise one launch, whose crash escapes only when re-raised |
| FastSurfer.RunFastsurfer | experimental/fastsurfer.py:35-66 | no workflow when all outputs exist; otherwise exactly one run without `--parallel`, whose crash escapes |
| FastSurfer.RunFastsurferForSeries | experimental/fastsurfer.py:68-83 | the step's arguments: the series' T1.mgz, the series as subject, the FastSurfer folder, and `max(1, cpu_count)` threads; an unknown CPU count raises |
| FastSurfer.SeriesRuns | experimental/fastsurfer.py:96-101 | one step per folder, in order |
| FastSurfer.FallbackMissedOnMac | experimental/fastsurfer.py:92-93 | as written, the fallback switch stays unset on macOS, where the corrected version sets it |
| FastSurfer.FallbackEnvAsWritten | experimental/fastsurfer.py:92-93 | as written, the environment is never changed, since the module is compared with a string |
| FastSurfer.FallbackEnv | experimental/fastsurfer.py:92-93 | on macOS the MPS fallback switch is "1", elsewhere the environment is unchanged, and no other variable changes |
| FastSurfer.RunFastsurferForAll | experimental/fastsurfer.py:85-105 | the environment as the program leaves it (unchanged, see Findings), then every series' step in order with the first exception surfacing; an unknown CPU count raises before any dispatch (the cancellation of unstarted series after a failure is not modelled, see Left out) |
| FastSurfer.ForAllDispatchesEach | experimental/fastsurfer.py:96-101 | every series' launches are in the modelled run, and the run raises exactly when some series does (the source may cancel series after the first failure, see Left out) |
| Processing.Basename | core/processing.py:69 | `os.path.basename` is the text after the last '/', the whole name when it has none |
| Processing.SpacesReplaced | core/processing.py:65 | `replace(" ", "_")` turns every space into an underscore and changes nothing else |
| Processing.Child | core/processing.py:66 | `dir / name` with an empty name is `dir` |
| Processing.SeriesFolder | core/processing.py:65 | the description with every space replaced by '_', or "UNKNOWN" when it is missing |
| Processing.SeriesPath | core/processing.py:64-69 | the destination is the DICOM folder, then the series folder (none for an empty description), then the base name with ".dcm" added |
| Processing.Destination | core/processing.py:54-70 | a file is saved exactly when its name does not mention DICOMDIR in any case, it reads, and it is no DICOMDIR record; then at `SeriesPath`: the series folder under the DICOM folder and the base name with ".dcm" added |
| Processing.SaveDicoms | core/processing.py:49-73 | the saved paths are exactly the destinations of the uploads, in upload order |
| Processing.DicomdirNeverSaved | core/processing.py:56-58 | a file named like DICOMDIR contributes no saved path |
| Processing.ConvertToNifti | core/processing.py:75-89 | raises exactly when the DICOM folder cannot be listed; otherwise one conversion per series folder to `<folder>.nii.gz`, and exactly the non-failing ones are written |
| Processing.NiftiNameInjective | core/processing.py:81 | distinct series give distinct NIfTI files |
| Processing.LesionRuns | core/processing.py:119 | one lesion step per folder, in order |
| Processing.ProcessLesionsForAll | core/processing.py:114-120 | every series' lesion step is launched and none of their crashes surfaces; an unknown CPU count raises |
| Processing.StructureRuns | core/processing.py:127-131 | the three structures of a series in order, each crash logged |
| Processing.SubregionRunsStep | core/processing.py:126-131 | one more series adds its three structures after those before it |
| Processing.SegmentSubregionsForAll | core/processing.py:122-132 | every (series, structure) step in turn; the stage never raises |
| Processing.SegmentStructures | core/processing.py:127-131 | one series' three structures follow the steps before them, and nothing escapes |
| Processing.SubregionsOrder | core/processing.py:126-131 | the launches are those of the series before, then this series' thalamus, brainstem and hippo-amygdala, then those of the series after |
| Processing.SubregionRunsSplit | core/processing.py:126-131 | the steps of all series split around any one series |
| Processing.ThreeLaunches | core/processing.py:127 | three runs in turn launch what each launches, in order |
| Processing.HypothalamusRuns | core/processing.py:138-142 | one hypothalamus step per folder, each crash logged |
| Processing.SegmentHypothalamusForAll | core/processing.py:134-143 | every series' step in turn; the stage never raises |
| Processing.CorestatsTask | core/processing.py:177-188 | a missing FreeSurfer folder raises; it succeeds exactly when `process_corestats` does, and leaves its result: new folders only, the target among them, nothing outside the target changed |
| Processing.ProcessCorestatsForAll | core/processing.py:190-207 | an unknown CPU count raises with nothing done; otherwise the file system left by the series run in turn, and an exception escapes exactly when some series' task raises; no folder disappears, and without an exception every series' folder exists |
| Processing.CorestatsRunStep | core/processing.py:196-206 | one more task applies `process_corestats` to what the earlier ones left, or nothing when it raises |
| Processing.CorestatsRunRaised | core/processing.py:196-206 | series `i` raises exactly when `process_corestats` fails on what the earlier series left |
| Processing.CorestatsRunDirs | core/processing.py:196-206 | no folder disappears, and every series whose task did not raise has its folder |
| Processing.CorestatsRunOutside | core/processing.py:196-206 | files outside every series' target folder are as before |
| Processing.WriteAverage | core/processing.py:168-170 | one average raises exactly when a series file cannot be opened; otherwise only its AVERAGES file changes and holds the average of the series documents |
| Processing.SeriesFilesUntouched | core/processing.py:168-170 | writing a file that is no series file changes neither the averaged inputs nor which files fail |
| Processing.AveragesApart | core/processing.py:165-170 | an average file is not a series file unless a series is named AVERAGES |
| Processing.AverageAll | core/processing.py:167-174 | only the three average files change; with no series named AVERAGES, the block raises exactly when a series file cannot be opened, and otherwise each kind's average is over the series documents as they were before |
| Processing.OneAverageWritten | core/processing.py:168-170 | writing one average document keeps everything else |
| Processing.SameOutsideTransitive | core/processing.py:168-170 | the averages written in turn keep everything else |
| Processing.GenerateJsonFiles | core/processing.py:146-175 | the first series whose reports fail surfaces before any averaging; otherwise the three averages and then the global documents, which are gathered from the files |
| Processing.ReadJsonFile | core/processing.py:299-308 | `{}` for a missing file; otherwise the decoded document, and any other failure escapes |
| Processing.FailureTag | core/processing.py:42-47 | the failure tag is "failed_" followed by the stage tag |
| Processing.StageTagsAreNotFailures | core/processing.py:225-294 | no stage tag is a failure tag |
| Processing.FirstFailure | core/processing.py:223-294 | the first stage that raised, or the number of stages when none did |
| Processing.FirstFailureIs | core/processing.py:223-294 | the first failure is the stage every earlier stage lets through |
| Processing.Entered | core/processing.py:214-294 | at most every stage is entered; every stage before the last one entered went through, and a last one entered before the end, past the upload, raised |
| Processing.Notices | core/processing.py:225-294 | one notice per stage entered: its tag or its failure tag |
| Processing.AllStagesReported | core/processing.py:223-294 | a run in which nothing raises enqueues dicom, nifti, recon, lesions, subs, hyp, json, corestats in order |
| Processing.FailFast | core/processing.py:223-294 | when stage `k` is the first to raise, the queue gets the tags before it and then its failure tag, and no later stage is entered |
| Processing.NoticesArePrefix | core/processing.py:214-294 | the queue always gets a prefix of the stage tags, possibly ending in one failure tag |
| Processing.Pipeline.constructor | core/processing.py:31-33 | an empty queue and the given flag |
| Processing.Pipeline.NotifyStep | core/processing.py:36-40 | enqueues exactly the tag |
| Processing.Pipeline.NotifyFailure | core/processing.py:42-47 | enqueues exactly the failure tag |
| Processing.Pipeline.Stage | core/processing.py:223-229 | a stage goes on exactly when it did not raise, and enqueues its tag or its failure tag |
| Processing.Pipeline.RunStages | core/processing.py:214-294 | the stages entered, their notices enqueued in order, and the exception of the folder creation or of the listing escaping |
| Processing.Pipeline.LaterStages | core/processing.py:233-294 | the stages after the upload, each reported, up to the first that fails |
| Processing.Pipeline.RunProcessing | core/processing.py:209-297 | the stages and their notices as in `RunStages`, and the processing flag cleared on every way out |

## Left out

- Flask routing, the upload request and the admission of a run (`is_set`/`set` of the processing flag) live
  outside the modelled files; only the clearing of the flag is modelled.
- pydicom, dicom2nifti, nibabel, nipype, pandas and the external tools are not modelled as code:
  - a DICOM file is given by its header (`Processing.Header`);
  - a conversion or tool crash is membership of its command in `failing`;
  - the hypothalamus CSV is given as its first record, an ordered list of columns.
- `get_nifti_dimensions` in both utils files is not modelled: it only loads an image with nibabel.
- The thread pools run in parallel; the model runs their tasks in submission order. Completion order is not
  modelled.
- FastSurfer.RunFastsurferForAll and FastSurfer.ForAllDispatchesEach: the model launches the steps of every
  series. In the source, once `list(executor.map(...))` meets a series whose step raised, the pool cancels the
  series it has not started yet; which ones these are depends on timing and on `os.cpu_count()`. So
  `run.launched` may name commands of later series that the source never launches. The error raised (that of
  the first failing series in folder order) and the launches of every series up to and including that one are
  as in the source; when no series raises, every launch is.
- Processing.ProcessCorestatsForAll: states that the stage raises exactly when some series' task raises, but
  not which error it re-raises. `as_completed` surfaces the error of the first task to finish, which depends
  on timing.
- Processing.ProcessCorestatsForAll: does not state the folders of a series whose task failed part-way.
- Logging, timing (`time.time()` in `run_reconall`) and the `print` warnings of the legacy average are not
  modelled.
- `run_reconall` is `Utils.Reconall` itself: its `resolve()` of the base path and its logging are left out.
- `run_jsonifier` in both jsonifier files writes three files whose contents are the modelled reports.
  `Processing.GenerateJsonFiles` takes the outcome of each series' `run_jsonifier` as an input.
- The legacy `run_jsonifier` and `run_global_json` of `jsonifier.py` are not modelled. The latter reads a fixed
  relative path; the core versions are modelled.
- Writing JSON files is assumed to succeed, and the write errors the core logs are not modelled.
- `mkdir` of the series and AVERAGES folders in `generate_json_files` and `save_dicoms` is assumed to succeed.
- Processing.SaveDicoms: does not model a failing `mkdir` or `save`, which the source logs and skips.
- A series description containing '/' is treated as one path component.
- Paths are sequences of components. `resolve()` and symbolic links are not modelled, so `base / "NIFTI"` is
  only equal to itself.
- Utils.StatsFiles, Utils.RenameStats, Utils.NoStatsLeft, Utils.ProcessCorestats, LegacyUtils.ProcessCorestats:
  the model globs only the non-directory `*.stats` entries. `glob("*.stats")` in the source also yields
  directories, and `rename` renames a directory `x.stats` already in the target folder to `x.txt`
  (core/utils.py:400-403, utils.py:335-337); the model leaves such a directory under its `.stats` name. A
  `*.stats` directory in a source `stats` folder makes the copy fail in both, as `shutil.copy2` does.
- `wf_dir`, `fs_dir` and the workflow names only place nipype's working files and are not modelled.
- `Steps.Command` keeps the arguments of a tool in the order of nipype's input names. The exact command-line
  order nipype produces is not modelled.
- Numbers are exact reals:
  - `Numbers.ParseNum` accepts decimal and exponent forms but not "inf", "nan" or underscores;
  - `Numbers.ParseInt` accepts an optional sign and digits, but not the underscores (`"1_000"`) or the
    surrounding whitespace Python's `int()` also takes;
  - `Numbers.Round2` rounds the exact value half to even, where Python rounds the nearest binary float;
  - no IEEE rounding error is modelled.
- Text.Split: its own contract states only that every token is a word. That the tokens are the maximal
  whitespace-free runs of the line, in order, is stated by `SplitLayout` and `SplitSpaced`.
- Numbers.Round2: its contract states a whole number of hundredths within 0.005 of `x`. Which way an exact
  tie goes (half to even) is given by its body.
- Numbers.ParseNum: its contract states only that the empty token is rejected. The accepted grammar (an optional
  sign, digits with an optional point, an optional exponent) is given by its body.
- Jsonifier.GetGeneral and LegacyJsonifier.GetGeneral: the contracts state the keys. The aseg list is stated by
  `GeneralPartitionsAseg` and `GeneralReport`; the lesion list is given by the body.
- Jsonifier.Cortical: the contract states the keys. The values are stated by `BrainVolumes` and `ParseDkt`; the
  white-matter list is given by the body.
- LegacyJsonifier.GetCortical: the contract states the keys. The brain and atlas lists are stated by
  `CorticalAgainstCore`, the white-matter list by `WhiteMatterRows` and `WhiteMatterOneRowMore`.
- Text.Lower and Text.Upper: map ASCII letters only; other Unicode case mappings are not modelled.
- JsonAverage.StructureOf: takes only a non-empty string `Structure` as a group key. Python groups an entry
  under any truthy value (a non-zero number, `true`, a non-empty list or object) and raises on an unhashable
  or unsortable one. The reports `run_jsonifier` writes always hold string structures.
- Records are maps from keys to values, so the key order of a JSON object is not modelled.
- LegacyJsonifier.TokenRowsDropEmptyRows: both readers are given the same list of lines. The core reader
  splits with `str.splitlines`, which also breaks at "\v", "\f", "\x1c"-"\x1e", "\x85", "\u2028" and
  "\u2029"; `readlines` in text mode breaks only at "\n", "\r" and "\r\n". The lemma relates the two readers
  on files without those extra separators.
- LegacyJsonifier.TokenRowsPrefix: holds, like the lemma above, only on files without the extra separators of
  `str.splitlines`.
- LegacyJsonifier.RowsWithoutBlankLines: holds, like the two lemmas above, only on files without the extra
  separators of `str.splitlines`.
- JSON values are strings, numbers, booleans, `null` or an opaque nested value. Nested arrays and objects are
  not looked into, which the averaging never needs.
- JsonAverage.JsonFile: both versions of `run_json_average` take each decoded file to be a JSON object and a
  top key's value to be a list of records, as the reports written by `run_jsonifier` are. A file holding
  another JSON value (a list, a number) raises AttributeError at `data.items()` in the source
  (core/jsonifier.py:328, jsonifier.py:284), outside its `try`; the model has no such file.

## Findings

| source | as written | input that shows it | evidently intended | confidence | as-written member | corrected member |
|---|---|---|---|---|---|---|
| experimental/fastsurfer.py:92 | `platform == "darwin"` compares the imported `platform` module with a string, which is never equal | any run on macOS, where `platform.system()` is "Darwin": `PYTORCH_ENABLE_MPS_FALLBACK` is never set | set the MPS fallback switch when `platform.system() == "Darwin"` | not executed | FastSurfer.FallbackEnvAsWritten, FastSurfer.FallbackMissedOnMac | FastSurfer.FallbackEnv |

## Docstrings and comments against the code

The model follows the code where the two part.

- `read_volume_file_skip` (core/jsonifier.py:30-35) says it skips the first `skip` lines. It drops the blank
  lines first and then skips `skip` rows, so a blank line inside a header does not shift the data
  (`Jsonifier.ReadVolumeFileSkip`).
- `run_processing` (core/processing.py:210-212) says a failing step is notified and stops the processing. The
  subregion and hypothalamus loops (core/processing.py:122-145) log each crash and return normally, and
  `process_lesions_for_all` (core/processing.py:114-120) never reads the results of `executor.map`. A crash in
  these stages neither notifies a failure nor stops the pipeline (`Processing.SegmentHypothalamusForAll`,
  `Processing.Pipeline.RunStages`).
- The comments in the older `process_hypothalamus_v2` and `process_cerebellum` (jsonifier.py:119-120, 141-142)
  skip a row whose volume is not a number. In that file only those two parsers do this; its other parsers are
  comprehensions that raise on such a row (`LegacyJsonifier.ProcessHypothalamusV2`, `LegacyJsonifier.PairedEntry`,
  `LegacyJsonifier.BrainvolEntry`, `LegacyJsonifier.GetCortical`).
- In core/jsonifier.py every parser written as a loop logs and skips such a row: `process_paired_volumes` (:55),
  `process_brain_stem` (:86), `process_thalamus` (:108), `process_hypothalamus_v2` (:158-159),
  `process_cerebellum` (:177-178), the brain-volume loop of `get_cortical` (:223) and `parse_dkt` (:253). Only
  its comprehensions raise `ValueError`: the aseg list of `get_general` (:272-276), the two lists of
  `get_lesions` (:199-208) and the white-matter lists of `get_cortical` (:227-234)
  (`Jsonifier.ProcessPairedVolumes`, `Jsonifier.BrainVolumes`, `Jsonifier.ParseDkt`,
  `Jsonifier.GeneralPartitionsAseg`).
- `process_corestats` (core/utils.py:381-383) documents `FileNotFoundError` for a missing FreeSurfer directory
  and passes on every copy and rename error. `process_corestats_for_series` (core/processing.py:176-189) logs
  and re-raises them, so one failing series makes the whole stage raise once the pool has finished
  (`Processing.ProcessCorestatsForAll`).
- `run_json_average` (core/jsonifier.py:308-312) says it averages the files of every folder. It skips missing
  and undecodable files but raises on a file that exists and cannot be opened (`JsonAverage.RunJsonAverage`).
