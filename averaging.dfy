/** `run_json_average` and `run_global_json` of core/jsonifier.py: per-series
    JSON documents are summed and counted per (top-level key, Structure), the
    means rounded to two places and each list sorted by Structure; the global
    documents gather every series' documents under the series name. */
module JsonAverage {
  import opened Wrappers
  import opened Text
  import opened Numbers
  import opened Files
  import opened Records

  /** A JSON file as `json.load` meets it: a parsed object, text that does not
      decode, or a path that cannot be opened for reading (a directory, say). */
  datatype JsonFile = Parsed(doc: Doc) | Malformed | Unreadable

  /** The JSON files present on disk. */
  type JsonFiles = map<Path, JsonFile>

  /** One entry of a document together with the top-level key it sits under. */
  type Entry = (string, Record)

  const AVERAGES := "AVERAGES"

  // ---------------------------------------------------------------------------
  // What an entry contributes

  /** `entry.get("Structure")` when it is a non-empty string; an entry without
      one is skipped. */
  function StructureOf(r: Record): (s: Option<string>)
    ensures s.Some? <==> STRUCTURE in r && r[STRUCTURE].Str? && r[STRUCTURE].s != []
    ensures s.Some? ==> r[STRUCTURE] == Str(s.value)
  {
    if STRUCTURE in r && r[STRUCTURE].Str? && r[STRUCTURE].s != [] then Some(r[STRUCTURE].s) else None
  }

  /** `isinstance(value, (int, float))`, with a boolean counting as 1 or 0. */
  function NumericValue(v: Value): Option<real> {
    match v
    case Num(x) => Some(x)
    case Bool(b) => Some(if b then 1.0 else 0.0)
    case _ => None
  }

  /** What entry `e` adds to the running total of field `k` of structure `s`
      under top key `t`. */
  function Contribution(e: Entry, t: string, s: string, k: string): Option<real> {
    if e.0 == t && StructureOf(e.1) == Some(s) && k != STRUCTURE && k in e.1 then NumericValue(e.1[k])
    else None
  }

  function OrZero(x: Option<real>): real {
    if x.Some? then x.value else 0.0
  }

  // ---------------------------------------------------------------------------
  // The reference sums, counts and field sets over all entries read

  /** How many entries name structure `s` under top key `t`. */
  function Count(es: seq<Entry>, t: string, s: string): nat {
    if es == [] then 0
    else
      var e := es[|es| - 1];
      Count(es[..|es| - 1], t, s) + if e.0 == t && StructureOf(e.1) == Some(s) then 1 else 0
  }

  /** The fields of structure `s` under `t` that received a numeric value. */
  function Fields(es: seq<Entry>, t: string, s: string): set<string> {
    if es == [] then {}
    else
      var e := es[|es| - 1];
      Fields(es[..|es| - 1], t, s) + set k | k in e.1.Keys && Contribution(e, t, s, k).Some?
  }

  /** The sum of the numeric values of field `k` of structure `s` under `t`. */
  function Total(es: seq<Entry>, t: string, s: string, k: string): real {
    if es == [] then 0.0
    else Total(es[..|es| - 1], t, s, k) + OrZero(Contribution(es[|es| - 1], t, s, k))
  }

  /** The averaged entry of structure `s` under `t`: every field that received
      a number, its total over ALL the structure's entries (those lacking the
      field included) rounded to two places. */
  function AverageOf(es: seq<Entry>, t: string, s: string): Record
    requires Count(es, t, s) > 0
  {
    (map k | k in Fields(es, t, s) :: Num(Round2(Total(es, t, s, k) / Count(es, t, s) as real)))[STRUCTURE := Str(s)]
  }

  /** Adding one entry updates the reference values by that entry alone. */
  lemma AppendEntry(es: seq<Entry>, x: Entry)
    ensures forall t, s :: Count(es + [x], t, s) == Count(es, t, s) + if x.0 == t && StructureOf(x.1) == Some(s) then 1 else 0
    ensures forall t, s, k :: k in Fields(es + [x], t, s) <==> k in Fields(es, t, s) || Contribution(x, t, s, k).Some?
    ensures forall t, s, k :: Total(es + [x], t, s, k) == Total(es, t, s, k) + OrZero(Contribution(x, t, s, k))
  {
    assert (es + [x])[..|es|] == es;
  }

  /** A field that never received a number has a zero total. */
  lemma {:induction false} TotalWithoutField(es: seq<Entry>, t: string, s: string, k: string)
    requires k !in Fields(es, t, s)
    ensures Total(es, t, s, k) == 0.0
    decreases |es|
  {
    if es != [] {
      var e := es[|es| - 1];
      TotalWithoutField(es[..|es| - 1], t, s, k);
    }
  }

  /** Count, fields and totals add up over concatenated entry lists. */
  lemma {:induction false} AppendEntries(es: seq<Entry>, ds: seq<Entry>, t: string, s: string, k: string)
    ensures Count(es + ds, t, s) == Count(es, t, s) + Count(ds, t, s)
    ensures k in Fields(es + ds, t, s) <==> k in Fields(es, t, s) || k in Fields(ds, t, s)
    ensures Total(es + ds, t, s, k) == Total(es, t, s, k) + Total(ds, t, s, k)
    decreases |ds|
  {
    if ds == [] {
      assert es + ds == es;
    } else {
      var init := ds[..|ds| - 1];
      var x := ds[|ds| - 1];
      assert es + ds == (es + init) + [x];
      AppendEntries(es, init, t, s, k);
      AppendEntry(es + init, x);
      AppendEntry(init, x);
      assert init + [x] == ds;
    }
  }

  /** An entry whose Structure is missing or empty is skipped: the averages
      are those of the entries around it. */
  lemma UnnamedEntryIgnored(es: seq<Entry>, x: Entry, ds: seq<Entry>, t: string, s: string, k: string)
    requires StructureOf(x.1).None?
    ensures Count(es + [x] + ds, t, s) == Count(es + ds, t, s)
    ensures k in Fields(es + [x] + ds, t, s) <==> k in Fields(es + ds, t, s)
    ensures Total(es + [x] + ds, t, s, k) == Total(es + ds, t, s, k)
  {
    AppendEntries(es + [x], ds, t, s, k);
    AppendEntries(es, ds, t, s, k);
    AppendEntry(es, x);
  }

  // ---------------------------------------------------------------------------
  // Documents as entry lists

  /** `[(t, r) for r in rs]`. */
  function Tag(t: string, rs: seq<Record>): (r: seq<Entry>)
    ensures |r| == |rs| && forall i | 0 <= i < |rs| :: r[i] == (t, rs[i])
  {
    seq(|rs|, i requires 0 <= i < |rs| => (t, rs[i]))
  }

  /** The entries of a document in file order, each tagged with its top key. */
  function DocEntries(doc: Doc): seq<Entry> {
    if doc == [] then []
    else
      var (t, rs) := doc[|doc| - 1];
      DocEntries(doc[..|doc| - 1]) + Tag(t, rs)
  }

  function AllEntries(docs: seq<Doc>): seq<Entry> {
    if docs == [] then [] else AllEntries(docs[..|docs| - 1]) + DocEntries(docs[|docs| - 1])
  }

  /** A document's top-level keys in file order. */
  function DocKeys(doc: Doc): (r: seq<string>)
    ensures |r| == |doc| && forall i | 0 <= i < |doc| :: r[i] == doc[i].0
  {
    seq(|doc|, i requires 0 <= i < |doc| => doc[i].0)
  }

  function AllKeys(docs: seq<Doc>): seq<string> {
    if docs == [] then [] else AllKeys(docs[..|docs| - 1]) + DocKeys(docs[|docs| - 1])
  }

  /** The distinct keys of `ks` in order of first appearance: the key order of
      a dictionary filled with `ks`. */
  function FirstAppearance(ks: seq<string>): seq<string> {
    if ks == [] then []
    else
      var r := FirstAppearance(ks[..|ks| - 1]);
      if ks[|ks| - 1] in r then r else r + [ks[|ks| - 1]]
  }

  /** The dictionary order holds every key once and nothing else. */
  lemma {:induction false} FirstAppearanceKeys(ks: seq<string>)
    ensures forall x :: x in FirstAppearance(ks) <==> x in ks
    ensures forall i, j | 0 <= i < j < |FirstAppearance(ks)| :: FirstAppearance(ks)[i] != FirstAppearance(ks)[j]
    decreases |ks|
  {
    if ks != [] {
      var init := ks[..|ks| - 1];
      FirstAppearanceKeys(init);
      assert ks == init + [ks[|ks| - 1]];
    }
  }

  // ---------------------------------------------------------------------------
  // The specification of one averaged document

  predicate Named(r: Record) {
    STRUCTURE in r && r[STRUCTURE].Str?
  }

  function NameOf(r: Record): string
    requires Named(r)
  {
    r[STRUCTURE].s
  }

  /** Every record carries a Structure name and the names strictly increase. */
  predicate SortedByName(rs: seq<Record>) {
    (forall i | 0 <= i < |rs| :: Named(rs[i]))
    && forall i, j | 0 <= i < j < |rs| :: StrLess(NameOf(rs[i]), NameOf(rs[j]))
  }

  /** The list under top key `t`: exactly one averaged entry per structure seen
      under `t`, sorted by Structure. */
  ghost predicate AveragedList(rs: seq<Record>, es: seq<Entry>, t: string) {
    SortedByName(rs)
    && (forall r | r in rs :: Named(r) && Count(es, t, NameOf(r)) > 0 && r == AverageOf(es, t, NameOf(r)))
    && (forall s | Count(es, t, s) > 0 :: AverageOf(es, t, s) in rs)
  }

  /** What `run_json_average` writes for the documents `docs` it read: the top
      keys in order of first appearance, each with its averaged list. */
  ghost predicate IsAverage(out: Doc, docs: seq<Doc>) {
    DocKeys(out) == FirstAppearance(AllKeys(docs))
    && forall j | 0 <= j < |out| :: AveragedList(out[j].1, AllEntries(docs), out[j].0)
  }

  /** Two lists sorted strictly by name with the same members are equal. */
  lemma {:induction false} SortedSameMembers(a: seq<Record>, b: seq<Record>)
    requires SortedByName(a) && SortedByName(b)
    requires forall r :: r in a <==> r in b
    ensures a == b
    decreases |a|
  {
    assert b != [] ==> b[0] in a;
    if a != [] {
      SortedHeadsEqual(a, b);
      SortedTailsSameMembers(a, b);
      assert SortedByName(a[1..]) && SortedByName(b[1..]);
      SortedSameMembers(a[1..], b[1..]);
      assert a == [a[0]] + a[1..] && b == [b[0]] + b[1..];
    }
  }

  /** Sorted lists with the same members start alike. */
  lemma SortedHeadsEqual(a: seq<Record>, b: seq<Record>)
    requires SortedByName(a) && SortedByName(b)
    requires forall r :: r in a <==> r in b
    requires a != []
    ensures b != [] && a[0] == b[0]
  {
    assert a[0] in b;
    var k :| 0 <= k < |b| && b[k] == a[0];
    assert b[0] in a;
    var m :| 0 <= m < |a| && a[m] == b[0];
    if k > 0 {
      if m == 0 {
        StrLessIrreflexive(NameOf(a[0]));
      } else {
        StrLessAsymmetric(NameOf(a[0]), NameOf(b[0]));
      }
      assert false;
    }
  }

  /** ... and then have tails with the same members. */
  lemma SortedTailsSameMembers(a: seq<Record>, b: seq<Record>)
    requires SortedByName(a) && SortedByName(b)
    requires forall r :: r in a <==> r in b
    requires a != [] && b != [] && a[0] == b[0]
    ensures forall r :: r in a[1..] <==> r in b[1..]
  {
    forall r
      ensures r in a[1..] <==> r in b[1..]
    {
      if r in a[1..] {
        var i :| 1 <= i < |a| && a[i] == r;
        assert r in a;
        assert r != a[0] by {
          StrLessIrreflexive(NameOf(a[0]));
        }
        var j :| 0 <= j < |b| && b[j] == r;
        assert b[1..][j - 1] == r;
      }
      if r in b[1..] {
        var i :| 1 <= i < |b| && b[i] == r;
        assert r in b;
        assert r != b[0] by {
          StrLessIrreflexive(NameOf(b[0]));
        }
        var j :| 0 <= j < |a| && a[j] == r;
        assert a[1..][j - 1] == r;
      }
    }
  }

  /** The specification pins the averaged document down completely. */
  lemma AverageIsUnique(out1: Doc, out2: Doc, docs: seq<Doc>)
    requires IsAverage(out1, docs) && IsAverage(out2, docs)
    ensures out1 == out2
  {
    var es := AllEntries(docs);
    assert |out1| == |out2|;
    forall j | 0 <= j < |out1|
      ensures out1[j] == out2[j]
    {
      assert out1[j].0 == DocKeys(out1)[j] == DocKeys(out2)[j] == out2[j].0;
      var t := out1[j].0;
      assert AveragedList(out1[j].1, es, t) && AveragedList(out2[j].1, es, t);
      forall r
        ensures r in out1[j].1 <==> r in out2[j].1
      {
        if r in out1[j].1 {
          assert AverageOf(es, t, NameOf(r)) in out2[j].1;
        }
        if r in out2[j].1 {
          assert AverageOf(es, t, NameOf(r)) in out1[j].1;
        }
      }
      SortedSameMembers(out1[j].1, out2[j].1);
    }
  }

  // ---------------------------------------------------------------------------
  // Sorting a list by Structure

  function Insert(rs: seq<Record>, x: Record): (r: seq<Record>)
    requires SortedByName(rs) && Named(x)
    requires forall i | 0 <= i < |rs| :: NameOf(rs[i]) != NameOf(x)
    ensures SortedByName(r)
    ensures multiset(r) == multiset(rs) + multiset{x}
  {
    if rs == [] then [x]
    else if StrLess(NameOf(x), NameOf(rs[0])) then
      InsertFront(rs, x);
      [x] + rs
    else
      var rest := Insert(rs[1..], x);
      InsertBehind(rs, x, rest);
      [rs[0]] + rest
  }

  /** A record named before the head of a sorted list goes in front. */
  lemma InsertFront(rs: seq<Record>, x: Record)
    requires SortedByName(rs) && Named(x) && rs != [] && StrLess(NameOf(x), NameOf(rs[0]))
    ensures SortedByName([x] + rs)
  {
    forall i | 1 <= i < |rs| ensures StrLess(NameOf(x), NameOf(rs[i])) {
      StrLessTransitive(NameOf(x), NameOf(rs[0]), NameOf(rs[i]));
    }
  }

  /** A record named after the head of a sorted list goes into its tail. */
  lemma InsertBehind(rs: seq<Record>, x: Record, rest: seq<Record>)
    requires SortedByName(rs) && Named(x) && rs != [] && !StrLess(NameOf(x), NameOf(rs[0]))
    requires forall i | 0 <= i < |rs| :: NameOf(rs[i]) != NameOf(x)
    requires SortedByName(rest) && multiset(rest) == multiset(rs[1..]) + multiset{x}
    ensures SortedByName([rs[0]] + rest)
    ensures multiset([rs[0]] + rest) == multiset(rs) + multiset{x}
  {
    StrLessTotal(NameOf(x), NameOf(rs[0]));
    assert rs == [rs[0]] + rs[1..];
    forall i | 0 <= i < |rest| ensures StrLess(NameOf(rs[0]), NameOf(rest[i])) {
      assert rest[i] in multiset(rest);
      if rest[i] != x {
        assert rest[i] in rs[1..];
      }
    }
  }

  /** `list.sort(key=lambda x: x["Structure"])` on records with distinct
      Structure names. */
  function SortByStructure(rs: seq<Record>): (r: seq<Record>)
    requires forall i | 0 <= i < |rs| :: Named(rs[i])
    requires forall i, j | 0 <= i < j < |rs| :: NameOf(rs[i]) != NameOf(rs[j])
    ensures SortedByName(r)
    ensures multiset(r) == multiset(rs)
  {
    if rs == [] then []
    else
      var init := rs[..|rs| - 1];
      var sorted := SortByStructure(init);
      InsertableLast(rs, sorted);
      Insert(sorted, rs[|rs| - 1])
  }

  /** The last of records with distinct names can go into the sorted rest. */
  lemma InsertableLast(rs: seq<Record>, sorted: seq<Record>)
    requires rs != []
    requires forall i | 0 <= i < |rs| :: Named(rs[i])
    requires forall i, j | 0 <= i < j < |rs| :: NameOf(rs[i]) != NameOf(rs[j])
    requires multiset(sorted) == multiset(rs[..|rs| - 1])
    ensures forall i | 0 <= i < |sorted| :: Named(sorted[i]) && NameOf(sorted[i]) != NameOf(rs[|rs| - 1])
    ensures multiset(rs) == multiset(sorted) + multiset{rs[|rs| - 1]}
  {
    var init := rs[..|rs| - 1];
    forall i | 0 <= i < |sorted|
      ensures Named(sorted[i]) && NameOf(sorted[i]) != NameOf(rs[|rs| - 1])
    {
      assert sorted[i] in multiset(sorted);
      assert sorted[i] in init;
    }
    assert rs == init + [rs[|rs| - 1]];
  }

  // ---------------------------------------------------------------------------
  // Accumulation

  /** The running sums of `run_json_average`: `counts[t][s]` as
      `counts[(t, s)]` and `cumulative_data[t][s][k]` as `totals[(t, s, k)]`.
      The insertion order of `cumulative_data`'s top keys is kept beside it,
      as a sequence `tops`. */
  datatype Sums = Sums(counts: map<(string, string), nat>, totals: map<(string, string, string), real>)

  const NoSums := Sums(map[], map[])

  /** The counts and totals are those of the entries `es` read so far. */
  ghost predicate Tallies(acc: Sums, es: seq<Entry>) {
    CountsMatch(acc.counts, es) && TotalsMatch(acc.totals, es)
  }

  ghost predicate CountsMatch(counts: map<(string, string), nat>, es: seq<Entry>) {
    (forall p :: p in counts <==> Count(es, p.0, p.1) > 0)
    && (forall p | p in counts :: counts[p] == Count(es, p.0, p.1))
  }

  ghost predicate TotalsMatch(totals: map<(string, string, string), real>, es: seq<Entry>) {
    (forall q :: q in totals <==> q.2 in Fields(es, q.0, q.1))
    && (forall q | q in totals :: totals[q] == Total(es, q.0, q.1, q.2))
  }

  lemma NoSumsTallies()
    ensures Tallies(NoSums, [])
  {
  }

  /** One entry of one top key: skipped without a Structure, otherwise counted
      once and each numeric field added to its total. */
  method AddEntry(acc: Sums, top: string, entry: Record, ghost es: seq<Entry>) returns (next: Sums)
    requires Tallies(acc, es)
    ensures Tallies(next, es + [(top, entry)])
  {
    var structure := StructureOf(entry);
    if structure.None? {
      AppendEntry(es, (top, entry));
      return acc;
    }
    var s := structure.value;
    var count := if (top, s) in acc.counts then acc.counts[(top, s)] else 0;
    var counts := acc.counts[(top, s) := count + 1];
    AppendEntry(es, (top, entry));
    var totals := AddFields(acc.totals, top, s, entry, es);
    next := Sums(counts, totals);
  }

  /** The fields of one named entry: every numeric value other than the
      Structure itself is added to its running total. */
  method AddFields(totals: map<(string, string, string), real>, top: string, s: string, entry: Record, ghost es: seq<Entry>)
    returns (next: map<(string, string, string), real>)
    requires StructureOf(entry) == Some(s)
    requires TotalsMatch(totals, es)
    ensures TotalsMatch(next, es + [(top, entry)])
  {
    next := totals;
    var pending := entry.Keys;
    while pending != {}
      invariant pending <= entry.Keys
      invariant forall q :: (q in next <==>
        q.2 in Fields(es, q.0, q.1) || (q.2 !in pending && Contribution((top, entry), q.0, q.1, q.2).Some?))
      invariant forall q | q in next :: (next[q] ==
        Total(es, q.0, q.1, q.2) + if q.2 !in pending then OrZero(Contribution((top, entry), q.0, q.1, q.2)) else 0.0)
      decreases pending
    {
      var key :| key in pending;
      if key != STRUCTURE {
        var v := NumericValue(entry[key]);
        if v.Some? {
          assert Contribution((top, entry), top, s, key) == v;
          var sum := if (top, s, key) in next then next[(top, s, key)] else 0.0;
          if (top, s, key) !in next {
            TotalWithoutField(es, top, s, key);
          }
          next := next[(top, s, key) := sum + v.value];
        }
      }
      pending := pending - {key};
    }
    AppendEntry(es, (top, entry));
  }

  /** The entries of one top key, in order. */
  method AddEntries(acc: Sums, top: string, entries: seq<Record>, ghost es: seq<Entry>) returns (next: Sums)
    requires Tallies(acc, es)
    ensures Tallies(next, es + Tag(top, entries))
  {
    next := acc;
    assert es + Tag(top, entries[..0]) == es;
    for m := 0 to |entries|
      invariant Tallies(next, es + Tag(top, entries[..m]))
    {
      assert Tag(top, entries[..m + 1]) == Tag(top, entries[..m]) + [(top, entries[m])];
      assert es + Tag(top, entries[..m + 1]) == (es + Tag(top, entries[..m])) + [(top, entries[m])];
      next := AddEntry(next, top, entries[m], es + Tag(top, entries[..m]));
    }
    assert entries[..|entries|] == entries;
  }

  /** Reading one more top-level key of a document, after the keys `ks` and
      entries `es` of earlier ones. */
  lemma DocStep(ks: seq<string>, es: seq<Entry>, doc: Doc, j: nat)
    requires j < |doc|
    ensures ks + DocKeys(doc[..j + 1]) == (ks + DocKeys(doc[..j])) + [doc[j].0]
    ensures es + DocEntries(doc[..j + 1]) == (es + DocEntries(doc[..j])) + Tag(doc[j].0, doc[j].1)
  {
    assert doc[..j + 1][..j] == doc[..j];
    assert DocKeys(doc[..j + 1]) == DocKeys(doc[..j]) + [doc[j].0];
  }

  /** A key joins the dictionary order only on its first appearance. */
  lemma FirstAppearanceStep(ks: seq<string>, k: string)
    ensures FirstAppearance(ks + [k]) == if k in FirstAppearance(ks) then FirstAppearance(ks) else FirstAppearance(ks) + [k]
  {
    assert (ks + [k])[..|ks|] == ks;
  }

  /** `if top not in cumulative_data: cumulative_data[top] = {}`. */
  method Register(tops: seq<string>, top: string, ghost ks: seq<string>) returns (next: seq<string>)
    requires tops == FirstAppearance(ks)
    ensures next == FirstAppearance(ks + [top])
  {
    FirstAppearanceStep(ks, top);
    next := if top in tops then tops else tops + [top];
  }

  /** One top key of a decoded file and its entries. */
  method AddTopKey(tops: seq<string>, acc: Sums, top: string, entries: seq<Record>, ghost ks: seq<string>, ghost es: seq<Entry>)
    returns (tops': seq<string>, next: Sums)
    requires tops == FirstAppearance(ks)
    requires Tallies(acc, es)
    ensures tops' == FirstAppearance(ks + [top])
    ensures Tallies(next, es + Tag(top, entries))
  {
    tops' := Register(tops, top, ks);
    next := AddEntries(acc, top, entries, es);
  }

  /** One decoded file: each top key registered on first sight, then its
      entries added. */
  method AddDoc(tops: seq<string>, acc: Sums, doc: Doc, ghost keys: seq<string>, ghost es: seq<Entry>)
    returns (tops': seq<string>, next: Sums)
    requires tops == FirstAppearance(keys)
    requires Tallies(acc, es)
    ensures tops' == FirstAppearance(keys + DocKeys(doc))
    ensures Tallies(next, es + DocEntries(doc))
  {
    tops', next := tops, acc;
    ghost var ks := keys;
    assert keys + DocKeys(doc[..0]) == keys;
    assert es + DocEntries(doc[..0]) == es;
    for j := 0 to |doc|
      invariant ks == keys + DocKeys(doc[..j])
      invariant tops' == FirstAppearance(ks)
      invariant Tallies(next, es + DocEntries(doc[..j]))
    {
      var top, entries := doc[j].0, doc[j].1;
      DocStep(keys, es, doc, j);
      tops', next := AddTopKey(tops', next, top, entries, ks, es + DocEntries(doc[..j]));
      ks := ks + [top];
    }
    assert doc[..|doc|] == doc;
  }

  // ---------------------------------------------------------------------------
  // Averaging

  /** The structures seen under top key `t`: `cumulative_data[t].keys()`. */
  method StructuresUnder(acc: Sums, t: string, ghost es: seq<Entry>) returns (structures: set<string>)
    requires Tallies(acc, es)
    ensures forall s :: s in structures <==> Count(es, t, s) > 0
  {
    structures := set p | p in acc.counts && p.0 == t :: p.1;
    forall s | Count(es, t, s) > 0
      ensures s in structures
    {
      assert (t, s) in acc.counts;
    }
  }

  /** The averaged entry of one structure: its name, then each total divided
      by the structure's count and rounded. */
  method AveragedEntry(acc: Sums, t: string, s: string, ghost es: seq<Entry>) returns (entry: Record)
    requires Tallies(acc, es)
    requires Count(es, t, s) > 0
    ensures entry == AverageOf(es, t, s)
  {
    TalliedStructure(acc, es, t, s);
    var count := acc.counts[(t, s)];
    var fields := set q | q in acc.totals && q.0 == t && q.1 == s :: q.2;
    entry := (map k | k in fields :: Num(Round2(acc.totals[(t, s, k)] / count as real)))[STRUCTURE := Str(s)];
  }

  /** What the running sums hold about one counted structure. */
  lemma TalliedStructure(acc: Sums, es: seq<Entry>, t: string, s: string)
    requires Tallies(acc, es)
    requires Count(es, t, s) > 0
    ensures (t, s) in acc.counts && acc.counts[(t, s)] == Count(es, t, s)
    ensures (set q | q in acc.totals && q.0 == t && q.1 == s :: q.2) == Fields(es, t, s)
    ensures forall k | k in Fields(es, t, s) :: (t, s, k) in acc.totals && acc.totals[(t, s, k)] == Total(es, t, s, k)
  {
    assert (t, s) in acc.counts;
    forall k | k in Fields(es, t, s)
      ensures k in (set q | q in acc.totals && q.0 == t && q.1 == s :: q.2)
    {
      assert (t, s, k) in acc.totals;
    }
  }

  /** The averaged entries of one top key, one per structure, in no order. */
  method GatherAverages(acc: Sums, t: string, ghost es: seq<Entry>) returns (unsorted: seq<Record>)
    requires Tallies(acc, es)
    ensures forall i | 0 <= i < |unsorted| :: Named(unsorted[i])
    ensures forall i, j | 0 <= i < j < |unsorted| :: NameOf(unsorted[i]) != NameOf(unsorted[j])
    ensures forall r | r in unsorted :: Named(r) && Count(es, t, NameOf(r)) > 0 && r == AverageOf(es, t, NameOf(r))
    ensures forall s | Count(es, t, s) > 0 :: AverageOf(es, t, s) in unsorted
  {
    var structures := StructuresUnder(acc, t, es);
    unsorted := [];
    var pending := structures;
    while pending != {}
      invariant pending <= structures
      invariant forall i | 0 <= i < |unsorted| :: (Named(unsorted[i])
        && NameOf(unsorted[i]) in structures && NameOf(unsorted[i]) !in pending
        && unsorted[i] == AverageOf(es, t, NameOf(unsorted[i])))
      invariant forall i, j | 0 <= i < j < |unsorted| :: NameOf(unsorted[i]) != NameOf(unsorted[j])
      invariant forall s | s in structures && s !in pending :: AverageOf(es, t, s) in unsorted
      decreases pending
    {
      var s :| s in pending;
      var entry := AveragedEntry(acc, t, s, es);
      unsorted := unsorted + [entry];
      pending := pending - {s};
    }
  }

  /** The averaged list of one top key, sorted by Structure. */
  method AveragesFor(acc: Sums, t: string, ghost es: seq<Entry>) returns (rs: seq<Record>)
    requires Tallies(acc, es)
    ensures AveragedList(rs, es, t)
  {
    var unsorted := GatherAverages(acc, t, es);
    rs := SortByStructure(unsorted);
    forall r | r in rs
      ensures r in unsorted
    {
      assert r in multiset(rs);
    }
    forall s | Count(es, t, s) > 0
      ensures AverageOf(es, t, s) in rs
    {
      assert AverageOf(es, t, s) in multiset(unsorted);
    }
  }

  /** The averaged document: one list per top key, in `cumulative_data` order. */
  method Averages(tops: seq<string>, acc: Sums, ghost es: seq<Entry>) returns (out: Doc)
    requires Tallies(acc, es)
    ensures DocKeys(out) == tops
    ensures forall j | 0 <= j < |out| :: AveragedList(out[j].1, es, out[j].0)
  {
    out := [];
    for j := 0 to |tops|
      invariant DocKeys(out) == tops[..j]
      invariant forall i | 0 <= i < |out| :: AveragedList(out[i].1, es, out[i].0)
    {
      var t := tops[j];
      var rs := AveragesFor(acc, t, es);
      out := out + [(t, rs)];
    }
  }

  // ---------------------------------------------------------------------------
  // run_json_average

  /** The path of one series' file of kind `mainType`. */
  function SeriesFile(jsonPath: Path, folder: string, mainType: string): Path {
    jsonPath + [folder, mainType]
  }

  /** The document a series contributes: present and decoded, or nothing. */
  function ParsedAt(files: JsonFiles, jsonPath: Path, mainType: string): string -> Option<Doc> {
    folder =>
      var p := SeriesFile(jsonPath, folder, mainType);
      if p in files && files[p].Parsed? then Some(files[p].doc) else None
  }

  /** The documents averaged: those of the listed series that exist and decode. */
  function AverageInputs(files: JsonFiles, jsonPath: Path, mainType: string, folders: seq<string>): seq<Doc> {
    FilterMap(folders, ParsedAt(files, jsonPath, mainType))
  }

  /** One more series considered. */
  lemma InputsStep(files: JsonFiles, jsonPath: Path, mainType: string, folders: seq<string>, i: nat)
    requires i < |folders|
    ensures AverageInputs(files, jsonPath, mainType, folders[..i + 1])
      == AverageInputs(files, jsonPath, mainType, folders[..i])
      + match ParsedAt(files, jsonPath, mainType)(folders[i]) case Some(d) => [d] case None => []
  {
    assert folders[..i + 1][..i] == folders[..i];
  }

  /** One more document read. */
  lemma AllDocsStep(docs: seq<Doc>, doc: Doc)
    ensures AllKeys(docs + [doc]) == AllKeys(docs) + DocKeys(doc)
    ensures AllEntries(docs + [doc]) == AllEntries(docs) + DocEntries(doc)
  {
    assert (docs + [doc])[..|docs|] == docs;
  }

  predicate UnreadableAt(files: JsonFiles, p: Path) {
    p in files && files[p].Unreadable?
  }

  /** `tops` and `acc` hold the key order and the tallies of `docs`. */
  ghost predicate Accumulated(tops: seq<string>, acc: Sums, docs: seq<Doc>) {
    tops == FirstAppearance(AllKeys(docs)) && Tallies(acc, AllEntries(docs))
  }

  /** One iteration of `run_json_average`'s loop: the series file of
      `folders[i]` is skipped when missing or undecodable, raises when it
      cannot be opened, and is otherwise added to the running tallies. */
  method ReadSeries(files: JsonFiles, jsonPath: Path, mainType: string, folders: seq<string>, i: nat,
                    tops: seq<string>, acc: Sums)
    returns (failed: bool, tops': seq<string>, next: Sums)
    requires i < |folders|
    requires Accumulated(tops, acc, AverageInputs(files, jsonPath, mainType, folders[..i]))
    requires forall j | 0 <= j < i :: !UnreadableAt(files, SeriesFile(jsonPath, folders[j], mainType))
    ensures failed <==> UnreadableAt(files, SeriesFile(jsonPath, folders[i], mainType))
    ensures !failed ==> forall j | 0 <= j < i + 1 :: !UnreadableAt(files, SeriesFile(jsonPath, folders[j], mainType))
    ensures !failed ==> Accumulated(tops', next, AverageInputs(files, jsonPath, mainType, folders[..i + 1]))
  {
    ghost var docs := AverageInputs(files, jsonPath, mainType, folders[..i]);
    InputsStep(files, jsonPath, mainType, folders, i);
    var path := SeriesFile(jsonPath, folders[i], mainType);
    failed, tops', next := false, tops, acc;
    if path in files && files[path].Parsed? {
      var doc := files[path].doc;
      assert ParsedAt(files, jsonPath, mainType)(folders[i]) == Some(doc);
      assert AverageInputs(files, jsonPath, mainType, folders[..i + 1]) == docs + [doc];
      tops', next := AddDoc(tops, acc, doc, AllKeys(docs), AllEntries(docs));
      AllDocsStep(docs, doc);
    } else {
      assert ParsedAt(files, jsonPath, mainType)(folders[i]) == None;
      assert AverageInputs(files, jsonPath, mainType, folders[..i + 1]) == docs;
      failed := path in files && files[path].Unreadable?;
    }
  }

  /** Whenever some series file cannot be opened, a first such file exists,
      at or before it: the one whose read error `run_json_average` reports. */
  lemma {:induction false} FirstUnreadable(files: JsonFiles, jsonPath: Path, folders: seq<string>, mainType: string, i: nat)
    requires i < |folders| && UnreadableAt(files, SeriesFile(jsonPath, folders[i], mainType))
    ensures exists k | 0 <= k <= i ::
      UnreadableAt(files, SeriesFile(jsonPath, folders[k], mainType))
      && (forall j | 0 <= j < k :: !UnreadableAt(files, SeriesFile(jsonPath, folders[j], mainType)))
  {
    if exists j | 0 <= j < i :: UnreadableAt(files, SeriesFile(jsonPath, folders[j], mainType)) {
      var j :| 0 <= j < i && UnreadableAt(files, SeriesFile(jsonPath, folders[j], mainType));
      FirstUnreadable(files, jsonPath, folders, mainType, j);
    }
  }

  /** `run_json_average`: the averaged document, or the read error of the
      first series file that exists but cannot be opened (missing and
      undecodable files are skipped). */
  method RunJsonAverage(files: JsonFiles, jsonPath: Path, folders: seq<string>, mainType: string)
    returns (r: Result<Doc, Error>)
    ensures r.Failure? <==> exists i | 0 <= i < |folders| :: UnreadableAt(files, SeriesFile(jsonPath, folders[i], mainType))
    ensures r.Failure? ==> exists i | 0 <= i < |folders| ::
      UnreadableAt(files, SeriesFile(jsonPath, folders[i], mainType))
      && (forall j | 0 <= j < i :: !UnreadableAt(files, SeriesFile(jsonPath, folders[j], mainType)))
      && r.error == ReadError(SeriesFile(jsonPath, folders[i], mainType))
    ensures r.Success? ==> IsAverage(r.value, AverageInputs(files, jsonPath, mainType, folders))
  {
    var failedAt, tops, acc := TallyAll(files, jsonPath, folders, mainType);
    if failedAt.Some? {
      return Failure(ReadError(SeriesFile(jsonPath, folders[failedAt.value], mainType)));
    }
    ghost var docs := AverageInputs(files, jsonPath, mainType, folders);
    var out := Averages(tops, acc, AllEntries(docs));
    return Success(out);
  }

  /** The loop of `run_json_average`: the tallies of every readable series
      file, or the index of the first one that cannot be opened. */
  method TallyAll(files: JsonFiles, jsonPath: Path, folders: seq<string>, mainType: string)
    returns (failedAt: Option<nat>, tops: seq<string>, acc: Sums)
    ensures failedAt.Some? ==>
      failedAt.value < |folders| && UnreadableAt(files, SeriesFile(jsonPath, folders[failedAt.value], mainType))
    ensures failedAt.Some? ==>
      forall j | 0 <= j < failedAt.value :: !UnreadableAt(files, SeriesFile(jsonPath, folders[j], mainType))
    ensures failedAt.None? ==> forall j | 0 <= j < |folders| :: !UnreadableAt(files, SeriesFile(jsonPath, folders[j], mainType))
    ensures failedAt.None? ==> Accumulated(tops, acc, AverageInputs(files, jsonPath, mainType, folders))
  {
    tops, acc := [], NoSums;
    for i := 0 to |folders|
      invariant Accumulated(tops, acc, AverageInputs(files, jsonPath, mainType, folders[..i]))
      invariant forall j | 0 <= j < i :: !UnreadableAt(files, SeriesFile(jsonPath, folders[j], mainType))
    {
      var failed;
      failed, tops, acc := ReadSeries(files, jsonPath, mainType, folders, i, tops, acc);
      if failed {
        return Some(i), tops, acc;
      }
    }
    assert folders[..|folders|] == folders;
    failedAt := None;
  }

  // ---------------------------------------------------------------------------
  // run_global_json

  /** `json.load` on a path: the document, or the exception opening or decoding
      it raises. */
  function ReadJson(files: JsonFiles, p: Path): (r: Result<Doc, Error>)
    ensures r.Success? <==> p in files && files[p].Parsed?
    ensures r.Success? ==> r.value == files[p].doc
    ensures p !in files ==> r == Failure(FileNotFound(p))
  {
    if p !in files then Failure(FileNotFound(p))
    else match files[p]
      case Parsed(doc) => Success(doc)
      case Malformed => Failure(JsonDecodeError(p))
      case Unreadable => Failure(ReadError(p))
  }

  /** The three per-series document kinds, in the order they are read. */
  const SUBCORTICAL := "subcortical.json"
  const CORTICAL := "cortical.json"
  const GENERAL := "general.json"

  /** The consolidated documents, keyed by series name and "AVERAGES". */
  datatype Global = Global(subcortical: map<string, Doc>, cortical: map<string, Doc>, general: map<string, Doc>)

  predicate Decodes(files: JsonFiles, p: Path) {
    p in files && files[p].Parsed?
  }

  /** Whether the `n` first kinds of directory `dir` are all read: the `try`
      block stops at the first file that fails. */
  predicate ReadsThrough(files: JsonFiles, dir: Path, n: nat) {
    (n >= 1 ==> Decodes(files, dir + [SUBCORTICAL]))
    && (n >= 2 ==> Decodes(files, dir + [CORTICAL]))
    && (n >= 3 ==> Decodes(files, dir + [GENERAL]))
  }

  /** Each document of `g` under key `k` is the file of directory
      `jsonPath / k`, present exactly when that file and the earlier ones of
      the same directory were read, for the keys in `keys`. */
  ghost predicate GatheredFrom(g: Global, files: JsonFiles, jsonPath: Path, keys: seq<string>) {
    GatheredKind(g.subcortical, files, jsonPath, keys, SUBCORTICAL, 1)
    && GatheredKind(g.cortical, files, jsonPath, keys, CORTICAL, 2)
    && GatheredKind(g.general, files, jsonPath, keys, GENERAL, 3)
  }

  /** One kind of file, the `n`-th read in each directory: a directory is a
      key exactly when it is listed and its first `n` files decode, and its
      value is the decoded document of that kind. */
  ghost predicate GatheredKind(m: map<string, Doc>, files: JsonFiles, jsonPath: Path, keys: seq<string>, kind: string, n: nat) {
    (forall k :: k in m <==> k in keys && ReadsThrough(files, jsonPath + [k], n))
    && (forall k | k in m :: Decodes(files, jsonPath + [k] + [kind]) && m[k] == files[jsonPath + [k] + [kind]].doc)
  }

  /** `next` is `g` after the `try` block of directory `jsonPath / key`. */
  ghost predicate GatheredDir(g: Global, next: Global, files: JsonFiles, jsonPath: Path, key: string) {
    (next.subcortical == if ReadsThrough(files, jsonPath + [key], 1)
      then g.subcortical[key := files[jsonPath + [key] + [SUBCORTICAL]].doc] else g.subcortical)
    && (next.cortical == if ReadsThrough(files, jsonPath + [key], 2)
      then g.cortical[key := files[jsonPath + [key] + [CORTICAL]].doc] else g.cortical)
    && (next.general == if ReadsThrough(files, jsonPath + [key], 3)
      then g.general[key := files[jsonPath + [key] + [GENERAL]].doc] else g.general)
  }

  /** The `try` block of one directory: read the three kinds in order and keep
      each under `key` until the first failure. */
  method GatherDir(g: Global, files: JsonFiles, jsonPath: Path, key: string) returns (next: Global)
    ensures GatheredDir(g, next, files, jsonPath, key)
  {
    var dir := jsonPath + [key];
    next := g;
    var sub := ReadJson(files, dir + [SUBCORTICAL]);
    if sub.Failure? {
      return;
    }
    next := next.(subcortical := next.subcortical[key := sub.value]);
    var cort := ReadJson(files, dir + [CORTICAL]);
    if cort.Failure? {
      return;
    }
    next := next.(cortical := next.cortical[key := cort.value]);
    var gen := ReadJson(files, dir + [GENERAL]);
    if gen.Failure? {
      return;
    }
    next := next.(general := next.general[key := gen.value]);
  }

  /** One more directory read keeps the gathered documents faithful. */
  lemma GatherStep(g: Global, next: Global, files: JsonFiles, jsonPath: Path, keys: seq<string>, key: string)
    requires GatheredFrom(g, files, jsonPath, keys)
    requires GatheredDir(g, next, files, jsonPath, key)
    ensures GatheredFrom(next, files, jsonPath, keys + [key])
  {
    GatherKindStep(g.subcortical, next.subcortical, files, jsonPath, keys, key, SUBCORTICAL, 1);
    GatherKindStep(g.cortical, next.cortical, files, jsonPath, keys, key, CORTICAL, 2);
    GatherKindStep(g.general, next.general, files, jsonPath, keys, key, GENERAL, 3);
  }

  /** One kind of file after one more directory. */
  lemma GatherKindStep(m: map<string, Doc>, next: map<string, Doc>, files: JsonFiles, jsonPath: Path,
                       keys: seq<string>, key: string, kind: string, n: nat)
    requires GatheredKind(m, files, jsonPath, keys, kind, n)
    requires ReadsThrough(files, jsonPath + [key], n) ==> Decodes(files, jsonPath + [key] + [kind])
    requires next == if ReadsThrough(files, jsonPath + [key], n) then m[key := files[jsonPath + [key] + [kind]].doc] else m
    ensures GatheredKind(next, files, jsonPath, keys + [key], kind, n)
  {
    assert forall k :: k in keys + [key] <==> k in keys || k == key;
  }


  /** `run_global_json`: every series' documents and then the averages,
      gathered under their directory names. */
  method RunGlobalJson(files: JsonFiles, jsonPath: Path, folders: seq<string>) returns (g: Global)
    ensures GatheredFrom(g, files, jsonPath, folders + [AVERAGES])
    ensures g.general.Keys <= g.cortical.Keys <= g.subcortical.Keys
  {
    g := Global(map[], map[], map[]);
    for i := 0 to |folders|
      invariant GatheredFrom(g, files, jsonPath, folders[..i])
    {
      var next := GatherDir(g, files, jsonPath, folders[i]);
      GatherStep(g, next, files, jsonPath, folders[..i], folders[i]);
      assert folders[..i + 1] == folders[..i] + [folders[i]];
      g := next;
    }
    var next := GatherDir(g, files, jsonPath, AVERAGES);
    assert folders[..|folders|] == folders;
    GatherStep(g, next, files, jsonPath, folders, AVERAGES);
    g := next;
  }
}
