/** Volume records and JSON documents, and the list combinators the parsers are
    built from: a filter-map that drops the rows a `try` block skips, its
    exception-raising counterpart for list comprehensions, and `zip`. */
module Records {
  import opened Wrappers

  /** A JSON value as the pipeline meets it. Integers and floats are both `Num`;
      nested arrays and objects are not looked into. */
  datatype Value = Str(s: string) | Num(x: real) | Bool(b: bool) | Null | Nested

  /** A volume record or any other JSON object (key order is not kept). */
  type Record = map<string, Value>

  /** A JSON document as read back from disk: its top-level keys in file order,
      each with its list of entries. */
  type Doc = seq<(string, seq<Record>)>

  /** A dictionary of record lists, as `get_cortical` and `get_general` build. */
  type Report = map<string, seq<Record>>

  const STRUCTURE := "Structure"
  const VOLUME := "Volume (mm3)"
  const LHS_VOLUME := "LHS Volume (mm3)"
  const RHS_VOLUME := "RHS Volume (mm3)"

  function VolumeRecord(name: string, volume: real): (r: Record)
    ensures r.Keys == {STRUCTURE, VOLUME}
    ensures r[STRUCTURE] == Str(name) && r[VOLUME] == Num(volume)
  {
    map[STRUCTURE := Str(name), VOLUME := Num(volume)]
  }

  function PairRecord(name: string, lhs: Value, rhs: Value): (r: Record)
    ensures r.Keys == {STRUCTURE, LHS_VOLUME, RHS_VOLUME}
    ensures r[STRUCTURE] == Str(name) && r[LHS_VOLUME] == lhs && r[RHS_VOLUME] == rhs
  {
    map[STRUCTURE := Str(name), LHS_VOLUME := lhs, RHS_VOLUME := rhs]
  }

  /** A Python `Optional` value in a record: `None` becomes JSON `null`. */
  function OrNull(v: Option<Value>): Value {
    if v.Some? then v.value else Null
  }

  /** The rows a loop appends to its result list: `f(x)` for each `x` in order,
      except where `f` reports that the row was skipped. */
  function FilterMap<T, U>(xs: seq<T>, f: T -> Option<U>): (r: seq<U>)
    ensures |r| <= |xs|
  {
    if xs == [] then []
    else
      var rest := FilterMap(xs[..|xs| - 1], f);
      match f(xs[|xs| - 1])
      case Some(y) => rest + [y]
      case None => rest
  }

  /** One more row considered. */
  lemma FilterMapStep<T, U>(xs: seq<T>, i: nat, f: T -> Option<U>)
    requires i < |xs|
    ensures FilterMap(xs[..i + 1], f) == FilterMap(xs[..i], f) + (if f(xs[i]).Some? then [f(xs[i]).value] else [])
  {
    assert xs[..i + 1][..i] == xs[..i];
  }

  /** Filtering distributes over concatenation: rows are handled one at a time
      and each row's outcome does not depend on the others. */
  lemma {:induction false} FilterMapAppend<T, U>(xs: seq<T>, ys: seq<T>, f: T -> Option<U>)
    ensures FilterMap(xs + ys, f) == FilterMap(xs, f) + FilterMap(ys, f)
    decreases |ys|
  {
    if ys == [] {
      assert xs + ys == xs;
    } else {
      var zs := ys[..|ys| - 1];
      assert (xs + ys)[..|xs + ys| - 1] == xs + zs;
      assert (xs + ys)[|xs + ys| - 1] == ys[|ys| - 1];
      FilterMapAppend(xs, zs, f);
    }
  }

  /** A skipped row leaves no trace: the rows before it and after it are
      handled exactly as if it were absent. */
  lemma FilterMapSkip<T, U>(xs: seq<T>, bad: T, ys: seq<T>, f: T -> Option<U>)
    requires f(bad).None?
    ensures FilterMap(xs + [bad] + ys, f) == FilterMap(xs, f) + FilterMap(ys, f)
  {
    FilterMapAppend(xs + [bad], ys, f);
    FilterMapAppend(xs, [bad], f);
    assert FilterMap([bad], f) == [] by {
      assert [bad][..0] == [];
    }
  }

  /** When no row is skipped, there is one result per row, in row order. */
  lemma {:induction false} FilterMapNoneSkipped<T, U>(xs: seq<T>, f: T -> Option<U>)
    requires forall i | 0 <= i < |xs| :: f(xs[i]).Some?
    ensures |FilterMap(xs, f)| == |xs|
    ensures forall i | 0 <= i < |xs| :: FilterMap(xs, f)[i] == f(xs[i]).value
    decreases |xs|
  {
    if xs != [] {
      var init := xs[..|xs| - 1];
      assert forall i | 0 <= i < |init| :: init[i] == xs[i];
      FilterMapNoneSkipped(init, f);
    }
  }

  /** Every result comes from some row, and every row that is not skipped
      contributes its result. */
  lemma {:induction false} FilterMapMembers<T, U>(xs: seq<T>, f: T -> Option<U>)
    ensures forall y | y in FilterMap(xs, f) :: exists i | 0 <= i < |xs| :: f(xs[i]) == Some(y)
    ensures forall i | 0 <= i < |xs| && f(xs[i]).Some? :: f(xs[i]).value in FilterMap(xs, f)
    decreases |xs|
  {
    if xs != [] {
      var init := xs[..|xs| - 1];
      FilterMapMembers(init, f);
      assert forall i | 0 <= i < |init| :: init[i] == xs[i];
    }
  }

  /** A list comprehension `[g(x) for x in xs if c(x)]` whose test or element
      expression may raise: `f(x)` is `Success(Some(y))` for a kept row,
      `Success(None)` for a filtered-out row, and the first failure in row order
      is the exception the comprehension raises. */
  function TryFilterMap<T, U, E>(xs: seq<T>, f: T -> Result<Option<U>, E>): (r: Result<seq<U>, E>)
    ensures r.Success? ==> |r.value| <= |xs|
  {
    if xs == [] then Success([])
    else
      var rest :- TryFilterMap(xs[..|xs| - 1], f);
      var last :- f(xs[|xs| - 1]);
      if last.Some? then Success(rest + [last.value]) else Success(rest)
  }

  /** The comprehension succeeds exactly when no row raises. */
  lemma {:induction false} TryFilterMapSucceeds<T, U, E>(xs: seq<T>, f: T -> Result<Option<U>, E>)
    ensures TryFilterMap(xs, f).Success? <==> forall i | 0 <= i < |xs| :: f(xs[i]).Success?
    decreases |xs|
  {
    if xs != [] {
      var init := xs[..|xs| - 1];
      TryFilterMapSucceeds(init, f);
      assert forall i | 0 <= i < |init| :: init[i] == xs[i];
    }
  }

  /** The rows of a comprehension that raised nothing, as a plain filter. */
  function Successes<T, U, E>(f: T -> Result<Option<U>, E>): T -> Option<U> {
    x => if f(x).Success? then f(x).value else None
  }

  /** A comprehension in which no row raises is a plain filter-map. */
  lemma {:induction false} TryFilterMapAsFilterMap<T, U, E>(xs: seq<T>, f: T -> Result<Option<U>, E>)
    requires forall i | 0 <= i < |xs| :: f(xs[i]).Success?
    ensures TryFilterMap(xs, f) == Success(FilterMap(xs, Successes(f)))
    decreases |xs|
  {
    if xs != [] {
      var init := xs[..|xs| - 1];
      assert forall i | 0 <= i < |init| :: init[i] == xs[i];
      TryFilterMapAsFilterMap(init, f);
    }
  }

  /** A kept row's result comes right after the results of the rows before it. */
  lemma FilterMapPlace<T, U>(xs: seq<T>, f: T -> Option<U>, i: nat)
    requires i < |xs| && f(xs[i]).Some?
    ensures FilterMap(xs[..i], f) + [f(xs[i]).value] <= FilterMap(xs, f)
  {
    var front, back := xs[..i + 1], xs[i + 1..];
    assert xs == front + back;
    FilterMapAppend(front, back, f);
    FilterMapStep(xs, i, f);
  }

  /** Two filters that keep complementary rows share out the input: every row
      lands in exactly one of the two lists, right after the results of the
      earlier rows of its kind, and the two lengths add up to the row count. */
  lemma {:induction false} FilterMapPartition<T, U, V>(xs: seq<T>, f: T -> Option<U>, g: T -> Option<V>)
    requires forall i | 0 <= i < |xs| :: f(xs[i]).Some? != g(xs[i]).Some?
    ensures forall i | 0 <= i < |xs| && f(xs[i]).Some? :: FilterMap(xs[..i], f) + [f(xs[i]).value] <= FilterMap(xs, f)
    ensures forall i | 0 <= i < |xs| && g(xs[i]).Some? :: FilterMap(xs[..i], g) + [g(xs[i]).value] <= FilterMap(xs, g)
    ensures |FilterMap(xs, f)| + |FilterMap(xs, g)| == |xs|
    decreases |xs|
  {
    forall i | 0 <= i < |xs| && f(xs[i]).Some?
      ensures FilterMap(xs[..i], f) + [f(xs[i]).value] <= FilterMap(xs, f)
    {
      FilterMapPlace(xs, f, i);
    }
    forall i | 0 <= i < |xs| && g(xs[i]).Some?
      ensures FilterMap(xs[..i], g) + [g(xs[i]).value] <= FilterMap(xs, g)
    {
      FilterMapPlace(xs, g, i);
    }
    if xs != [] {
      var init := xs[..|xs| - 1];
      assert forall i | 0 <= i < |init| :: init[i] == xs[i];
      FilterMapPartition(init, f, g);
    }
  }

  /** Filters that agree on every row produce the same list. */
  lemma {:induction false} FilterMapAgree<T, U>(xs: seq<T>, f: T -> Option<U>, g: T -> Option<U>)
    requires forall i | 0 <= i < |xs| :: f(xs[i]) == g(xs[i])
    ensures FilterMap(xs, f) == FilterMap(xs, g)
    decreases |xs|
  {
    if xs != [] {
      var init := xs[..|xs| - 1];
      assert forall i | 0 <= i < |init| :: init[i] == xs[i];
      FilterMapAgree(init, f, g);
    }
  }

  /** `[h(y) for y in ys]`. */
  function MapSeq<U, V>(ys: seq<U>, h: U -> V): (r: seq<V>)
    ensures |r| == |ys|
    ensures forall i | 0 <= i < |ys| :: r[i] == h(ys[i])
  {
    seq(|ys|, i requires 0 <= i < |ys| => h(ys[i]))
  }

  /** A nested comprehension `[z for y in ys for z in h(y)]`. */
  function FlatMap<U, V>(ys: seq<U>, h: U -> seq<V>): seq<V>
    decreases |ys|
  {
    if ys == [] then [] else FlatMap(ys[..|ys| - 1], h) + h(ys[|ys| - 1])
  }

  /** The nested comprehension over a concatenation is that over each part
      in turn. */
  lemma {:induction false} FlatMapAppend<U, V>(xs: seq<U>, ys: seq<U>, h: U -> seq<V>)
    ensures FlatMap(xs + ys, h) == FlatMap(xs, h) + FlatMap(ys, h)
    decreases |ys|
  {
    if ys == [] {
      assert xs + ys == xs;
    } else {
      var init := ys[..|ys| - 1];
      assert (xs + ys)[..|xs + ys| - 1] == xs + init;
      assert (xs + ys)[|xs + ys| - 1] == ys[|ys| - 1];
      FlatMapAppend(xs, init, h);
    }
  }

  /** A filter that keeps the same rows as `f` and transforms each of
      `f`'s results by `h` yields `f`'s list transformed by `h`. */
  lemma {:induction false} FilterMapThen<T, U, V>(xs: seq<T>, f: T -> Option<U>, g: T -> Option<V>, h: U -> V)
    requires forall i | 0 <= i < |xs| ::
      g(xs[i]) == if f(xs[i]).Some? then Some(h(f(xs[i]).value)) else None
    ensures FilterMap(xs, g) == MapSeq(FilterMap(xs, f), h)
    decreases |xs|
  {
    if xs != [] {
      var init := xs[..|xs| - 1];
      assert forall i | 0 <= i < |init| :: init[i] == xs[i];
      FilterMapThen(init, f, g, h);
    }
  }

  /** A comprehension that raises on the rows a loop skips: when it raises
      nothing, it yields what the loop yields. */
  lemma TryFilterMapRefines<T, U, E>(xs: seq<T>, strict: T -> Result<Option<U>, E>, tolerant: T -> Option<U>)
    requires forall i | 0 <= i < |xs| :: strict(xs[i]).Success? ==> strict(xs[i]).value == tolerant(xs[i])
    requires TryFilterMap(xs, strict).Success?
    ensures TryFilterMap(xs, strict).value == FilterMap(xs, tolerant)
  {
    TryFilterMapSucceeds(xs, strict);
    TryFilterMapAsFilterMap(xs, strict);
    FilterMapAgree(xs, Successes(strict), tolerant);
  }

  /** Python's `zip(a, b)`: as many pairs as the shorter list. */
  function Zip<A, B>(a: seq<A>, b: seq<B>): (r: seq<(A, B)>)
    ensures |r| == if |a| < |b| then |a| else |b|
    ensures forall i | 0 <= i < |r| :: r[i] == (a[i], b[i])
  {
    seq(if |a| < |b| then |a| else |b|, i requires 0 <= i < |a| && 0 <= i < |b| => (a[i], b[i]))
  }

  /** Zipping splits around any position both sequences reach. */
  lemma ZipSplit<A, B>(a: seq<A>, b: seq<B>, i: nat)
    requires i < |a| && i < |b|
    ensures Zip(a, b) == Zip(a[..i], b[..i]) + [(a[i], b[i])] + Zip(a[i + 1..], b[i + 1..])
  {
    var lhs := Zip(a, b);
    var rhs := Zip(a[..i], b[..i]) + [(a[i], b[i])] + Zip(a[i + 1..], b[i + 1..]);
    assert |lhs| == |rhs|;
    forall k | 0 <= k < |lhs|
      ensures lhs[k] == rhs[k]
    {
      if k > i {
        assert rhs[k] == Zip(a[i + 1..], b[i + 1..])[k - i - 1];
      }
    }
  }

  /** Python's `xs[k:]`: empty once `k` passes the end. */
  function Drop<T>(xs: seq<T>, k: nat): (r: seq<T>)
    ensures |r| == if k <= |xs| then |xs| - k else 0
    ensures forall i | 0 <= i < |r| :: r[i] == xs[i + k]
  {
    if k <= |xs| then xs[k..] else []
  }

  /** Skipping one row fewer keeps that row in front. */
  lemma DropOneMore<T>(xs: seq<T>, k: nat)
    requires k < |xs|
    ensures Drop(xs, k) == [xs[k]] + Drop(xs, k + 1)
  {
    assert xs[k..] == [xs[k]] + xs[k + 1..];
  }
}
