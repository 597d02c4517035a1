/** External tools as the pipeline steps see them: a step builds a command
    line, hands it to nipype (a `CommandLine`, a `Node` or a `MapNode` inside a
    `Workflow`) and either lets a crash escape or logs it. The tools themselves
    are not modelled; which launches crash is a parameter. */
module Steps {
  import opened Wrappers
  import opened Files

  /** One argument of a command line. */
  datatype Arg =
    | Flag(flag: string)
    | Word(word: string)
    | PathArg(path: Path)
    | Words(words: seq<string>)
    | PathList(paths: seq<Path>)
    | Number(n: int)
      /** `os.cpu_count()` formatted into a command: `None` when unknown. */
    | CpuCount(count: Option<nat>)

  /** A program and its arguments, in command-line order. */
  datatype Command = Command(program: string, args: seq<Arg>)

  /** What a step did: the commands it launched, in order, and the exception
      that escaped it, if any. */
  datatype Run = Run(launched: seq<Command>, raised: Option<Error>)

  /** The launches that crash in the environment at hand. */
  type Failing = set<Command>

  /** The exception a launch raises, if it crashes. */
  function Launch(c: Command, failing: Failing): (e: Option<Error>)
    ensures e.Some? <==> c in failing
    ensures e.Some? ==> e.value == ToolError(c.program)
  {
    if c in failing then Some(ToolError(c.program)) else None
  }

  /** Every path in the list exists: the `all(f.exists() for f in ...)` test. */
  predicate AllExist(fs: FileSystem, ps: seq<Path>) {
    forall i | 0 <= i < |ps| :: Exists(fs, ps[i])
  }

  /** The shape every guarded step shares: nothing when `done`, otherwise one
      launch of `c`, whose crash escapes only when the step re-raises. */
  function Guarded(done: bool, c: Command, failing: Failing, reraise: bool): (r: Run)
    ensures r.launched == if done then [] else [c]
    ensures r.raised.Some? <==> !done && reraise && c in failing
    ensures r.raised.Some? ==> r.raised.value == ToolError(c.program)
  {
    if done then Run([], None)
    else Run([c], if reraise then Launch(c, failing) else None)
  }

  /** `r` followed by `s`: the launches of both, and the exception of the
      first one that raised. */
  function Then(r: Run, s: Run): Run {
    Run(r.launched + s.launched, if r.raised.Some? then r.raised else s.raised)
  }

  /** Runs one after the other, every one of them carried out: all their
      launches in order, and the exception of the first run that raised, as
      a loop over `future.result()` in submission order surfaces it. */
  function Sequenced(runs: seq<Run>): (r: Run)
    ensures r.raised.None? <==> forall i | 0 <= i < |runs| :: runs[i].raised.None?
    ensures r.raised.Some? ==> exists k | 0 <= k < |runs| ::
      r.raised == runs[k].raised && forall j | 0 <= j < k :: runs[j].raised.None?
    ensures forall c :: c in r.launched <==> exists i | 0 <= i < |runs| :: c in runs[i].launched
    decreases |runs|
  {
    if runs == [] then Run([], None)
    else
      var init := runs[..|runs| - 1];
      var last := runs[|runs| - 1];
      var r := Then(Sequenced(init), last);
      assert forall i | 0 <= i < |init| :: init[i] == runs[i];
      assert forall c :: c in r.launched ==> exists i | 0 <= i < |runs| :: c in runs[i].launched by {
        forall c | c in r.launched ensures exists i | 0 <= i < |runs| :: c in runs[i].launched {
          if c !in last.launched {
            var i :| 0 <= i < |init| && c in init[i].launched;
            assert c in runs[i].launched;
          }
        }
      }
      r
  }

  /** Appending one run to a sequence of runs is `Then`. */
  lemma SequencedSnoc(runs: seq<Run>, x: Run)
    ensures Sequenced(runs + [x]) == Then(Sequenced(runs), x)
  {
    assert (runs + [x])[..|runs|] == runs;
  }

  /** Sequencing distributes over concatenation. */
  lemma {:induction false} SequencedAppend(a: seq<Run>, b: seq<Run>)
    ensures Sequenced(a + b) == Then(Sequenced(a), Sequenced(b))
    decreases |b|
  {
    if b == [] {
      assert a + b == a;
    } else {
      var init := b[..|b| - 1];
      var last := b[|b| - 1];
      assert a + b == (a + init) + [last];
      assert b == init + [last];
      SequencedSnoc(a + init, last);
      SequencedSnoc(init, last);
      SequencedAppend(a, init);
    }
  }

  /** A run whose exception is caught and logged: the same launches, nothing
      escapes. */
  function Swallowed(r: Run): (s: Run)
    ensures s.launched == r.launched && s.raised.None?
  {
    Run(r.launched, None)
  }

  /** `max(1, os.cpu_count())`, the worker and thread count of the parallel
      steps: a `TypeError` when the count is unknown. */
  function Workers(cpu: Option<nat>): (r: Result<nat, Error>)
    ensures r.Failure? <==> cpu.None?
    ensures r.Failure? ==> r.error == TypeError
    ensures r.Success? ==> 1 <= r.value && cpu.value <= r.value && (r.value == 1 || r.value == cpu.value)
  {
    match cpu
    case None => Failure(TypeError)
    case Some(n) => Success(if n < 1 then 1 else n)
  }
}
