/**
 * The declarative recipe recorder (RecipeDSL::Recipe).
 *
 * A recipe object is a builder: `package` sets its name, `set_version` its
 * version, and `write_file` / `make_executable` each append one tagged record
 * to `output_commands`. Ruby's `instance_eval` of a block is replaced by an
 * explicit block value: the calls it makes on the recipe, in order, with the
 * nested blocks of `package` and `output` as sub-sequences.
 */
module RecipeDsl {
  import opened Wrappers

  /** One record of `output_commands`. */
  datatype Cmd = WriteFile(path: string, content: string) | MakeExecutable(path: string)

  /**
   * A call that a recipe block makes on the recipe object. A `package` call
   * without a block has the same effect as one with an empty block, and is
   * written with [].
   */
  datatype Call =
    | PackageCall(name: string, block: seq<Call>)
    | SetVersionCall(version: string)
    | OutputCall(body: seq<Call>)
    | WriteFileCall(path: string, content: string)
    | MakeExecutableCall(path: string)

  /** Number of calls in a block, nested ones included. */
  function Size(block: seq<Call>): nat
    decreases block
  {
    if |block| == 0 then 0 else CallSize(block[0]) + Size(block[1..])
  }

  function CallSize(c: Call): nat
    decreases c
  {
    match c
    case PackageCall(_, body) => 1 + Size(body)
    case OutputCall(body) => 1 + Size(body)
    case _ => 1
  }

  /** The observable state of a recipe: `name`, `version` (nil until set) and `output_commands`. */
  datatype Builder = Builder(name: Option<string>, version: Option<string>, records: seq<Cmd>)

  const Fresh := Builder(None, None, [])

  /**
   * The state after one call: the name and version it leaves behind (its
   * own, or the earlier ones when it sets none) and the earlier records
   * followed by its own records.
   */
  function Apply(b: Builder, c: Call): (r: Builder)
    ensures r == Builder(Override(CallName(c), b.name), Override(CallVersion(c), b.version),
                         b.records + CallRecords(c))
    decreases CallSize(c), 0
  {
    match c
    case PackageCall(n, body) => ApplyAll(b.(name := Some(n)), body)
    case SetVersionCall(v) => b.(version := Some(v))
    case OutputCall(body) => ApplyAll(b, body)
    case WriteFileCall(p, x) => b.(records := b.records + [WriteFile(p, x)])
    case MakeExecutableCall(p) => b.(records := b.records + [MakeExecutable(p)])
  }

  /**
   * The state after a block's calls, in order. Records only ever grow at the
   * end: the earlier records are kept and exactly the block's records are
   * appended; the name and version are the last ones the block sets, or the
   * earlier ones when it sets none.
   */
  function ApplyAll(b: Builder, block: seq<Call>): (r: Builder)
    ensures r == Builder(Override(LastName(block), b.name), Override(LastVersion(block), b.version),
                         b.records + Records(block))
    decreases Size(block), 1
  {
    if |block| == 0 then b else ApplyAll(Apply(b, block[0]), block[1..])
  }

  /** A value set later replaces an earlier one; nothing set keeps it. */
  function Override(later: Option<string>, earlier: Option<string>): Option<string> {
    if later.Some? then later else earlier
  }

  /** The last name a block gives with `package`, nested blocks read in place. */
  function LastName(block: seq<Call>): Option<string>
    decreases block
  {
    if |block| == 0 then None else Override(LastName(block[1..]), CallName(block[0]))
  }

  function CallName(c: Call): Option<string>
    decreases c
  {
    match c
    case PackageCall(n, body) => Override(LastName(body), Some(n))
    case OutputCall(body) => LastName(body)
    case _ => None
  }

  /** The last version a block gives with `set_version`, nested blocks read in place. */
  function LastVersion(block: seq<Call>): Option<string>
    decreases block
  {
    if |block| == 0 then None else Override(LastVersion(block[1..]), CallVersion(block[0]))
  }

  function CallVersion(c: Call): Option<string>
    decreases c
  {
    match c
    case PackageCall(_, body) => LastVersion(body)
    case SetVersionCall(v) => Some(v)
    case OutputCall(body) => LastVersion(body)
    case _ => None
  }

  /**
   * The records a block produces, as a flat list: its `write_file` and
   * `make_executable` calls in the order they are made, nested blocks read in
   * place. Independent of the builder state.
   */
  function Records(block: seq<Call>): seq<Cmd>
    decreases Size(block), 1
  {
    if |block| == 0 then [] else CallRecords(block[0]) + Records(block[1..])
  }

  function CallRecords(c: Call): seq<Cmd>
    decreases CallSize(c), 0
  {
    match c
    case PackageCall(_, body) => Records(body)
    case SetVersionCall(_) => []
    case OutputCall(body) => Records(body)
    case WriteFileCall(p, x) => [WriteFile(p, x)]
    case MakeExecutableCall(p) => [MakeExecutable(p)]
  }

  /** A call that records something, and the record it makes. */
  predicate IsRecording(c: Call) {
    c.WriteFileCall? || c.MakeExecutableCall?
  }

  function RecordOf(c: Call): Cmd
    requires IsRecording(c)
  {
    if c.WriteFileCall? then WriteFile(c.path, c.content) else MakeExecutable(c.path)
  }

  // ------------------------------------------------------------------
  // Properties of the specification.

  /**
   * In a block of `write_file` / `make_executable` calls, record k is made by
   * call k: nothing is merged, deduplicated, reordered or checked (a
   * `make_executable` needs no earlier `write_file` of its path).
   */
  lemma {:induction false} FlatRecords(block: seq<Call>)
    requires forall k :: 0 <= k < |block| ==> IsRecording(block[k])
    ensures |Records(block)| == |block|
    ensures forall k :: 0 <= k < |block| ==> Records(block)[k] == RecordOf(block[k])
    decreases |block|
  {
    if |block| > 0 {
      FlatRecords(block[1..]);
      assert CallRecords(block[0]) == [RecordOf(block[0])];
      forall k | 0 <= k < |block| ensures Records(block)[k] == RecordOf(block[k]) {
        if k > 0 { assert block[1..][k - 1] == block[k]; }
      }
    }
  }

  /** Running two blocks one after the other records both, in order. */
  lemma {:induction false} RecordsConcat(a: seq<Call>, b: seq<Call>)
    ensures Records(a + b) == Records(a) + Records(b)
    decreases |a|
  {
    if |a| == 0 {
      assert a + b == b;
    } else {
      assert (a + b)[0] == a[0] && (a + b)[1..] == a[1..] + b;
      RecordsConcat(a[1..], b);
    }
  }

  // ------------------------------------------------------------------
  // The recipe object.

  class Recipe {
    var name: Option<string>
    var version: Option<string>
    var outputCommands: seq<Cmd>

    function State(): Builder
      reads this
    {
      Builder(name, version, outputCommands)
    }

    /** A new recipe has no name, no version and no records. */
    constructor ()
      ensures State() == Fresh
    {
      name, version, outputCommands := None, None, [];
    }

    /** `package(name, &block)`: sets the name, runs the block, returns the same recipe. */
    method Package(n: string, body: Option<seq<Call>>) returns (r: Recipe)
      modifies this
      ensures r == this
      ensures State() == Apply(old(State()), PackageCall(n, if body.Some? then body.value else []))
      decreases CallSize(PackageCall(n, if body.Some? then body.value else [])), 0
    {
      name := Some(n);
      if body.Some? {
        Evaluate(body.value);
      }
      r := this;
    }

    /** `set_version(version_string)`. */
    method SetVersion(v: string)
      modifies this
      ensures name == old(name) && version == Some(v) && outputCommands == old(outputCommands)
    {
      version := Some(v);
    }

    /** `output(&block)`: adds no record of its own; the block's calls do. */
    method Output(body: seq<Call>)
      modifies this
      ensures State() == ApplyAll(old(State()), body)
      decreases CallSize(OutputCall(body)), 0
    {
      Evaluate(body);
    }

    /** `write_file(path, content)`: appends one record. */
    method WriteFile(p: string, content: string)
      modifies this
      ensures outputCommands == old(outputCommands) + [Cmd.WriteFile(p, content)]
      ensures name == old(name) && version == old(version)
    {
      outputCommands := outputCommands + [Cmd.WriteFile(p, content)];
    }

    /** `make_executable(path)`: appends one record, without looking for a `write_file` of `path`. */
    method MakeExecutable(p: string)
      modifies this
      ensures outputCommands == old(outputCommands) + [Cmd.MakeExecutable(p)]
      ensures name == old(name) && version == old(version)
    {
      outputCommands := outputCommands + [Cmd.MakeExecutable(p)];
    }

    /** Runs a block against this recipe, as `instance_eval` does: its calls, in order. */
    method Evaluate(block: seq<Call>)
      modifies this
      ensures State() == ApplyAll(old(State()), block)
      decreases Size(block), 2
    {
      if |block| > 0 {
        Dispatch(block[0]);
        Evaluate(block[1..]);
      }
    }

    /** One call of a block, sent to the matching method. */
    method Dispatch(c: Call)
      modifies this
      ensures State() == Apply(old(State()), c)
      decreases CallSize(c), 1
    {
      match c
      case PackageCall(n, body) =>
        var _ := Package(n, Some(body));
      case SetVersionCall(v) =>
        SetVersion(v);
      case OutputCall(body) =>
        Output(body);
      case WriteFileCall(p, x) =>
        WriteFile(p, x);
      case MakeExecutableCall(p) =>
        MakeExecutable(p);
    }
  }

  /**
   * `RecipeDSL.load_recipe`: a new recipe evaluates the file's top-level
   * calls; the recipe itself is handed back.
   */
  method LoadRecipe(file: seq<Call>) returns (r: Recipe)
    ensures fresh(r)
    ensures r.State() == ApplyAll(Fresh, file)
  {
    r := new Recipe();
    r.Evaluate(file);
  }
}
