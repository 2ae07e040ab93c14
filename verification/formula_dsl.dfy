/**
 * The Homebrew-style formula recorder (HomebrewStyleDSL::Formula).
 *
 * A formula class declares metadata at class level and an `install` method
 * whose body calls `system`. Nothing is executed: each `system` call renders
 * its arguments into one command string and appends it to the instance's
 * `install_commands`. Ruby's `instance_eval` of the install block is replaced
 * by an explicit block value: the sequence of argument lists of its `system`
 * calls, in call order.
 */
module FormulaDsl {
  import opened Wrappers
  import opened Strings

  /** An argument passed to `system`: a Ruby String, or any other object shown by its `to_s`. */
  datatype Arg = Str(s: string) | Other(shown: string)

  /** The `system` calls of an install block, in call order. */
  type Block = seq<seq<Arg>>

  /** `arg.to_s`. */
  function Text(a: Arg): string {
    match a
    case Str(s) => s
    case Other(shown) => shown
  }

  /**
   * One argument as it is written into the command: a String containing a
   * space is wrapped in single quotes (quotes inside it are not escaped);
   * everything else is written as its `to_s`. So an argument without spaces
   * is written as it is, and a shell reads every argument the quoting can
   * carry back as one word holding exactly its text.
   */
  function Render(a: Arg): (r: string)
    ensures ' ' !in Text(a) ==> r == Text(a)
    ensures ShellSafe(a) ==> ShellWords(r) == [Text(a)]
  {
    if a.Str? && ' ' in a.s then
      QuotedWord(a.s);
      "'" + a.s + "'"
    else
      PlainWord(Text(a));
      Text(a)
  }

  /**
   * What the writing does to the text: it is copied verbatim, either bare or
   * between two single quotes, and only a String containing a space is
   * quoted. An `Other` is written bare whatever it holds, and a quoted
   * String keeps its own quotes unescaped.
   */
  lemma RenderVerbatim(a: Arg)
    ensures Render(a) == Text(a) || Render(a) == "'" + Text(a) + "'"
    ensures Render(a) != Text(a) <==> a.Str? && ' ' in a.s
  {
  }

  function RenderParts(args: seq<Arg>): (parts: seq<string>)
    ensures |parts| == |args|
    ensures forall k :: 0 <= k < |args| ==> parts[k] == Render(args[k])
  {
    seq(|args|, k requires 0 <= k < |args| => Render(args[k]))
  }

  /** The command string that `system(*args)` records. */
  function RenderCommand(args: seq<Arg>): string {
    Join(RenderParts(args), " ")
  }

  /** The commands a block records, one per `system` call. */
  function RenderBlock(block: Block): (cmds: seq<string>)
    ensures |cmds| == |block|
    ensures forall k :: 0 <= k < |block| ==> cmds[k] == RenderCommand(block[k])
  {
    seq(|block|, k requires 0 <= k < |block| => RenderCommand(block[k]))
  }

  function ArgTexts(args: seq<Arg>): (texts: seq<string>)
    ensures |texts| == |args|
    ensures forall k :: 0 <= k < |args| ==> texts[k] == Text(args[k])
  {
    seq(|args|, k requires 0 <= k < |args| => Text(args[k]))
  }

  // ------------------------------------------------------------------
  // A reference reading of a command line, to say what the quoting achieves.

  /**
   * How a shell splits a line into words, restricted to the two features the
   * recorder relies on: an unquoted space ends a word, and single quotes group
   * characters (spaces included) without becoming part of the word.
   */
  function ShellWords(line: string): seq<string> {
    Lex(line, false, "", false)
  }

  function Lex(s: string, quoted: bool, word: string, inWord: bool): seq<string>
    decreases |s|
  {
    if |s| == 0 then (if inWord then [word] else [])
    else if s[0] == '\'' then Lex(s[1..], !quoted, word, true)
    else if s[0] == ' ' && !quoted then (if inWord then [word] else []) + Lex(s[1..], false, "", false)
    else Lex(s[1..], quoted, word + [s[0]], true)
  }

  /** An argument the recorder's quoting preserves as exactly one shell word. */
  predicate ShellSafe(a: Arg) {
    |Text(a)| > 0 && '\'' !in Text(a) && (a.Other? ==> ' ' !in Text(a))
  }

  /** A non-empty word without quotes or spaces is read as itself. */
  lemma PlainWord(s: string)
    ensures |s| > 0 && '\'' !in s && ' ' !in s ==> ShellWords(s) == [s]
  {
    if |s| > 0 && '\'' !in s && ' ' !in s {
      LexChunk(s, "", false, "", false);
      assert s + "" == s && "" + s == s;
    }
  }

  /** A non-empty quote-free text inside single quotes is read as one word, spaces included. */
  lemma QuotedWord(s: string)
    ensures |s| > 0 && '\'' !in s ==> ShellWords("'" + s + "'") == [s]
  {
    if |s| > 0 && '\'' !in s {
      var line := "'" + s + "'";
      assert line[0] == '\'' && line[1..] == s + "'";
      LexChunk(s, "'", true, "", true);
      assert "" + s == s;
    }
  }

  /** Characters without quotes (and, outside quotes, without spaces) just extend the word. */
  lemma {:induction false} LexChunk(x: string, r: string, quoted: bool, word: string, inWord: bool)
    requires '\'' !in x && (!quoted ==> ' ' !in x)
    ensures Lex(x + r, quoted, word, inWord) == Lex(r, quoted, word + x, inWord || |x| > 0)
    decreases |x|
  {
    if |x| == 0 {
      assert x + r == r && word + x == word;
    } else {
      assert (x + r)[0] == x[0] && (x + r)[1..] == x[1..] + r;
      LexChunk(x[1..], r, quoted, word + [x[0]], true);
      assert word + [x[0]] + x[1..] == word + x;
    }
  }

  lemma LexArg(a: Arg, r: string)
    requires ShellSafe(a)
    ensures Lex(Render(a) + r, false, "", false) == Lex(r, false, Text(a), true)
  {
    if a.Str? && ' ' in a.s {
      var s := a.s;
      var line := "'" + s + "'" + r;
      assert line[0] == '\'' && line[1..] == s + ("'" + r);
      LexChunk(s, "'" + r, true, "", true);
      assert "" + s == s;
      assert ("'" + r)[0] == '\'' && ("'" + r)[1..] == r;
    } else {
      LexChunk(Text(a), r, false, "", false);
      assert "" + Text(a) == Text(a);
    }
  }

  /**
   * Quoting round trip: when no argument is empty or contains a single quote,
   * and only Strings contain spaces, the shell reads the recorded command back
   * as exactly the arguments' texts, in order.
   */
  lemma {:induction false} CommandWords(args: seq<Arg>)
    requires forall k :: 0 <= k < |args| ==> ShellSafe(args[k])
    ensures ShellWords(RenderCommand(args)) == ArgTexts(args)
    decreases |args|
  {
    var parts := RenderParts(args);
    if |args| == 1 {
      LexArg(args[0], "");
      assert Render(args[0]) + "" == Render(args[0]);
    } else if |args| > 1 {
      var rest := Join(parts[1..], " ");
      assert parts[1..] == RenderParts(args[1..]);
      CommandWords(args[1..]);
      LexArg(args[0], " " + rest);
      assert RenderCommand(args) == Render(args[0]) + (" " + rest);
      assert (" " + rest)[0] == ' ' && (" " + rest)[1..] == rest;
      assert ArgTexts(args) == [Text(args[0])] + ArgTexts(args[1..]);
    }
  }

  lemma {:induction false} LexWordsQuoteFree(s: string, quoted: bool, word: string, inWord: bool)
    requires '\'' !in word
    ensures forall w :: w in Lex(s, quoted, word, inWord) ==> '\'' !in w
    decreases |s|
  {
    if |s| > 0 {
      if s[0] == '\'' {
        LexWordsQuoteFree(s[1..], !quoted, word, true);
      } else if s[0] == ' ' && !quoted {
        LexWordsQuoteFree(s[1..], false, "", false);
      } else {
        LexWordsQuoteFree(s[1..], quoted, word + [s[0]], true);
      }
    }
  }

  /**
   * The limit of the quoting, on the reader's side: the shell reading drops
   * every single quote, so no argument that holds one is ever read back from
   * the recorded command, whatever the rendering did with it.
   */
  lemma QuotedArgumentLost(args: seq<Arg>, k: nat)
    requires k < |args| && '\'' in Text(args[k])
    ensures ShellWords(RenderCommand(args)) != ArgTexts(args)
  {
    LexWordsQuoteFree(RenderCommand(args), false, "", false);
    assert ArgTexts(args)[k] in ArgTexts(args);
  }

  // ------------------------------------------------------------------
  // Class names.

  /**
   * A Ruby constant path: at least one segment; each segment is a constant
   * name, so it is non-empty and holds neither ':' nor '/'.
   */
  predicate IsConstantPath(path: seq<string>) {
    |path| >= 1 && forall k :: 0 <= k < |path| ==> |path[k]| > 0 && ':' !in path[k] && '/' !in path[k]
  }

  /** The path of a named class (anonymous classes are not modelled). */
  type ConstantPath = path: seq<string> | IsConstantPath(path) witness ["Formula"]

  /** `Class#name` of a class whose constant path is `path`. */
  function QualifiedName(path: seq<string>): string {
    Join(path, "::")
  }

  /** String#split discards trailing empty fields, and only those. */
  function DropTrailingEmpty(parts: seq<string>): (r: seq<string>)
    ensures |r| <= |parts| && r == parts[..|r|]
    ensures |r| > 0 ==> r[|r| - 1] != ""
    ensures forall k :: |r| <= k < |parts| ==> parts[k] == ""
    decreases |parts|
  {
    if |parts| > 0 && parts[|parts| - 1] == "" then DropTrailingEmpty(parts[..|parts| - 1]) else parts
  }

  /**
   * `name.split('::').last`: the last non-empty field between `::`
   * separators, or nil when every field is empty.
   */
  function LastSegment(name: string): (r: Option<string>)
    ensures var fields := SplitOn(name, "::");
      && (r.None? <==> forall k :: 0 <= k < |fields| ==> fields[k] == "")
      && (r.Some? ==> exists j :: 0 <= j < |fields| && fields[j] == r.value != ""
                                  && forall k :: j < k < |fields| ==> fields[k] == "")
  {
    var parts := DropTrailingEmpty(SplitOn(name, "::"));
    if |parts| == 0 then None
    else
      assert SplitOn(name, "::")[|parts| - 1] == parts[|parts| - 1];
      Some(parts[|parts| - 1])
  }

  /** The derived package name is the last segment of the class's constant path. */
  lemma NameOfPath(path: seq<string>)
    requires IsConstantPath(path)
    ensures LastSegment(QualifiedName(path)) == Some(path[|path| - 1])
  {
    var fields := SplitOn(QualifiedName(path), "::");
    SplitJoin(path, "::");
    assert fields == path;
    assert DropTrailingEmpty(fields) == fields;
  }

  // ------------------------------------------------------------------
  // Classes and instances.

  /** The value a metadata getter returns: the stored value, or "" when none was set. */
  function OrEmpty(v: Option<string>): string {
    if v.Some? then v.value else ""
  }

  /**
   * A class object defined by a recipe file: its constant path, the names of
   * its ancestors (Module#ancestors, itself included), the class-level
   * metadata set by `desc`, `homepage` and `version`, and the block that its
   * `install` method hands to `define_install_steps` (None when the class
   * does not override `install`).
   */
  class FormulaClass {
    const path: ConstantPath
    const ancestors: seq<string>
    const installBlock: Option<Block>
    var descVal: Option<string>
    var homepageVal: Option<string>
    var versionVal: Option<string>

    constructor (path: ConstantPath, ancestors: seq<string>, installBlock: Option<Block>)
      ensures this.path == path && this.ancestors == ancestors && this.installBlock == installBlock
      ensures descVal == None && homepageVal == None && versionVal == None
    {
      this.path := path;
      this.ancestors := ancestors;
      this.installBlock := installBlock;
      descVal, homepageVal, versionVal := None, None, None;
    }

    function Name(): string {
      QualifiedName(path)
    }

    /** `self.desc(val)`: stores the description for every instance of the class. */
    method Desc(val: string) returns (r: string)
      modifies this
      ensures descVal == Some(val) && r == val
      ensures homepageVal == old(homepageVal) && versionVal == old(versionVal)
    {
      descVal := Some(val);
      r := val;
    }

    /** `self.homepage(val)`. */
    method Homepage(val: string) returns (r: string)
      modifies this
      ensures homepageVal == Some(val) && r == val
      ensures descVal == old(descVal) && versionVal == old(versionVal)
    {
      homepageVal := Some(val);
      r := val;
    }

    /** `self.version(val)`. */
    method Version(val: string) returns (r: string)
      modifies this
      ensures versionVal == Some(val) && r == val
      ensures descVal == old(descVal) && homepageVal == old(homepageVal)
    {
      versionVal := Some(val);
      r := val;
    }
  }

  /** An instance of a formula class: its derived name and the commands recorded so far. */
  class Formula {
    const klass: FormulaClass
    const name: string
    var installCommands: seq<string>

    /** Construction records nothing: the install logic runs only when `install` is called. */
    constructor (k: FormulaClass)
      ensures klass == k && installCommands == []
      ensures Some(name) == LastSegment(k.Name()) && name == k.path[|k.path| - 1]
    {
      klass := k;
      NameOfPath(k.path);
      name := LastSegment(k.Name()).value;
      installCommands := [];
    }

    // Metadata getters: the value last given to the class-level setter, or "" when none was.

    function Desc(): (r: string)
      reads klass
      ensures klass.descVal.Some? ==> r == klass.descVal.value
      ensures klass.descVal.None? ==> r == ""
    {
      OrEmpty(klass.descVal)
    }

    function Homepage(): (r: string)
      reads klass
      ensures klass.homepageVal.Some? ==> r == klass.homepageVal.value
      ensures klass.homepageVal.None? ==> r == ""
    {
      OrEmpty(klass.homepageVal)
    }

    function Version(): (r: string)
      reads klass
      ensures klass.versionVal.Some? ==> r == klass.versionVal.value
      ensures klass.versionVal.None? ==> r == ""
    {
      OrEmpty(klass.versionVal)
    }

    // Path helpers: strings on the install-root placeholder.

    function Prefix(): string {
      "__PREFIX__"
    }

    function Bin(): string {
      Prefix() + "/bin"
    }

    function Lib(): string {
      Prefix() + "/lib"
    }

    function Man(): string {
      Prefix() + "/share/man"
    }

    /** Records one command, rendered from `args`, at the end of the list; runs nothing. */
    method System(args: seq<Arg>) returns (ok: bool)
      modifies this
      ensures installCommands == old(installCommands) + [RenderCommand(args)]
      ensures ok
    {
      installCommands := installCommands + [RenderCommand(args)];
      ok := true;
    }

    /** Clears the list, then runs the block: afterwards the list is exactly the block's commands. */
    method DefineInstallSteps(block: Block)
      modifies this
      ensures installCommands == RenderBlock(block)
    {
      installCommands := [];
      for i := 0 to |block|
        invariant installCommands == RenderBlock(block[..i])
      {
        assert RenderBlock(block[..i + 1]) == RenderBlock(block[..i]) + [RenderCommand(block[i])];
        var _ := System(block[i]);
      }
      assert block[..|block|] == block;
    }

    /** `install(&block)`: without a block it records nothing. */
    method Install(block: Option<Block>)
      modifies this
      ensures block.Some? ==> installCommands == RenderBlock(block.value)
      ensures block.None? ==> installCommands == old(installCommands)
    {
      if block.Some? {
        DefineInstallSteps(block.value);
      }
    }
  }
}
