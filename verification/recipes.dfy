/**
 * The repository's two example recipes, written as values of the model, and
 * what the model says they produce.
 */
module Recipes {
  import opened Wrappers
  import opened Strings
  import opened FormulaDsl
  import opened RecipeDsl
  import opened FlakeGen

  // ------------------------------------------------------------------
  // recipes/hello_echo_formula.rb

  /** What `bin` returns inside the install block. */
  const HelloBin := Placeholder + "/bin"

  lemma HelloBinIsBin(f: Formula)
    ensures f.Bin() == HelloBin
  {
  }

  /** The script the formula's second command writes: two lines, from Ruby's "\n". */
  const ScriptHead := "#!/bin/sh"
  const ScriptBody := "echo \"Hello, " + "Echo from " + "Homebrew-style " + "formula!\""
  const EchoScript := ScriptHead + "\n" + ScriptBody

  /** The third argument of the `sh -c` call. */
  function EchoCommand(bin: string): string {
    "echo '" + EchoScript + "' > " + bin + "/hello-echo"
  }

  /** The install block of HelloEchoFormula, on the value of `bin`. */
  function HelloEchoInstall(bin: string): Block {
    [ [Str("mkdir"), Str("-p"), Str(bin)],
      [Str("sh"), Str("-c"), Str(EchoCommand(bin))],
      [Str("chmod"), Str("+x"), Str(bin + "/hello-echo")] ]
  }

  const HelloEchoAncestors := ["HelloEchoFormula", FormulaBase, "Object", "Kernel", "BasicObject"]

  /** A three-argument `system` call is recorded as the three rendered arguments joined by spaces. */
  lemma RenderThree(x: Arg, y: Arg, z: Arg)
    ensures RenderCommand([x, y, z]) == Render(x) + " " + Render(y) + " " + Render(z)
  {
    var parts := RenderParts([x, y, z]);
    assert parts[1..] == [Render(y), Render(z)] && parts[1..][1..] == [Render(z)];
    assert Join(parts[1..], " ") == Render(y) + " " + Render(z);
    assert Join(parts, " ") == Render(x) + " " + (Render(y) + " " + Render(z));
  }

  /**
   * The formula records three commands; the first and last have no spaces
   * in their arguments and are recorded as the words joined by spaces, and
   * the `sh -c` script, which has spaces, is wrapped in single quotes.
   */
  lemma HelloEchoCommands()
    ensures var cmds := RenderBlock(HelloEchoInstall(HelloBin));
      && |cmds| == 3
      && cmds[0] == "mkdir" + " " + "-p" + " " + HelloBin
      && cmds[1] == "sh" + " " + "-c" + " " + ("'" + EchoCommand(HelloBin) + "'")
      && cmds[2] == "chmod" + " " + "+x" + " " + (HelloBin + "/hello-echo")
  {
    var b := HelloEchoInstall(HelloBin);
    PlainWords(HelloBin);
    QuotedScript();
    RenderThree(b[0][0], b[0][1], b[0][2]);
    RenderThree(b[1][0], b[1][1], b[1][2]);
    RenderThree(b[2][0], b[2][1], b[2][2]);
  }

  lemma PlainWords(bin: string)
    requires bin == HelloBin
    ensures Render(Str(bin)) == bin
    ensures Render(Str(bin + "/hello-echo")) == bin + "/hello-echo"
  {
    assert ' ' !in bin;
    assert ' ' !in bin + "/hello-echo";
  }

  lemma QuotedScript()
    ensures Render(Str(EchoCommand(HelloBin))) == "'" + EchoCommand(HelloBin) + "'"
  {
    assert EchoCommand(HelloBin)[4] == ' ';
  }

  /**
   * In the install phase the formula's first and last commands act on
   * $out/bin, and the three commands are separated by PhaseSep in order.
   */
  lemma HelloEchoPhase()
    ensures var cmds := RenderBlock(HelloEchoInstall(HelloBin));
      InstallPhase(cmds)
      == "mkdir -p " + OutRef + "/bin" + PhaseSep
         + (Substitute(cmds[1]) + PhaseSep + "chmod +x " + OutRef + "/bin/hello-echo")
  {
    var cmds := RenderBlock(HelloEchoInstall(HelloBin));
    assert cmds == [cmds[0], cmds[1], cmds[2]];
    PhaseOfThree(cmds[0], cmds[1], cmds[2]);
    OuterCommands();
  }

  /** The first and last commands of the block, substituted. */
  lemma OuterCommands()
    ensures var cmds := RenderBlock(HelloEchoInstall(HelloBin));
      && Substitute(cmds[0]) == "mkdir -p " + OutRef + "/bin"
      && Substitute(cmds[2]) == "chmod +x " + OutRef + "/bin/hello-echo"
  {
    var cmds := RenderBlock(HelloEchoInstall(HelloBin));
    HelloEchoCommands();
    MkdirCommand(cmds[0]);
    ChmodCommand(cmds[2]);
  }

  lemma MkdirCommand(c0: string)
    requires c0 == "mkdir" + " " + "-p" + " " + HelloBin
    ensures Substitute(c0) == "mkdir -p " + OutRef + "/bin"
  {
    assert c0 == "mkdir -p " + Placeholder + "/bin";
    PathCommand("mkdir -p ", "/bin");
  }

  lemma ChmodCommand(c2: string)
    requires c2 == "chmod" + " " + "+x" + " " + (HelloBin + "/hello-echo")
    ensures Substitute(c2) == "chmod +x " + OutRef + "/bin/hello-echo"
  {
    assert c2 == "chmod +x " + Placeholder + "/bin/hello-echo";
    PathCommand("chmod +x ", "/bin/hello-echo");
  }

  /** A command with one path under the placeholder and no other '_'. */
  lemma PathCommand(pre: string, rest: string)
    requires '_' !in pre && '_' !in rest
    ensures Substitute(pre + Placeholder + rest) == pre + OutRef + rest
  {
    NoEarlyOccurrence(pre, Placeholder, Placeholder);
    SubstituteWithin(pre, rest);
    NoOccurrenceWithoutHead(rest, Placeholder);
  }

  /**
   * The `sh -c` command holds a newline of its own (the script's), yet no
   * substituted command of the block contains a whole separator, so the
   * install phase splits back into exactly the three substituted commands.
   */
  lemma HelloEchoPhaseSplits()
    ensures var cmds := RenderBlock(HelloEchoInstall(HelloBin));
      SplitOn(InstallPhase(cmds), PhaseSep) == SubstituteAll(cmds)
  {
    var cmds := RenderBlock(HelloEchoInstall(HelloBin));
    HelloEchoCommands();
    OuterCommands();
    OuterCommandsHaveNoSeparator();
    ScriptLines();
    ScriptCommand(cmds[1], ScriptHead, ScriptBody);
    forall k | 0 <= k < |cmds| ensures NoOccurrence(Substitute(cmds[k]), PhaseSep) {
      if k == 0 || k == 2 {
      } else {
        assert k == 1;
      }
    }
    InstallPhaseCommands(cmds);
  }

  lemma OuterCommandsHaveNoSeparator()
    ensures NoOccurrence("mkdir -p " + OutRef + "/bin", PhaseSep)
    ensures NoOccurrence("chmod +x " + OutRef + "/bin/hello-echo", PhaseSep)
  {
    NoOccurrenceWithoutHead("mkdir -p " + OutRef + "/bin", PhaseSep);
    NoOccurrenceWithoutHead("chmod +x " + OutRef + "/bin/hello-echo", PhaseSep);
  }

  /** Each line of the script is free of newlines and of '_', and the second does not start with a space. */
  lemma ScriptLines()
    ensures '\n' !in ScriptHead && '_' !in ScriptHead
    ensures '\n' !in ScriptBody && '_' !in ScriptBody && ScriptBody[0] != ' '
  {
  }

  /** After substitution, the script's newline is followed by its second line, not by a separator's spaces. */
  lemma ScriptCommand(c1: string, h: string, b: string)
    requires '\n' !in h && '_' !in h && '\n' !in b && '_' !in b && |b| > 0 && b[0] != ' '
    requires c1 == "sh" + " " + "-c" + " " + ("'" + ("echo '" + (h + "\n" + b) + "' > " + HelloBin + "/hello-echo") + "'")
    ensures NoOccurrence(Substitute(c1), PhaseSep)
  {
    var x := "sh -c 'echo '" + h;
    var y := b + "' > ";
    var rest := "/bin/hello-echo'";
    ScriptCommandShape(c1, h, b);
    PathCommand(x + "\n" + y, rest);
    assert (x + "\n" + y) + OutRef + rest == x + "\n" + (y + OutRef + rest);
    NewlineNotSeparator(x, y + OutRef + rest);
  }

  lemma ScriptCommandShape(c1: string, h: string, b: string)
    requires c1 == "sh" + " " + "-c" + " " + ("'" + ("echo '" + (h + "\n" + b) + "' > " + HelloBin + "/hello-echo") + "'")
    ensures c1 == (("sh -c 'echo '" + h) + "\n" + (b + "' > ")) + Placeholder + "/bin/hello-echo'"
  {
    assert "sh" + " " + "-c" + " " + "'" + "echo '" == "sh -c 'echo '";
    assert HelloBin + "/hello-echo" + "'" == Placeholder + "/bin/hello-echo'";
  }

  /** Three commands give three substituted commands separated by PhaseSep. */
  lemma PhaseOfThree(a: string, b: string, c: string)
    ensures InstallPhase([a, b, c]) == Substitute(a) + PhaseSep + (Substitute(b) + PhaseSep + Substitute(c))
  {
    var subs := SubstituteAll([a, b, c]);
    assert subs == [Substitute(a), Substitute(b), Substitute(c)];
    assert subs[1..] == [subs[1], subs[2]] && subs[1..][1..] == [subs[2]];
    assert Join(subs[1..], PhaseSep) == Substitute(b) + PhaseSep + Substitute(c);
  }

  /**
   * The script argument holds single quotes of its own, so the recorded
   * `sh -c` command is not read back by a shell as the three arguments given.
   */
  lemma HelloEchoScriptSplits()
    ensures var args := HelloEchoInstall(HelloBin)[1];
      ShellWords(RenderCommand(args)) != ArgTexts(args)
  {
    var args := HelloEchoInstall(HelloBin)[1];
    assert Text(args[2])[5] == '\'';
    QuotedArgumentLost(args, 2);
  }

  /**
   * Constructing the generator for recipes/hello_echo_formula.rb: loading
   * the file adds one class to the base class already present; the package
   * is named after that class, takes its version, and holds the commands of
   * its install block.
   */
  method NewHelloEchoGenerator() returns (g: FlakeGenerator)
    ensures fresh(g)
    ensures g.packageName == "HelloEchoFormula" && g.packageVersion == "0.1.0"
    ensures g.installCommands == RenderBlock(HelloEchoInstall(HelloBin))
  {
    var base := new FormulaClass(BasePath, BaseAncestors, None);
    var k := new FormulaClass(["HelloEchoFormula"], HelloEchoAncestors, Some(HelloEchoInstall(HelloBin)));
    var d := k.Desc("A simple formula that installs an echo script");
    var h := k.Homepage("https://example.com/hello-echo");
    var v := k.Version("0.1.0");
    HelloEchoSelected(base, k);
    var r := FlakeGenerator.Create("recipes/hello_echo_formula.rb", true, [base], [base, k]);
    g := r.value;
  }

  /** Generating for that recipe writes the manifest into flakes/HelloEchoFormula. */
  method GenerateHelloEcho() returns (out: Output)
    ensures out.dirs == ["flakes/HelloEchoFormula", "flakes/HelloEchoFormula/empty_src"]
    ensures out.file == "flakes/HelloEchoFormula/flake.nix"
    ensures out.content
         == FlakeNixContent("HelloEchoFormula", "0.1.0", InstallPhase(RenderBlock(HelloEchoInstall(HelloBin))))
  {
    var g := NewHelloEchoGenerator();
    out := g.Generate();
    HelloEchoPaths();
  }

  const BasePath: ConstantPath := ["HomebrewStyleDSL", "Formula"]
  const BaseAncestors := [FormulaBase, "Object", "Kernel", "BasicObject"]

  /** Of the base class and the class the file adds, the generator picks the added one. */
  lemma HelloEchoSelected(base: FormulaClass, k: FormulaClass)
    requires base != k && base.path == BasePath && k.path == ["HelloEchoFormula"]
    requires k.ancestors == HelloEchoAncestors
    ensures FindFormulaClass([base], [base, k]) == Some(1)
  {
    assert Join(BasePath, "::") == FormulaBase;
    assert k.Name() == "HelloEchoFormula";
    assert IsNewFormulaClass([base], k);
    assert [base, k][1..] == [k];
  }

  lemma HelloEchoPaths()
    ensures OutputDir("HelloEchoFormula") == "flakes/HelloEchoFormula"
    ensures EmptySrcDir("HelloEchoFormula") == "flakes/HelloEchoFormula/empty_src"
    ensures OutputPath("HelloEchoFormula") == "flakes/HelloEchoFormula/flake.nix"
  {
  }

  /**
   * A recipe file that loads cleanly but defines no formula class (here one
   * holding only comments) is rejected, naming the file.
   */
  method GenerateWithoutFormula() returns (e: Option<GenError>)
    ensures e == Some(NoFormulaClass("recipes/notes.rb"))
  {
    var base := new FormulaClass(BasePath, BaseAncestors, None);
    var r := FlakeGenerator.Create("recipes/notes.rb", true, [base], [base]);
    e := Some(r.error);
  }

  // ------------------------------------------------------------------
  // recipes/hello.rb

  /** The `<<~SCRIPT` heredoc, dedented, with its final newline. */
  const HelloScript := "#!/bin/sh\necho \"Hello, World from Nix Flake!\"\n"

  const HelloRecipe: seq<Call> :=
    [ PackageCall("hello", [
        SetVersionCall("0.1.0"),
        OutputCall([
          WriteFileCall("bin/hello", HelloScript),
          MakeExecutableCall("bin/hello") ]) ]) ]

  /** Loading recipes/hello.rb gives the package "hello" 0.1.0 with two records, in order. */
  method LoadHello() returns (r: Recipe)
    ensures r.name == Some("hello") && r.version == Some("0.1.0")
    ensures r.outputCommands == [Cmd.WriteFile("bin/hello", HelloScript), Cmd.MakeExecutable("bin/hello")]
  {
    r := LoadRecipe(HelloRecipe);
    var inner := HelloRecipe[0].block;
    var out := inner[1].body;
    var named := Builder(Some("hello"), None, []);
    var versioned := Builder(Some("hello"), Some("0.1.0"), []);
    var written := versioned.(records := [Cmd.WriteFile("bin/hello", HelloScript)]);
    assert HelloRecipe[1..] == [] && inner[1..] == [inner[1]] && inner[1..][1..] == [];
    assert out[1..] == [out[1]] && out[1..][1..] == [];
    calc {
      ApplyAll(Fresh, HelloRecipe);
      Apply(Fresh, HelloRecipe[0]);
      ApplyAll(named, inner);
      ApplyAll(versioned, inner[1..]);
      Apply(versioned, inner[1]);
      ApplyAll(versioned, out);
      ApplyAll(Apply(versioned, out[0]), out[1..]);
      { assert [] + [Cmd.WriteFile("bin/hello", HelloScript)] == [Cmd.WriteFile("bin/hello", HelloScript)]; }
      ApplyAll(written, out[1..]);
      Apply(written, out[1]);
    }
  }
}
