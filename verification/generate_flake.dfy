/**
 * The flake generator (FlakeGenerator): selects the formula class a recipe
 * file defined, instantiates it and runs its `install`, then renders the
 * recorded commands as a Nix install phase inside a fixed flake.nix template.
 */
module FlakeGen {
  import opened Wrappers
  import opened Strings
  import opened FormulaDsl

  // ------------------------------------------------------------------
  // Install phase.

  /** The recorder's install-root placeholder and the Nix reference that replaces it. */
  const Placeholder := "__PREFIX__"
  const OutRef := "$out"

  /** What separates two commands in the install phase: a newline and six spaces. */
  const PhaseSep := "\n      "

  /**
   * `cmd.gsub("__PREFIX__", "$out")`: the command is cut at every
   * placeholder and glued back with $out in each gap, so no placeholder
   * survives and a command without one is returned as it is.
   */
  function Substitute(cmd: string): (r: string)
    ensures r == Join(SplitOn(cmd, Placeholder), OutRef)
    ensures NoOccurrence(r, Placeholder)
    ensures NoOccurrence(cmd, Placeholder) ==> r == cmd
  {
    ReplaceAllSplit(cmd, Placeholder, OutRef);
    OutRefAvoidsPlaceholder();
    ReplaceAllComplete(cmd, Placeholder, OutRef);
    ReplaceAllIdentity(cmd, Placeholder, OutRef);
    ReplaceAll(cmd, Placeholder, OutRef)
  }

  function SubstituteAll(cmds: seq<string>): (r: seq<string>)
    ensures |r| == |cmds|
    ensures forall k :: 0 <= k < |cmds| ==> r[k] == Substitute(cmds[k])
  {
    seq(|cmds|, k requires 0 <= k < |cmds| => Substitute(cmds[k]))
  }

  /**
   * `generate_install_phase`: every command with the placeholder replaced,
   * joined by PhaseSep. Substitution is complete: no placeholder survives
   * anywhere in the phase, across the separators included.
   */
  function InstallPhase(cmds: seq<string>): (phase: string)
    ensures NoOccurrence(phase, Placeholder)
  {
    OutRefAvoidsPlaceholder();
    NoOccurrenceJoin(SubstituteAll(cmds), PhaseSep, Placeholder);
    Join(SubstituteAll(cmds), PhaseSep)
  }

  lemma OutRefAvoidsPlaceholder()
    ensures forall k :: 0 <= k < |OutRef| ==> OutRef[k] !in Placeholder
    ensures forall k :: 0 <= k < |PhaseSep| ==> PhaseSep[k] !in Placeholder
  {
  }

  /**
   * Shape of the install phase: no commands give "", one command gives that
   * command, and each further command adds one separator and itself at the
   * end, so n commands are joined by n - 1 separators, in recorded order.
   */
  lemma {:induction false} InstallPhaseShape(cmds: seq<string>, c: string)
    ensures InstallPhase([]) == ""
    ensures InstallPhase([c]) == Substitute(c)
    ensures |cmds| >= 1 ==> InstallPhase(cmds + [c]) == InstallPhase(cmds) + PhaseSep + Substitute(c)
  {
    assert SubstituteAll([c]) == [Substitute(c)];
    if |cmds| >= 1 {
      assert SubstituteAll(cmds + [c]) == SubstituteAll(cmds) + [Substitute(c)];
      JoinAppend(SubstituteAll(cmds), [Substitute(c)], PhaseSep);
    }
  }

  /**
   * When no substituted command contains a whole separator, cutting the
   * install phase at its separators gives back the substituted commands,
   * one each, in order. Newlines inside commands are allowed: the
   * separator's newline is its only one, so it cannot straddle a boundary.
   */
  lemma InstallPhaseCommands(cmds: seq<string>)
    requires |cmds| >= 1
    requires forall k :: 0 <= k < |cmds| ==> NoOccurrence(Substitute(cmds[k]), PhaseSep)
    ensures SplitOn(InstallPhase(cmds), PhaseSep) == SubstituteAll(cmds)
  {
    assert PhaseSep[0] !in PhaseSep[1..];
    SplitJoinUnique(SubstituteAll(cmds), PhaseSep);
  }

  /** A newline that is not followed by a space cannot start a separator. */
  lemma NewlineNotSeparator(x: string, z: string)
    requires '\n' !in x && '\n' !in z && (|z| > 0 ==> z[0] != ' ')
    ensures NoOccurrence(x + "\n" + z, PhaseSep)
  {
    var s := x + "\n" + z;
    forall i: nat | i + |PhaseSep| <= |s| ensures !OccursAt(s, PhaseSep, i) {
      assert s[i..i + |PhaseSep|][0] == s[i] && s[i..i + |PhaseSep|][1] == s[i + 1];
      if i != |x| {
        assert s[i] != '\n';
      } else {
        assert s[i + 1] == z[0];
      }
    }
  }

  /** The path helpers become paths under $out. */
  lemma HelperPathsUnderOut(f: Formula)
    ensures Substitute(f.Prefix()) == "$out"
    ensures Substitute(f.Bin()) == "$out/bin"
    ensures Substitute(f.Lib()) == "$out/lib"
    ensures Substitute(f.Man()) == "$out/share/man"
  {
    UnderOut("");
    UnderOut("/bin");
    UnderOut("/lib");
    UnderOut("/share/man");
    assert f.Prefix() == Placeholder + "";
  }

  lemma UnderOut(rest: string)
    requires '_' !in rest
    ensures Substitute(Placeholder + rest) == OutRef + rest
  {
    SubstituteWithin("", rest);
    assert "" + Placeholder + rest == Placeholder + rest;
    NoOccurrenceWithoutHead(rest, Placeholder);
  }

  /**
   * The first placeholder of a command becomes $out: the text before it is
   * kept as it is, and the text after it is substituted in turn, so any
   * number of placeholders are each replaced in place.
   */
  lemma SubstituteWithin(pre: string, rest: string)
    requires forall i :: 0 <= i < |pre| ==> !OccursAt(pre + Placeholder, Placeholder, i)
    ensures Substitute(pre + Placeholder + rest) == pre + OutRef + Substitute(rest)
  {
    var s := pre + Placeholder + rest;
    var t := Placeholder + rest;
    assert s == pre + t;
    forall i | 0 <= i < |pre| ensures !OccursAt(pre + t, Placeholder, i) {
      assert !OccursAt(pre + Placeholder, Placeholder, i);
      if i + |Placeholder| <= |s| {
        assert (pre + t)[i..i + |Placeholder|] == (pre + Placeholder)[i..i + |Placeholder|];
      }
    }
    ReplaceAllSkip(pre, t, Placeholder, OutRef);
    assert t[..|Placeholder|] == Placeholder && t[|Placeholder|..] == rest;
  }

  // ------------------------------------------------------------------
  // The flake.nix template.

  /** A line of template text. */
  type Line = s: string | '\n' !in s

  /**
   * A piece of template text. Long lines are written as several pieces so
   * that each piece's freedom from newlines is checked on its own.
   */
  function Piece(s: Line): Line {
    s
  }

  // Fixed lines and the fixed parts of lines with an interpolated value.
  const Open: Line := "{"
  const Blank: Line := ""
  const DescriptionPrefix: Line := Piece("  description = ") + Piece("\"Nix Flake for ")
  const DescriptionSuffix: Line := Piece(" (generated from ") + Piece("Homebrew-style ") + Piece("formula)\";")
  const InputsOpen: Line := "  inputs = {"
  const NixpkgsUrl: Line := NixpkgsUrlStart + NixpkgsUrlEnd
  const NixpkgsUrlStart: Line := Piece("    nixpkgs.url = ") + Piece("\"github:NixOS/")
  const NixpkgsUrlEnd: Line := Piece("nixpkgs/nixos-") + Piece("unstable\";")
  const InputsClose: Line := "  };"
  const OutputsOpen: Line := Piece("  outputs = ") + Piece("{ self, nixpkgs }:")
  const Let: Line := "  let"
  const SystemLine: Line := SystemBinding + SystemComment
  const SystemBinding: Line := Piece("    system = ") + Piece("\"x86_64-linux\"; ")
  const SystemComment: Line := Piece("# Or make this ") + Piece("configurable")
  const PkgsLine: Line := Piece("    pkgs = nixpkgs.") + Piece("legacyPackages.") + Piece("${system};")
  const In: Line := "  in"
  const BodyOpen: Line := "  {"
  const PackagePrefix: Line := Piece("    packages.") + Piece("${system}.")
  const PackageSuffix: Line := Piece(" = pkgs.stdenv.") + Piece("mkDerivation {")
  const NamePrefix: Line := Piece("      name = \"")
  const VersionPrefix: Line := Piece("      version = \"")
  const FieldSuffix: Line := "\";"
  const SrcComment: Line := SrcCommentStart + SrcCommentEnd
  const SrcCommentStart: Line := Piece("      # src is a ") + Piece("placeholder for ")
  const SrcCommentEnd: Line := Piece("recipes that ") + Piece("generate their ") + Piece("own content")
  const SrcLine: Line := Piece("      src = ") + Piece("./empty_src;")
  const BuildInputsComment: Line := BuildInputsStart + BuildInputsEnd
  const BuildInputsStart: Line := Piece("      # buildInputs ") + Piece("would come from ")
  const BuildInputsEnd: Line := Piece("formula.") + Piece("depends_on if ") + Piece("implemented")
  const NativeComment: Line := NativeCommentStart + NativeCommentEnd
  const NativeCommentStart: Line := Piece("      # native") + Piece("BuildInputs = ")
  const NativeCommentEnd: Line := Piece("[ pkgs.") + Piece("some_build_tool ];")
  const PhaseOpen: Line := Piece("      install") + Piece("Phase = ''")
  const PhaseClose: Line := "      '';"
  const EnsureComment: Line := EnsureStart + EnsureEnd
  const EnsureStart: Line := Piece("      # Ensure ") + Piece("coreutils for ") + Piece("basic commands ")
  const EnsureEnd: Line := Piece("like mkdir, ") + Piece("echo, chmod if ") + Piece("not part of ") + Piece("stdenv")
  const NativeInputs: Line := NativeInputsStart + NativeInputsEnd
  const NativeInputsStart: Line := Piece("      native") + Piece("BuildInputs = ") + Piece("[ pkgs.coreutils ")
  const NativeInputsEnd: Line := Piece("pkgs.bash ]; ") + Piece("# bash for ") + Piece("`sh -c` if used")
  const DerivationClose: Line := "    };"
  const DefaultPrefix: Line := DefaultStart + DefaultEnd
  const DefaultStart: Line := Piece("    default") + Piece("Package.") + Piece("${system} = ")
  const DefaultEnd: Line := Piece("self.packages.") + Piece("${system}.")
  const DefaultSuffix: Line := ";"
  const AliasPrefix: Line := AliasStart + AliasEnd
  const AliasStart: Line := Piece("    default") + Piece("Package = ")
  const AliasEnd: Line := Piece("self.packages.") + Piece("${system}.")
  const AliasSuffix: Line := Piece("; # for ") + Piece("convenience")
  const BodyClose: Line := "  };"
  const Close: Line := "}"

  /** Template lines before the install phase (`<<~` removes the heredoc's six columns). */
  function HeadLines(name: string, version: string): seq<string> {
    [ Open,
      DescriptionPrefix + name + DescriptionSuffix,
      Blank,
      InputsOpen,
      NixpkgsUrl,
      InputsClose,
      Blank,
      OutputsOpen,
      Let,
      SystemLine,
      PkgsLine,
      In,
      BodyOpen,
      PackagePrefix + name + PackageSuffix,
      NamePrefix + name + FieldSuffix,
      VersionPrefix + version + FieldSuffix,
      Blank,
      SrcComment,
      SrcLine,
      Blank,
      BuildInputsComment,
      NativeComment,
      Blank,
      PhaseOpen ]
  }

  /** Template lines after the install phase. */
  function TailLines(name: string): seq<string> {
    [ PhaseClose,
      Blank,
      EnsureComment,
      NativeInputs,
      DerivationClose,
      Blank,
      DefaultPrefix + name + DefaultSuffix,
      AliasPrefix + name + AliasSuffix,
      BodyClose,
      Close ]
  }

  const HeadLen := 24
  const TailLen := 10

  /**
   * The install phase sits on its own template line indented by eight
   * columns; the heredoc does not re-indent interpolated text, so commands
   * after the first keep the six spaces of the separator.
   */
  const PhaseIndent := "        "

  /** `generate_flake_nix_content`: the template lines, each ended by a newline. */
  function FlakeNixContent(name: string, version: string, phase: string): string {
    Join(HeadLines(name, version) + [PhaseIndent + phase] + TailLines(name) + [""], "\n")
  }

  /** The values a manifest was rendered from. */
  datatype FlakeFields = FlakeFields(name: string, version: string, installPhase: string)

  /**
   * Reads a manifest back: takes the name and version from their lines,
   * checks every other template line against them, and takes the install
   * phase from what lies between the head and the tail.
   */
  function ReadManifest(text: string): Option<FlakeFields> {
    var ls := SplitOn(text, "\n");
    if |ls| < HeadLen + TailLen + 2 then None
    else
      var name := Between(ls[14], NamePrefix, FieldSuffix);
      var version := Between(ls[15], VersionPrefix, FieldSuffix);
      if name.None? || version.None? then None
      else
        var phaseLine := Join(ls[HeadLen..|ls| - TailLen - 1], "\n");
        if ls[..HeadLen] == HeadLines(name.value, version.value)
          && ls[|ls| - TailLen - 1..] == TailLines(name.value) + [""]
          && |PhaseIndent| <= |phaseLine| && phaseLine[..|PhaseIndent|] == PhaseIndent
        then Some(FlakeFields(name.value, version.value, phaseLine[|PhaseIndent|..]))
        else None
  }

  predicate NoNewlines(lines: seq<string>) {
    forall k :: 0 <= k < |lines| ==> '\n' !in lines[k]
  }

  lemma TemplateLinesHaveNoNewlines(name: string, version: string)
    requires '\n' !in name && '\n' !in version
    ensures |HeadLines(name, version)| == HeadLen && |TailLines(name)| == TailLen
    ensures NoNewlines(HeadLines(name, version)) && NoNewlines(TailLines(name) + [""])
  {
  }

  /**
   * The manifest's lines: the template head, the lines of the indented
   * install phase, the template tail, and the empty field after the final
   * newline.
   */
  lemma ManifestLines(name: string, version: string, phase: string)
    requires '\n' !in name && '\n' !in version
    ensures SplitOn(FlakeNixContent(name, version, phase), "\n")
         == HeadLines(name, version) + SplitOn(PhaseIndent + phase, "\n") + TailLines(name) + [""]
  {
    var head := HeadLines(name, version);
    var tail := TailLines(name) + [""];
    var pl := PhaseIndent + phase;
    TemplateLinesHaveNoNewlines(name, version);
    assert head + [pl] + TailLines(name) + [""] == head + ([pl] + tail);
    JoinAppend(head, [pl] + tail, "\n");
    assert ([pl] + tail)[1..] == tail;
    var jt := Join(tail, "\n");
    assert Join([pl] + tail, "\n") == pl + "\n" + jt;
    SplitConcat(Join(head, "\n"), '\n', pl + "\n" + jt);
    SplitConcat(pl, '\n', jt);
    SplitJoin(head, "\n");
    SplitJoin(tail, "\n");
    assert Join(head, "\n") + "\n" + (pl + "\n" + jt) == Join(head, "\n") + ['\n'] + (pl + ['\n'] + jt);
  }

  /** Rendering then reading gives back the name, version and install phase. */
  lemma ManifestRoundTrip(name: string, version: string, phase: string)
    requires '\n' !in name && '\n' !in version
    ensures ReadManifest(FlakeNixContent(name, version, phase)) == Some(FlakeFields(name, version, phase))
  {
    var text := FlakeNixContent(name, version, phase);
    var head := HeadLines(name, version);
    var mid := SplitOn(PhaseIndent + phase, "\n");
    var tail := TailLines(name) + [""];
    ManifestLines(name, version, phase);
    TemplateLinesHaveNoNewlines(name, version);
    var ls := head + mid + tail;
    assert SplitOn(text, "\n") == ls;
    assert ls[14] == NamePrefix + name + FieldSuffix;
    assert ls[15] == VersionPrefix + version + FieldSuffix;
    BetweenRoundTrip(NamePrefix, name, FieldSuffix);
    BetweenRoundTrip(VersionPrefix, version, FieldSuffix);
    assert ls[..HeadLen] == head;
    assert ls[HeadLen..|ls| - TailLen - 1] == mid;
    assert ls[|ls| - TailLen - 1..] == tail;
    JoinSplit(PhaseIndent + phase, "\n");
    assert (PhaseIndent + phase)[..|PhaseIndent|] == PhaseIndent;
    assert (PhaseIndent + phase)[|PhaseIndent|..] == phase;
  }

  /** Whatever the reader accepts is exactly the rendering of what it returns. */
  lemma ReadManifestSound(text: string)
    requires ReadManifest(text).Some?
    ensures var f := ReadManifest(text).value; FlakeNixContent(f.name, f.version, f.installPhase) == text
  {
    var f := ReadManifest(text).value;
    var ls := SplitOn(text, "\n");
    var mid := ls[HeadLen..|ls| - TailLen - 1];
    var head := HeadLines(f.name, f.version);
    var tail := TailLines(f.name) + [""];
    assert Join(mid, "\n") == PhaseIndent + f.installPhase;
    assert ls == head + mid + tail;
    JoinSplit(text, "\n");
    JoinFlatten(head, mid, tail, "\n");
    assert head + [PhaseIndent + f.installPhase] + TailLines(f.name) + [""]
        == head + [PhaseIndent + f.installPhase] + tail;
  }

  /** Different names, versions or install phases never render to the same manifest. */
  lemma ManifestInjective(n1: string, v1: string, p1: string, n2: string, v2: string, p2: string)
    requires '\n' !in n1 && '\n' !in v1 && '\n' !in n2 && '\n' !in v2
    requires FlakeNixContent(n1, v1, p1) == FlakeNixContent(n2, v2, p2)
    ensures n1 == n2 && v1 == v2 && p1 == p2
  {
    ManifestRoundTrip(n1, v1, p1);
    ManifestRoundTrip(n2, v2, p2);
  }

  /**
   * The name is interpolated verbatim into the description, the package
   * attribute, `name = ...` and both `defaultPackage` lines; the version into
   * `version = ...`; the system and the source lines are the same whatever
   * the formula.
   */
  lemma ManifestSites(name: string, version: string, phase: string)
    requires '\n' !in name && '\n' !in version
    ensures var ls := SplitOn(FlakeNixContent(name, version, phase), "\n");
      && |ls| >= HeadLen + TailLen + 2
      && ls[1] == DescriptionPrefix + name + DescriptionSuffix
      && ls[9] == SystemLine
      && ls[13] == PackagePrefix + name + PackageSuffix
      && ls[14] == NamePrefix + name + FieldSuffix
      && ls[15] == VersionPrefix + version + FieldSuffix
      && ls[18] == SrcLine
      && ls[|ls| - 5] == DefaultPrefix + name + DefaultSuffix
      && ls[|ls| - 4] == AliasPrefix + name + AliasSuffix
  {
    ManifestLines(name, version, phase);
    TemplateLinesHaveNoNewlines(name, version);
  }

  // ------------------------------------------------------------------
  // Finding the formula class a recipe file defines.

  /** Class#name of the DSL's base class. */
  const FormulaBase := "HomebrewStyleDSL::Formula"

  /** The class inherits from the base class and is not the base class itself. */
  predicate IsFormulaSubclass(k: FormulaClass) {
    FormulaBase in k.ancestors && k.Name() != FormulaBase
  }

  /** The class was defined by loading the recipe and is a formula class. */
  predicate IsNewFormulaClass(existing: seq<FormulaClass>, k: FormulaClass) {
    k !in existing && IsFormulaSubclass(k)
  }

  /**
   * `(loaded - existing).find { ... }`: the position in `loaded` of the
   * first class that is not among the classes present before loading and
   * inherits from the base class, or None when there is none.
   */
  function FindFormulaClass(existing: seq<FormulaClass>, loaded: seq<FormulaClass>): (r: Option<nat>)
    ensures r.Some? ==> r.value < |loaded| && IsNewFormulaClass(existing, loaded[r.value])
    ensures r.Some? ==> forall j :: 0 <= j < r.value ==> !IsNewFormulaClass(existing, loaded[j])
    ensures r.None? <==> forall j :: 0 <= j < |loaded| ==> !IsNewFormulaClass(existing, loaded[j])
    decreases |loaded|
  {
    if |loaded| == 0 then None
    else if IsNewFormulaClass(existing, loaded[0]) then Some(0)
    else
      match FindFormulaClass(existing, loaded[1..])
      case None => None
      case Some(i) => Some(i + 1)
  }

  // ------------------------------------------------------------------
  // Errors raised while constructing the generator.

  datatype GenError =
    | RecipeNotFound(path: string)  // ArgumentError
    | NoFormulaClass(path: string)  // RuntimeError

  const NotFoundText := "Recipe file not found: "
  const NoClassText := "No class inheriting from " + FormulaBase + " found in "

  /** The exception's message: a fixed text per kind followed by the recipe path. */
  function Message(e: GenError): (m: string)
    ensures |m| > |e.path| && m[|m| - |e.path|..] == e.path
  {
    match e
    case RecipeNotFound(p) => NotFoundText + p
    case NoFormulaClass(p) => NoClassText + p
  }

  /** The message tells which error happened and for which recipe file. */
  lemma MessageDetermines(e1: GenError, e2: GenError)
    requires Message(e1) == Message(e2)
    ensures e1 == e2
  {
    assert NotFoundText[0] == 'R' && NoClassText[0] == 'N';
    assert Message(e1)[0] == Message(e2)[0];
    assert e1.RecipeNotFound? == e2.RecipeNotFound?;
  }

  // ------------------------------------------------------------------
  // Output locations.

  const FlakesDir := "flakes"

  /** `File.join('flakes', name)`. */
  function OutputDir(name: string): string {
    FlakesDir + "/" + name
  }

  /** `File.join(flake_output_dir, 'empty_src')`. */
  function EmptySrcDir(name: string): string {
    OutputDir(name) + "/empty_src"
  }

  /** `File.join(flake_output_dir, 'flake.nix')`. */
  function OutputPath(name: string): string {
    OutputDir(name) + "/flake.nix"
  }

  /**
   * For a package name without '/', the manifest and the empty source
   * directory are the entries `flake.nix` and `empty_src` of the
   * directory `flakes/<name>`; so different packages never share a file.
   */
  lemma OutputLayout(name: string)
    requires |name| > 0 && '/' !in name
    ensures SplitOn(OutputPath(name), "/") == [FlakesDir, name, "flake.nix"]
    ensures SplitOn(EmptySrcDir(name), "/") == [FlakesDir, name, "empty_src"]
  {
    var ps := [FlakesDir, name, "flake.nix"];
    var qs := [FlakesDir, name, "empty_src"];
    assert ps[1..] == [name, "flake.nix"] && ps[1..][1..] == ["flake.nix"];
    assert qs[1..] == [name, "empty_src"] && qs[1..][1..] == ["empty_src"];
    assert Join(ps[1..], "/") == name + "/" + "flake.nix";
    assert Join(qs[1..], "/") == name + "/" + "empty_src";
    assert Join(ps, "/") == OutputPath(name);
    assert Join(qs, "/") == EmptySrcDir(name);
    SplitJoin(ps, "/");
    SplitJoin(qs, "/");
  }

  /** Different package names are written to different manifests. */
  lemma OutputPathInjective(n1: string, n2: string)
    requires |n1| > 0 && '/' !in n1 && |n2| > 0 && '/' !in n2
    requires OutputPath(n1) == OutputPath(n2)
    ensures n1 == n2
  {
    OutputLayout(n1);
    OutputLayout(n2);
  }

  // ------------------------------------------------------------------
  // The generator.

  /**
   * What `generate` does to the outside world: the directories it creates
   * (in order), the file it writes with its content, and the lines it prints.
   */
  datatype Output = Output(dirs: seq<string>, file: string, content: string, log: seq<string>)

  class FlakeGenerator {
    const recipePath: string
    const formula: Formula
    const packageName: string
    const packageVersion: string
    const installCommands: seq<string>
    var flakeOutputDir: Option<string>
    var emptySrcDir: Option<string>

    /** Keeps the formula instance and copies its name, version and recorded commands. */
    constructor (recipePath: string, f: Formula)
      ensures this.recipePath == recipePath && formula == f
      ensures packageName == f.name && packageVersion == f.Version()
      ensures installCommands == f.installCommands
      ensures flakeOutputDir == None && emptySrcDir == None
    {
      this.recipePath := recipePath;
      formula := f;
      packageName := f.name;
      packageVersion := f.Version();
      installCommands := f.installCommands;
      flakeOutputDir, emptySrcDir := None, None;
    }

    /**
     * `FlakeGenerator.new(recipe_path)`. Whether the file exists, the
     * classes present before loading it and the classes present afterwards
     * are parameters. The chosen class is instantiated and its `install`
     * runs, recording the commands of the block it hands to
     * `define_install_steps`.
     */
    static method Create(recipePath: string, recipeExists: bool,
                         existing: seq<FormulaClass>, loaded: seq<FormulaClass>)
      returns (r: Result<FlakeGenerator, GenError>)
      ensures !recipeExists ==> r == Err(RecipeNotFound(recipePath))
      ensures recipeExists && FindFormulaClass(existing, loaded).None? ==> r == Err(NoFormulaClass(recipePath))
      ensures recipeExists && FindFormulaClass(existing, loaded).Some? ==>
        var k := loaded[FindFormulaClass(existing, loaded).value];
        && r.Ok? && fresh(r.value) && fresh(r.value.formula)
        && r.value.recipePath == recipePath && r.value.formula.klass == k
        && r.value.packageName == k.path[|k.path| - 1]
        && r.value.packageVersion == OrEmpty(k.versionVal)
        && r.value.installCommands == (if k.installBlock.Some? then RenderBlock(k.installBlock.value) else [])
        && r.value.flakeOutputDir == None && r.value.emptySrcDir == None
    {
      if !recipeExists {
        return Err(RecipeNotFound(recipePath));
      }
      var found := FindFormulaClass(existing, loaded);
      if found.None? {
        return Err(NoFormulaClass(recipePath));
      }
      var k := loaded[found.value];
      var f := new Formula(k);
      f.Install(k.installBlock);
      var g := new FlakeGenerator(recipePath, f);
      return Ok(g);
    }

    /**
     * `generate`: records the two directories, creates them, and writes the
     * manifest for this package into `flakes/<name>/flake.nix`.
     */
    method Generate() returns (out: Output)
      modifies this
      ensures flakeOutputDir == Some(OutputDir(packageName))
      ensures emptySrcDir == Some(EmptySrcDir(packageName))
      ensures out.dirs == [OutputDir(packageName), EmptySrcDir(packageName)]
      ensures out.file == OutputPath(packageName)
      ensures out.content == FlakeNixContent(packageName, packageVersion, InstallPhase(installCommands))
      ensures out.log == ["Generated Nix Flake for " + packageName + " at " + out.file,
                          "Empty source directory created at " + EmptySrcDir(packageName)]
    {
      var dir := OutputDir(packageName);
      var src := dir + "/empty_src";
      flakeOutputDir := Some(dir);
      emptySrcDir := Some(src);
      var content := FlakeNixContent(packageName, packageVersion, InstallPhase(installCommands));
      var path := dir + "/flake.nix";
      out := Output([dir, src], path, content,
                    ["Generated Nix Flake for " + packageName + " at " + path,
                     "Empty source directory created at " + src]);
    }
  }
}
