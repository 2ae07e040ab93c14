# nixables in Dafny

A model of the core of nixables. nixables turns Ruby build recipes into Nix flakes. It has three parts, and the model keeps each one's form:

- **The Homebrew-style formula recorder** (`HomebrewStyleDSL::Formula`, module `FormulaDsl`).
  - A formula class sets its metadata at class level and defines `install`. Its block calls `system`.
  - `system` runs nothing. It renders its arguments into one command string and appends that string to the instance's `install_commands`.
  - A String argument that contains a space is wrapped in single quotes. Nothing inside it is escaped.
  - The block is modelled as data: the argument lists of its `system` calls, in order.
  - `FormulaClass` holds the class-level metadata. `Formula` is an instance, with a `seq<string>` of commands that its methods change in place.
- **The flake generator** (`FlakeGenerator`, module `FlakeGen`). The generator takes these steps:
  1. It picks the first class that loading the recipe added and that strictly inherits from the base class.
  2. It instantiates that class and runs `install`.
  3. It replaces every `__PREFIX__` with `$out` and joins the commands with a newline and six spaces.
  4. It places the result in a fixed `flake.nix` template and writes it to `flakes/<name>/flake.nix`.

  What the template does:
  - `<<~` removes six columns from every literal template line.
  - The interpolated install phase is not dedented. Its first command gets 8 spaces, and later commands get the 6 spaces of the separator.
- **The declarative recipe builder** (`RecipeDSL::Recipe`, module `RecipeDsl`).
  - `package`, `set_version` and `output` set fields or run their block.
  - `write_file` and `make_executable` each append one tagged record.
  - A block is a tree of calls (`Call`). The `Recipe` class runs it method by method.
  - Beside the class, `Apply`/`ApplyAll` define the resulting state as functions. The lemmas are stated about those functions.

Supporting modules:
- `Wrappers` holds `Option` and `Result`.
- `Strings` holds `Join`, a splitter that inverts it, the `gsub` model `ReplaceAll`, and their lemmas.
- `Recipes` holds the repository's two example recipes as concrete values and scenarios.

Each property has a partner to check it against:
- **Quoting:** a reference shell-word lexer (`ShellWords`). It is used to prove when the quoting round-trips and that an argument holding a quote never does.
- **Template:** a reader, `ReadManifest`, proved to invert the rendering in both directions.
- **Substitution:** `gsub` is proved equal to cutting the command at every placeholder and gluing it back with `$out`. No placeholder survives, and a command without one is unchanged.
- **Builder state:** flat functions `Records`, `LastName` and `LastVersion` read a block's records, name and version without running it. `Apply` and `ApplyAll` are proved to agree with them.
- **Class selection:** the two-sided contract of `FindFormulaClass`.

Functions that only compute are specified by the lemmas about them in the table below:
- `RenderCommand` by `CommandWords` and `QuotedArgumentLost`.
- `FlakeNixContent` and its reader `ReadManifest` by the `Manifest*` lemmas and `ReadManifestSound`.
- `OutputDir`, `EmptySrcDir` and `OutputPath` by `OutputLayout` and `OutputPathInjective`.
- `Formula.Prefix`, `Bin`, `Lib` and `Man` by `HelperPathsUnderOut`.
- `Records` by `FlatRecords` and `RecordsConcat`.

Long template lines are built from `Piece`s. These are identity functions on newline-free strings, so each line's freedom from newlines is checked in small parts.

## Model

| member | source | states |
|---|---|---|
| `FormulaDsl.Render` | lib/formula_dsl.rb:111-117 | an argument without spaces is written as its `to_s`; a shell reads any argument the quoting can carry (non-empty, no `'`, spaces only in Strings) back as one word holding exactly its text |
| `FormulaDsl.CommandWords` | lib/formula_dsl.rb:111-118 | when no argument is empty or holds a single quote and only Strings hold spaces, a shell splits the recorded command back into exactly the arguments' texts, in order |
| `FormulaDsl.RenderVerbatim` | lib/formula_dsl.rb:112-115 | the text is copied verbatim, bare or between two single quotes, inner quotes unescaped; it is quoted exactly when it is a String containing a space, so a non-String is written bare even with spaces |
| `FormulaDsl.QuotedArgumentLost` | lib/formula_dsl.rb:112-113 | the shell reading drops every `'`, so when any argument holds one, the recorded command is never read back as the arguments |
| `FormulaDsl.DropTrailingEmpty` | lib/formula_dsl.rb:43 | `split` drops the trailing empty fields and only those: the result is a prefix of the fields, does not end in an empty one, and every field dropped is empty |
| `FormulaDsl.LastSegment` | lib/formula_dsl.rb:43 | nil exactly when every `::`-separated field is empty; otherwise the last non-empty field, with only empty fields after it |
| `FormulaDsl.NameOfPath` | lib/formula_dsl.rb:43 | the segment after the last `::` of a class's qualified name is the last segment of its constant path |
| `FormulaDsl.FormulaClass.constructor` | lib/formula_dsl.rb:28-38 | a newly defined formula class has no description, homepage or version of its own |
| `FormulaDsl.FormulaClass.Desc` | lib/formula_dsl.rb:15-17 | sets the description, returns it, leaves the other metadata unchanged |
| `FormulaDsl.FormulaClass.Homepage` | lib/formula_dsl.rb:19-21 | sets the homepage, returns it, leaves the other metadata unchanged |
| `FormulaDsl.FormulaClass.Version` | lib/formula_dsl.rb:23-25 | sets the version, returns it, leaves the other metadata unchanged |
| `FormulaDsl.Formula.constructor` | lib/formula_dsl.rb:41-46 | a new instance has no commands, and its name is the last segment of its class's name |
| `FormulaDsl.Formula.Desc` | lib/formula_dsl.rb:28-30 | the description last set on the class, or "" when none was set |
| `FormulaDsl.Formula.Homepage` | lib/formula_dsl.rb:32-34 | the homepage last set on the class, or "" when none was set |
| `FormulaDsl.Formula.Version` | lib/formula_dsl.rb:36-38 | the version last set on the class, or "" when none was set |
| `FormulaDsl.Formula.System` | lib/formula_dsl.rb:109-121 | appends exactly one rendered command at the end, keeps the earlier ones, returns true |
| `FormulaDsl.Formula.DefineInstallSteps` | lib/formula_dsl.rb:50-56 | clears the list first; afterwards the list is exactly the block's commands, in call order |
| `FormulaDsl.Formula.Install` | lib/formula_dsl.rb:60-88 | with a block, records exactly that block's commands; without one, records nothing |
| `Strings.ReplaceAllSplit` | generator/generate_flake.rb:72 | `gsub` with a literal pattern replaces every occurrence in place: its output is the input cut at the occurrences, scanning from the left, and joined with the replacement |
| `Strings.ReplaceAllComplete` | generator/generate_flake.rb:72 | after `gsub`, the pattern occurs nowhere when the replacement shares no character with it |
| `FlakeGen.Substitute` | generator/generate_flake.rb:72 | every `__PREFIX__` in a command becomes `$out`, each in its place; none survives; a command without one is unchanged |
| `FlakeGen.InstallPhase` | generator/generate_flake.rb:70-73 | no `__PREFIX__` survives anywhere in the install phase, across the separators too |
| `FlakeGen.InstallPhaseShape` | generator/generate_flake.rb:72 | no commands give "", one gives itself, each further command adds one separator and itself at the end |
| `FlakeGen.InstallPhaseCommands` | generator/generate_flake.rb:72 | for a non-empty command list (an empty one gives "", which splits into one empty field): when no substituted command contains a whole separator (newlines inside commands allowed), cutting the install phase at the separators gives back the substituted commands, one each, in order |
| `FlakeGen.SubstituteWithin` | generator/generate_flake.rb:72 | when no placeholder starts in `pre`, the first placeholder of `pre + __PREFIX__ + rest` becomes `$out`, `pre` is kept and `rest` is substituted in turn; so any number of placeholders are each replaced in place |
| `FlakeGen.HelperPathsUnderOut` | lib/formula_dsl.rb:92-106 | `prefix`, `bin`, `lib`, `man` become `$out`, `$out/bin`, `$out/lib`, `$out/share/man` |
| `FlakeGen.ManifestLines` | generator/generate_flake.rb:80-116 | the manifest's lines are the 24 head lines, the lines of the indented install phase, the 10 tail lines, and the empty field after the final newline |
| `FlakeGen.ManifestSites` | generator/generate_flake.rb:82-113 | the name appears verbatim in the description, the package attribute, `name = "…"` and both `defaultPackage` lines; the version in `version = "…"`; the system and `src` lines are fixed |
| `FlakeGen.ManifestRoundTrip` | generator/generate_flake.rb:75-117 | reading a rendered manifest gives back its name, version and install phase |
| `FlakeGen.ReadManifestSound` | generator/generate_flake.rb:80-116 | whatever the reader accepts is exactly the rendering of what it returns |
| `FlakeGen.ManifestInjective` | generator/generate_flake.rb:80-116 | different names, versions or install phases never render to the same manifest |
| `FlakeGen.FindFormulaClass` | generator/generate_flake.rb:38-42 | the first loaded class that was not present before and strictly inherits from the base class; None exactly when there is none |
| `FlakeGen.Message` | generator/generate_flake.rb:11-45 | each error's message ends with the recipe path |
| `FlakeGen.MessageDetermines` | generator/generate_flake.rb:11-45 | the message determines both the kind of error and the recipe path |
| `FlakeGen.OutputLayout` | generator/generate_flake.rb:54-61 | the manifest is `flakes/<name>/flake.nix` and the source directory `flakes/<name>/empty_src` |
| `FlakeGen.OutputPathInjective` | generator/generate_flake.rb:54-61 | different package names are written to different manifests |
| `FlakeGen.FlakeGenerator.constructor` | generator/generate_flake.rb:13-18 | name, version and commands are those of the formula instance |
| `FlakeGen.FlakeGenerator.Create` | generator/generate_flake.rb:9-51 | missing recipe: not-found error; no formula class: no-class error; otherwise the selected class is instantiated and installed, giving its last name segment, its version or "", and its block's commands |
| `FlakeGen.FlakeGenerator.Generate` | generator/generate_flake.rb:53-66 | records and creates `flakes/<name>` and its `empty_src`, writes the rendered manifest to `flakes/<name>/flake.nix`, prints two lines |
| `RecipeDsl.ApplyAll` | lib/recipe_dsl.rb:13-37 | after a block, the name and version are the last ones it sets (or the earlier ones if it sets none), and the records are the earlier ones followed by exactly the block's own, in call order |
| `RecipeDsl.Apply` | lib/recipe_dsl.rb:13-37 | one call, nested blocks included, leaves the name and version it sets (or the earlier ones) and appends exactly its own records |
| `RecipeDsl.FlatRecords` | lib/recipe_dsl.rb:31-37 | in a block of `write_file`/`make_executable` calls, record k is made by call k; nothing is merged or dropped |
| `RecipeDsl.RecordsConcat` | lib/recipe_dsl.rb:31-37 | the records of two blocks run one after the other are the first's followed by the second's |
| `RecipeDsl.Recipe.constructor` | lib/recipe_dsl.rb:9-11 | a new recipe has no name, no version and no records |
| `RecipeDsl.Recipe.Package` | lib/recipe_dsl.rb:13-18 | sets the name, runs the block if given, returns the same recipe |
| `RecipeDsl.Recipe.SetVersion` | lib/recipe_dsl.rb:20-22 | sets the version; name and records unchanged |
| `RecipeDsl.Recipe.Output` | lib/recipe_dsl.rb:25-29 | runs its block and adds nothing of its own |
| `RecipeDsl.Recipe.WriteFile` | lib/recipe_dsl.rb:31-33 | appends one write-file record at the end; name and version unchanged |
| `RecipeDsl.Recipe.MakeExecutable` | lib/recipe_dsl.rb:35-37 | appends one make-executable record, without checking for a write of that path |
| `RecipeDsl.Recipe.Evaluate` | lib/recipe_dsl.rb:16 | running a block leaves the recipe in the state its calls define, in order |
| `RecipeDsl.Recipe.Dispatch` | lib/recipe_dsl.rb:13-37 | one call reaches the method of the same name and has its defined effect |
| `RecipeDsl.LoadRecipe` | lib/recipe_dsl.rb:2-4 | a new recipe evaluates the file's top-level calls |
| `Recipes.HelloBinIsBin` | lib/formula_dsl.rb:96-98 | the `bin` used in the recipe's install block is the formula's `bin` helper |
| `Recipes.HelloEchoCommands` | recipes/hello_echo_formula.rb:12-17 | HelloEchoFormula records three commands: `mkdir -p __PREFIX__/bin`, the quoted `sh -c` script, `chmod +x __PREFIX__/bin/hello-echo` |
| `Recipes.HelloEchoPhase` | recipes/hello_echo_formula.rb:13-16 | its install phase starts with `mkdir -p $out/bin` and ends with `chmod +x $out/bin/hello-echo`, separated by PhaseSep |
| `Recipes.HelloEchoPhaseSplits` | recipes/hello_echo_formula.rb:13-16 | although the `sh -c` command holds the script's own newline, the install phase splits back into exactly the three substituted commands |
| `Recipes.HelloEchoScriptSplits` | recipes/hello_echo_formula.rb:15 | the `sh -c` script holds single quotes, so its recorded command does not split back into its arguments |
| `Recipes.HelloEchoSelected` | generator/generate_flake.rb:38-42 | with the base class present before loading, the class the file adds is selected |
| `Recipes.NewHelloEchoGenerator` | recipes/hello_echo_formula.rb:6-19 | the generator for this recipe has package `HelloEchoFormula`, version `0.1.0` and the block's commands |
| `Recipes.HelloEchoPaths` | tests/test_hello_echo_formula.rb:13-17 | the output paths for `HelloEchoFormula` are under `flakes/HelloEchoFormula` |
| `Recipes.GenerateHelloEcho` | generator/generate_flake.rb:53-66 | generating for this recipe writes its manifest to `flakes/HelloEchoFormula/flake.nix` |
| `Recipes.GenerateWithoutFormula` | generator/generate_flake.rb:44-46 | a recipe file that loads without error but adds no formula class is rejected with the no-class error naming the file |
| `Recipes.LoadHello` | recipes/hello.rb:1-11 | recipes/hello.rb gives package `hello`, version `0.1.0` and the records write-file then make-executable of `bin/hello` |

## Left out

- Ruby's `load`, `instance_eval`, `ObjectSpace` class enumeration and `Object.const_get` are replaced by explicit inputs:
  - the argument lists of the `system` calls;
  - the call tree of a recipe;
  - the classes present before and after loading.
- The order of the loaded classes stands for `ObjectSpace`'s enumeration order, which Ruby does not specify.
- `Formula.load_formula` (lib/formula_dsl.rb:125-165) is not modelled. It reads a file, scans it with a regular expression and looks up a constant, and the generator never calls it.
- File-system effects (`File.exist?`, `File.read`, `File.write`, `FileUtils.mkdir_p`) are not modelled:
  - whether the recipe exists is a parameter;
  - `Generate` returns the directories, file and content it would create or write.
- The `puts` debugging line in `system` is not modelled. The generator's two status lines are returned by `Generate`, not printed.
- The command-line blocks under `if __FILE__ == $0` and the two test files are not modelled.
- Classes are objects: the difference between the classes present after and before loading compares object references, as Ruby's `Array#-` does for classes. The test against the base class compares qualified names. Anonymous classes, whose `name` is nil and would make `initialize` fail, are not modelled.
- Exceptions raised by `load` itself are not modelled: a syntax error, or a call to a method the top level does not have. One example is `recipes/hello.rb`, which is written for the recipe builder and calls `package` on the top-level object. Such an exception escapes `FlakeGenerator.new` before the class scan. The model assumes that loading succeeds and takes the classes present afterwards as input.
- A subclass's `install` override is modelled as the block it passes to `define_install_steps`. Exceptions raised inside that block are not modelled.
- Metadata setters given nil are not modelled, because values are strings. So the getters' `|| ""` only covers "never set".
- `FormulaDsl.ShellWords` understands only spaces and single quotes, the two shell features the quoting relies on. Other shell syntax, such as double quotes, backslashes and `>`, is left out.
- `FlakeGen.ManifestRoundTrip` requires the name and version to contain no newline. With a newline, the manifest's line structure changes.
- `FlakeGen.ManifestSites` requires the name and version to contain no newline, for the same reason.
- `FlakeGen.ManifestInjective` requires the name and version to contain no newline, for the same reason.
- `FlakeGen.OutputLayout` requires a non-empty name without '/'. Package names are class-name segments, and those always qualify. `File.join`'s handling of repeated slashes is not modelled.
- `RecipeDsl.Recipe.Package` treats a call without a block the same as a call with an empty block. That is what the code does.
- The return values of `set_version`, `write_file`, `make_executable` and `output` are not modelled. Those are the assigned value, the array and the block's last value. `RecipeDsl.LoadRecipe` returns the recipe itself, which is what `instance_eval` returns only when the file's last call is `package`.
- `output` without a block (an error in Ruby) is not modelled.
- `FlakeGenerator` keeps a copy of the commands, not an alias of the formula instance's array. Nothing changes that array after construction.
