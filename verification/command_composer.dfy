/**
 * The launch-command composer (`createCommandArguments`): the argument list handed to the
 * `java` executable, built in a fixed order from the run goal's fields.
 *
 *   1. the user's `options`, each tokenized;
 *   2. `--module-path <modulepath> --add-modules <modules>` (module-system launches);
 *   3. `-classpath <classpath>`, possibly prefixed with the build output directory;
 *   4. the main class, preceded by `--module` when the project has a module descriptor;
 *   5. the tokenized `commandlineArgs`.
 *
 * The fields are those `preparePaths` and the plugin configuration leave behind; they are
 * gathered in one immutable `LaunchFacts` value. Whether the target runtime is an old
 * (pre-module) JDK, the platform path separator, the JavaFX module-name prefix and the
 * base class's main-class formatting are parameters.
 */
module CommandComposer {
  import opened Wrappers
  import opened JavaText
  import opened Tokenizer
  import opened ModuleSet

  /** How the application is put on the runtime path. */
  datatype RuntimePathOption = CLASSPATH | MODULEPATH

  /** The fields `createCommandArguments` reads; `None` stands for `null`. */
  datatype LaunchFacts = LaunchFacts(
    options: Option<seq<Option<string>>>,
    runtimePathOption: Option<RuntimePathOption>,
    modulepathElements: Option<seq<string>>,
    classpathElements: Option<seq<string>>,
    pathElements: seq<PathElement>,
    moduleDescriptor: Option<ModuleDescriptor>,
    mainClass: Option<string>,
    commandlineArgs: Option<string>,
    outputDirectory: string)

  /** The base class's `createMainClassString(mainClass, moduleDescriptor, runtimePathOption)`,
      whose format is not part of this model. */
  type MainClassString = (string, Option<ModuleDescriptor>, Option<RuntimePathOption>) -> string

  /** A module-system launch requested through MODULEPATH needs a module path: with a null
      `modulepathElements` the source dereferences null. */
  predicate ModulePathDefined(f: LaunchFacts, oldJDK: bool)
  {
    !oldJDK && f.runtimePathOption == Some(MODULEPATH) ==> f.modulepathElements.Some?
  }

  // ---------------------------------------------------------------------------
  // The five clauses

  /** Each non-null option tokenized, in order. */
  function OptionArguments(options: seq<Option<string>>): (r: seq<string>)
    ensures AllNonEmpty(r)
  {
    if options == [] then []
    else
      var rest := OptionArguments(options[..|options| - 1]);
      match options[|options| - 1]
      case None => rest
      case Some(option) =>
        TokensNonEmpty(option);
        rest + Tokenize(option)
  }

  function UserOptionArguments(f: LaunchFacts): seq<string>
  {
    match f.options
    case None => []
    case Some(options) => OptionArguments(options)
  }

  /** The guard of the module-path clause. */
  predicate UsesModulePath(f: LaunchFacts, oldJDK: bool)
  {
    !oldJDK && (f.runtimePathOption == Some(MODULEPATH) || (f.modulepathElements.Some? && f.modulepathElements.value != []))
  }

  function ModulePathClause(f: LaunchFacts, oldJDK: bool, pathSeparator: string, javafxPrefix: string): seq<string>
    requires ModulePathDefined(f, oldJDK)
  {
    if UsesModulePath(f, oldJDK) then
      ["--module-path", Join(f.modulepathElements.value, pathSeparator),
       "--add-modules", CreateAddModulesString(f.moduleDescriptor, f.pathElements, javafxPrefix)]
    else []
  }

  /** The guard of the classpath clause. */
  predicate UsesClasspath(f: LaunchFacts, oldJDK: bool)
  {
    f.classpathElements.Some? && (oldJDK || f.classpathElements.value != [])
  }

  /** Whether the classpath starts with the build output directory. */
  predicate PrefixesOutputDirectory(f: LaunchFacts, oldJDK: bool)
  {
    oldJDK || f.runtimePathOption == Some(CLASSPATH)
  }

  function ClasspathValue(f: LaunchFacts, oldJDK: bool, pathSeparator: string): string
    requires f.classpathElements.Some?
  {
    (if PrefixesOutputDirectory(f, oldJDK) then f.outputDirectory + pathSeparator else "")
      + Join(f.classpathElements.value, pathSeparator)
  }

  function ClasspathClause(f: LaunchFacts, oldJDK: bool, pathSeparator: string): seq<string>
  {
    if UsesClasspath(f, oldJDK) then ["-classpath", ClasspathValue(f, oldJDK, pathSeparator)] else []
  }

  function MainClassClause(f: LaunchFacts, mainClassString: MainClassString): seq<string>
  {
    match f.mainClass
    case None => []
    case Some(mainClass) =>
      (if f.moduleDescriptor.Some? then ["--module"] else [])
        + [mainClassString(mainClass, f.moduleDescriptor, f.runtimePathOption)]
  }

  function TrailingArguments(f: LaunchFacts): seq<string>
  {
    match f.commandlineArgs
    case None => []
    case Some(args) => Tokenize(args)
  }

  /** The whole argument list: the five clauses in their fixed order. */
  function CommandArguments(f: LaunchFacts, oldJDK: bool, pathSeparator: string, javafxPrefix: string,
                            mainClassString: MainClassString): seq<string>
    requires ModulePathDefined(f, oldJDK)
  {
    UserOptionArguments(f)
      + ModulePathClause(f, oldJDK, pathSeparator, javafxPrefix)
      + ClasspathClause(f, oldJDK, pathSeparator)
      + MainClassClause(f, mainClassString)
      + TrailingArguments(f)
  }

  /** The loop over the user's options: each non-null option is split and its tokens
      appended, in order. */
  method SplitOptions(options: seq<Option<string>>) returns (commandArguments: seq<string>)
    ensures commandArguments == OptionArguments(options)
  {
    commandArguments := [];
    for i := 0 to |options|
      invariant commandArguments == OptionArguments(options[..i])
    {
      assert options[..i + 1][..i] == options[..i];
      match options[i]
      case None =>
      case Some(option) =>
        var tokens := SplitComplexArgumentString(option);
        commandArguments := commandArguments + tokens;
    }
    assert options[..|options|] == options;
  }

  /** `createCommandArguments`: appends the clauses to the argument list one by one. */
  method CreateCommandArguments(f: LaunchFacts, oldJDK: bool, pathSeparator: string, javafxPrefix: string,
                                mainClassString: MainClassString) returns (commandArguments: seq<string>)
    requires ModulePathDefined(f, oldJDK)
    ensures commandArguments == CommandArguments(f, oldJDK, pathSeparator, javafxPrefix, mainClassString)
  {
    commandArguments := [];
    if f.options.Some? {
      commandArguments := SplitOptions(f.options.value);
    }
    assert commandArguments == UserOptionArguments(f);
    ghost var mp := ModulePathClause(f, oldJDK, pathSeparator, javafxPrefix);
    if !oldJDK {
      if f.runtimePathOption == Some(MODULEPATH) || (f.modulepathElements.Some? && f.modulepathElements.value != []) {
        var modulePath := Join(f.modulepathElements.value, pathSeparator);
        var addModules := CreateAddModulesString(f.moduleDescriptor, f.pathElements, javafxPrefix);
        commandArguments := commandArguments + ["--module-path", modulePath, "--add-modules", addModules];
      }
    }
    assert commandArguments == UserOptionArguments(f) + mp;
    ghost var cp := ClasspathClause(f, oldJDK, pathSeparator);
    if f.classpathElements.Some? && (oldJDK || f.classpathElements.value != []) {
      var classpath := "";
      if oldJDK || f.runtimePathOption == Some(CLASSPATH) {
        classpath := f.outputDirectory + pathSeparator;
      }
      classpath := classpath + Join(f.classpathElements.value, pathSeparator);
      commandArguments := commandArguments + ["-classpath", classpath];
    }
    assert commandArguments == UserOptionArguments(f) + mp + cp;
    if f.mainClass.Some? {
      if f.moduleDescriptor.Some? {
        commandArguments := commandArguments + ["--module"];
      }
      commandArguments := commandArguments + [mainClassString(f.mainClass.value, f.moduleDescriptor, f.runtimePathOption)];
    }
    assert commandArguments == UserOptionArguments(f) + mp + cp + MainClassClause(f, mainClassString);
    if f.commandlineArgs.Some? {
      var trailing := SplitComplexArgumentString(f.commandlineArgs.value);
      commandArguments := commandArguments + trailing;
    }
  }

  // ---------------------------------------------------------------------------
  // Presence and ordering rules

  /** The module-path clause: when the runtime is not an old JDK and either MODULEPATH is
      selected or the module path is non-empty, the four arguments `--module-path`, the
      joined module path, `--add-modules` and its value come right after the user options. */
  lemma ModulePathEmitted(f: LaunchFacts, oldJDK: bool, pathSeparator: string, javafxPrefix: string,
                          mainClassString: MainClassString)
    requires ModulePathDefined(f, oldJDK)
    requires !oldJDK && (f.runtimePathOption == Some(MODULEPATH) || (f.modulepathElements.Some? && |f.modulepathElements.value| > 0))
    ensures CommandArguments(f, oldJDK, pathSeparator, javafxPrefix, mainClassString) ==
      UserOptionArguments(f)
        + ["--module-path", Join(f.modulepathElements.value, pathSeparator),
           "--add-modules", CreateAddModulesString(f.moduleDescriptor, f.pathElements, javafxPrefix)]
        + (ClasspathClause(f, oldJDK, pathSeparator) + MainClassClause(f, mainClassString) + TrailingArguments(f))
  {
  }

  /** Otherwise (an old JDK, or no MODULEPATH and an empty or null module path) neither
      flag is emitted and the classpath clause follows the user options directly. */
  lemma ModulePathOmitted(f: LaunchFacts, oldJDK: bool, pathSeparator: string, javafxPrefix: string,
                          mainClassString: MainClassString)
    requires oldJDK || (f.runtimePathOption != Some(MODULEPATH) && (f.modulepathElements.None? || |f.modulepathElements.value| == 0))
    ensures CommandArguments(f, oldJDK, pathSeparator, javafxPrefix, mainClassString) ==
      UserOptionArguments(f)
        + (ClasspathClause(f, oldJDK, pathSeparator) + MainClassClause(f, mainClassString) + TrailingArguments(f))
  {
  }

  /** On an old JDK the module-system flags never appear, and the classpath clause is
      present whenever the classpath list is non-null, always led by the output directory;
      an empty list gives exactly the output directory and a separator. */
  lemma OldJdkLaunch(f: LaunchFacts, pathSeparator: string, javafxPrefix: string, mainClassString: MainClassString)
    ensures CommandArguments(f, true, pathSeparator, javafxPrefix, mainClassString) ==
      UserOptionArguments(f)
        + (match f.classpathElements
           case None => []
           case Some(cp) => ["-classpath", f.outputDirectory + pathSeparator + Join(cp, pathSeparator)])
        + MainClassClause(f, mainClassString)
        + TrailingArguments(f)
    ensures f.classpathElements == Some([]) ==>
      ClasspathClause(f, true, pathSeparator) == ["-classpath", f.outputDirectory + pathSeparator]
  {
    assert ModulePathClause(f, true, pathSeparator, javafxPrefix) == [];
    if f.classpathElements == Some([]) {
      assert f.outputDirectory + pathSeparator + "" == f.outputDirectory + pathSeparator;
    }
  }

  /** On a module-capable JDK `-classpath` appears exactly when the classpath list is
      non-null and non-empty; choosing CLASSPATH alone does not produce it, it only puts
      the output directory in front of the joined entries. */
  lemma ModernClasspathRule(f: LaunchFacts, pathSeparator: string)
    ensures ClasspathClause(f, false, pathSeparator) != [] <==> f.classpathElements.Some? && |f.classpathElements.value| > 0
    ensures f.classpathElements.Some? && |f.classpathElements.value| > 0 ==>
      ClasspathClause(f, false, pathSeparator) ==
        ["-classpath", (if f.runtimePathOption == Some(CLASSPATH) then f.outputDirectory + pathSeparator else "")
                       + Join(f.classpathElements.value, pathSeparator)]
  {
  }

  /** The main-class argument closes the launch part, preceded by `--module` exactly when
      a module descriptor is present, whatever the JDK. */
  lemma MainClassRule(f: LaunchFacts, oldJDK: bool, pathSeparator: string, javafxPrefix: string,
                      mainClassString: MainClassString)
    requires ModulePathDefined(f, oldJDK)
    requires f.mainClass.Some?
    ensures var args := CommandArguments(f, oldJDK, pathSeparator, javafxPrefix, mainClassString);
            var t := |TrailingArguments(f)|;
            |args| >= t + 1
            && args[|args| - t - 1] == mainClassString(f.mainClass.value, f.moduleDescriptor, f.runtimePathOption)
            && (f.moduleDescriptor.Some? <==>
                  (|args| >= t + 2 && args[|args| - t - 2] == "--module"
                   && |args| - t - 2 >= |UserOptionArguments(f)| + |ModulePathClause(f, oldJDK, pathSeparator, javafxPrefix)|
                                        + |ClasspathClause(f, oldJDK, pathSeparator)|))
  {
    var args := CommandArguments(f, oldJDK, pathSeparator, javafxPrefix, mainClassString);
    var head := UserOptionArguments(f) + ModulePathClause(f, oldJDK, pathSeparator, javafxPrefix)
                  + ClasspathClause(f, oldJDK, pathSeparator);
    var main := MainClassClause(f, mainClassString);
    var tail := TrailingArguments(f);
    assert args == head + main + tail;
    if f.moduleDescriptor.Some? {
      assert main == ["--module", mainClassString(f.mainClass.value, f.moduleDescriptor, f.runtimePathOption)];
      assert args[|head|] == "--module";
    } else {
      assert |main| == 1;
    }
  }

  /** The size of the argument list, clause by clause. */
  lemma ArgumentCount(f: LaunchFacts, oldJDK: bool, pathSeparator: string, javafxPrefix: string,
                      mainClassString: MainClassString)
    requires ModulePathDefined(f, oldJDK)
    ensures |CommandArguments(f, oldJDK, pathSeparator, javafxPrefix, mainClassString)| ==
      |UserOptionArguments(f)|
        + (if UsesModulePath(f, oldJDK) then 4 else 0)
        + (if UsesClasspath(f, oldJDK) then 2 else 0)
        + (if f.mainClass.None? then 0 else if f.moduleDescriptor.Some? then 2 else 1)
        + |TrailingArguments(f)|
  {
  }

  /** Module path and classpath are not exclusive: a MODULEPATH launch with a non-empty
      classpath carries both clauses, the classpath without the output directory. */
  lemma MixedLaunch(f: LaunchFacts, pathSeparator: string, javafxPrefix: string, mainClassString: MainClassString)
    requires f.runtimePathOption == Some(MODULEPATH) && f.modulepathElements.Some?
    requires f.classpathElements.Some? && |f.classpathElements.value| > 0
    ensures var args := CommandArguments(f, false, pathSeparator, javafxPrefix, mainClassString);
            var u := |UserOptionArguments(f)|;
            u + 6 <= |args| && args[u] == "--module-path" && args[u + 4] == "-classpath"
            && args[u + 5] == Join(f.classpathElements.value, pathSeparator)
  {
    ModulePathEmitted(f, false, pathSeparator, javafxPrefix, mainClassString);
    ModernClasspathRule(f, pathSeparator);
    var user := UserOptionArguments(f);
    var cpValue := Join(f.classpathElements.value, pathSeparator);
    assert "" + cpValue == cpValue;
    var cp := ClasspathClause(f, false, pathSeparator);
    assert cp == ["-classpath", cpValue];
    var mp := ["--module-path", Join(f.modulepathElements.value, pathSeparator),
               "--add-modules", CreateAddModulesString(f.moduleDescriptor, f.pathElements, javafxPrefix)];
    var rest := cp + MainClassClause(f, mainClassString) + TrailingArguments(f);
    var args := user + mp + rest;
    assert args[|user|] == mp[0];
    assert args[|user| + 4] == rest[0] == cp[0];
    assert args[|user| + 5] == rest[1] == cp[1];
  }

  /** The tokenized user options and trailing arguments never contribute an empty argument. */
  lemma TokenizedArgumentsNonEmpty(f: LaunchFacts, oldJDK: bool, pathSeparator: string, javafxPrefix: string,
                                   mainClassString: MainClassString)
    requires ModulePathDefined(f, oldJDK)
    ensures var args := CommandArguments(f, oldJDK, pathSeparator, javafxPrefix, mainClassString);
            var u := |UserOptionArguments(f)|;
            var t := |TrailingArguments(f)|;
            u + t <= |args|
            && (forall k :: 0 <= k < u ==> args[k] != [])
            && (forall k :: |args| - t <= k < |args| ==> args[k] != [])
  {
    var args := CommandArguments(f, oldJDK, pathSeparator, javafxPrefix, mainClassString);
    if f.commandlineArgs.Some? {
      TokensNonEmpty(f.commandlineArgs.value);
    }
    var tail := TrailingArguments(f);
    var head := args[..|args| - |tail|];
    assert args == head + tail;
    forall k | |args| - |tail| <= k < |args| ensures args[k] != [] {
      assert args[k] == tail[k - |head|];
    }
  }

  /** A stand-in for the base class's main-class formatting that returns the class name. */
  function BareClassName(mainClass: string, descriptor: Option<ModuleDescriptor>, option: Option<RuntimePathOption>): string
  {
    mainClass
  }

  /** A classpath launch on a modern JDK with one plain option, a skipped null option, one
      classpath entry and two plain trailing arguments: the option, `-classpath` with the
      output directory in front of the entry, the main class, then the arguments. */
  lemma ClasspathLaunch(f: LaunchFacts, option: string, entry: string, mainClass: string,
                        first: string, second: string, pathSeparator: string)
    requires IsPlainWord(option) && IsPlainWord(first) && IsPlainWord(second)
    requires f.options == Some([Some(option), None]) && f.runtimePathOption == Some(CLASSPATH)
    requires f.modulepathElements == None && f.classpathElements == Some([entry])
    requires f.moduleDescriptor == None && f.mainClass == Some(mainClass)
    requires f.commandlineArgs == Some(first + ([' '] + second))
    ensures CommandArguments(f, false, pathSeparator, "javafx", BareClassName)
      == [option, "-classpath", f.outputDirectory + pathSeparator + entry, mainClass, first, second]
  {
    assert UserOptionArguments(f) == [option] by {
      var options := f.options.value;
      TokenizePlainWord(option);
      assert options[..1] == [Some(option)] && [Some(option)][..0] == [];
      assert OptionArguments(options) == OptionArguments([Some(option)]);
      assert OptionArguments([Some(option)]) == [] + [option];
    }
    assert ModulePathClause(f, false, pathSeparator, "javafx") == [];
    assert ClasspathClause(f, false, pathSeparator) == ["-classpath", f.outputDirectory + pathSeparator + entry];
    assert MainClassClause(f, BareClassName) == [mainClass];
    assert TrailingArguments(f) == [first, second] by {
      TokenizeTwoPlainWords(first, second);
    }
  }

  /** The same launch on an old JDK: the classpath keeps the output directory, and an
      empty classpath list still yields a `-classpath` clause. */
  lemma OldJdkEmptyClasspathExample(f: LaunchFacts, outputDirectory: string, pathSeparator: string)
    requires f == LaunchFacts(None, Some(MODULEPATH), Some(["javafx-base.jar"]), Some([]), [], None,
                              Some("Main"), None, outputDirectory)
    ensures CommandArguments(f, true, pathSeparator, "javafx", BareClassName)
      == ["-classpath", outputDirectory + pathSeparator, "Main"]
  {
    OldJdkLaunch(f, pathSeparator, "javafx", BareClassName);
  }
}
