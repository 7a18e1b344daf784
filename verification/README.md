# JavaFX run goal: launch-command composer

The `javafx:run` goal of the JavaFX Maven plugin starts the user's JavaFX application in
a separate `java` process. Before it starts that process, it builds the process's argument list
in `JavaFXRunMojo`. This project models that composition step and proves properties of it:

- **Argument splitting** (`splitComplexArgumentString`). A string of user options or
  program arguments is trimmed and then cut at whitespace. Text between single or double
  quotes stays in one token, with its quotes. Module `Tokenizer` holds this part. It has a
  functional specification (`Step`, `Scan`, `Flush`, `Tokenize`) and the source's loop as
  the method `SplitComplexArgumentString`, which is proved equal to that specification.
- **The `--add-modules` value** (`createAddModulesString`). This is the main module's
  name, or else the comma-joined JavaFX modules found on the path, without the "Empty"
  placeholder modules. Module `ModuleSet` holds this part.
- **The argument list** (`createCommandArguments`). It has five clauses in a fixed order:
  user options, module path, classpath, main class and program arguments. Module
  `CommandComposer` holds this part. The function `CommandArguments` states the result
  clause by clause. The method `CreateCommandArguments` appends clause by clause, as the
  source does, and is proved equal to that function.
- Module `JavaText` models the Java library behaviour the composer relies on: the regex
  class `\s`, `String.trim()`, `startsWith`, `endsWith` and string joining.
- Module `Wrappers` holds `Option`, which stands for Java's nullable references.

These values are parameters of the model:
- the fields filled in from the project (the `LaunchFacts` record);
- the `oldJDK` flag;
- `File.pathSeparator`;
- the JavaFX module prefix;
- the base class's `createMainClassString` (a function parameter).

Where the code and the plugin's documented behaviour differ, the model follows the code:
- Choosing `CLASSPATH` alone does not produce a `-classpath` clause. The clause needs a
  non-null classpath list, and on a modular JDK that list must also be non-empty
  (`CommandComposer.ModernClasspathRule`).
- In `CLASSPATH` mode, the project's output directory and a path separator always come
  before the joined classpath entries (`CommandComposer.ClasspathLaunch`).

## Model

| member | source | states |
|---|---|---|
| JavaText.RegexSpaceIsTrimmed | src/main/java/org/openjfx/JavaFXRunMojo.java:191-201 | every `\s` character is also removed by `trim()`, so a trimmed argument string never starts or ends with `\s` |
| JavaText.Trim | src/main/java/org/openjfx/JavaFXRunMojo.java:191 | `trim()` gives the infix of the input left after removing characters up to U+0020 at both ends; only such characters are removed, and the result starts and ends with other characters |
| JavaText.TrimEmpty | src/main/java/org/openjfx/JavaFXRunMojo.java:191 | the trimmed string is empty exactly when every input character is at most U+0020 |
| JavaText.TrimUnchanged | src/main/java/org/openjfx/JavaFXRunMojo.java:191 | `trim()` leaves a string unchanged when neither end can be trimmed |
| JavaText.Join | src/main/java/org/openjfx/JavaFXRunMojo.java:148 | joining no elements gives ""; one element gives that element; a longer list starts with its first element |
| Tokenizer.SplitComplexArgumentString | src/main/java/org/openjfx/JavaFXRunMojo.java:190-224 | the loop over the trimmed characters, including the in-loop flush at the last character, returns exactly `Tokenize` of the input |
| Tokenizer.ScanAppend | src/main/java/org/openjfx/JavaFXRunMojo.java:197-217 | the loop's state after reading `a + b` equals the state after reading `a`, then reading `b` from there |
| Tokenizer.ScanAppendsNonEmpty | src/main/java/org/openjfx/JavaFXRunMojo.java:206-208 | the loop only appends to the token list, and only non-empty tokens |
| Tokenizer.TokensNonEmpty | src/main/java/org/openjfx/JavaFXRunMojo.java:206-220 | no token is ever the empty string, because both places that emit a token check that the buffer is non-empty |
| Tokenizer.StepKept | src/main/java/org/openjfx/JavaFXRunMojo.java:200-216 | one character step moves through the quote automaton and adds the character to the emitted and pending text, unless it is whitespace read outside a quote span |
| Tokenizer.ScanKept | src/main/java/org/openjfx/JavaFXRunMojo.java:197-217 | across any number of steps, emitted plus pending text grows by exactly the characters the quote automaton keeps, in order |
| Tokenizer.TokenizeKept | src/main/java/org/openjfx/JavaFXRunMojo.java:190-224 | the tokens, concatenated, are the trimmed input without the whitespace that lies outside quote spans; every other character, quotes included, is kept in order |
| Tokenizer.TokenizeEmpty | src/main/java/org/openjfx/JavaFXRunMojo.java:191-197 | the result is empty exactly when the input holds only characters up to U+0020 (blank input included) |
| Tokenizer.UnterminatedQuote | src/main/java/org/openjfx/JavaFXRunMojo.java:210-216 | inside a quote span, every character except the matching quote is added verbatim, whitespace and the other quote kind included |
| Tokenizer.ClosingQuote | src/main/java/org/openjfx/JavaFXRunMojo.java:200-205 | only the matching quote closes a span; the quote is added and splitting at whitespace resumes |
| Tokenizer.ScanOpenQuote | src/main/java/org/openjfx/JavaFXRunMojo.java:211-215 | a quote read outside a span opens one; with no matching quote after it, the span takes the rest of the text |
| Tokenizer.ScanUnterminated | src/main/java/org/openjfx/JavaFXRunMojo.java:211-220 | a quote that never closes is not an error: the last token runs from that quote to the end of the text |
| Tokenizer.TokenizeUnterminatedQuote | src/main/java/org/openjfx/JavaFXRunMojo.java:190-224 | the same, for the whole operation on the trimmed input: the earlier tokens, then the pending text plus everything from the quote on |
| Tokenizer.ScanWords | src/main/java/org/openjfx/JavaFXRunMojo.java:200-220 | on quote-free text, the loop emits exactly the maximal whitespace-free runs (`Words`) |
| Tokenizer.TokenizeWords | src/main/java/org/openjfx/JavaFXRunMojo.java:190-224 | without quote characters, the tokens are exactly the maximal runs of non-whitespace characters of the trimmed input, in order |
| Tokenizer.ScanPlainWord | src/main/java/org/openjfx/JavaFXRunMojo.java:210-216 | characters that are neither whitespace nor quotes are added to the pending token |
| Tokenizer.ScanTwoWords | src/main/java/org/openjfx/JavaFXRunMojo.java:200-216 | a blank between two words emits the first word and starts the second |
| Tokenizer.TokenizePlainWord | src/main/java/org/openjfx/JavaFXRunMojo.java:190-224 | a word of visible, quote-free characters is one token |
| Tokenizer.TokenizeTwoPlainWords | src/main/java/org/openjfx/JavaFXRunMojo.java:190-224 | two such words separated by one blank give two tokens |
| Tokenizer.ScanQuotedBetweenWords | src/main/java/org/openjfx/JavaFXRunMojo.java:200-216 | a closed quote span between two words is one token, quotes included, whatever blanks it holds |
| Tokenizer.ScanQuoteToEnd | src/main/java/org/openjfx/JavaFXRunMojo.java:211-215 | text that opens a quote at its first character and never closes it is entirely pending |
| Tokenizer.QuotedSpanExample | src/main/java/org/openjfx/JavaFXRunMojo.java:190-224 | `a "b c" d` gives `a`, `"b c"`, `d` |
| Tokenizer.UnterminatedQuoteExample | src/main/java/org/openjfx/JavaFXRunMojo.java:190-224 | `'unterminated` gives the single token `'unterminated` |
| Tokenizer.BlankExample | src/main/java/org/openjfx/JavaFXRunMojo.java:191-197 | empty and blank inputs give no tokens |
| Tokenizer.PlainOptionExample | src/main/java/org/openjfx/JavaFXRunMojo.java:190-224 | `-Dfoo=bar` gives one token |
| Tokenizer.PlainArgumentsExample | src/main/java/org/openjfx/JavaFXRunMojo.java:190-224 | `--flag value` gives `--flag`, `value` |
| ModuleSet.JavaFXModuleNames | src/main/java/org/openjfx/JavaFXRunMojo.java:180-185 | the surviving names are no more than the path elements; each starts with the JavaFX prefix and does not end with "Empty"; every contributing element's name is among them |
| ModuleSet.JavaFXModuleNamesSound | src/main/java/org/openjfx/JavaFXRunMojo.java:180-184 | every surviving name comes from a path element whose descriptor passes the filters |
| ModuleSet.JavaFXModuleNamesAppend | src/main/java/org/openjfx/JavaFXRunMojo.java:180-185 | the filter keeps encounter order: it distributes over concatenation of the path elements |
| ModuleSet.AddModulesFromDescriptor | src/main/java/org/openjfx/JavaFXRunMojo.java:179-187 | with a module descriptor, the value is its name, whatever the path holds |
| ModuleSet.AddModulesDiscovered | src/main/java/org/openjfx/JavaFXRunMojo.java:179-185 | without a descriptor, the value is the comma-join of the surviving names; for a non-empty prefix it is "" exactly when no element contributes |
| ModuleSet.AddModulesExample | src/main/java/org/openjfx/JavaFXRunMojo.java:180-185 | `javafx.base` is kept; `javafx.baseEmpty`, `other.lib` and a path element without a descriptor are dropped |
| CommandComposer.OptionArguments | src/main/java/org/openjfx/JavaFXRunMojo.java:136-143 | the tokenized user options never contain an empty argument |
| CommandComposer.SplitOptions | src/main/java/org/openjfx/JavaFXRunMojo.java:136-143 | the stream over the options skips nulls, splits each option and appends the tokens in order: the result is `OptionArguments` |
| CommandComposer.CreateCommandArguments | src/main/java/org/openjfx/JavaFXRunMojo.java:132-176 | appending clause by clause, as the source does, gives exactly the five-clause `CommandArguments` |
| CommandComposer.ModulePathEmitted | src/main/java/org/openjfx/JavaFXRunMojo.java:145-151 | on a modular JDK, with MODULEPATH chosen or a non-empty module path, `--module-path`, the joined path, `--add-modules` and its value follow the user options directly |
| CommandComposer.ModulePathOmitted | src/main/java/org/openjfx/JavaFXRunMojo.java:145-152 | on an old JDK, or without MODULEPATH and without a non-empty module path, neither flag appears and the classpath clause follows the user options |
| CommandComposer.OldJdkLaunch | src/main/java/org/openjfx/JavaFXRunMojo.java:145-161 | on an old JDK, the list is the options, then `-classpath` with the output directory in front whenever the classpath list is non-null (even when empty), then the main class and arguments |
| CommandComposer.ModernClasspathRule | src/main/java/org/openjfx/JavaFXRunMojo.java:154-161 | on a modular JDK, `-classpath` appears exactly when the classpath list is non-null and non-empty; the output directory comes first only in CLASSPATH mode |
| CommandComposer.MainClassRule | src/main/java/org/openjfx/JavaFXRunMojo.java:164-169 | the main-class string comes right before the program arguments; `--module` comes right before it, after the earlier clauses, exactly when a module descriptor is present |
| CommandComposer.ArgumentCount | src/main/java/org/openjfx/JavaFXRunMojo.java:132-176 | the list length is the option tokens, plus 4 for the module path, 2 for the classpath, 1 or 2 for the main class, plus the argument tokens |
| CommandComposer.MixedLaunch | src/main/java/org/openjfx/JavaFXRunMojo.java:146-161 | module path and classpath can both appear: a MODULEPATH launch with a non-empty classpath has both, and the classpath has no output directory |
| CommandComposer.TokenizedArgumentsNonEmpty | src/main/java/org/openjfx/JavaFXRunMojo.java:136-174 | the arguments that come from splitting user options or program arguments are never empty |
| CommandComposer.ClasspathLaunch | src/main/java/org/openjfx/JavaFXRunMojo.java:132-176 | a CLASSPATH launch with one option, a null option, one classpath entry and two plain program arguments gives the option, `-classpath`, output directory + separator + entry, the main class, then the two arguments |
| CommandComposer.OldJdkEmptyClasspathExample | src/main/java/org/openjfx/JavaFXRunMojo.java:154-161 | on an old JDK, an empty classpath list still gives `-classpath` with the output directory and a separator, and the module path is ignored |

## Left out

- `execute()` (JavaFXRunMojo.java:66-130) is left out. It validates the configuration,
  finds the executable, decides `oldJDK`, builds the environment and runs the process.
  All of that is I/O and process control.
- `JavaFXRunFixMojo` is not part of this model.
- `preparePaths`, `getParent`, the executable lookup and `createMainClassString` belong to
  the base class `JavaFXBaseMojo`, which is not part of this model. Their results enter
  as inputs: the `LaunchFacts` record, and the `mainClassString` function parameter.
- The module path is dereferenced without a null check at :148. A MODULEPATH launch
  with a null module path therefore throws a NullPointerException. The model does not
  model that exception; it requires `ModulePathDefined` of the caller instead.
- A null `pathElements` map is not modelled. Its iteration order becomes the order of a
  sequence.
- Null module descriptors inside `pathElements` are modelled as `None` and skipped. A
  descriptor's name is taken to be non-null, so the second null filter at :183 has no
  effect in the model.
- Null entries inside the module path and classpath lists are not modelled; they would
  be joined as the text "null". The same holds for a null output directory.
- The `options` list holds arbitrary objects in the source, and non-`String` elements
  are dropped (:139-140). The model's options are optional strings: only null elements
  are represented, and they are dropped.
- Characters are Dafny `char`s. Java's UTF-16 code units and the regex engine are not
  modelled beyond the six `\s` characters and the `trim()` rule.
