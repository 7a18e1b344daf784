/**
 * The value of `--add-modules` (`createAddModulesString`): the main module's name when
 * the project has a module descriptor, otherwise the comma-joined names of the JavaFX
 * modules found among the resolved path elements, in their order, skipping the
 * placeholder modules whose names end with "Empty".
 */
module ModuleSet {
  import opened Wrappers
  import opened JavaText

  /** A module descriptor; only its name matters to the launch command. */
  datatype ModuleDescriptor = ModuleDescriptor(name: string)

  /** One entry of `pathElements`: a resolved file and its module descriptor, if it has one. */
  datatype PathElement = PathElement(path: string, descriptor: Option<ModuleDescriptor>)

  /** The suffix that marks a placeholder ("empty") JavaFX module. */
  const EmptySuffix: string := "Empty"

  /** The stream's name filter: starts with the JavaFX prefix and is not a placeholder. */
  predicate IsJavaFXModule(name: string, javafxPrefix: string)
  {
    StartsWith(name, javafxPrefix) && !EndsWith(name, EmptySuffix)
  }

  /** Whether a path element survives the stream: it has a descriptor whose name passes
      the filter. */
  predicate Contributes(e: PathElement, javafxPrefix: string)
  {
    e.descriptor.Some? && IsJavaFXModule(e.descriptor.value.name, javafxPrefix)
  }

  /** The module names that survive the stream's filters, in encounter order. */
  function JavaFXModuleNames(pathElements: seq<PathElement>, javafxPrefix: string): (names: seq<string>)
    ensures |names| <= |pathElements|
    ensures forall k :: 0 <= k < |names| ==> IsJavaFXModule(names[k], javafxPrefix)
    ensures forall e :: e in pathElements && Contributes(e, javafxPrefix) ==> e.descriptor.value.name in names
  {
    if pathElements == [] then []
    else
      var e := pathElements[0];
      (if Contributes(e, javafxPrefix) then [e.descriptor.value.name] else [])
        + JavaFXModuleNames(pathElements[1..], javafxPrefix)
  }

  /** `createAddModulesString`. */
  function CreateAddModulesString(moduleDescriptor: Option<ModuleDescriptor>, pathElements: seq<PathElement>,
                                  javafxPrefix: string): string
  {
    match moduleDescriptor
    case Some(d) => d.name
    case None => Join(JavaFXModuleNames(pathElements, javafxPrefix), ",")
  }

  /** Every kept name comes from a contributing path element. */
  lemma {:induction false} JavaFXModuleNamesSound(pathElements: seq<PathElement>, javafxPrefix: string, n: string)
    requires n in JavaFXModuleNames(pathElements, javafxPrefix)
    ensures exists e :: e in pathElements && Contributes(e, javafxPrefix) && e.descriptor.value.name == n
  {
    var e := pathElements[0];
    if !(Contributes(e, javafxPrefix) && e.descriptor.value.name == n) {
      JavaFXModuleNamesSound(pathElements[1..], javafxPrefix, n);
      var e' :| e' in pathElements[1..] && Contributes(e', javafxPrefix) && e'.descriptor.value.name == n;
      assert e' in pathElements;
    }
  }

  /** The filter keeps encounter order: it distributes over concatenation. */
  lemma {:induction false} JavaFXModuleNamesAppend(a: seq<PathElement>, b: seq<PathElement>, javafxPrefix: string)
    ensures JavaFXModuleNames(a + b, javafxPrefix) == JavaFXModuleNames(a, javafxPrefix) + JavaFXModuleNames(b, javafxPrefix)
    decreases |a|
  {
    if a == [] {
      assert a + b == b;
    } else {
      assert (a + b)[1..] == a[1..] + b;
      JavaFXModuleNamesAppend(a[1..], b, javafxPrefix);
    }
  }

  /** With a module descriptor the value is exactly its name, whatever was discovered. */
  lemma AddModulesFromDescriptor(d: ModuleDescriptor, pathElements: seq<PathElement>, javafxPrefix: string)
    ensures CreateAddModulesString(Some(d), pathElements, javafxPrefix) == d.name
  {
  }

  /** Without a descriptor the value is the comma-join of the surviving names; it is the
      empty string when no element contributes, and (for a non-empty prefix) only then. */
  lemma AddModulesDiscovered(pathElements: seq<PathElement>, javafxPrefix: string)
    ensures CreateAddModulesString(None, pathElements, javafxPrefix) == Join(JavaFXModuleNames(pathElements, javafxPrefix), ",")
    ensures (forall e :: e in pathElements ==> !Contributes(e, javafxPrefix)) ==>
              CreateAddModulesString(None, pathElements, javafxPrefix) == ""
    ensures javafxPrefix != "" ==>
              (CreateAddModulesString(None, pathElements, javafxPrefix) == "" <==>
               forall e :: e in pathElements ==> !Contributes(e, javafxPrefix))
  {
    var names := JavaFXModuleNames(pathElements, javafxPrefix);
    if names != [] {
      JavaFXModuleNamesSound(pathElements, javafxPrefix, names[0]);
      if javafxPrefix != "" {
        assert javafxPrefix <= names[0];
      }
    }
  }

  /** The placeholder filter and the prefix filter, on the modules of a JavaFX build. */
  lemma AddModulesExample()
    ensures CreateAddModulesString(None,
      [PathElement("base.jar", Some(ModuleDescriptor("javafx.base"))),
       PathElement("base-empty.jar", Some(ModuleDescriptor("javafx.baseEmpty"))),
       PathElement("lib.jar", Some(ModuleDescriptor("other.lib"))),
       PathElement("plain.jar", None)], "javafx") == "javafx.base"
  {
    var base := PathElement("base.jar", Some(ModuleDescriptor("javafx.base")));
    var empty := PathElement("base-empty.jar", Some(ModuleDescriptor("javafx.baseEmpty")));
    var lib := PathElement("lib.jar", Some(ModuleDescriptor("other.lib")));
    var plain := PathElement("plain.jar", None);
    assert "javafx.base"[6..] != EmptySuffix;
    assert Contributes(base, "javafx");
    assert "javafx.baseEmpty"[11..] == EmptySuffix;
    assert !Contributes(empty, "javafx");
    assert "other.lib"[0] != 'j';
    assert !Contributes(lib, "javafx");
    assert [base, empty, lib, plain][1..] == [empty, lib, plain];
    assert [empty, lib, plain][1..] == [lib, plain];
    assert [lib, plain][1..] == [plain];
    assert JavaFXModuleNames([plain], "javafx") == [];
    assert JavaFXModuleNames([lib, plain], "javafx") == [];
    assert JavaFXModuleNames([empty, lib, plain], "javafx") == [];
    assert JavaFXModuleNames([base, empty, lib, plain], "javafx") == ["javafx.base"] + [];
  }
}
