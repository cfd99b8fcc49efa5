# Configuration manager: binding generators, dispatch and offerings

This project models the core of zstack's `ConfigurationManagerImpl`. That class is the
configuration service of the management node. It does three jobs:

- it routes the messages it receives: instance-offering and disk-offering messages go to the
  offering they name, API messages go to the handler of their type;
- it keeps the registry of instance-offering and disk-offering factories, and builds offering
  records from the two create messages;
- it writes client bindings from the API classes of the code base, which it finds by reflection:
  - the Python module `inventory.py`, with one class per API message, reply and inventory, and
    the global-config constants;
  - the `api_names` manifest `api_messages.py`;
  - the Groovy `ApiConstants` interface, with one entry per API class;
  - the MySQL views `view.sql`, one per `@EO` entity.

The Python generator is the heart of it. It writes a class's superclass before the class. A
memo of written simple names keeps a class from being written twice.

Reflection is replaced by a **catalog**, a map from qualified class name to a descriptor (simple
name, superclass, declared fields with their `@APIParam`/`@APINoSee` annotations, flags for
abstract, static, API message, search/get/list, entity, `@EO`). A classpath scan is a sequence
of entries, each either a loaded class or a bean that failed to load. A `StringBuilder` is a
`TextBuffer` object whose `pieces` are the strings appended so far; its text is their
concatenation.

Modules:

| module | file | what it holds |
|---|---|---|
| `Wrappers` | wrappers.dfy | `Option`, `Result` |
| `Text` | text.dfy | `whiteSpace`, lines, upper-casing, dot replacement, `join`, `TextBuffer` |
| `Catalog` | catalog.dfy | class and field descriptors, superclass chains, scans |
| `Emission` | emit_order.dfy | the order in which the recursive emitters write a class and its ancestors |
| `PythonText` | python_text.dfy | the text of one Python message, inventory and sentinel class |
| `PythonPasses` | python_passes.dfy | the message pass, the inventory pass and the base section, as functions |
| `PythonGenerator` | python_generator.dfy | the generator class with its memo, and the emitting methods |
| `PythonProperties` | python_props.dfy | what the passes write, and that each simple name is written once |
| `PythonFileOrder` | python_file_order.dfy | across a whole session, a Python base class is defined before its subclasses |
| `JsonTemplateSession` | session.dfy | `handle(APIGenerateApiJsonTemplateMsg)`: the manifest and `inventory.py` |
| `Groovy` | groovy.dfy | `ApiConstants.groovy` and the Groovy class stubs |
| `SqlView` | sql_view.dfy | `view.sql` |
| `GlobalConfigConstants` | global_config.dfy | the `GlobalConfig_<CATEGORY>` classes |
| `Offerings` | offering.dfy | factory registry, factory lookups, pass-through, create handlers |
| `Dispatch` | dispatch.dfy | `handleMessage`, `handleApiMessage` |
| `Fixtures` | fixtures.dfy | two message classes of the repository and what the generators make of them |

All source paths below are under
`configuration/src/main/java/org/zstack/configuration/ConfigurationManagerImpl.java` unless
they name another file.

## Model

| member | source | states |
|---|---|---|
| Text.WhiteSpace | configuration/src/main/java/org/zstack/configuration/ConfigurationManagerImpl.java:307-309 | `whiteSpace(n)` is exactly `n` blanks |
| Text.LineChars | configuration/src/main/java/org/zstack/configuration/ConfigurationManagerImpl.java:320-341 | a generated line is a newline, the indentation, then the text, character for character |
| Text.LineInjective | configuration/src/main/java/org/zstack/configuration/ConfigurationManagerImpl.java:507-516 | two lines whose texts start with a non-blank are equal only if indentation and text are equal |
| Text.Upper | configuration/src/main/java/org/zstack/configuration/ConfigurationManagerImpl.java:758-761 | `toUpperCase` keeps the length and upper-cases each ASCII letter, leaving every other character as it is (see Left out) |
| Text.ReplaceDots | configuration/src/main/java/org/zstack/configuration/ConfigurationManagerImpl.java:758-760 | `replaceAll("\\.", "_")` keeps the length and turns every dot into an underscore, and nothing else changes |
| Text.UpperReplaceDotsCommute | configuration/src/main/java/org/zstack/configuration/ConfigurationManagerImpl.java:758-761 | upper-casing and dot replacement commute, and the result has no dot |
| Text.ReplaceBackslashDot | configuration/src/main/java/org/zstack/configuration/ConfigurationManagerImpl.java:354 | the literal replacement of `\.` never lengthens the name |
| Text.ReplaceBackslashDotIdentity | configuration/src/main/java/org/zstack/configuration/ConfigurationManagerImpl.java:354 | on a name without a backslash, `replace("\\.", "_")` changes nothing |
| Text.RemoveFirstNoDup | configuration/src/main/java/org/zstack/configuration/ConfigurationManagerImpl.java:669-672 | `List.remove(Object)` on a duplicate-free list keeps it duplicate-free and removes exactly the given element |
| Catalog.Chain | configuration/src/main/java/org/zstack/configuration/ConfigurationManagerImpl.java:313-317 | the superclass chain of a class ends with the class and stays inside the catalog |
| Catalog.ChainIncreasing | configuration/src/main/java/org/zstack/configuration/ConfigurationManagerImpl.java:313-317 | along the chain the inheritance depth strictly grows, so the chain has no repeats |
| Catalog.ChainLinked | configuration/src/main/java/org/zstack/configuration/ConfigurationManagerImpl.java:313-317 | each chain entry is the superclass of the next, and the first has no superclass |
| Catalog.SimpleNameList | configuration/src/main/java/org/zstack/configuration/ConfigurationManagerImpl.java:737-743 | the simple names of a list of classes, position by position |
| Catalog.SimpleNamesIn | configuration/src/main/java/org/zstack/configuration/ConfigurationManagerImpl.java:737-743 | the set of simple names holds exactly the names in the list |
| Catalog.PackageScanMembers | configuration/src/main/java/org/zstack/configuration/ConfigurationManagerImpl.java:644-645 | a scan over several packages, walked in order, holds exactly the entries that some package's walk finds |
| Catalog.AllFields | configuration/src/main/java/org/zstack/configuration/ConfigurationManagerImpl.java:357-358 | a class's own fields followed by its superclass's |
| Emission.EmitOrder | configuration/src/main/java/org/zstack/configuration/ConfigurationManagerImpl.java:311-317 | the classes one recursive emitter call writes end with the requested class |
| Emission.EmitOrderStep | configuration/src/main/java/org/zstack/configuration/ConfigurationManagerImpl.java:313-317 | the call writes the unwritten ancestors first, then the class itself |
| Emission.EmitOrderIsChainSuffix | configuration/src/main/java/org/zstack/configuration/ConfigurationManagerImpl.java:313-317 | the written classes are a suffix of the superclass chain; the recursion stops at a class whose simple name is memoised |
| Emission.ParentBeforeChild | configuration/src/main/java/org/zstack/configuration/ConfigurationManagerImpl.java:499-504 | within one emitter call, each written class is the direct subclass of the class written just before it |
| Emission.EmitOrderComplete | configuration/src/main/java/org/zstack/configuration/ConfigurationManagerImpl.java:499-504 | with no ancestor memoised, the call writes the whole chain, root first |
| Emission.AncestorsMemoised | configuration/src/main/java/org/zstack/configuration/ConfigurationManagerImpl.java:315-345 | with a memo closed under superclasses, after the call every ancestor of the class is memoised |
| Emission.EmitOrderNoDup | configuration/src/main/java/org/zstack/configuration/ConfigurationManagerImpl.java:499-504 | one call writes no class twice |
| Emission.EmitOrderFresh | configuration/src/main/java/org/zstack/configuration/ConfigurationManagerImpl.java:499-504 | a call for an unwritten class writes only classes whose simple names were not memoised |
| Emission.EmitOrderOnce | configuration/src/main/java/org/zstack/configuration/ConfigurationManagerImpl.java:737-743 | with unique simple names, one call writes each simple name once and none of the memo's |
| PythonText.Initialiser | configuration/src/main/java/org/zstack/configuration/ConfigurationManagerImpl.java:536-554 | a field's initialiser starts with `NotNone` exactly when the field is required, and is `None` exactly for an optional scalar |
| PythonText.InitialiserInjective | configuration/src/main/java/org/zstack/configuration/ConfigurationManagerImpl.java:536-554 | the six initialisers differ: the initialiser tells the field's kind and whether it is required |
| PythonText.SentinelsAreDefined | configuration/src/main/java/org/zstack/configuration/ConfigurationManagerImpl.java:594-609 | every initialiser other than `None` names a class that `generateMandoryFieldClass` defines |
| PythonText.VisibleFieldText | configuration/src/main/java/org/zstack/configuration/ConfigurationManagerImpl.java:526-556 | the lines written for one visible field |
| PythonText.MessageClassText | configuration/src/main/java/org/zstack/configuration/ConfigurationManagerImpl.java:497-566 | the text of `classToApiMessagePythonClass` for one class: header, field lines, optional `pass`, trailer |
| PythonText.MessageFieldsText | configuration/src/main/java/org/zstack/configuration/ConfigurationManagerImpl.java:508-561 | the field loop: its lines, and `emptyLine` holds exactly when the class has no superclass and no visible field |
| PythonText.FieldComments | configuration/src/main/java/org/zstack/configuration/ConfigurationManagerImpl.java:526-554 | a field gets the mandatory comment iff it is visible and required, the valid-values comment iff visible with valid values, its assignment iff visible, and never `pass` |
| PythonText.PassIff | configuration/src/main/java/org/zstack/configuration/ConfigurationManagerImpl.java:508-561 | the class gets `pass` exactly when it has no superclass and no visible field |
| PythonText.HeaderNotFieldLike | configuration/src/main/java/org/zstack/configuration/ConfigurationManagerImpl.java:506-517 | no header line can be taken for a field line |
| PythonText.MandatoryCommentCount | configuration/src/main/java/org/zstack/configuration/ConfigurationManagerImpl.java:527-529 | the class text holds `#mandatory field` once per visible required field |
| PythonText.MandatoryCountInFields | configuration/src/main/java/org/zstack/configuration/ConfigurationManagerImpl.java:520-557 | the field lines hold `#mandatory field` once per visible required field |
| PythonText.VisibleFieldsSame | configuration/src/main/java/org/zstack/configuration/ConfigurationManagerImpl.java:521-524 | dropping the `@APINoSee` fields leaves the field lines and the visibility test unchanged |
| PythonText.HiddenFieldsLeaveNoTrace | configuration/src/main/java/org/zstack/configuration/ConfigurationManagerImpl.java:521-524 | an `@APINoSee` field leaves no trace in the class text |
| PythonText.FieldsPiecesFrom | configuration/src/main/java/org/zstack/configuration/ConfigurationManagerImpl.java:520-557 | every field line comes from a visible field |
| PythonText.FieldsPiecesHas | configuration/src/main/java/org/zstack/configuration/ConfigurationManagerImpl.java:520-557 | every line of every field is in the class's field lines |
| PythonText.InventoryClassText | configuration/src/main/java/org/zstack/configuration/ConfigurationManagerImpl.java:311-347 | the text of `classToInventoryPythonClass` for one class |
| PythonText.NoneInitsText | configuration/src/main/java/org/zstack/configuration/ConfigurationManagerImpl.java:328-331 | the `self.<f> = None` loop of `__init__` |
| PythonText.CopyFieldsText | configuration/src/main/java/org/zstack/configuration/ConfigurationManagerImpl.java:337-342 | the `hasattr` copy loop of `evaluate` |
| PythonText.InventoryFieldsByName | configuration/src/main/java/org/zstack/configuration/ConfigurationManagerImpl.java:328-342 | the inventory loops depend on the field names only |
| PythonText.InventoryIgnoresAnnotations | configuration/src/main/java/org/zstack/configuration/ConfigurationManagerImpl.java:311-347 | an inventory class's text depends on its simple name and field names, not on annotations |
| PythonText.InventoryCopiesEveryField | configuration/src/main/java/org/zstack/configuration/ConfigurationManagerImpl.java:328-342 | every declared field is initialised to `None` and copied from the inventory |
| PythonText.MessageClassPieces | configuration/src/main/java/org/zstack/configuration/ConfigurationManagerImpl.java:497-566 | the text of one Python message class (properties in PythonText.MessageClassText and PythonText.PassIff) |
| PythonText.InventoryClassPieces | configuration/src/main/java/org/zstack/configuration/ConfigurationManagerImpl.java:311-347 | the text of one Python inventory class (properties in PythonText.InventoryClassText) |
| PythonPasses.SimpleClassDeclaresFields | configuration/src/main/java/org/zstack/configuration/ConfigurationManagerImpl.java:568-575 | `generateSimplePythonClass` writes one `None` line per declared field, in order |
| PythonPasses.NoneInitsAt | configuration/src/main/java/org/zstack/configuration/ConfigurationManagerImpl.java:328-331 | the `i`-th `None` line is the `i`-th field's |
| PythonPasses.EmitStep | configuration/src/main/java/org/zstack/configuration/ConfigurationManagerImpl.java:499-565 | the ancestors' text followed by the class's own text is the text of the whole emit order, and the memo grows by their simple names |
| PythonPasses.BaseSection | configuration/src/main/java/org/zstack/configuration/ConfigurationManagerImpl.java:611-624 | the base section writes only catalog classes |
| PythonPasses.Emit | configuration/src/main/java/org/zstack/configuration/ConfigurationManagerImpl.java:661 | one emit writes only catalog classes |
| PythonPasses.MessagePass | configuration/src/main/java/org/zstack/configuration/ConfigurationManagerImpl.java:643-667 | the scan loop of `generateApiMessagePythonClass` writes only catalog classes |
| PythonPasses.InventoryPass | configuration/src/main/java/org/zstack/configuration/ConfigurationManagerImpl.java:713-735 | the inventory loop writes only catalog classes and collects no api name |
| PythonPasses.MessagePassSkip | configuration/src/main/java/org/zstack/configuration/ConfigurationManagerImpl.java:647-660 | a failed load, a base, search, list, get or abstract class, or a memoised one changes nothing |
| PythonPasses.MessagePassEmit | configuration/src/main/java/org/zstack/configuration/ConfigurationManagerImpl.java:661-662 | any other class appends its emit order's text, memoises those names and adds its simple name to the api names |
| PythonPasses.InventoryPassSkip | configuration/src/main/java/org/zstack/configuration/ConfigurationManagerImpl.java:720-724 | a failed load or memoised class changes nothing in the inventory loop |
| PythonPasses.InventoryPassEmit | configuration/src/main/java/org/zstack/configuration/ConfigurationManagerImpl.java:725-734 | any other class appends its emit order's inventory text and memoises those names |
| PythonPasses.MessageModule | configuration/src/main/java/org/zstack/configuration/ConfigurationManagerImpl.java:634-674 | `generateApiMessagePythonClass` writes only catalog classes |
| PythonPasses.PruneBaseNames | configuration/src/main/java/org/zstack/configuration/ConfigurationManagerImpl.java:669-672 | the four base simple names removed once each (properties in PythonProperties.PruneBaseNamesFacts) |
| PythonProperties.ClassTextOrder | configuration/src/main/java/org/zstack/configuration/ConfigurationManagerImpl.java:313-317 | in the written text, the class written earlier comes first |
| PythonProperties.EmitKeepsOnce | configuration/src/main/java/org/zstack/configuration/ConfigurationManagerImpl.java:499-504 | one emit keeps "every simple name written at most once, and every written name memoised" |
| PythonProperties.MessagePassOnce | configuration/src/main/java/org/zstack/configuration/ConfigurationManagerImpl.java:643-667 | the message loop keeps that invariant |
| PythonProperties.InventoryPassOnce | configuration/src/main/java/org/zstack/configuration/ConfigurationManagerImpl.java:717-730 | the inventory loop keeps that invariant |
| PythonProperties.BaseSectionOnce | configuration/src/main/java/org/zstack/configuration/ConfigurationManagerImpl.java:611-624 | the base section keeps that invariant |
| PythonProperties.SessionWritesEachSimpleNameOnce | configuration/src/main/java/org/zstack/configuration/ConfigurationManagerImpl.java:835-837 | in one json-template session with unique simple names, no simple name is written twice among the classes written through the memo: `APIMessage`, the base section's `APIDeleteMessage` chain, the message pass and the inventory pass |
| PythonProperties.MemoisedNameSkipped | configuration/src/main/java/org/zstack/configuration/ConfigurationManagerImpl.java:657-660 | a class whose simple name is memoised by the time the scan reaches it, whether before the pass or as an earlier class's superclass within it, is skipped and changes nothing |
| PythonProperties.MemoGrows | configuration/src/main/java/org/zstack/configuration/ConfigurationManagerImpl.java:737-743 | the memo only grows |
| PythonProperties.MessagePassNames | configuration/src/main/java/org/zstack/configuration/ConfigurationManagerImpl.java:644-662 | a name is collected exactly when a scanned class with that simple name was loaded, not skipped and not yet memoised |
| PythonProperties.NamesStep | configuration/src/main/java/org/zstack/configuration/ConfigurationManagerImpl.java:657-662 | one scan step adds the class's simple name exactly when it writes the class |
| PythonProperties.WrittenParentMemoised | configuration/src/main/java/org/zstack/configuration/ConfigurationManagerImpl.java:657-662 | a class written anywhere in the message pass has its simple name in the final memo |
| PythonProperties.MemoGrowsFrom | configuration/src/main/java/org/zstack/configuration/ConfigurationManagerImpl.java:657-662 | the memo of a scan prefix is contained in the memo of every longer prefix |
| PythonProperties.MessagePassNamesNoDup | configuration/src/main/java/org/zstack/configuration/ConfigurationManagerImpl.java:661-662 | the names the message pass collects have no duplicates and are all memoised |
| PythonProperties.MessageModuleNames | configuration/src/main/java/org/zstack/configuration/ConfigurationManagerImpl.java:669-672 | `api_names` has no duplicates and holds exactly the collected names other than the four base simple names |
| PythonProperties.PruneBaseNamesFacts | configuration/src/main/java/org/zstack/configuration/ConfigurationManagerImpl.java:669-672 | removing the four base names keeps a duplicate-free list duplicate-free and removes exactly those names |
| PythonGenerator.GenerateSimplePythonClass | configuration/src/main/java/org/zstack/configuration/ConfigurationManagerImpl.java:568-575 | appends the simple class's pieces |
| PythonGenerator.GenerateApiMessageClass | configuration/src/main/java/org/zstack/configuration/ConfigurationManagerImpl.java:611-619 | appends the `APIMessage` class with `timeout` and one `None` line per field |
| PythonGenerator.GenerateSessionPythonClass | configuration/src/main/java/org/zstack/configuration/ConfigurationManagerImpl.java:581-587 | appends the `Session` class |
| PythonGenerator.GenerateMandatoryFieldClass | configuration/src/main/java/org/zstack/configuration/ConfigurationManagerImpl.java:594-609 | appends the five sentinel classes |
| PythonGenerator.GenerateApiNameList | configuration/src/main/java/org/zstack/configuration/ConfigurationManagerImpl.java:626-632 | appends the `api_names` list, one line per name, in order |
| PythonGenerator.PythonBindingGenerator.constructor | configuration/src/main/java/org/zstack/configuration/ConfigurationManagerImpl.java:786 | the memo starts empty |
| PythonGenerator.PythonBindingGenerator.MarkPythonClassAsGenerated | configuration/src/main/java/org/zstack/configuration/ConfigurationManagerImpl.java:741-743 | adds the simple name to the memo and nothing else |
| PythonGenerator.PythonBindingGenerator.IsPythonClassGenerated | configuration/src/main/java/org/zstack/configuration/ConfigurationManagerImpl.java:737-739 | a class counts as generated when its simple name is in the memo |
| PythonGenerator.PythonBindingGenerator.ClassToApiMessagePythonClass | configuration/src/main/java/org/zstack/configuration/ConfigurationManagerImpl.java:497-566 | returns the text of the emit order, superclasses first, and memoises exactly its simple names |
| PythonGenerator.PythonBindingGenerator.ClassToInventoryPythonClass | configuration/src/main/java/org/zstack/configuration/ConfigurationManagerImpl.java:311-347 | the same for inventory classes |
| PythonGenerator.PythonBindingGenerator.GenerateBaseApiMessagePythonClass | configuration/src/main/java/org/zstack/configuration/ConfigurationManagerImpl.java:611-624 | appends the base section and leaves the memo it computes, with `APIMessage` and `APIDeleteMessage` marked |
| PythonGenerator.PythonBindingGenerator.GenerateApiMessagePythonClass | configuration/src/main/java/org/zstack/configuration/ConfigurationManagerImpl.java:634-674 | appends the whole message module and leaves its memo |
| PythonGenerator.PythonBindingGenerator.GenerateApiMessageClasses | configuration/src/main/java/org/zstack/configuration/ConfigurationManagerImpl.java:643-667 | the scan loop: appends the message pass's text and returns its api names |
| PythonGenerator.PythonBindingGenerator.GenerateInventoryPythonClass | configuration/src/main/java/org/zstack/configuration/ConfigurationManagerImpl.java:713-735 | appends the inventory pass's text and leaves its memo |
| JsonTemplateSession.BasePackages | configuration/src/main/java/org/zstack/configuration/ConfigurationManagerImpl.java:791-795 | the base packages are never empty: the given ones, or `org.zstack` when missing or empty |
| JsonTemplateSession.BasePackagesScan | configuration/src/main/java/org/zstack/configuration/ConfigurationManagerImpl.java:791-795 | the json-template and Groovy scans run over `org.zstack` alone when no packages are given, over the given packages otherwise, and find exactly what some base package's walk finds |
| JsonTemplateSession.ManifestLineInjective | configuration/src/main/java/org/zstack/configuration/ConfigurationManagerImpl.java:821 | different classes get different manifest lines |
| JsonTemplateSession.ManifestMembers | configuration/src/main/java/org/zstack/configuration/ConfigurationManagerImpl.java:810-827 | a class is listed exactly when it was scanned, loaded and dumped, and is an API message that is not a search, get or list message |
| JsonTemplateSession.BuildManifest | configuration/src/main/java/org/zstack/configuration/ConfigurationManagerImpl.java:803-830 | builds `api_names = [`, the manifest lines in scan order, then `]` |
| JsonTemplateSession.HandleGenerateApiJsonTemplate | configuration/src/main/java/org/zstack/configuration/ConfigurationManagerImpl.java:785-854 | `inventory.py` is the sentinel classes, message module, inventory classes, constants, global-config classes and writers' texts in that order, with a fresh memo dropped at the end |
| JsonTemplateSession.WriteBindingClasses | configuration/src/main/java/org/zstack/configuration/ConfigurationManagerImpl.java:835-837 | the three generators append the binding classes, sharing one memo |
| JsonTemplateSession.AppendWriters | configuration/src/main/java/org/zstack/configuration/ConfigurationManagerImpl.java:840-843 | each writer's text is appended after a newline |
| JsonTemplateSession.ManifestLines | configuration/src/main/java/org/zstack/configuration/ConfigurationManagerImpl.java:803-831 | one manifest line per listed API message (properties in JsonTemplateSession.ManifestMembers) |
| JsonTemplateSession.InventoryFile | configuration/src/main/java/org/zstack/configuration/ConfigurationManagerImpl.java:834-843 | the text of `inventory.py` (produced by JsonTemplateSession.HandleGenerateApiJsonTemplate) |
| Groovy.GroovyConstNameIsUpper | configuration/src/main/java/org/zstack/configuration/ConfigurationManagerImpl.java:354 | on a name without a backslash the constant name is the upper-cased simple name |
| Groovy.RequiredFieldNamesMembers | configuration/src/main/java/org/zstack/configuration/ConfigurationManagerImpl.java:358-365 | `requiredFields` lists exactly the required fields, quoted |
| Groovy.GroovyInfoLists | configuration/src/main/java/org/zstack/configuration/ConfigurationManagerImpl.java:349-366 | a static class writes nothing; any other writes its constant line and its required fields over all inherited fields |
| Groovy.ClassToApiMessageGroovyInformation | configuration/src/main/java/org/zstack/configuration/ConfigurationManagerImpl.java:349-366 | appends the class's entry |
| Groovy.LoadFailureSkipped | configuration/src/main/java/org/zstack/configuration/ConfigurationManagerImpl.java:380-382 | a class that fails to load adds nothing |
| Groovy.GenerateApiMessageGroovyClass | configuration/src/main/java/org/zstack/configuration/ConfigurationManagerImpl.java:368-385 | appends the entries of the scanned classes in scan order |
| Groovy.AppendGroovyInfo | configuration/src/main/java/org/zstack/configuration/ConfigurationManagerImpl.java:375-382 | one scan step appends the entry of a loaded class and nothing for a class that fails to load, keeping the text equal to the entries of the prefix scanned so far |
| Groovy.GroovyInfoAllStep | configuration/src/main/java/org/zstack/configuration/ConfigurationManagerImpl.java:375-383 | one scan step appends the loaded class's entry, or nothing |
| Groovy.GenerateGroovyClasses | configuration/src/main/java/org/zstack/configuration/ConfigurationManagerImpl.java:409-445 | `ApiConstants.groovy` is the package line, the interface head, `API_EVENT_TYPE`, the entries and the closing brace |
| Groovy.StubFieldsMembers | configuration/src/main/java/org/zstack/configuration/ConfigurationManagerImpl.java:465-482 | a stub declares exactly the visible non-static fields |
| Groovy.StubFieldsFrom | configuration/src/main/java/org/zstack/configuration/ConfigurationManagerImpl.java:465-482 | every declaration line comes from a visible non-static field |
| Groovy.StubFieldsHas | configuration/src/main/java/org/zstack/configuration/ConfigurationManagerImpl.java:465-482 | every visible non-static field is declared |
| Groovy.StubFieldLineRequired | configuration/src/main/java/org/zstack/configuration/ConfigurationManagerImpl.java:476-481 | a field is a `NotNullObject` exactly when it is required |
| Groovy.StubOrder | configuration/src/main/java/org/zstack/configuration/ConfigurationManagerImpl.java:447-457 | the stubs one call writes are catalog classes |
| Groovy.StubOrderFacts | configuration/src/main/java/org/zstack/configuration/ConfigurationManagerImpl.java:447-457 | a memoised class writes nothing; otherwise the class comes last, each after its superclass, and is memoised after |
| Groovy.StubStep | configuration/src/main/java/org/zstack/configuration/ConfigurationManagerImpl.java:453-494 | the unwritten superclass's stubs come first, then the class's own stub |
| Groovy.GroovyStubGenerator.constructor | configuration/src/main/java/org/zstack/configuration/ConfigurationManagerImpl.java:75 | the Groovy memo starts empty |
| Groovy.GroovyStubGenerator.ClassToApiMessageGroovyClass | configuration/src/main/java/org/zstack/configuration/ConfigurationManagerImpl.java:447-495 | appends the stubs of the unwritten ancestors and the class, and memoises exactly their simple names |
| Groovy.AppendStub | configuration/src/main/java/org/zstack/configuration/ConfigurationManagerImpl.java:459-493 | appends one class's stub |
| Groovy.AppendStubFields | configuration/src/main/java/org/zstack/configuration/ConfigurationManagerImpl.java:465-482 | the stub's field loop |
| Groovy.AppendStubTrailer | configuration/src/main/java/org/zstack/configuration/ConfigurationManagerImpl.java:484-493 | `fullName`, `eventType` for a concrete event, and the closing brace |
| Groovy.RequiredFieldNames | configuration/src/main/java/org/zstack/configuration/ConfigurationManagerImpl.java:357-364 | the quoted names of the required fields, in order (properties in Groovy.RequiredFieldNamesMembers) |
| Groovy.GroovyInfoAll | configuration/src/main/java/org/zstack/configuration/ConfigurationManagerImpl.java:368-385 | the Groovy information of every loaded scanned class (properties in Groovy.LoadFailureSkipped and Groovy.GroovyInfoAllStep) |
| Groovy.GroovyFile | configuration/src/main/java/org/zstack/configuration/ConfigurationManagerImpl.java:409-445 | the text of `ApiConstants.groovy` (produced by Groovy.GenerateGroovyClasses) |
| Groovy.StubPieces | configuration/src/main/java/org/zstack/configuration/ConfigurationManagerImpl.java:447-495 | the stub of one class: header, declared fields and trailer (properties in Groovy.StubFieldsMembers) |
| SqlView.ViewColumnsAppend | configuration/src/main/java/org/zstack/configuration/ConfigurationManagerImpl.java:250-255 | the column loop distributes over concatenated field lists |
| SqlView.ViewColumnsMembers | configuration/src/main/java/org/zstack/configuration/ConfigurationManagerImpl.java:250-255 | the view lists exactly the `@Column` fields without `@NoView` |
| SqlView.VOViewSqlCases | configuration/src/main/java/org/zstack/configuration/ConfigurationManagerImpl.java:236-258 | a class without `@Entity` fails with the source's `@EO` message whatever its annotations; an `@Entity` without `@EO` fails with a `NullPointerException`; an entity whose view is not needed writes nothing; otherwise the `CREATE VIEW` statement over the columns |
| SqlView.GenerateVOViewSql | configuration/src/main/java/org/zstack/configuration/ConfigurationManagerImpl.java:236-258 | appends the statement, or reports the error and leaves the buffer alone |
| SqlView.ViewFileFailsIff | configuration/src/main/java/org/zstack/configuration/ConfigurationManagerImpl.java:260-285 | the handler fails exactly when some scanned class fails to load, is not an `@Entity`, or is an `@Entity` without `@EO` |
| SqlView.ViewFileStep | configuration/src/main/java/org/zstack/configuration/ConfigurationManagerImpl.java:266-271 | one scan step appends its statement or fails |
| SqlView.NoViewAddsNothing | configuration/src/main/java/org/zstack/configuration/ConfigurationManagerImpl.java:242-245 | an entity that needs no view leaves the file unchanged |
| SqlView.HandleGenerateSqlVOView | configuration/src/main/java/org/zstack/configuration/ConfigurationManagerImpl.java:260-285 | the text of `view.sql`, or the first failure |
| SqlView.FailureStays | configuration/src/main/java/org/zstack/configuration/ConfigurationManagerImpl.java:282-284 | a failure ends the handler: later classes change nothing |
| SqlView.VOViewSql | configuration/src/main/java/org/zstack/configuration/ConfigurationManagerImpl.java:236-258 | the view statement of one scanned class, or the error it throws (properties in SqlView.VOViewSqlCases) |
| SqlView.ViewFile | configuration/src/main/java/org/zstack/configuration/ConfigurationManagerImpl.java:260-285 | the view statements of a scan, failing on the first error (properties in SqlView.ViewFileFailsIff and SqlView.ViewFileStep) |
| SqlView.ScannedClassWithoutEoFails | configuration/src/main/java/org/zstack/configuration/ConfigurationManagerImpl.java:236-242 | a scanned class without `@EO`, which the scanner's default filters let through, makes the handler fail: with the `@Entity` message when it is not an entity, with a `NullPointerException` when it is |
| GlobalConfigConstants.NamesOfMembers | configuration/src/main/java/org/zstack/configuration/ConfigurationManagerImpl.java:747-755 | a category's list holds exactly the names of that category's configs |
| GlobalConfigConstants.GroupedIsNamesOf | configuration/src/main/java/org/zstack/configuration/ConfigurationManagerImpl.java:747-755 | a category is a key exactly when it has a config, and maps to its names in order |
| GlobalConfigConstants.GroupedKeys | configuration/src/main/java/org/zstack/configuration/ConfigurationManagerImpl.java:747-755 | the keys are exactly the categories in use |
| GlobalConfigConstants.GroupByCategory | configuration/src/main/java/org/zstack/configuration/ConfigurationManagerImpl.java:747-755 | the grouping loop builds that map |
| GlobalConfigConstants.MangledNames | configuration/src/main/java/org/zstack/configuration/ConfigurationManagerImpl.java:758-761 | class and constant names are upper-cased with dots replaced, so contain no dot |
| GlobalConfigConstants.ConstLinesHas | configuration/src/main/java/org/zstack/configuration/ConfigurationManagerImpl.java:759-762 | each name of a category gets its constant line |
| GlobalConfigConstants.CategoriesPiecesHas | configuration/src/main/java/org/zstack/configuration/ConfigurationManagerImpl.java:757-767 | each category's lines are in the output |
| GlobalConfigConstants.EveryConfigDeclared | configuration/src/main/java/org/zstack/configuration/ConfigurationManagerImpl.java:745-768 | every config gets its category's class line, its constant line and the category's `get_category` |
| GlobalConfigConstants.GenerateGlobalConfigPythonConstant | configuration/src/main/java/org/zstack/configuration/ConfigurationManagerImpl.java:745-768 | appends a newline and one class per category, in some entry order of the map |
| GlobalConfigConstants.EmitCategories | configuration/src/main/java/org/zstack/configuration/ConfigurationManagerImpl.java:757-767 | the loop over the map's entries, each key once |
| GlobalConfigConstants.EmitCategory | configuration/src/main/java/org/zstack/configuration/ConfigurationManagerImpl.java:758-766 | one category's class |
| GlobalConfigConstants.AppendConstLines | configuration/src/main/java/org/zstack/configuration/ConfigurationManagerImpl.java:759-762 | the constant loop |
| GlobalConfigConstants.Grouped | configuration/src/main/java/org/zstack/configuration/ConfigurationManagerImpl.java:747-755 | the config names grouped by category (properties in GlobalConfigConstants.GroupedIsNamesOf and GlobalConfigConstants.GroupedKeys) |
| GlobalConfigConstants.CategoryPieces | configuration/src/main/java/org/zstack/configuration/ConfigurationManagerImpl.java:757-766 | the text of one `GlobalConfig_<CATEGORY>` class (properties in GlobalConfigConstants.CategoriesPiecesHas) |
| Offerings.Types | configuration/src/main/java/org/zstack/configuration/ConfigurationManagerImpl.java:965-981 | the offering types of the extensions, in order |
| Offerings.UnfiledSnoc | configuration/src/main/java/org/zstack/configuration/ConfigurationManagerImpl.java:965-972 | registration of one more extension succeeds when its type is new |
| Offerings.RegisterContents | configuration/src/main/java/org/zstack/configuration/ConfigurationManagerImpl.java:965-972 | without duplicates the registry holds the old entries plus each extension under its type |
| Offerings.RegisterSucceedsIff | configuration/src/main/java/org/zstack/configuration/ConfigurationManagerImpl.java:965-972 | registration fails exactly when a type is already filed or repeats |
| Offerings.RegisterFilesEach | configuration/src/main/java/org/zstack/configuration/ConfigurationManagerImpl.java:965-972 | after a successful registration each extension is found under its type |
| Offerings.RegisterDuplicateMessage | configuration/src/main/java/org/zstack/configuration/ConfigurationManagerImpl.java:966-970 | a failure names a later factory and the earlier one with the same type |
| Offerings.GetInstanceOfferingFactory | configuration/src/main/java/org/zstack/configuration/ConfigurationManagerImpl.java:988-994 | found exactly when the type is registered, with the source's error message otherwise |
| Offerings.GetDiskOfferingFactory | configuration/src/main/java/org/zstack/configuration/ConfigurationManagerImpl.java:996-1003 | the same for disk offerings |
| Offerings.LookupAfterRegistration | configuration/src/main/java/org/zstack/configuration/ConfigurationManagerImpl.java:964-994 | after start-up, lookup finds each registered factory and only those types |
| Offerings.OfferingRegistry.constructor | configuration/src/main/java/org/zstack/configuration/ConfigurationManagerImpl.java:73-76 | the registries start empty |
| Offerings.OfferingRegistry.PopulateExtensions | configuration/src/main/java/org/zstack/configuration/ConfigurationManagerImpl.java:964-986 | instance factories first, then disk factories, then writers; a duplicate stops start-up where it is met |
| Offerings.RegisterAll | configuration/src/main/java/org/zstack/configuration/ConfigurationManagerImpl.java:965-981 | one registration loop fills its own map and leaves the other alone |
| Offerings.FailureStays | configuration/src/main/java/org/zstack/configuration/ConfigurationManagerImpl.java:966-970 | once the loop has thrown, later extensions change nothing |
| Offerings.FindRowCases | configuration/src/main/java/org/zstack/configuration/ConfigurationManagerImpl.java:86-91 | no row exactly when the offering is neither live nor reachable through the soft-deletion fallback; a live row wins |
| Offerings.InstancePassThroughCases | configuration/src/main/java/org/zstack/configuration/ConfigurationManagerImpl.java:86-101 | a live offering is served, a soft-deleted one only to `InstanceOfferingDeletionMsg`; the error reply, factory and lookup failure in each case |
| Offerings.DiskPassThroughCases | configuration/src/main/java/org/zstack/configuration/ConfigurationManagerImpl.java:103-118 | the same for disk offerings with `DiskOfferingDeletionMsg`, the corrected fallback |
| Offerings.DiskSoftDeletionFallbackNeverFires | configuration/src/main/java/org/zstack/configuration/ConfigurationManagerImpl.java:105 | as written, a deletion message for a soft-deleted disk offering gets "cannot find" |
| Offerings.DiskAsWrittenIgnoresEo | configuration/src/main/java/org/zstack/configuration/ConfigurationManagerImpl.java:103-108 | as written, the EO table never matters to a disk-offering message |
| Offerings.CreateInstanceOfferingFacts | configuration/src/main/java/org/zstack/configuration/ConfigurationManagerImpl.java:882-912 | unknown type fails with the lookup message; otherwise every field of the record and its defaults |
| Offerings.CreateDiskOfferingFacts | configuration/src/main/java/org/zstack/configuration/ConfigurationManagerImpl.java:924-958 | the same for disk offerings |
| Offerings.Register | configuration/src/main/java/org/zstack/configuration/ConfigurationManagerImpl.java:964-986 | each extension is filed under its type, and a second factory for a type fails (properties in Offerings.RegisterContents and Offerings.RegisterSucceedsIff) |
| Offerings.InstanceOfferingPassThrough | configuration/src/main/java/org/zstack/configuration/ConfigurationManagerImpl.java:86-101 | the row is looked up, with the EO fallback for deletions, and the message goes to the factory of its type (properties in Offerings.InstancePassThroughCases) |
| Offerings.DiskOfferingPassThroughAsWritten | configuration/src/main/java/org/zstack/configuration/ConfigurationManagerImpl.java:103-118 | the disk pass-through as written, testing the instance-offering deletion list (properties in Offerings.DiskSoftDeletionFallbackNeverFires) |
| Offerings.DiskOfferingPassThrough | configuration/src/main/java/org/zstack/configuration/ConfigurationManagerImpl.java:103-118 | the disk pass-through testing the disk-offering deletion list (properties in Offerings.DiskPassThroughCases) |
| Offerings.CreateInstanceOffering | configuration/src/main/java/org/zstack/configuration/ConfigurationManagerImpl.java:882-912 | the record built from the create message and its defaults, and the factory of its type (properties in Offerings.CreateInstanceOfferingFacts) |
| Offerings.CreateDiskOffering | configuration/src/main/java/org/zstack/configuration/ConfigurationManagerImpl.java:924-958 | the record built from the create message and its defaults, and the factory of its type (properties in Offerings.CreateDiskOfferingFacts) |
| Dispatch.FirstMatchIsFirst | configuration/src/main/java/org/zstack/configuration/ConfigurationManagerImpl.java:138-176 | the match is the first handler type the message has; none exactly when it has none |
| Dispatch.HandleMessageRoutes | configuration/src/main/java/org/zstack/configuration/ConfigurationManagerImpl.java:122-176 | offering messages go to their pass-through first, API messages to the first matching handler, the rest are unknown |
| Dispatch.HandleMessage | configuration/src/main/java/org/zstack/configuration/ConfigurationManagerImpl.java:122-132 | routing: instance-offering messages, then disk-offering messages, then API messages; anything else is unknown (properties in Dispatch.HandleMessageRoutes) |
| Dispatch.HandleApiMessage | configuration/src/main/java/org/zstack/configuration/ConfigurationManagerImpl.java:138-176 | an API message goes to the first handler whose type it has, or is unknown (properties in Dispatch.HandleMessageRoutes) |
| Fixtures.BackupDataVolumePythonFields | header/src/main/java/org/zstack/header/volume/APIBackupDataVolumeMsg.java:48-57 | `uuid` is mandatory and `NotNoneField()`; `backupStorageUuid` is `None`; the class has no `pass` |
| Fixtures.BackupDataVolumeStubFields | header/src/main/java/org/zstack/header/volume/APIBackupDataVolumeMsg.java:48-57 | in Groovy, `uuid` is a `NotNullObject` and `backupStorageUuid` a bare `def` |
| Fixtures.DeleteMessageSubclassWrittenAlone | configuration/src/main/java/org/zstack/configuration/ConfigurationManagerImpl.java:621-622 | a subclass of `APIDeleteMessage` is written alone, its class line naming `APIDeleteMessage` |
| Fixtures.DeleteSecurityGroupWrittenAlone | plugin/securityGroup/src/main/java/org/zstack/network/securitygroup/APIDeleteSecurityGroupMsg.java:44-49 | `APIDeleteSecurityGroupMsg` is written alone, under `APIDeleteMessage` |
| Fixtures.WidgetCatalogWellFormed | configuration/src/main/java/org/zstack/configuration/ConfigurationManagerImpl.java:647-662 | the two-class example catalog is well formed and both scan orders are catalog scans |
| Fixtures.WidgetAloneCollected | configuration/src/main/java/org/zstack/configuration/ConfigurationManagerImpl.java:657-662 | a scan of `Widget` alone writes it and collects its name |
| Fixtures.SubclassFirstDropsWidget | configuration/src/main/java/org/zstack/configuration/ConfigurationManagerImpl.java:647-662 | scanning `FancyWidget` before `Widget` collects only `FancyWidget`: `Widget` was written as its superclass and is left out of `api_names` |
| Fixtures.SuperclassFirstKeepsBoth | configuration/src/main/java/org/zstack/configuration/ConfigurationManagerImpl.java:647-662 | scanning `Widget` before `FancyWidget` collects both names |
| PythonFileOrder.EmitParentsWritten | configuration/src/main/java/org/zstack/configuration/ConfigurationManagerImpl.java:499-504 | in one emitter call, every written class with a superclass finds that superclass's simple name in the memo or among the classes written before it |
| PythonFileOrder.MessagePassParents | configuration/src/main/java/org/zstack/configuration/ConfigurationManagerImpl.java:643-667 | the message pass's memo is the starting memo plus the simple names it wrote, and each written class's superclass was memoised or written earlier in the pass |
| PythonFileOrder.InventoryPassParents | configuration/src/main/java/org/zstack/configuration/ConfigurationManagerImpl.java:713-735 | the same for the inventory pass |
| PythonFileOrder.BaseSectionParents | configuration/src/main/java/org/zstack/configuration/ConfigurationManagerImpl.java:611-624 | the base section writes `APIMessage` first, memoises exactly what it writes, and the rest of its classes have their superclass memoised or written earlier |
| PythonFileOrder.SessionLog | configuration/src/main/java/org/zstack/configuration/ConfigurationManagerImpl.java:834-837 | every class the session writes through the memo is a catalog class |
| PythonFileOrder.SessionParentsWrittenFirst | configuration/src/main/java/org/zstack/configuration/ConfigurationManagerImpl.java:834-837 | across the whole session, `APIMessage` comes first and every later written class with a superclass comes after a written class of that superclass's simple name |
| PythonFileOrder.MessagePassText | configuration/src/main/java/org/zstack/configuration/ConfigurationManagerImpl.java:643-667 | the message pass's text is the class texts of its log, in log order |
| PythonFileOrder.InventoryPassText | configuration/src/main/java/org/zstack/configuration/ConfigurationManagerImpl.java:713-735 | the inventory pass's text is the class texts of its log, in log order |
| PythonFileOrder.SessionItemsText | configuration/src/main/java/org/zstack/configuration/ConfigurationManagerImpl.java:834-837 | the classes of `inventory.py` are exactly the concatenation of the session's items: fixed sections and written classes |
| PythonFileOrder.SessionItemsShape | configuration/src/main/java/org/zstack/configuration/ConfigurationManagerImpl.java:834-837 | the items start with the fixed sections and `APIMessage`, and every later written class has its superclass's simple name written before it |
| PythonFileOrder.BaseDefinedBeforeSubclass | configuration/src/main/java/org/zstack/configuration/ConfigurationManagerImpl.java:834-843 | in the text of `inventory.py`, every written class after `APIMessage` that has a superclass is preceded by the class text of a class of that superclass's simple name, so the Python base is defined before the subclass |

## Left out

- File output, directory deletion and creation, logging, the message bus and the database are
  not modelled as effects. Handlers return the text they would write. The pass-through takes
  the two tables as a value. The export path and its `user.home` default play no part.
- Reflection and Spring classpath scanning are not modelled. The catalog and scan sequences
  stand for them. Each handler builds its own scanner with its own include and exclude filters:
  the message pass (configuration/src/main/java/org/zstack/configuration/ConfigurationManagerImpl.java:638-642), the inventory pass
  (:715-716), the SQL-view handler (:262-264). A handler's scan sequence stands for that
  scanner's output over each base package in turn, as Catalog.PackageScan puts together.
  The json-template and Groovy handlers take their packages from JsonTemplateSession.BasePackages,
  which falls back to `org.zstack`. The SQL-view handler takes the message's list as given, with no
  fallback: an empty list writes an empty `view.sql`. A missing (null) list makes it throw a
  `NullPointerException`, wrapped in a `CloudRuntimeException`; that case is not modelled.
  `FieldUtils.getAllFields` is not part of this model: inherited fields are
  taken as the class's own fields followed by its superclass's.
- `generateConstantPythonClass` and `generateConstantFromClassField` read static field values
  by reflection. The constants' text is a parameter of the json-template session.
- RESTApiJsonTemplateGenerator.dump: and the json file writes are not modelled. The set
  `dumpFails` names the classes for which either throws.
- PythonApiActionGenerator.generatePythonApiAction: is not modelled. It writes a separate
  file, outside `inventory.py`.
- Each `PythonApiBindingWriter.writePython` is not modelled. The writers' texts are parameters.
- HashMap iteration order is unspecified in Java, so `GenerateGlobalConfigPythonConstant`
  returns a ghost `order`. The model proves that `order` lists each category exactly once, but
  not which order it is.
- The search, list and get handlers, `handleLocalMessage` beyond routing, and the TypeScript,
  foreign-key, index and TestLink generators are not modelled. They call query and DSL code
  that is not part of this model. `Dispatch` routes to them by name only.
- `generateRootMessageGroovyClass` and `generateGroovyNotNullObjectClass` are not modelled.
  They are only called from commented-out code. `classToApiMessageGroovyClass` is modelled,
  although nothing calls it either.
- Groovy `eventType` is not computed. `new APIEvent().getType()` and each event class's
  `getType()` are parameters.
- `Platform.getUuid()` is a parameter, `freshUuid`. `tagMgr.createTagsFromAPICreateMessage`
  and the factories' `createInstanceOffering`/`createDiskOffering` are not modelled: the model
  stops at the record and the factory handed to them.
- Offerings.CreateInstanceOfferingFacts: `HostAllocatorStrategyType.valueOf` is taken as the
  identity on the strategy name. Its failure on an unregistered name is not modelled.
- Offerings.FindRowCases: `ObjectUtils.newAndCopy(eo, ...)` returns null when the EO row is
  missing too. The model has that as "no row", and does not model the field copy itself.
- Offerings.OfferingRegistry.PopulateExtensions: exceptions (`CloudRuntimeException`,
  `IllegalArgumentException`) are modelled as error values. The `Exception` wrapper of the
  SQL-view and Groovy handlers is not modelled.
- Dispatch.HandleMessageRoutes: identity of message classes is by class name.
  `TypeUtils.isTypeOf` and `isAssignableFrom` are catalog flags.
- Text.Upper: models `toUpperCase` for ASCII letters only and ignores the locale. The
  Unicode mappings that change length (`ß` to `SS`) or depend on the locale (Turkish `i` to
  `İ`) are not modelled. The names it is applied to are Java identifiers and category names.
- PythonProperties.SessionWritesEachSimpleNameOnce: covers only the classes written through the
  memo. `Session`, `ErrorCode`, `NOLTriple`, `NOVTriple`, the search-condition sentinels and the
  mandatory-field classes are written outside it, so a scanned class with one of those simple
  names would be written a second time.
- PythonPasses.MessagePass: the `api_names` it collects depend on the scan order. A class first
  written as another's superclass is skipped when the scan reaches it and is left out of
  `api_names`; Fixtures.SubclassFirstDropsWidget and Fixtures.SuperclassFirstKeepsBoth show
  both orders. The scan order is a parameter, as Spring's is not specified.
- Emission.AncestorsMemoised: holds only for a memo closed under superclasses. No session memo
  is: the base section memoises `APIMessage` without its superclasses. The order of classes in
  the whole file is stated by PythonFileOrder.BaseDefinedBeforeSubclass, by simple name.
- PythonFileOrder.BaseDefinedBeforeSubclass: does not cover `APIMessage` itself. Its Python
  class is written with base `object`, and its superclasses are never written.
- PythonProperties.SessionWritesEachSimpleNameOnce: assumes that simple names are unique in the
  catalog. With two classes of the same simple name, the memo (keyed by simple name, as in the
  source) silently drops the second one.
- GlobalConfigConstants.MangledNames: does not prove that class names are distinct. Categories
  `a.b` and `a_b` get the same Python class name, exactly as in the source.
- `newInstance` failure for Groovy event classes is not modelled.

## Findings

| source | as written | input that shows it | evidently intended | confidence | as-written member | corrected member |
|---|---|---|---|---|---|---|
| configuration/src/main/java/org/zstack/configuration/ConfigurationManagerImpl.java:105 | `diskOfferingPassThrough` tests `allowedInstanceOfferingMessageAfterSoftDeletion`, which holds only `InstanceOfferingDeletionMsg`. A disk-offering message never passes, so the EO fallback never fires. | A `DiskOfferingDeletionMsg` for uuid `d1`, whose row exists only in the EO table, gets "cannot find DiskOffering[uuid:d1]". | Test `allowedDiskOfferingMessageAfterSoftDeletion` (filled at :82), so the deletion message reaches the soft-deleted offering, as for instance offerings (:88). | high (not executed) | Offerings.DiskSoftDeletionFallbackNeverFires | Offerings.DiskPassThroughCases |
