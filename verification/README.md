# poshi-runner context and readable-syntax elements, in Dafny

This project models two parts of Liferay's Poshi runner.

The first is `PoshiRunnerContext`. It is the static registry that reads every Poshi file of a
test run: path tables, actions, functions, macros and test cases. The registry:

- stores their root elements, commands, summaries, vars, locators, path extensions and the
  Properties objects of test commands;
- applies `override` files on top of a base namespace;
- expands test cases that `extend` another;
- collects duplicate-locator messages;
- writes the test-batch groups, `RUN_TEST_CASE_METHOD_GROUP_*` in single or sequential mode.

The second part is three readable-syntax node variants: `for`, `task` and `arg`. Each is
recognised from script text and cut into blocks. Each parses those blocks into attributes and
children, and prints itself back.

Layout:

- `registry.dfy` (module `Registry`): the tables as one record and each registry operation as a
  function on it. `Result` error values stand for the Java exceptions.
- `context.dfy` (module `Context`): class `PoshiRunnerContext`, whose methods update the tables
  in place. Each loop carries its invariants, and each method is proved equal to its function.
- `registry_rules.dfy`: the pure rules the registry relies on: ignoring a command, summaries,
  property sets, `Properties` defaults chains, the function locator count, the file order and
  namespace admission.
- `registry_facts.dfy`, `override_facts.dfy`, `extends_facts.dfy`, `read_facts.dfy`: what the
  registry guarantees, covering:
  - duplicate handling;
  - which path row wins;
  - `getPathLocator` termination;
  - override layering and var merging;
  - sharing of Properties between extended test cases;
  - the state that survives a read.
- `batch.dfy`: the property query, the selection, the grouping and the text written in both modes.
- `poshi_elements.dfy`, `for_element.dfy`, `task_element.dfy`, `arg_element.dfy`: the node
  variants, each a class with its attributes and children.
- `script_tree.dfy`, `text.dfy`, `sorting.dfy`, `wrappers.dfy`: the shared building blocks:
  - the element tree (dom4j);
  - Java string operations: `trim`, `split` (which drops trailing empty strings) and
    `compareTo`;
  - a stable sort;
  - `Option` and `Result`.

Where Java crashes (a null dereference, a missing table cell, a division by zero), the model
returns a named error value.

## Model

| member | source | states |
|---|---|---|
| Context.PoshiRunnerContext.constructor | poshi-runner/src/main/java/com/liferay/poshi/runner/PoshiRunnerContext.java:1593-1639 | Every modelled map, set and list starts empty. |
| Context.PoshiRunnerContext.Clear | poshi-runner/src/main/java/com/liferay/poshi/runner/PoshiRunnerContext.java:80-88 | `clear()` empties the command elements and summaries, file paths, function locator counts, path locators and root elements. It keeps every other table, including path extensions, properties and duplicate messages. |
| Context.PoshiRunnerContext.StorePathRow | poshi-runner/src/main/java/com/liferay/poshi/runner/PoshiRunnerContext.java:1171-1199 | One row of a path table. A row with an empty key and locator is skipped. `EXTEND_ACTION_PATH` sets the class's extension, and any other key sets its locator. A key already seen adds a duplicate message. |
| Context.PoshiRunnerContext.StoreTableRows | poshi-runner/src/main/java/com/liferay/poshi/runner/PoshiRunnerContext.java:1160-1200 | The row loop throws the first short row's exception. Otherwise the tables become the stored rows of the whole table. |
| Context.PoshiRunnerContext.StorePathElement | poshi-runner/src/main/java/com/liferay/poshi/runner/PoshiRunnerContext.java:1140-1201 | The new tables, or the exception, are those `_storePathElement` produces. |
| Context.PoshiRunnerContext.StoreCommandElement | poshi-runner/src/main/java/com/liferay/poshi/runner/PoshiRunnerContext.java:1254-1332 | One command of a stored file, following the one-command specification. |
| Context.PoshiRunnerContext.StoreCommandElements | poshi-runner/src/main/java/com/liferay/poshi/runner/PoshiRunnerContext.java:1252-1333 | The command loop of `_storeRootElement`, stopping at the first exception. |
| Context.PoshiRunnerContext.StoreDefaultCommandElement | poshi-runner/src/main/java/com/liferay/poshi/runner/PoshiRunnerContext.java:1336-1350 | A function's default command is stored again under the class key, with its summary. A `default` naming no command throws. |
| Context.PoshiRunnerContext.StoreFunctionDefaultElements | poshi-runner/src/main/java/com/liferay/poshi/runner/PoshiRunnerContext.java:1335-1367 | The default command and the locator count of a function file. |
| Context.PoshiRunnerContext.StoreRootElement | poshi-runner/src/main/java/com/liferay/poshi/runner/PoshiRunnerContext.java:1203-1372 | The whole of `_storeRootElement` for a file without `override`, as the specification function states it. |
| Context.PoshiRunnerContext.OverrideCommandElement | poshi-runner/src/main/java/com/liferay/poshi/runner/PoshiRunnerContext.java:918-974 | One override command replaces the base command under the base namespace. For a test case its new Properties are layered over the base ones. |
| Context.PoshiRunnerContext.OverrideCommandElements | poshi-runner/src/main/java/com/liferay/poshi/runner/PoshiRunnerContext.java:915-974 | The override command loop. |
| Context.PoshiRunnerContext.OverrideVarElements | poshi-runner/src/main/java/com/liferay/poshi/runner/PoshiRunnerContext.java:891-913 | The var merge: nothing when the override has no vars; otherwise the base vars are merged by name. |
| Context.PoshiRunnerContext.OverrideFunctionDefaultElements | poshi-runner/src/main/java/com/liferay/poshi/runner/PoshiRunnerContext.java:977-1030 | The base default command is re-stored. The override's locator count must not exceed the base's. |
| Context.PoshiRunnerContext.OverrideRootElement | poshi-runner/src/main/java/com/liferay/poshi/runner/PoshiRunnerContext.java:816-1034 | `_overrideRootElement` with its two checks and its per-type updates. |
| Context.PoshiRunnerContext.StoreFileElement | poshi-runner/src/main/java/com/liferay/poshi/runner/PoshiRunnerContext.java:1419-1454 | One file of `_storeRootElements`: it is stored or overridden, and its path is recorded when it is not an override. |
| Context.PoshiRunnerContext.StoreRootElements | poshi-runner/src/main/java/com/liferay/poshi/runner/PoshiRunnerContext.java:1374-1455 | The files are sorted by the comparator and then stored in that order; an unsortable list throws. |
| Context.PoshiRunnerContext.ExtendIgnoredCommand | poshi-runner/src/main/java/com/liferay/poshi/runner/PoshiRunnerContext.java:718-747 | An inherited command the subclass ignores shares the base command's Properties, marked ignored. It throws when the base command has none. |
| Context.PoshiRunnerContext.ExtendKeptCommand | poshi-runner/src/main/java/com/liferay/poshi/runner/PoshiRunnerContext.java:718-747 | An inherited command the subclass keeps shares the base command's Properties, if there are any. |
| Context.PoshiRunnerContext.ExtendCommandElement | poshi-runner/src/main/java/com/liferay/poshi/runner/PoshiRunnerContext.java:718-747 | One inherited command. |
| Context.PoshiRunnerContext.ExtendCommandElements | poshi-runner/src/main/java/com/liferay/poshi/runner/PoshiRunnerContext.java:708-748 | The loop over the extended class's commands. |
| Context.PoshiRunnerContext.ListCommandElement | poshi-runner/src/main/java/com/liferay/poshi/runner/PoshiRunnerContext.java:752-776 | One own command: it is marked ignored when ignorable, and its name is listed. |
| Context.PoshiRunnerContext.ListCommandElements | poshi-runner/src/main/java/com/liferay/poshi/runner/PoshiRunnerContext.java:750-776 | The loop over a test case's own commands. |
| Context.PoshiRunnerContext.InitClassElements | poshi-runner/src/main/java/com/liferay/poshi/runner/PoshiRunnerContext.java:696-777 | One stored test-case class: first its inherited commands, then its own. |
| Context.PoshiRunnerContext.InitComponentCommandNamesMap | poshi-runner/src/main/java/com/liferay/poshi/runner/PoshiRunnerContext.java:695-778 | Every stored test-case class, in the order it was stored. |
| Context.PoshiRunnerContext.ReadSourceElements | poshi-runner/src/main/java/com/liferay/poshi/runner/PoshiRunnerContext.java:1077-1123 | One directory, or one jar whose namespace is admitted first. |
| Context.PoshiRunnerContext.ReadPoshiFiles | poshi-runner/src/main/java/com/liferay/poshi/runner/PoshiRunnerContext.java:1036-1060 | Every source in order, then the extends expansion, then an exception if any duplicate message was collected. When every source and the expansion were stored and the read still throws, the registry keeps all that was stored, duplicate messages included. |
| Context.ReadClearRead | poshi-runner/src/main/java/com/liferay/poshi/runner/PoshiRunnerContext.java:1036-1060 | A read that stored everything and still threw, then `clear()`, then another read: the second read throws too. |
| Registry.ReadRows | poshi-runner/src/main/java/com/liferay/poshi/runner/PoshiRunnerContext.java:1160-1169 | A table that reads has exactly one row per `tr` element. |
| Registry.SetIgnored | poshi-runner/src/main/java/com/liferay/poshi/runner/PoshiRunnerContext.java:735 | `setProperty("ignored", "true")` keeps the number of Properties objects. It keeps every defaults chain finite. |
| Registry.PathLocatorFrom | poshi-runner/src/main/java/com/liferay/poshi/runner/PoshiRunnerContext.java:184-208 | A class's own locator wins. Without one and without an extension the result is null. Any locator found belongs to some class of the namespace under that key. |
| Registry.IsPathLocator | poshi-runner/src/main/java/com/liferay/poshi/runner/PoshiRunnerContext.java:263-273 | Defined only where `getPathLocator` returns. It holds whenever the class has its own locator for the key. When it holds, some class of the namespace has a locator for the key. It is false exactly when the lookup gives null. |
| RegistryFacts.DuplicateCommandKeepsFirst | poshi-runner/src/main/java/com/liferay/poshi/runner/PoshiRunnerContext.java:1259-1293 | A repeated command key keeps the first element and summary. It only adds a duplicate message, and no exception is thrown. |
| RegistryFacts.NewCommandStored | poshi-runner/src/main/java/com/liferay/poshi/runner/PoshiRunnerContext.java:1295-1316 | A new command of a non-test class is stored with its summary, and nothing else changes. |
| RegistryFacts.NewTestCommandStored | poshi-runner/src/main/java/com/liferay/poshi/runner/PoshiRunnerContext.java:1318-1332 | A new test command is stored, and its Properties give exactly its property set. |
| RegistryFacts.NewTestCommandFails | poshi-runner/src/main/java/com/liferay/poshi/runner/PoshiRunnerContext.java:325-330 | A new test command whose property set lacks a name or value makes the read fail. |
| RegistryFacts.StoreCommandKeeps | poshi-runner/src/main/java/com/liferay/poshi/runner/PoshiRunnerContext.java:1254-1300 | After one command its key is stored. An existing entry is unchanged, a new one is the command, and messages only grow. |
| RegistryFacts.StoredCommandsNeverReplaced | poshi-runner/src/main/java/com/liferay/poshi/runner/PoshiRunnerContext.java:1252-1333 | Storing a file's commands never replaces an earlier stored command, and messages only grow. |
| RegistryFacts.EveryCommandStored | poshi-runner/src/main/java/com/liferay/poshi/runner/PoshiRunnerContext.java:1252-1333 | Every command of the file ends up stored under its key. |
| RegistryFacts.StoreSkippedRow | poshi-runner/src/main/java/com/liferay/poshi/runner/PoshiRunnerContext.java:1171-1173 | A row with an empty key and an empty locator changes nothing. |
| RegistryFacts.StoreExtensionRow | poshi-runner/src/main/java/com/liferay/poshi/runner/PoshiRunnerContext.java:1193-1195 | An `EXTEND_ACTION_PATH` row sets the extension only. Locators are untouched. |
| RegistryFacts.StoreLocatorRow | poshi-runner/src/main/java/com/liferay/poshi/runner/PoshiRunnerContext.java:1196-1199 | Any other kept row sets its locator only. Extensions are untouched. |
| RegistryFacts.StoreRowsLastRowWins | poshi-runner/src/main/java/com/liferay/poshi/runner/PoshiRunnerContext.java:1160-1200 | After a table a key has its last kept row's locator, or keeps its earlier value. |
| RegistryFacts.StoreRowsExtension | poshi-runner/src/main/java/com/liferay/poshi/runner/PoshiRunnerContext.java:1193-1195 | The last `EXTEND_ACTION_PATH` row sets the class's extension and never a locator. |
| RegistryFacts.StoreRowsOtherClasses | poshi-runner/src/main/java/com/liferay/poshi/runner/PoshiRunnerContext.java:1160-1200 | A class's table leaves the locators and extensions of every other class alone. |
| RegistryFacts.RowMessagesOfRepeat | poshi-runner/src/main/java/com/liferay/poshi/runner/PoshiRunnerContext.java:1175-1189 | A row adds a message exactly when its key was seen before. |
| RegistryFacts.StoreRowsReportsRepeats | poshi-runner/src/main/java/com/liferay/poshi/runner/PoshiRunnerContext.java:1175-1191 | A table adds one message per kept row that repeats an earlier key, and no other. |
| RegistryFacts.LookupAgreesWithRanked | poshi-runner/src/main/java/com/liferay/poshi/runner/PoshiRunnerContext.java:184-208 | Where extension chains are acyclic, `getPathLocator` is the plain recursive lookup along them. |
| RegistryFacts.PathLocatorResolution | poshi-runner/src/main/java/com/liferay/poshi/runner/PoshiRunnerContext.java:184-208 | Where chains are acyclic the lookup terminates: own locator, else the extended class's lookup, else null. `isPathLocator` holds exactly when some class of the chain has the key. |
| RegistryFacts.RankedNeverUnbounded | poshi-runner/src/main/java/com/liferay/poshi/runner/PoshiRunnerContext.java:184-208 | Along acyclic chains the lookup always ends. |
| RegistryFacts.SelfExtensionNeverReturns | poshi-runner/src/main/java/com/liferay/poshi/runner/PoshiRunnerContext.java:199-205 | A class extending itself without the key sends `getPathLocator` into endless recursion. |
| RegistryFacts.ClearedForgetsLocators | poshi-runner/src/main/java/com/liferay/poshi/runner/PoshiRunnerContext.java:80-88 | After `clear()` no key resolves to a locator: the lookup gives null, or never returns on a cyclic chain. Extensions, namespaces, messages, vars and Properties survive. |
| RegistryRules.IgnoreDecisionOrder | poshi-runner/src/main/java/com/liferay/poshi/runner/PoshiRunnerContext.java:784-814 | The command's `ignore="true"` wins, then its `ignore="false"`. Otherwise the root's `ignore-command-names` list or the root's `ignore` flag decides. This holds for every name, the empty one included: it is listed when the list is empty text or an empty field comes before a non-empty one, as `split(",")` gives. |
| RegistryRules.UnnamedCommandIgnoredOnlyByFlags | poshi-runner/src/main/java/com/liferay/poshi/runner/PoshiRunnerContext.java:784-814 | A command without a name is ignored only through the flags. |
| RegistryRules.CommandSummary | poshi-runner/src/main/java/com/liferay/poshi/runner/PoshiRunnerContext.java:359-382 | The summary is null exactly for `summary-ignore="true"`. Otherwise it is the command's summary, the root's (for functions), or the class command name. |
| RegistryRules.SummaryPrecedence | poshi-runner/src/main/java/com/liferay/poshi/runner/PoshiRunnerContext.java:359-382 | The command's own summary wins. The root's summary is used for functions only, and the class command name is the fallback. |
| RegistryRules.PropertyPairs | poshi-runner/src/main/java/com/liferay/poshi/runner/PoshiRunnerContext.java:324-339 | One (name, value) pair per `property` element. |
| RegistryRules.SetAllLastWins | poshi-runner/src/main/java/com/liferay/poshi/runner/PoshiRunnerContext.java:324-339 | After a run of `setProperty` calls each name holds its last value, and other names are untouched. |
| RegistryRules.PropertyLayers | poshi-runner/src/main/java/com/liferay/poshi/runner/PoshiRunnerContext.java:317-357 | `known-issues` and `priority` attributes win. Otherwise the command's last property wins, then the root's last. |
| RegistryRules.AppendKeepsDefaultsEarlier | poshi-runner/src/main/java/com/liferay/poshi/runner/PoshiRunnerContext.java:956-957 | A new Properties object whose defaults already exist keeps defaults chains finite. |
| RegistryRules.GetPropertyAfterAppend | poshi-runner/src/main/java/com/liferay/poshi/runner/PoshiRunnerContext.java:956-962 | Creating a Properties object changes no lookup through existing ones. |
| RegistryRules.EffectiveAgreesWithGetProperty | poshi-runner/src/main/java/com/liferay/poshi/runner/PoshiRunnerContext.java:473-478 | The map a query sees is exactly what `getProperty` returns through the defaults chain. |
| RegistryRules.FirstMissing | poshi-runner/src/main/java/com/liferay/poshi/runner/PoshiRunnerContext.java:1354-1358 | The first index at or above `i` with no `${locatorN}` placeholder. Every index before it has one. |
| RegistryRules.CountLocators | poshi-runner/src/main/java/com/liferay/poshi/runner/PoshiRunnerContext.java:1354-1366 | The locator count is 1 when `${locator1}` is absent. Otherwise it is the length of the unbroken run `${locator1}`..`${locatorN}`. |
| RegistryRules.IndexIn | poshi-runner/src/main/java/com/liferay/poshi/runner/PoshiRunnerContext.java:1399-1402 | `indexOf` is -1 exactly when the type is absent, and otherwise points at it. |
| RegistryRules.FileOrderLeAgreesWithComparator | poshi-runner/src/main/java/com/liferay/poshi/runner/PoshiRunnerContext.java:1384-1412 | The ordering used equals the comparator's `<= 0` on typed paths. |
| RegistryRules.FileOrderIsTotalPreorder | poshi-runner/src/main/java/com/liferay/poshi/runner/PoshiRunnerContext.java:1379-1417 | The comparator is a total preorder. |
| RegistryRules.SortFilesOrder | poshi-runner/src/main/java/com/liferay/poshi/runner/PoshiRunnerContext.java:1379-1417 | Sorting keeps every file, types in order action, path, function, macro, testcase, prose, and paths in order within a type. |
| RegistryRules.AdmitNamespace | poshi-runner/src/main/java/com/liferay/poshi/runner/PoshiRunnerContext.java:1094-1116 | A jar's namespace is admitted exactly when one was found that is neither `LocalFile` nor already admitted. |
| OverrideFacts.OverrideNameMismatch | poshi-runner/src/main/java/com/liferay/poshi/runner/PoshiRunnerContext.java:829-839 | A class name different from the base class name throws the mismatch exception. |
| OverrideFacts.OverrideTwiceRejected | poshi-runner/src/main/java/com/liferay/poshi/runner/PoshiRunnerContext.java:845-861 | A class already overridden throws, naming the earlier overrider. |
| OverrideFacts.PutVarLookup | poshi-runner/src/main/java/com/liferay/poshi/runner/PoshiRunnerContext.java:904-908 | `put` by name: the new var is found under its name, and other names are unchanged. |
| OverrideFacts.PutVarsLookup | poshi-runner/src/main/java/com/liferay/poshi/runner/PoshiRunnerContext.java:899-908 | After a run of puts, each name maps to its last var put, or to its earlier value. |
| OverrideFacts.MergeVarsByName | poshi-runner/src/main/java/com/liferay/poshi/runner/PoshiRunnerContext.java:891-912 | Merged vars have unique names. Each name maps to the override's last var of that name, else the base's. |
| OverrideFacts.OverrideVarsResult | poshi-runner/src/main/java/com/liferay/poshi/runner/PoshiRunnerContext.java:891-913 | No override vars: nothing changes. Vars but no base entry: failure. Otherwise the stored list is the by-name merge. |
| OverrideFacts.OverrideCommandStep | poshi-runner/src/main/java/com/liferay/poshi/runner/PoshiRunnerContext.java:918-935 | One override command replaces the base command and touches no bookkeeping table. |
| OverrideFacts.LayeredPropertiesLookup | poshi-runner/src/main/java/com/liferay/poshi/runner/PoshiRunnerContext.java:948-962 | The layered Properties answers with the override's value, else the base's. Other commands are unaffected. |
| OverrideFacts.OverrideTestCommandLayers | poshi-runner/src/main/java/com/liferay/poshi/runner/PoshiRunnerContext.java:947-973 | An override test command's property is the override's value, else the old one. Other commands are unaffected. |
| OverrideFacts.OverrideCommandsStoreLast | poshi-runner/src/main/java/com/liferay/poshi/runner/PoshiRunnerContext.java:915-974 | After the loop a name holds the last override command with that name, or its old element. |
| OverrideFacts.OverrideFunctionDefaultsBound | poshi-runner/src/main/java/com/liferay/poshi/runner/PoshiRunnerContext.java:996-1029 | A successful function override has a locator count no higher than the base's, and the counts table is unchanged. |
| OverrideFacts.OverrideLocatorBound | poshi-runner/src/main/java/com/liferay/poshi/runner/PoshiRunnerContext.java:977-1030 | A successful override of a function class has the same bound through the whole `_overrideRootElement`. |
| ExtendsFacts.SetIgnoredLookup | poshi-runner/src/main/java/com/liferay/poshi/runner/PoshiRunnerContext.java:735 | After `setProperty("ignored", "true")`, `getProperty("ignored")` on that object is "true". |
| ExtendsFacts.ExtendSharesBaseProperties | poshi-runner/src/main/java/com/liferay/poshi/runner/PoshiRunnerContext.java:718-747 | With base Properties, the subclass command shares the very same object and its element is stored. When ignorable, both see `ignored=true`. |
| ExtendsFacts.ExtendWithoutBaseProperties | poshi-runner/src/main/java/com/liferay/poshi/runner/PoshiRunnerContext.java:727-736 | Without base Properties the step fails exactly when the command is ignorable (the null dereference). Otherwise the subclass has no Properties. |
| ExtendsFacts.ExtendCommandStep | poshi-runner/src/main/java/com/liferay/poshi/runner/PoshiRunnerContext.java:718-747 | One inherited command changes only the command element and the two property tables. |
| ExtendsFacts.ExtendCommandsOverwrite | poshi-runner/src/main/java/com/liferay/poshi/runner/PoshiRunnerContext.java:718-747 | After the loop, each name holds the last inherited command of that name. Names and bookkeeping are unchanged. |
| ExtendsFacts.ListedNames | poshi-runner/src/main/java/com/liferay/poshi/runner/PoshiRunnerContext.java:771-775 | One namespaced class command name per own command, in document order. |
| ExtendsFacts.ListCommandMarksIgnored | poshi-runner/src/main/java/com/liferay/poshi/runner/PoshiRunnerContext.java:755-769 | An ignorable own command is marked ignored. The step fails exactly when it has no Properties. |
| ExtendsFacts.ListIgnoredCommand | poshi-runner/src/main/java/com/liferay/poshi/runner/PoshiRunnerContext.java:752-776 | An ignorable command with Properties is listed and changes no element, handle or bookkeeping. |
| ExtendsFacts.ListKeptCommand | poshi-runner/src/main/java/com/liferay/poshi/runner/PoshiRunnerContext.java:752-776 | A kept command is always listed and changes no element, handle or bookkeeping. |
| ExtendsFacts.ListCommandStep | poshi-runner/src/main/java/com/liferay/poshi/runner/PoshiRunnerContext.java:752-776 | Any successful own-command step appends exactly its name. |
| ExtendsFacts.ListCommandsAppendNames | poshi-runner/src/main/java/com/liferay/poshi/runner/PoshiRunnerContext.java:750-776 | Listing a class's own commands appends their names in order. |
| ExtendsFacts.ListCommandsFrame | poshi-runner/src/main/java/com/liferay/poshi/runner/PoshiRunnerContext.java:750-776 | Listing changes no command element, no handle and no bookkeeping table. |
| ExtendsFacts.InitClassListsOwnCommands | poshi-runner/src/main/java/com/liferay/poshi/runner/PoshiRunnerContext.java:696-777 | A class's expansion appends the names of its own commands. Without `extends` no command element changes. |
| ExtendsFacts.InitClassesListAll | poshi-runner/src/main/java/com/liferay/poshi/runner/PoshiRunnerContext.java:695-778 | The expansion appends the names of every class's own commands, class by class. |
| ExtendsFacts.InitClassesFrame | poshi-runner/src/main/java/com/liferay/poshi/runner/PoshiRunnerContext.java:695-778 | The expansion leaves the bookkeeping tables alone. |
| ReadFacts.StoreRepeatedCommandSettled | poshi-runner/src/main/java/com/liferay/poshi/runner/PoshiRunnerContext.java:1259-1293 | A repeated command never fails, and it keeps overrides and namespaces and only adds messages. |
| ReadFacts.StoreOtherCommandSettled | poshi-runner/src/main/java/com/liferay/poshi/runner/PoshiRunnerContext.java:1295-1316 | A new non-test command never fails and settles the same way. |
| ReadFacts.StoreTestCommandSettled | poshi-runner/src/main/java/com/liferay/poshi/runner/PoshiRunnerContext.java:1318-1332 | A new test command with a complete property set never fails and settles the same way. |
| ReadFacts.StoreBadTestCommandFails | poshi-runner/src/main/java/com/liferay/poshi/runner/PoshiRunnerContext.java:1318-1320 | A new test command with an incomplete property set fails with the missing-value error. |
| ReadFacts.StoreCommandSettled | poshi-runner/src/main/java/com/liferay/poshi/runner/PoshiRunnerContext.java:1254-1333 | Storing a command never throws the duplicate-override exception, and success settles. |
| ReadFacts.StoreCommandsSettled | poshi-runner/src/main/java/com/liferay/poshi/runner/PoshiRunnerContext.java:1252-1333 | The same for the whole command loop. |
| ReadFacts.StoreRowsSettled | poshi-runner/src/main/java/com/liferay/poshi/runner/PoshiRunnerContext.java:1160-1200 | A path table keeps overrides and namespaces and only adds messages. |
| ReadFacts.ReadRowsFailOnShortRow | poshi-runner/src/main/java/com/liferay/poshi/runner/PoshiRunnerContext.java:1161-1169 | Reading rows can only fail with the missing-cell error. |
| ReadFacts.StorePathSettled | poshi-runner/src/main/java/com/liferay/poshi/runner/PoshiRunnerContext.java:1140-1201 | `_storePathElement` never throws the duplicate-override exception, and success settles. |
| ReadFacts.StoreFunctionDefaultsSettled | poshi-runner/src/main/java/com/liferay/poshi/runner/PoshiRunnerContext.java:1335-1367 | The same for the end of a function file. |
| ReadFacts.StoreRootWithCommandsSettled | poshi-runner/src/main/java/com/liferay/poshi/runner/PoshiRunnerContext.java:1242-1333 | For a non-function class with commands the result is the command loop over the indexed tables, and it settles. |
| ReadFacts.StoreFunctionRootSettled | poshi-runner/src/main/java/com/liferay/poshi/runner/PoshiRunnerContext.java:1335-1367 | A function file stored never throws the duplicate-override exception, and success settles. |
| ReadFacts.StorePathRootSettled | poshi-runner/src/main/java/com/liferay/poshi/runner/PoshiRunnerContext.java:1369-1371 | A path file stored never throws the duplicate-override exception, and success settles. |
| ReadFacts.StoreRootSettled | poshi-runner/src/main/java/com/liferay/poshi/runner/PoshiRunnerContext.java:1203-1372 | Every non-override file stored never throws the duplicate-override exception, and success settles. |
| ReadFacts.OverrideCommandsSettled | poshi-runner/src/main/java/com/liferay/poshi/runner/PoshiRunnerContext.java:915-974 | The override command loop never throws the duplicate-override exception, and success settles. |
| ReadFacts.MergeVarsSettled | poshi-runner/src/main/java/com/liferay/poshi/runner/PoshiRunnerContext.java:893-913 | A var merge with base vars succeeds and keeps the bookkeeping. |
| ReadFacts.OverrideVarsSettled | poshi-runner/src/main/java/com/liferay/poshi/runner/PoshiRunnerContext.java:891-913 | The var merge never throws the duplicate-override exception and keeps the bookkeeping. |
| ReadFacts.OverrideVarsAndCommandsSettled | poshi-runner/src/main/java/com/liferay/poshi/runner/PoshiRunnerContext.java:888-975 | Vars then commands never throw the duplicate-override exception, and success settles. |
| ReadFacts.OverrideWithCommandsSettled | poshi-runner/src/main/java/com/liferay/poshi/runner/PoshiRunnerContext.java:863-975 | After the checks, a class with commands goes through vars then commands, and settles. |
| ReadFacts.OverrideFunctionSettled | poshi-runner/src/main/java/com/liferay/poshi/runner/PoshiRunnerContext.java:977-1030 | After the checks, a function override never throws the duplicate-override exception, and success settles. |
| ReadFacts.OverridePathSettled | poshi-runner/src/main/java/com/liferay/poshi/runner/PoshiRunnerContext.java:1031-1033 | After the checks, a path override never throws the duplicate-override exception, and success settles. |
| ReadFacts.OverrideBodySettled | poshi-runner/src/main/java/com/liferay/poshi/runner/PoshiRunnerContext.java:863-1034 | Past its two checks, `_overrideRootElement` never throws the duplicate-override exception, and success settles. |
| ReadFacts.OverrideSettled | poshi-runner/src/main/java/com/liferay/poshi/runner/PoshiRunnerContext.java:816-1034 | With the override table empty, an override never throws the duplicate-override exception, and success settles. |
| ReadFacts.StoreFileSettled | poshi-runner/src/main/java/com/liferay/poshi/runner/PoshiRunnerContext.java:1419-1454 | The same for one file of `_storeRootElements`. |
| ReadFacts.StoreFilesSettled | poshi-runner/src/main/java/com/liferay/poshi/runner/PoshiRunnerContext.java:1374-1455 | The same for a whole list of files. |
| ReadFacts.ReadSourceGrows | poshi-runner/src/main/java/com/liferay/poshi/runner/PoshiRunnerContext.java:1094-1122 | One source keeps the override table empty and only adds messages. Namespaces only grow and stay distinct, never `LocalFile`. |
| ReadFacts.ReadSourcesGrow | poshi-runner/src/main/java/com/liferay/poshi/runner/PoshiRunnerContext.java:1036-1053 | The same over every source in order. |
| ReadFacts.ExtendCommandsNeverDuplicateOverride | poshi-runner/src/main/java/com/liferay/poshi/runner/PoshiRunnerContext.java:718-747 | The extends loop never throws the duplicate-override exception. |
| ReadFacts.ListCommandsNeverDuplicateOverride | poshi-runner/src/main/java/com/liferay/poshi/runner/PoshiRunnerContext.java:752-776 | The own-command loop never throws the duplicate-override exception. |
| ReadFacts.InitClassesNeverDuplicateOverride | poshi-runner/src/main/java/com/liferay/poshi/runner/PoshiRunnerContext.java:695-778 | The expansion never throws the duplicate-override exception. |
| ReadFacts.DuplicateOverrideNeverThrown | poshi-runner/src/main/java/com/liferay/poshi/runner/PoshiRunnerContext.java:845-861 | Since `_overrideClassNames` is never written, a whole read never throws the duplicate-override exception, and the table stays empty. |
| ReadFacts.ReadOutcome | poshi-runner/src/main/java/com/liferay/poshi/runner/PoshiRunnerContext.java:1036-1060 | A read succeeds only with no duplicate messages, and its namespaces stay distinct. Messages left from before make every read fail. |
| ReadFacts.ClearKeepsStaleMessages | poshi-runner/src/main/java/com/liferay/poshi/runner/PoshiRunnerContext.java:80-88 | `clear()` keeps the duplicate messages, so a registry holding them fails every later read. |
| ReadFacts.FailedReadPoisonsLaterReads | poshi-runner/src/main/java/com/liferay/poshi/runner/PoshiRunnerContext.java:1036-1060 | A read that stored everything and threw has thrown the duplicate-messages exception. The registry it leaves holds those messages, and after `clear()` every later read throws. |
| Batch.AllocatedGroupSizeBounds | poshi-runner/src/main/java/com/liferay/poshi/runner/PoshiRunnerContext.java:310-315 | The allocated size lies between 1 and the maximum. It needs exactly as many groups as the maximum does. |
| Batch.Partition | poshi-runner/src/main/java/com/liferay/poshi/runner/PoshiRunnerContext.java:571-572 | `Lists.partition`: every piece holds between 1 and `size` elements, and every piece but the last holds exactly `size`. |
| Batch.PartitionFlatten | poshi-runner/src/main/java/com/liferay/poshi/runner/PoshiRunnerContext.java:571-572 | The pieces put back together are the input. |
| Batch.PartitionCount | poshi-runner/src/main/java/com/liferay/poshi/runner/PoshiRunnerContext.java:649-650 | There are as many pieces as the rounded-up quotient. |
| Batch.PartitionAt | poshi-runner/src/main/java/com/liferay/poshi/runner/PoshiRunnerContext.java:649-650 | Element `j` of piece `i` exists exactly when `i * size + j` is in range, and it is that input element. |
| Batch.AppendJoined | poshi-runner/src/main/java/com/liferay/poshi/runner/PoshiRunnerContext.java:684-690 | The index loop writes the items joined by the separator, with none trailing. |
| Batch.AppendHeaderLine | poshi-runner/src/main/java/com/liferay/poshi/runner/PoshiRunnerContext.java:653-669 | Writes the `RUN_TEST_CASE_METHOD_GROUP_i=` line naming the group's subgroups. |
| Batch.AppendSingleBlock | poshi-runner/src/main/java/com/liferay/poshi/runner/PoshiRunnerContext.java:653-679 | Writes one single-mode group: its header line, then one line per member. |
| Batch.GetTestBatchSingleGroups | poshi-runner/src/main/java/com/liferay/poshi/runner/PoshiRunnerContext.java:642-693 | The returned text is the single-mode text of the names. |
| Batch.SingleGroupsPlaceEveryName | poshi-runner/src/main/java/com/liferay/poshi/runner/PoshiRunnerContext.java:647-679 | Name `k` is member `k % 15` of group `k / 15`, and there are as many groups as the rounded-up quotient. |
| Batch.Clauses | poshi-runner/src/main/java/com/liferay/poshi/runner/PoshiRunnerContext.java:439-448 | One `name == "value"` clause per pair, in order. |
| Batch.ListQueryCases | poshi-runner/src/main/java/com/liferay/poshi/runner/PoshiRunnerContext.java:427-450 | Lists of different lengths throw. One pair gives one clause, and no pair gives the empty query. |
| Batch.BuildListQuery | poshi-runner/src/main/java/com/liferay/poshi/runner/PoshiRunnerContext.java:437-450 | The loop builds the list query. |
| Batch.BuildBatchQuery | poshi-runner/src/main/java/com/liferay/poshi/runner/PoshiRunnerContext.java:424-464 | Builds the query, wrapped with the `ignored` and environment clauses when an environment is set. |
| Batch.SelectedMembers | poshi-runner/src/main/java/com/liferay/poshi/runner/PoshiRunnerContext.java:466-484 | A command is selected exactly when it is a listed test command that the query accepts. |
| Batch.SelectTestCommands | poshi-runner/src/main/java/com/liferay/poshi/runner/PoshiRunnerContext.java:466-484 | The filtering loop returns the selected commands in listing order. |
| Batch.SkippedTextShape | poshi-runner/src/main/java/com/liferay/poshi/runner/PoshiRunnerContext.java:501-514 | The `SKIPPED_TEST_CASE_METHOD_GROUP_0=` line lists the names joined by commas. With no names the `=` itself is cut off. |
| Batch.WriteSkippedGroups | poshi-runner/src/main/java/com/liferay/poshi/runner/PoshiRunnerContext.java:501-514 | The validation-failure branch writes the skipped text. |
| Batch.StringLeIsTotalPreorder | poshi-runner/src/main/java/com/liferay/poshi/runner/PoshiRunnerContext.java:566 | The string order `Collections.sort` uses is a total preorder. |
| Batch.GroupKey | poshi-runner/src/main/java/com/liferay/poshi/runner/PoshiRunnerContext.java:536-556 | A command's group key is its own Properties table without the names the ignore regex matches. It is absent exactly when the command has no Properties. |
| Batch.EntriesShape | poshi-runner/src/main/java/com/liferay/poshi/runner/PoshiRunnerContext.java:535-557 | Grouping fails exactly when some command lacks Properties. Otherwise entry `i` is command `i` under its key. |
| Batch.EntriesError | poshi-runner/src/main/java/com/liferay/poshi/runner/PoshiRunnerContext.java:538-540 | Grouping fails only with the missing-Properties error. |
| Batch.CollectEntries | poshi-runner/src/main/java/com/liferay/poshi/runner/PoshiRunnerContext.java:535-557 | The loop filling the multimap. |
| Batch.Members | poshi-runner/src/main/java/com/liferay/poshi/runner/PoshiRunnerContext.java:556 | The names put under a key are exactly those entered with it. |
| Batch.GroupFacts | poshi-runner/src/main/java/com/liferay/poshi/runner/PoshiRunnerContext.java:563-566 | A group holds exactly the names put under its key, each once, sorted. |
| Batch.PartitionKeepsSorted | poshi-runner/src/main/java/com/liferay/poshi/runner/PoshiRunnerContext.java:566-572 | The pieces of a sorted group are sorted and hold only its names. |
| Batch.GroupPartsFacts | poshi-runner/src/main/java/com/liferay/poshi/runner/PoshiRunnerContext.java:564-578 | Each piece of a group is sorted, has 1 to max members, and holds only that key's names. |
| Batch.PartsFacts | poshi-runner/src/main/java/com/liferay/poshi/runner/PoshiRunnerContext.java:563-579 | The same for every piece of every key. |
| Batch.GroupPartsFlatten | poshi-runner/src/main/java/com/liferay/poshi/runner/PoshiRunnerContext.java:568-578 | The pieces of a group put back together are the group. |
| Batch.PartsCover | poshi-runner/src/main/java/com/liferay/poshi/runner/PoshiRunnerContext.java:563-579 | A name is written in sequential mode exactly when it was put under one of the listed keys. |
| Batch.SequentialPartsCoverEveryName | poshi-runner/src/main/java/com/liferay/poshi/runner/PoshiRunnerContext.java:533-579 | With every key listed, every selected name is written. |
| Batch.GroupCount | poshi-runner/src/main/java/com/liferay/poshi/runner/PoshiRunnerContext.java:563-566 | A group holds each name put under its key exactly once, and no other name. |
| Batch.PartsCount | poshi-runner/src/main/java/com/liferay/poshi/runner/PoshiRunnerContext.java:563-579 | In sequential mode a name is written once for every listed key it was put under. |
| Batch.SequentialPartsWriteEachNameOnce | poshi-runner/src/main/java/com/liferay/poshi/runner/PoshiRunnerContext.java:533-579 | When `order` lists each multimap key once, a name is written exactly when it was put into the multimap. A name put under one key is written exactly once, and nothing is written exactly when nothing was put. |
| Batch.EntriesNames | poshi-runner/src/main/java/com/liferay/poshi/runner/PoshiRunnerContext.java:535-557 | There are no entries exactly when nothing is selected. An entry is named `x` exactly when `x` is a selected name, and a name of one command is put under one key. |
| Batch.CutGroup | poshi-runner/src/main/java/com/liferay/poshi/runner/PoshiRunnerContext.java:564-578 | One key's group is cut into pieces of the allocated size. |
| Batch.CutGroups | poshi-runner/src/main/java/com/liferay/poshi/runner/PoshiRunnerContext.java:563-579 | The loop over the keys collects every key's pieces in key order. |
| Batch.SubgroupsAnnounced | poshi-runner/src/main/java/com/liferay/poshi/runner/PoshiRunnerContext.java:587-602 | Subgroup `c` is announced exactly when it starts before the end, and every member's subgroup is announced. |
| Batch.SubgroupSizeOneRunsTogether | poshi-runner/src/main/java/com/liferay/poshi/runner/PoshiRunnerContext.java:606-614 | With subgroup size 1 every member takes the first branch, so no newline separates subgroup lines. |
| Batch.WritePiece | poshi-runner/src/main/java/com/liferay/poshi/runner/PoshiRunnerContext.java:607-623 | The three branches of the member loop. |
| Batch.AppendSubgroupLines | poshi-runner/src/main/java/com/liferay/poshi/runner/PoshiRunnerContext.java:606-624 | The member loop of one group. |
| Batch.AppendSequentialBlock | poshi-runner/src/main/java/com/liferay/poshi/runner/PoshiRunnerContext.java:584-626 | One sequential-mode group: its header line and its subgroup lines. |
| Batch.WriteSequentialText | poshi-runner/src/main/java/com/liferay/poshi/runner/PoshiRunnerContext.java:583-627 | The writing loops of sequential mode. |
| Batch.AppendGroupsLine | poshi-runner/src/main/java/com/liferay/poshi/runner/PoshiRunnerContext.java:629-637 | The closing `RUN_TEST_CASE_METHOD_GROUPS=` line names groups 0 to n-1. |
| Batch.GetTestBatchSequentialGroups | poshi-runner/src/main/java/com/liferay/poshi/runner/PoshiRunnerContext.java:529-640 | The returned text or error is the sequential-mode specification, for an `order` that lists each multimap key once. |
| Batch.TestBatchGroupsOutcomes | poshi-runner/src/main/java/com/liferay/poshi/runner/PoshiRunnerContext.java:423-527 | Mismatched lists throw exactly when no query is set and lengths differ. Failed validation gives the skipped text. Any run type other than sequential or single throws. |
| Batch.GetTestBatchGroups | poshi-runner/src/main/java/com/liferay/poshi/runner/PoshiRunnerContext.java:423-527 | The whole of `_getTestBatchGroups` follows its specification. |
| Batch.SequentialGroupsWriteSelected | poshi-runner/src/main/java/com/liferay/poshi/runner/PoshiRunnerContext.java:423-640 | In sequential mode with validation passed, nothing is selected exactly when only the groups line is written. Otherwise every selected name is written, and a name of one command is written exactly once. |
| ForElement.ForSyntaxIgnoresPadding | poshi-runner/src/main/java/com/liferay/poshi/runner/elements/ForPoshiElement.java:156-172 | Recognising `for` syntax ignores blanks around the text. |
| ForElement.CloneElement | poshi-runner/src/main/java/com/liferay/poshi/runner/elements/ForPoshiElement.java:29-36 | A `for` node exactly for an element of that type. |
| ForElement.CloneSyntax | poshi-runner/src/main/java/com/liferay/poshi/runner/elements/ForPoshiElement.java:38-47 | A `for` node exactly for balanced text that, trimmed, starts with `for (` and ends with `}`. |
| ForElement.ParseHeader | poshi-runner/src/main/java/com/liferay/poshi/runner/elements/ForPoshiElement.java:52-68 | A header fails exactly when its parenthetical content has no `:`. Otherwise `param` has no `:`, and both parts are trimmed. |
| ForElement.HeaderRoundTrip | poshi-runner/src/main/java/com/liferay/poshi/runner/elements/ForPoshiElement.java:52-68 | Parsing the printed header `for (param : "list")` gives back `param` and `list`, when the content helpers return the text between the delimiters. |
| ForElement.ReadableBlocksOrigin | poshi-runner/src/main/java/com/liferay/poshi/runner/elements/ForPoshiElement.java:119-154 | Every block is a header line the text starts with, or a valid trimmed block. |
| ForElement.ReadableBlocksInLineOrder | poshi-runner/src/main/java/com/liferay/poshi/runner/elements/ForPoshiElement.java:119-154 | Blocks come in line order, and each line adds at most one. |
| ForElement.ElseLineJoinsBlock | poshi-runner/src/main/java/com/liferay/poshi/runner/elements/ForPoshiElement.java:135-150 | An `else if (` or `else {` line never closes a block; it joins the one being built. |
| ForElement.LastLineLeftOver | poshi-runner/src/main/java/com/liferay/poshi/runner/elements/ForPoshiElement.java:119-154 | The last line stays in the builder and is not returned as a block. |
| ForElement.ParseBlocksChildren | poshi-runner/src/main/java/com/liferay/poshi/runner/elements/ForPoshiElement.java:49-80 | Parsing fails exactly when some header lacks `:`. Otherwise the non-header blocks become children in order, comments without a parent. |
| ForElement.ParseWithoutHeaderKeepsAttributes | poshi-runner/src/main/java/com/liferay/poshi/runner/elements/ForPoshiElement.java:49-80 | Without a header block the attributes are unchanged. |
| ForElement.ParseLastHeaderDecides | poshi-runner/src/main/java/com/liferay/poshi/runner/elements/ForPoshiElement.java:51-70 | A successful parse takes `param` and `list` from the last header. |
| ForElement.ForPoshiElement.constructor | poshi-runner/src/main/java/com/liferay/poshi/runner/elements/ForPoshiElement.java:89-90 | A node with no attributes and no children. |
| ForElement.ForPoshiElement.BlockName | poshi-runner/src/main/java/com/liferay/poshi/runner/elements/ForPoshiElement.java:106-117 | `for (param : "list")` for the current attributes; it always reads as a header. |
| ForElement.ForPoshiElement.ToReadableSyntax | poshi-runner/src/main/java/com/liferay/poshi/runner/elements/ForPoshiElement.java:82-87 | A newline followed by the readable block of the inner syntax. |
| ForElement.ForPoshiElement.ReadLine | poshi-runner/src/main/java/com/liferay/poshi/runner/elements/ForPoshiElement.java:124-151 | One loop pass is one step of the block scan. |
| ForElement.ForPoshiElement.GetReadableBlocks | poshi-runner/src/main/java/com/liferay/poshi/runner/elements/ForPoshiElement.java:119-154 | The loop returns the blocks of the scan over the split lines. |
| ForElement.ForPoshiElement.ParseReadableSyntax | poshi-runner/src/main/java/com/liferay/poshi/runner/elements/ForPoshiElement.java:49-80 | The node's attributes, children and failure are the block parse of its readable blocks. |
| TaskElement.TaskSyntaxIgnoresPadding | poshi-runner/src/main/java/com/liferay/poshi/runner/elements/TaskPoshiElement.java:155-171 | Recognising `task` syntax ignores blanks around the text. |
| TaskElement.CloneElement | poshi-runner/src/main/java/com/liferay/poshi/runner/elements/TaskPoshiElement.java:29-36 | A `task` node exactly for an element of that type. |
| TaskElement.CloneSyntax | poshi-runner/src/main/java/com/liferay/poshi/runner/elements/TaskPoshiElement.java:38-47 | A `task` node exactly for balanced text that, trimmed, starts with `task (` and ends with `}`. |
| TaskElement.HeaderRoundTrip | poshi-runner/src/main/java/com/liferay/poshi/runner/elements/TaskPoshiElement.java:52-58 | Parsing the printed header `task ("summary")` gives back the summary, when the content helpers return the text between the delimiters. |
| TaskElement.ReadableBlocksOrigin | poshi-runner/src/main/java/com/liferay/poshi/runner/elements/TaskPoshiElement.java:114-149 | Every block is a `task (` header ending with `{`, or a valid trimmed block. |
| TaskElement.ReadableBlocksInLineOrder | poshi-runner/src/main/java/com/liferay/poshi/runner/elements/TaskPoshiElement.java:114-149 | Blocks come in line order, and each line adds at most one. |
| TaskElement.OpeningLineSkipped | poshi-runner/src/main/java/com/liferay/poshi/runner/elements/TaskPoshiElement.java:134-136 | Before the first block, a non-header line ending with `{` is dropped. |
| TaskElement.ValidBlockClosedByAnyLine | poshi-runner/src/main/java/com/liferay/poshi/runner/elements/TaskPoshiElement.java:138-145 | Once a block has started, any line closes a valid accumulated block, and the line starts the next one. |
| TaskElement.BlockChildren | poshi-runner/src/main/java/com/liferay/poshi/runner/elements/TaskPoshiElement.java:63 | Every non-header block, and only those, becomes a child under this node. |
| TaskElement.ParseBlocksChildren | poshi-runner/src/main/java/com/liferay/poshi/runner/elements/TaskPoshiElement.java:49-65 | Parsing never fails, and it appends the non-header blocks as children in order. |
| TaskElement.ParseLastHeaderDecides | poshi-runner/src/main/java/com/liferay/poshi/runner/elements/TaskPoshiElement.java:51-61 | The last header decides `summary`. |
| TaskElement.ParseWithoutHeaderKeepsAttributes | poshi-runner/src/main/java/com/liferay/poshi/runner/elements/TaskPoshiElement.java:49-65 | Without a header block the attributes are unchanged. |
| TaskElement.TaskPoshiElement.constructor | poshi-runner/src/main/java/com/liferay/poshi/runner/elements/TaskPoshiElement.java:97-101 | A node named `task`, with no attributes and no children. |
| TaskElement.TaskPoshiElement.GetReadableName | poshi-runner/src/main/java/com/liferay/poshi/runner/elements/TaskPoshiElement.java:151-153 | The readable name is the node's own name. |
| TaskElement.TaskPoshiElement.BlockName | poshi-runner/src/main/java/com/liferay/poshi/runner/elements/TaskPoshiElement.java:103-112 | `task ("summary")`, printing "null" for a missing summary; it always reads as a header. |
| TaskElement.TaskPoshiElement.ToReadableSyntax | poshi-runner/src/main/java/com/liferay/poshi/runner/elements/TaskPoshiElement.java:67-84 | A newline followed by the readable block of the children's renderings, concatenated in order. |
| TaskElement.TaskPoshiElement.ReadLine | poshi-runner/src/main/java/com/liferay/poshi/runner/elements/TaskPoshiElement.java:119-146 | One loop pass is one step of the block scan. |
| TaskElement.TaskPoshiElement.GetReadableBlocks | poshi-runner/src/main/java/com/liferay/poshi/runner/elements/TaskPoshiElement.java:114-149 | The loop returns the blocks of the scan over the split lines. |
| TaskElement.TaskPoshiElement.ParseReadableSyntax | poshi-runner/src/main/java/com/liferay/poshi/runner/elements/TaskPoshiElement.java:49-65 | The node keeps its name, and its attributes and children are the block parse of its readable blocks. |
| ArgElement.ArgSyntaxIgnoresPadding | poshi-runner/src/main/java/com/liferay/poshi/runner/elements/ArgPoshiElement.java:72-86 | Recognising an argument ignores blanks around the text. |
| ArgElement.CloneElement | poshi-runner/src/main/java/com/liferay/poshi/runner/elements/ArgPoshiElement.java:24-31 | An `arg` node exactly for an element of that type. |
| ArgElement.CloneSyntax | poshi-runner/src/main/java/com/liferay/poshi/runner/elements/ArgPoshiElement.java:33-42 | An `arg` node exactly under an execute node for text that, trimmed, starts with a single quote. |
| ArgElement.ScriptRoundTrip | poshi-runner/src/main/java/com/liferay/poshi/runner/elements/ArgPoshiElement.java:44-52 | Parsing an argument's printed script gives back its value, whatever it contains, when the helper returns the text between the outer quotes. |
| ArgElement.ScriptRecognised | poshi-runner/src/main/java/com/liferay/poshi/runner/elements/ArgPoshiElement.java:72-86 | A printed argument is always recognised under an execute node. |
| ArgElement.ArgPoshiElement.constructor | poshi-runner/src/main/java/com/liferay/poshi/runner/elements/ArgPoshiElement.java:54-55 | An argument with no attributes. |
| ArgElement.ArgPoshiElement.ParsePoshiScript | poshi-runner/src/main/java/com/liferay/poshi/runner/elements/ArgPoshiElement.java:44-47 | `value` becomes the single-quoted content, and nothing else changes. |
| ArgElement.ArgPoshiElement.ToPoshiScript | poshi-runner/src/main/java/com/liferay/poshi/runner/elements/ArgPoshiElement.java:49-52 | The value between single quotes; a missing value prints `'null'`. |
| ArgElement.ArgPoshiElement.BlockName | poshi-runner/src/main/java/com/liferay/poshi/runner/elements/ArgPoshiElement.java:67-70 | An argument has no block name. |

## Left out

Not modelled:

- File I/O and URL discovery (`_getPoshiURLs`, jar mounting, `getRootElementFromURL`). The model
  is given the files' parsed root elements, class names, types and paths, and each jar's
  namespace pattern match, as values.
- `_readSeleniumFiles` and `_seleniumParameterCounts`, which come from Java reflection.
- The prose matcher registration (`PoshiProseMatcher.storePoshiProseMatcher`), the `System.out`
  messages, the duplicate-file-name warning and `FileUtil.write`.
- `_writeTestCSVReportFile` and `_writeTestGeneratedProperties`.
- The public getters, except `getPathLocator` and `isPathLocator`, which are read straight from
  the tables.

Outside code, given to the model as parameters:

- PQL evaluation: `accepts`, a function from query and properties to a boolean.
- `PoshiRunnerValidation.validate()`: `valid`.
- `String.matches` for the group-ignore regex: a predicate.
- The key order of the `HashMultimap` in sequential mode: `order`, which must list each key of the
  multimap once and no other key (`Batch.ListsKeys`).
- The `PoshiElement` base class: `isBalancedReadableSyntax`, `isValidReadableBlock`,
  `isReadableSyntaxComment`, `getParentheticalContent`, `getQuotedContent`,
  `getSingleQuotedContent`, `createReadableBlock` and `isElementType` are fields of a
  `SyntaxHelpers` record. Round-trip lemmas assume, for the one input they talk about, that a
  content helper returns the text between the first opening and the last closing delimiter.
- `PoshiNodeFactory.newPoshiNode`: the child node is recorded as a request (which parent, which
  block) rather than built.
- The base class `toReadableSyntax` is a parameter: `inner` for `for`, the children's
  renderings for `task`.

Approximations and simplifications:

- `MathUtil.quotient(a, b, true)` is taken to be the quotient rounded up.
- `Validator.isNull` is taken to be "absent or empty". The Liferay version also treats blank
  text and the word "null" as null.
- `String.compareTo` compares characters as Dafny `char` values, not UTF-16 code units.
- Negative batch sizes are not modelled: the subgroup size is a `nat`. A maximum group size that
  is not positive is excluded by the `_writeTestCaseMethodNamesProperties` guard.
- Attribute order on a node is not modelled: attributes are a map.
- The state after an exception is mostly not modelled. A method that reports an error promises
  nothing about the tables, where Java may have left partial updates. The exception is
  `ReadPoshiFiles` failing only at its final duplicate check, where the stored state is given.
- Table keys are tuples (`QualifiedClass`, `QualifiedCommand`, `ClassKey`, `CommandKey`,
  `LocatorKey`). The source builds them as strings such as `namespace + "." + className + "#" +
  key`, so names containing `.` or `#` can make two different keys one string. For example, class
  `A#B` with key `C` and class `A` with key `B#C` both give `ns.A#B#C`. The model assumes such
  names never collide and keeps the entries apart where Java would share one.
- Registry.IsPathLocator: defined only where the lookup returns. On a cyclic extension chain
  without the key, Java's `isPathLocator` never returns: `getPathLocator` recurses until the
  stack overflows (`RegistryFacts.SelfExtensionNeverReturns`).
- The Java static maps and lists are held in one `tables` record field. They are not separate
  fields.

Members whose contracts promise less than the source:

- OverrideFacts.MergeVarsByName: promises the name-to-var view of the merged list, not its
  order. The source copies the values of a `HashMap`, whose order is unspecified. The model uses
  first-insertion order.
- Batch.GetTestBatchSequentialGroups: numbers the groups in the given key `order`. The source's
  order is whatever the `HashMultimap` yields, so the model fixes which group gets which number
  only up to that order.

Behaviour of the source that the model keeps as written:

- With a subgroup size of 1, every member takes the first branch of the member loop. No newline
  separates the subgroup lines (`Batch.SubgroupSizeOneRunsTogether`).
- In sequential mode, a group whose size is an exact multiple of the subgroup size ends with an
  empty line, because the newline after the last member and the group's closing newline both
  appear.
- When the skipped list is empty, `setLength(length - 1)` cuts the `=` of
  `SKIPPED_TEST_CASE_METHOD_GROUP_0=`.
- `getBlockName` of `for` and `task` prints "null" for a missing attribute, as Java string
  concatenation does.
- `getReadableBlocks` of `for` and `task` never returns the text left in the builder after the
  last line (`ForElement.LastLineLeftOver`).
- `_overrideClassNames` is never written, so the duplicate-override check can never fire
  (`ReadFacts.DuplicateOverrideNeverThrown`).
- `clear()` keeps `_duplicateLocatorMessages`, so once a read has failed on duplicate messages,
  every later read fails too (`ReadFacts.FailedReadPoisonsLaterReads`, `Context.ReadClearRead`).
- A command named "" counts as listed in `ignore-command-names` when the list is empty text or
  has an empty field before a non-empty one, because `split(",")` keeps those empty fields
  (`RegistryRules.IgnoreDecisionOrder`).
