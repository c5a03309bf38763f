/**
 * The registry's tables and, for every operation of PoshiRunnerContext that changes them, a
 * function from the tables before to the tables after (or to the exception the operation
 * throws). The class in module Context performs these operations in place and is proved to
 * agree with these functions; the lemmas in module RegistryFacts state what they promise.
 */
module Registry {
  import opened Wrappers
  import opened Text
  import opened ScriptTree
  import opened RegistryRules

  /** A snapshot of the registry's static fields. */
  datatype Tables = Tables(
    commandElements: map<CommandKey, Element>,
    commandSummaries: map<CommandKey, Option<string>>,   // None: the null stored for `summary-ignore`
    duplicateMessages: set<Diagnostic>,
    filePaths: map<FileKey, string>,
    functionFileNames: set<string>,
    functionLocatorCounts: map<QualifiedClass, nat>,
    propertySets: seq<Properties>,                       // every Properties object, by handle
    commandProperties: map<QualifiedCommand, nat>,       // test command -> handle of its Properties
    namespaces: seq<string>,
    overrideClassNames: map<QualifiedClass, string>,
    pathExtensions: map<QualifiedClass, string>,
    pathLocators: map<LocatorKey, string>,
    rootElements: map<ClassKey, Element>,
    rootVarElements: map<ClassKey, seq<Element>>,
    testCaseDescriptions: map<QualifiedCommand, string>,
    testCaseClassNames: seq<QualifiedClass>,
    testCaseCommandNames: seq<QualifiedCommand>)

  /** Every stored handle names a Properties object, and defaults chains end. */
  predicate HandlesValid(t: Tables) {
    && DefaultsEarlier(t.propertySets)
    && forall q :: q in t.commandProperties ==> t.commandProperties[q] < |t.propertySets|
  }

  const EmptyTables := Tables(map[], map[], {}, map[], {}, map[], [], map[], [], map[], map[], map[], map[], map[], map[], [], [])

  /** The tables the registry can reach: the ones whose handles are valid. */
  type Snapshot = t: Tables | HandlesValid(t) witness EmptyTables

  /** The `Properties` of a stored test command, as `getProperty` reads it. */
  function CommandProperty(t: Snapshot, q: QualifiedCommand, k: string): Option<string> {
    if q in t.commandProperties then GetProperty(t.propertySets, t.commandProperties[q], k) else None
  }

  // ---------------------------------------------------------------- clear()

  /** `clear()` empties six of the maps (and the selenium table, which is not modelled) and nothing else. */
  function Cleared(t: Snapshot): Snapshot {
    t.(commandElements := map[], commandSummaries := map[], filePaths := map[],
       functionLocatorCounts := map[], pathLocators := map[], rootElements := map[])
  }

  // ---------------------------------------------------------------- commands of a stored file

  /** The message for a command whose key is already stored. */
  function DuplicateCommandMessage(t: Snapshot, f: PoshiFile, ns: string, command: Element): Diagnostic
    requires CommandKey(f.classType, ns, f.className, AttrText(command, "name")) in t.commandElements
  {
    var fk := FileKey(ns, f.fileName);
    var firstFilePath := if fk in t.filePaths && t.filePaths[fk] != "" then t.filePaths[fk] else f.filePath;
    DuplicateCommand(f.className + "#" + AttrText(command, "name"), ns, f.filePath, command.line,
                     firstFilePath, t.commandElements[CommandKey(f.classType, ns, f.className, AttrText(command, "name"))].line)
  }

  /** The descriptions after a test command is stored: its `description` attribute when that is not empty. */
  function Described(descriptions: map<QualifiedCommand, string>, q: QualifiedCommand, command: Element): map<QualifiedCommand, string> {
    if NotNull(Attr(command, "description")) then descriptions[q := command.attributes["description"]] else descriptions
  }

  /**
   * Stores a test command's Properties object `p` as a new object, whose defaults (if any)
   * already exist, and the command's description.
   */
  function AddTestProperties(t: Snapshot, q: QualifiedCommand, command: Element, p: Properties): (r: Snapshot)
    requires p.defaults.Some? ==> p.defaults.value < |t.propertySets|
    ensures r == t.(propertySets := t.propertySets + [p], commandProperties := t.commandProperties[q := |t.propertySets|],
                    testCaseDescriptions := Described(t.testCaseDescriptions, q, command))
  {
    var store := t.propertySets + [p];
    var handles := t.commandProperties[q := |t.propertySets|];
    AppendKeepsDefaultsEarlier(t.propertySets, p);
    assert forall q' :: q' in handles ==> handles[q'] < |store|;
    t.(propertySets := store, commandProperties := handles, testCaseDescriptions := Described(t.testCaseDescriptions, q, command))
  }

  /** The command element and its summary, stored under `key`. */
  function WithCommand(t: Snapshot, key: CommandKey, command: Element, summary: Option<string>): Snapshot {
    t.(commandElements := t.commandElements[key := command], commandSummaries := t.commandSummaries[key := summary])
  }

  /** Stores a command whose key is not stored yet; a test command also gets its Properties object. */
  function StoreNewCommand(t: Snapshot, f: PoshiFile, ns: string, command: Element): Result<Snapshot, RegistryError> {
    var name := AttrText(command, "name");
    var t1 := WithCommand(t, CommandKey(f.classType, ns, f.className, name), command, CommandSummary(f.className + "#" + name, f.classType, command, f.root));
    if f.classType == TestCase then
      match CommandProperties(f.root, command)
      case None => Err(MissingValue("property name or value"))
      case Some(props) => Ok(AddTestProperties(t1, QualifiedCommand(ns, f.className, name), command, Properties(props, None)))
    else Ok(t1)
  }

  /** One pass of the command loop of `_storeRootElement`: a repeated key only adds a message. */
  function StoreCommand(t: Snapshot, f: PoshiFile, ns: string, command: Element): Result<Snapshot, RegistryError> {
    if CommandKey(f.classType, ns, f.className, AttrText(command, "name")) in t.commandElements then
      Ok(t.(duplicateMessages := t.duplicateMessages + {DuplicateCommandMessage(t, f, ns, command)}))
    else StoreNewCommand(t, f, ns, command)
  }

  function StoreCommands(t: Snapshot, f: PoshiFile, ns: string, commands: seq<Element>): Result<Snapshot, RegistryError>
    decreases |commands|
  {
    if commands == [] then Ok(t)
    else match StoreCommand(t, f, ns, commands[0])
      case Err(e) => Err(e)
      case Ok(t1) => StoreCommands(t1, f, ns, commands[1..])
  }

  // ---------------------------------------------------------------- path files

  /** The first two cells of a `tr` row and the line of its first cell. */
  datatype PathRow = PathRow(key: string, locator: string, line: nat)

  /** A row with an empty key and an empty locator is skipped. */
  predicate Skipped(row: PathRow) {
    row.key == "" && row.locator == ""
  }

  /** `tdElements.get(0)` and `get(1)`: a row with fewer than two cells throws. */
  function ReadRow(tr: Element, filePath: string): Result<PathRow, RegistryError> {
    var tds := Elements(tr, "td");
    if |tds| < 2 then Err(MissingTableCell(filePath, tr.line))
    else Ok(PathRow(tds[0].text, tds[1].text, tds[0].line))
  }

  /** The rows of the table, or the exception of the first short one. */
  function ReadRows(trs: seq<Element>, filePath: string): (r: Result<seq<PathRow>, RegistryError>)
    ensures r.Ok? ==> |r.value| == |trs|
    decreases |trs|
  {
    if trs == [] then Ok([])
    else match ReadRows(trs[..|trs| - 1], filePath)
      case Err(e) => Err(e)
      case Ok(rows) =>
        match ReadRow(trs[|trs| - 1], filePath)
        case Err(e) => Err(e)
        case Ok(row) => Ok(rows + [row])
  }

  /** The (key, locator) pairs of the rows that are not skipped, in order. */
  function KeptPairs(rows: seq<PathRow>): seq<(string, string)>
    decreases |rows|
  {
    if rows == [] then []
    else
      var last := rows[|rows| - 1];
      KeptPairs(rows[..|rows| - 1]) + (if Skipped(last) then [] else [(last.key, last.locator)])
  }

  function PairKeys(ps: seq<(string, string)>): set<string> {
    set p | p in ps :: p.0
  }

  const ExtendActionPath := "EXTEND_ACTION_PATH"

  /** The message a kept row adds: one when an earlier kept row of the table had its key. */
  function RowMessages(className: string, filePath: string, ns: string, row: PathRow, seen: set<string>): set<Diagnostic> {
    if row.key in seen then {DuplicatePathLocator(className + "#" + row.key, ns, filePath, row.line)} else {}
  }

  /** One pass of the row loop of `_storePathElement`; `seen` holds the keys of the earlier kept rows. */
  function StoreRow(t: Snapshot, className: string, filePath: string, ns: string, row: PathRow, seen: set<string>): Snapshot {
    if Skipped(row) then t
    else if row.key == ExtendActionPath then
      t.(duplicateMessages := t.duplicateMessages + RowMessages(className, filePath, ns, row, seen),
         pathExtensions := t.pathExtensions[QualifiedClass(ns, className) := row.locator])
    else
      t.(duplicateMessages := t.duplicateMessages + RowMessages(className, filePath, ns, row, seen),
         pathLocators := t.pathLocators[LocatorKey(ns, className, row.key) := row.locator])
  }

  function StoreRows(t: Snapshot, className: string, filePath: string, ns: string, rows: seq<PathRow>): Snapshot
    decreases |rows|
  {
    if rows == [] then t
    else
      var init := rows[..|rows| - 1];
      StoreRow(StoreRows(t, className, filePath, ns, init), className, filePath, ns, rows[|rows| - 1], PairKeys(KeptPairs(init)))
  }

  /** The `tr` rows of `body/table/tbody`, or the null dereference when one of those is missing. */
  function TableRows(root: Element): Option<seq<Element>> {
    match FirstElement(root, "body")
    case None => None
    case Some(body) =>
      match FirstElement(body, "table")
      case None => None
      case Some(table) =>
        match FirstElement(table, "tbody")
        case None => None
        case Some(tbody) => Some(Elements(tbody, "tr"))
  }

  /** `_storePathElement(rootElement, className, filePath, namespace)`; the root is stored only when it overrides nothing. */
  function StorePath(t: Snapshot, root: Element, className: string, filePath: string, ns: string): Result<Snapshot, RegistryError> {
    match TableRows(root)
    case None => Err(MissingValue("body/table/tbody"))
    case Some(trs) =>
      match ReadRows(trs, filePath)
      case Err(e) => Err(e)
      case Ok(rows) =>
        var t1 := t.(rootElements := if Attr(root, "override").None?
          then t.rootElements[ClassKey(Path, ns, className) := root] else t.rootElements);
        Ok(StoreRows(t1, className, filePath, ns, rows))
  }

  // ---------------------------------------------------------------- a stored (not overriding) file

  /** The command elements with a test case's `set-up` and `tear-down` stored, without a duplicate check. */
  function WithSetUpTearDown(elements: map<CommandKey, Element>, root: Element, ns: string, className: string): map<CommandKey, Element> {
    var withSetUp := match FirstElement(root, "set-up")
      case None => elements
      case Some(e) => elements[CommandKey(TestCase, ns, className, "set-up") := e];
    match FirstElement(root, "tear-down")
    case None => withSetUp
    case Some(e) => withSetUp[CommandKey(TestCase, ns, className, "tear-down") := e]
  }

  /**
   * The default command of a function class, stored under the class key; the source stores
   * null and then dereferences it when `default` names no stored command.
   */
  function StoreDefaultCommand(t: Snapshot, root: Element, ns: string, className: string): Result<Snapshot, RegistryError> {
    var defaultName := AttrText(root, "default");
    var named := CommandKey(Function, ns, className, defaultName);
    if named !in t.commandElements then Err(MissingValue("default function command"))
    else
      var command := t.commandElements[named];
      var key := DefaultCommandKey(Function, ns, className);
      Ok(t.(commandElements := t.commandElements[key := command],
            commandSummaries := t.commandSummaries[key := CommandSummary(className + "#" + defaultName, Function, command, root)]))
  }

  /** The end of `_storeRootElement` for a function file: its default command and its locator count. */
  function StoreFunctionDefaults(t: Snapshot, f: PoshiFile, ns: string): Result<Snapshot, RegistryError> {
    match StoreDefaultCommand(t, f.root, ns, f.className)
    case Err(e) => Err(e)
    case Ok(t1) => Ok(t1.(functionLocatorCounts := t1.functionLocatorCounts[QualifiedClass(ns, f.className) := FunctionLocatorCount(f.locatorPlaceholders)]))
  }

  /** `_storeRootElement` for a file without an `override` attribute. */
  function StoreRoot(t: Snapshot, f: PoshiFile, ns: string): Result<Snapshot, RegistryError> {
    if HasCommands(f.classType) then
      var key := ClassKey(f.classType, ns, f.className);
      var t1 := t.(testCaseClassNames := if f.classType == TestCase then t.testCaseClassNames + [QualifiedClass(ns, f.className)] else t.testCaseClassNames,
                   commandElements := if f.classType == TestCase then WithSetUpTearDown(t.commandElements, f.root, ns, f.className) else t.commandElements,
                   rootElements := t.rootElements[key := f.root],
                   rootVarElements := t.rootVarElements[key := Elements(f.root, "var")]);
      match StoreCommands(t1, f, ns, Elements(f.root, "command"))
      case Err(e) => Err(e)
      case Ok(t2) => if f.classType == Function then StoreFunctionDefaults(t2, f, ns) else Ok(t2)
    else if f.classType == Path then StorePath(t, f.root, f.className, f.filePath, ns)
    else Ok(t)
  }

  // ---------------------------------------------------------------- an overriding file

  /** `HashMap.put` keyed by the `name` attribute on a list without repeated names: a new name is appended, a known one replaced in place. */
  function PutVar(vars: seq<Element>, v: Element): seq<Element>
    decreases |vars|
  {
    if vars == [] then [v]
    else if Attr(vars[0], "name") == Attr(v, "name") then [v] + vars[1..]
    else [vars[0]] + PutVar(vars[1..], v)
  }

  function PutVars(vars: seq<Element>, more: seq<Element>): seq<Element>
    decreases |more|
  {
    if more == [] then vars else PutVars(PutVar(vars, more[0]), more[1..])
  }

  /** The var list an override stores: the base vars keyed by name, then the override's vars. */
  function MergeVars(base: seq<Element>, override: seq<Element>): seq<Element> {
    PutVars(PutVars([], base), override)
  }

  /** One pass of the override command loop: the command replaces the base one under the base namespace. */
  function OverrideCommand(t: Snapshot, f: PoshiFile, baseNs: string, command: Element): Result<Snapshot, RegistryError> {
    var name := AttrText(command, "name");
    var key := CommandKey(f.classType, baseNs, f.className, name);
    var t1 := WithCommand(t, key, command, CommandSummary(f.className + "#" + name, f.classType, command, f.root));
    if f.classType == TestCase then
      match CommandProperties(f.root, command)
      case None => Err(MissingValue("property name or value"))
      case Some(props) =>
        var q := QualifiedCommand(baseNs, f.className, name);
        var base := if q in t1.commandProperties then Some(t1.commandProperties[q]) else None;
        Ok(AddTestProperties(t1, q, command, Properties(props, base)))
    else Ok(t1)
  }

  function OverrideCommands(t: Snapshot, f: PoshiFile, baseNs: string, commands: seq<Element>): Result<Snapshot, RegistryError>
    decreases |commands|
  {
    if commands == [] then Ok(t)
    else match OverrideCommand(t, f, baseNs, commands[0])
      case Err(e) => Err(e)
      case Ok(t1) => OverrideCommands(t1, f, baseNs, commands[1..])
  }

  /** The var merge of `_overrideRootElement`: nothing is stored when the override has no vars. */
  function OverrideVars(t: Snapshot, f: PoshiFile, baseNs: string): Result<Snapshot, RegistryError> {
    var overrideVars := Elements(f.root, "var");
    var key := ClassKey(f.classType, baseNs, f.className);
    if overrideVars == [] then Ok(t)
    else if key !in t.rootVarElements then Err(MissingValue("base var elements"))
    else Ok(t.(rootVarElements := t.rootVarElements[key := MergeVars(t.rootVarElements[key], overrideVars)]))
  }

  /** The locator-count check of an overriding function file; the base count is not updated. */
  function CheckOverrideLocatorCount(t: Snapshot, f: PoshiFile, ns: string): Result<Snapshot, RegistryError> {
    var base := QualifiedClass(f.overrideBase.namespace, f.className);
    var count := FunctionLocatorCount(f.locatorPlaceholders);
    if base !in t.functionLocatorCounts then Err(MissingValue("base locator count"))
    else if count > t.functionLocatorCounts[base]
    then Err(LocatorCountExceeded(QualifiedClass(ns, f.className), count, base, t.functionLocatorCounts[base]))
    else Ok(t)
  }

  /** The end of `_overrideRootElement` for a function file: the default command and the locator-count check. */
  function OverrideFunctionDefaults(t: Snapshot, f: PoshiFile, ns: string): Result<Snapshot, RegistryError> {
    match StoreDefaultCommand(t, f.root, f.overrideBase.namespace, f.className)
    case Err(e) => Err(e)
    case Ok(t1) => CheckOverrideLocatorCount(t1, f, ns)
  }

  /** `_overrideRootElement(rootElement, filePath, namespace)`. */
  function Override(t: Snapshot, f: PoshiFile, ns: string): Result<Snapshot, RegistryError> {
    var baseNs := f.overrideBase.namespace;
    var base := QualifiedClass(baseNs, f.overrideBase.className);
    if f.className != f.overrideBase.className then Err(OverrideClassNameMismatch(f.className, f.overrideBase.className))
    else if base in t.overrideClassNames
    then Err(DuplicateOverride(base, QualifiedClass(ns, f.className), t.overrideClassNames[base]))
    else
      var t1 := t.(commandElements := if f.classType == TestCase
        then WithSetUpTearDown(t.commandElements, f.root, baseNs, f.className) else t.commandElements);
      if HasCommands(f.classType) then
        match OverrideVars(t1, f, baseNs)
        case Err(e) => Err(e)
        case Ok(t2) =>
          match OverrideCommands(t2, f, baseNs, Elements(f.root, "command"))
          case Err(e) => Err(e)
          case Ok(t3) => if f.classType == Function then OverrideFunctionDefaults(t3, f, ns) else Ok(t3)
      else if f.classType == Path then StorePath(t1, f.root, f.className, f.filePath, baseNs)
      else Ok(t1)
  }

  // ---------------------------------------------------------------- a list of files

  predicate IsOverride(f: PoshiFile) {
    Attr(f.root, "override").Some?
  }

  /** `_storeRootElement` followed by the bookkeeping `_storeRootElements` does for each file. */
  function StoreFile(t: Snapshot, f: PoshiFile, ns: string): Result<Snapshot, RegistryError> {
    if IsOverride(f) then Override(t, f, ns)
    else match StoreRoot(t, f, ns)
      case Err(e) => Err(e)
      case Ok(t1) =>
        Ok(t1.(filePaths := t1.filePaths[FileKey(ns, f.fileName) := f.filePath],
               functionFileNames := if EndsWith(f.fileName, ".function")
                 then t1.functionFileNames + {RemoveAll(f.fileName, ".function")} else t1.functionFileNames))
  }

  function StoreFiles(t: Snapshot, files: seq<PoshiFile>, ns: string): Result<Snapshot, RegistryError>
    decreases |files|
  {
    if files == [] then Ok(t)
    else match StoreFile(t, files[0], ns)
      case Err(e) => Err(e)
      case Ok(t1) => StoreFiles(t1, files[1..], ns)
  }

  /** `_storeRootElements(urls, namespace)`: sort the files, then store them in that order. */
  function StoreRootElements(t: Snapshot, files: seq<PoshiFile>, ns: string): Result<Snapshot, RegistryError> {
    match SortFiles(files)
    case Err(e) => Err(e)
    case Ok(sorted) => StoreFiles(t, sorted, ns)
  }

  // ---------------------------------------------------------------- extends expansion

  /** `setProperty("ignored", "true")` on the object with handle `h`, seen by every command sharing it. */
  function SetIgnored(store: seq<Properties>, h: nat): (r: seq<Properties>)
    requires h < |store|
    ensures |r| == |store| && (DefaultsEarlier(store) ==> DefaultsEarlier(r))
  {
    store[h := store[h].(table := store[h].table["ignored" := "true"])]
  }

  /** One pass of the loop over the commands of the extended class. */
  function ExtendCommand(t: Snapshot, qc: QualifiedClass, root: Element, baseClass: string, command: Element): Result<Snapshot, RegistryError> {
    var name := AttrText(command, "name");
    var baseQ := QualifiedCommand(qc.namespace, baseClass, name);
    var q := QualifiedCommand(qc.namespace, qc.className, name);
    var ignorable := IsIgnorable(root, command, Attr(command, "name"));
    if baseQ !in t.commandProperties then
      if ignorable then Err(MissingValue("properties of the extended command"))
      else Ok(t.(commandProperties := t.commandProperties - {q},
                 commandElements := t.commandElements[CommandKey(TestCase, qc.namespace, qc.className, name) := command]))
    else
      var h := t.commandProperties[baseQ];
      Ok(t.(propertySets := if ignorable then SetIgnored(t.propertySets, h) else t.propertySets,
            commandProperties := t.commandProperties[q := h],
            commandElements := t.commandElements[CommandKey(TestCase, qc.namespace, qc.className, name) := command]))
  }

  function ExtendCommands(t: Snapshot, qc: QualifiedClass, root: Element, baseClass: string, commands: seq<Element>): Result<Snapshot, RegistryError>
    decreases |commands|
  {
    if commands == [] then Ok(t)
    else match ExtendCommand(t, qc, root, baseClass, commands[0])
      case Err(e) => Err(e)
      case Ok(t1) => ExtendCommands(t1, qc, root, baseClass, commands[1..])
  }

  /** One pass of the loop over the class's own commands: mark ignored ones and list every one. */
  function ListCommand(t: Snapshot, qc: QualifiedClass, root: Element, command: Element): Result<Snapshot, RegistryError> {
    var q := QualifiedCommand(qc.namespace, qc.className, AttrText(command, "name"));
    if IsIgnorable(root, command, Attr(command, "name")) then
      if q !in t.commandProperties then Err(MissingValue("properties of the command"))
      else Ok(t.(propertySets := SetIgnored(t.propertySets, t.commandProperties[q]),
                 testCaseCommandNames := t.testCaseCommandNames + [q]))
    else Ok(t.(testCaseCommandNames := t.testCaseCommandNames + [q]))
  }

  function ListCommands(t: Snapshot, qc: QualifiedClass, root: Element, commands: seq<Element>): Result<Snapshot, RegistryError>
    decreases |commands|
  {
    if commands == [] then Ok(t)
    else match ListCommand(t, qc, root, commands[0])
      case Err(e) => Err(e)
      case Ok(t1) => ListCommands(t1, qc, root, commands[1..])
  }

  /** The body of `_initComponentCommandNamesMap` for one test-case class. */
  function InitClass(t: Snapshot, qc: QualifiedClass): Result<Snapshot, RegistryError> {
    var key := ClassKey(TestCase, qc.namespace, qc.className);
    if key !in t.rootElements then Err(MissingValue("test-case root element"))
    else
      var root := t.rootElements[key];
      match Attr(root, "extends")
      case None => ListCommands(t, qc, root, Elements(root, "command"))
      case Some(ext) =>
        var extKey := ClassKey(TestCase, qc.namespace, ext);
        if extKey !in t.rootElements then Err(MissingValue("extended test-case root element"))
        else
          match ExtendCommands(t, qc, root, ext, Elements(t.rootElements[extKey], "command"))
          case Err(e) => Err(e)
          case Ok(t1) => ListCommands(t1, qc, root, Elements(root, "command"))
  }

  function InitClasses(t: Snapshot, classes: seq<QualifiedClass>): Result<Snapshot, RegistryError>
    decreases |classes|
  {
    if classes == [] then Ok(t)
    else match InitClass(t, classes[0])
      case Err(e) => Err(e)
      case Ok(t1) => InitClasses(t1, classes[1..])
  }

  /** `_initComponentCommandNamesMap()`: every stored test-case class, in the order it was stored. */
  function InitComponentCommandNames(t: Snapshot): Result<Snapshot, RegistryError> {
    InitClasses(t, t.testCaseClassNames)
  }

  // ---------------------------------------------------------------- reading everything

  /** One directory or jar of files: local files use the default namespace, a jar its own. */
  datatype Source =
    | LocalFiles(files: seq<PoshiFile>)
    | ResourceJar(namespace: Option<string>, files: seq<PoshiFile>)

  function ReadSource(t: Snapshot, s: Source): Result<Snapshot, RegistryError> {
    match s
    case LocalFiles(files) => StoreRootElements(t, files, DefaultNamespace)
    case ResourceJar(found, files) =>
      match AdmitNamespace(t.namespaces, found)
      case Err(e) => Err(e)
      case Ok(ns) => StoreRootElements(t.(namespaces := t.namespaces + [ns]), files, ns)
  }

  function ReadSources(t: Snapshot, sources: seq<Source>): Result<Snapshot, RegistryError>
    decreases |sources|
  {
    if sources == [] then Ok(t)
    else match ReadSource(t, sources[0])
      case Err(e) => Err(e)
      case Ok(t1) => ReadSources(t1, sources[1..])
  }

  /** What `_readPoshiFiles()` has stored when it reaches the duplicate check: every source, then the `extends` expansion. */
  function ReadAndExpand(t: Snapshot, sources: seq<Source>): Result<Snapshot, RegistryError> {
    match ReadSources(t, sources)
    case Err(e) => Err(e)
    case Ok(t1) => InitComponentCommandNames(t1)
  }

  /**
   * `_readPoshiFiles()`: read every source in order, expand `extends`, then throw one
   * exception carrying every duplicate message if there is any.
   */
  function ReadPoshiFiles(t: Snapshot, sources: seq<Source>): Result<Snapshot, RegistryError> {
    match ReadAndExpand(t, sources)
    case Err(e) => Err(e)
    case Ok(t2) =>
      if t2.duplicateMessages != {} then Err(DuplicateLocators(t2.duplicateMessages)) else Ok(t2)
  }

  // ---------------------------------------------------------------- path locator lookup

  /** The outcome of `getPathLocator`: a locator, null, or a recursion that never returns. */
  datatype Lookup = Found(locator: string) | Missing | Unbounded

  /** The classes of namespace `ns` that have an `EXTEND_ACTION_PATH`. */
  function ExtendedClasses(t: Tables, ns: string): set<string> {
    set qc | qc in t.pathExtensions && qc.namespace == ns :: qc.className
  }

  /**
   * `getPathLocator(className#key, namespace)`: the direct entry, else the same key in the
   * extended class. `visited` holds the classes already left through their extension; coming
   * back to one of them is the source's endless recursion.
   */
  function PathLocatorFrom(t: Tables, ns: string, className: string, key: string, visited: set<string>): (r: Lookup)
    ensures LocatorKey(ns, className, key) in t.pathLocators ==> r == Found(t.pathLocators[LocatorKey(ns, className, key)])
    ensures LocatorKey(ns, className, key) !in t.pathLocators && QualifiedClass(ns, className) !in t.pathExtensions ==> r == Missing
    ensures r.Found? ==> exists c :: LocatorKey(ns, c, key) in t.pathLocators && t.pathLocators[LocatorKey(ns, c, key)] == r.locator
    decreases ExtendedClasses(t, ns) - visited
  {
    var direct := LocatorKey(ns, className, key);
    var qc := QualifiedClass(ns, className);
    if direct in t.pathLocators then Found(t.pathLocators[direct])
    else if qc !in t.pathExtensions then Missing
    else if className in visited then Unbounded
    else
      assert className in ExtendedClasses(t, ns);
      PathLocatorFrom(t, ns, t.pathExtensions[qc], key, visited + {className})
  }

  function PathLocator(t: Tables, ns: string, className: string, key: string): Lookup {
    PathLocatorFrom(t, ns, className, key, {})
  }

  /**
   * `isPathLocator`: whether `getPathLocator` gives a locator rather than null. The call returns
   * only when the lookup does, so it is defined only there.
   */
  function IsPathLocator(t: Tables, ns: string, className: string, key: string): (r: bool)
    requires PathLocator(t, ns, className, key) != Unbounded
    ensures LocatorKey(ns, className, key) in t.pathLocators ==> r
    ensures r ==> exists c :: LocatorKey(ns, c, key) in t.pathLocators
    ensures !r <==> PathLocator(t, ns, className, key) == Missing
  {
    PathLocator(t, ns, className, key).Found?
  }
}
