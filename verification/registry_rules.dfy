/**
 * The registry's vocabulary (class types, keys, inputs, errors) and the small pure rules that
 * PoshiRunnerContext applies while it stores files: the ignore rule, the summary rule, the
 * layered property set of a test-case command, the locator count of a function file, the
 * order in which files are stored, and the admission of a dependency namespace.
 */
module RegistryRules {
  import opened Wrappers
  import opened Text
  import opened ScriptTree
  import opened Sorting

  /** The class type a file's extension gives (`.testcase` gives `TestCase`). */
  datatype ClassType = Action | Function | Macro | Path | TestCase | Prose

  /** The class types whose files hold `var` and `command` elements. */
  predicate HasCommands(t: ClassType) {
    t.Action? || t.Function? || t.Macro? || t.TestCase?
  }

  /** `namespace.className`. */
  datatype QualifiedClass = QualifiedClass(namespace: string, className: string)

  /** `namespace.className#commandName`. */
  datatype QualifiedCommand = QualifiedCommand(namespace: string, className: string, commandName: string)

  /** `classType#namespace.className`: the key of root elements and of their var lists. */
  datatype ClassKey = ClassKey(classType: ClassType, namespace: string, className: string)

  /**
   * The keys of the command-element and summary tables: `classType#namespace.className#commandName`,
   * and `classType#namespace.className` for the default command of a function class.
   */
  datatype CommandKey =
    | CommandKey(classType: ClassType, namespace: string, className: string, commandName: string)
    | DefaultCommandKey(classType: ClassType, namespace: string, className: string)

  /** `namespace.className#locatorKey`: the key of the path-locator table. */
  datatype LocatorKey = LocatorKey(namespace: string, className: string, locatorKey: string)

  /** `namespace.fileName`: the key of the file-path table. */
  datatype FileKey = FileKey(namespace: string, fileName: string)

  /** The text `namespace.className#commandName` under which batches name a test. */
  function CommandText(q: QualifiedCommand): string {
    q.namespace + "." + q.className + "#" + q.commandName
  }

  /** One discovered file with what the source extracts from its URL and its contents. */
  datatype PoshiFile = PoshiFile(
    filePath: string,               // the URL's path, used both for sorting and for messages
    fileName: string,               // the last path segment, extension included
    fileType: Option<string>,       // the extension `_urlPathPattern` finds, if it finds one
    classType: ClassType,
    className: string,
    root: Element,
    locatorPlaceholders: set<nat>,  // every N for which root.asXML() contains "${locatorN}"
    overrideBase: QualifiedClass)   // the `override` attribute split into namespace and class name

  /** One duplicate-definition message; the set of them is reported once, after discovery. */
  datatype Diagnostic =
    | DuplicateCommand(classCommandName: string, namespace: string, filePath: string, line: nat,
                       firstFilePath: string, firstLine: nat)
    | DuplicatePathLocator(classLocatorKey: string, namespace: string, filePath: string, line: nat)

  /** The exceptions the registry code throws, including the null dereferences it does not guard. */
  datatype RegistryError =
    | MissingValue(what: string)
    | MissingTableCell(filePath: string, line: nat)
    | OverrideClassNameMismatch(overrideClassName: string, baseClassName: string)
    | DuplicateOverride(base: QualifiedClass, overrider: QualifiedClass, previous: string)
    | LocatorCountExceeded(overrider: QualifiedClass, count: nat, base: QualifiedClass, baseCount: nat)
    | MissingNamespace
    | ReservedNamespace
    | DuplicateNamespace(name: string)
    | UnsortableFiles
    | DuplicateLocators(messages: set<Diagnostic>)

  /** `Validator.isNotNull` on an attribute value: present and not empty. */
  predicate NotNull(v: Option<string>) {
    v.Some? && v.value != ""
  }

  // ---------------------------------------------------------------- the ignore rule

  /** `_isIgnorableCommandNames(rootElement, commandElement, commandName)`. */
  predicate IsIgnorable(root: Element, command: Element, commandName: Option<string>) {
    if Attr(command, "ignore") == Some("true") then true
    else if Attr(command, "ignore") == Some("false") then false
    else
      var listed := match Attr(root, "ignore-command-names")
        case None => []
        case Some(names) => JavaSplit(names, ',');
      (commandName.Some? && commandName.value in listed) || Attr(root, "ignore") == Some("true")
  }

  /**
   * The name is listed in the root's `ignore-command-names`: a non-empty name when it is one of
   * the comma-separated fields; the empty name when the list is empty text or an empty field
   * comes before a non-empty one.
   */
  predicate ListedAsIgnored(root: Element, name: string) {
    "ignore-command-names" in root.attributes &&
    var names := root.attributes["ignore-command-names"];
    var fields := SplitFields(names, ',');
    if name != "" then name in fields
    else names == "" || EmptyBeforeNonEmpty(fields)
  }

  /**
   * The ignore flag is decided in order: the command's own `ignore="true"`, then its
   * `ignore="false"` (whatever the root says), then the root's list or the root's own flag.
   */
  lemma IgnoreDecisionOrder(root: Element, command: Element, name: string)
    ensures Attr(command, "ignore") == Some("true") ==> IsIgnorable(root, command, Some(name))
    ensures Attr(command, "ignore") == Some("false") ==> !IsIgnorable(root, command, Some(name))
    ensures Attr(command, "ignore") != Some("true") && Attr(command, "ignore") != Some("false") ==>
      (IsIgnorable(root, command, Some(name)) <==>
        ListedAsIgnored(root, name) || Attr(root, "ignore") == Some("true"))
  {
    if "ignore-command-names" in root.attributes {
      if name != "" {
        JavaSplitKeepsNonEmptyFields(root.attributes["ignore-command-names"], ',', name);
      } else {
        JavaSplitEmptyField(root.attributes["ignore-command-names"], ',');
      }
    }
  }

  /** A command without a name is never ignored through the root's list. */
  lemma UnnamedCommandIgnoredOnlyByFlags(root: Element, command: Element)
    ensures IsIgnorable(root, command, None) <==>
      Attr(command, "ignore") == Some("true") ||
      (Attr(command, "ignore") != Some("false") && Attr(root, "ignore") == Some("true"))
  {
  }

  // ---------------------------------------------------------------- the summary rule

  /** `_getCommandSummary`: `None` stands for the null the source stores for an ignored summary. */
  function CommandSummary(classCommandName: string, classType: ClassType, command: Element, root: Element): (r: Option<string>)
    ensures r.None? <==> Attr(command, "summary-ignore") == Some("true")
    ensures r.Some? ==> r.value == classCommandName || r.value == AttrText(command, "summary") ||
                        (classType == Function && r.value == AttrText(root, "summary"))
  {
    if NotNull(Attr(command, "summary-ignore")) && Attr(command, "summary-ignore").value == "true" then None
    else if NotNull(Attr(command, "summary")) then Attr(command, "summary")
    else if classType == Function && NotNull(Attr(root, "summary")) then Attr(root, "summary")
    else Some(classCommandName)
  }

  /** A command's own summary wins over the root's; the root's is used for functions only. */
  lemma SummaryPrecedence(classCommandName: string, classType: ClassType, command: Element, root: Element)
    requires Attr(command, "summary-ignore") != Some("true")
    ensures NotNull(Attr(command, "summary")) ==>
      CommandSummary(classCommandName, classType, command, root) == Attr(command, "summary")
    ensures !NotNull(Attr(command, "summary")) && classType != Function ==>
      CommandSummary(classCommandName, classType, command, root) == Some(classCommandName)
    ensures !NotNull(Attr(command, "summary")) && classType == Function && NotNull(Attr(root, "summary")) ==>
      CommandSummary(classCommandName, classType, command, root) == Attr(root, "summary")
  {
  }

  // ---------------------------------------------------------------- layered property sets

  /** The (name, value) pairs of `property` elements; `None` when one lacks either, which `setProperty` rejects. */
  function PropertyPairs(es: seq<Element>): (r: Option<seq<(string, string)>>)
    ensures r.Some? ==> |r.value| == |es|
  {
    if es == [] then Some([])
    else match (Attr(es[0], "name"), Attr(es[0], "value"), PropertyPairs(es[1..]))
      case (Some(n), Some(v), Some(rest)) => Some([(n, v)] + rest)
      case _ => None
  }

  /** `setProperty` for each pair in order. */
  function SetAll(m: map<string, string>, ps: seq<(string, string)>): map<string, string>
    decreases |ps|
  {
    if ps == [] then m else SetAll(m[ps[0].0 := ps[0].1], ps[1..])
  }

  /** The value of the last pair named `k`, if any. */
  function LastValue(ps: seq<(string, string)>, k: string): Option<string> {
    if ps == [] then None
    else if LastValue(ps[1..], k).Some? then LastValue(ps[1..], k)
    else if ps[0].0 == k then Some(ps[0].1)
    else None
  }

  /** Setting the pairs in order leaves each name with its last value and the rest of `m` alone. */
  lemma {:induction false} SetAllLastWins(m: map<string, string>, ps: seq<(string, string)>, k: string)
    ensures k in SetAll(m, ps) <==> k in m || LastValue(ps, k).Some?
    ensures LastValue(ps, k).Some? ==> SetAll(m, ps)[k] == LastValue(ps, k).value
    ensures LastValue(ps, k).None? && k in m ==> SetAll(m, ps)[k] == m[k]
    decreases |ps|
  {
    if ps != [] {
      SetAllLastWins(m[ps[0].0 := ps[0].1], ps[1..], k);
    }
  }

  /** Appending a pair makes it the last one for its name. */
  lemma {:induction false} LastValueAppend(ps: seq<(string, string)>, p: (string, string), k: string)
    ensures LastValue(ps + [p], k) == if p.0 == k then Some(p.1) else LastValue(ps, k)
    decreases |ps|
  {
    if ps != [] {
      assert (ps + [p])[1..] == ps[1..] + [p];
      LastValueAppend(ps[1..], p, k);
    }
  }

  /** `_getClassCommandNameProperties(rootElement, commandElement)`; `None` where `setProperty` throws. */
  function CommandProperties(root: Element, command: Element): Option<map<string, string>> {
    match (PropertyPairs(Elements(root, "property")), PropertyPairs(Elements(command, "property")))
    case (Some(rootPairs), Some(commandPairs)) =>
      var layered := SetAll(SetAll(map[], rootPairs), commandPairs);
      var withIssues := if NotNull(Attr(command, "known-issues"))
        then layered["known-issues" := command.attributes["known-issues"]] else layered;
      Some(if NotNull(Attr(command, "priority"))
        then withIssues["priority" := command.attributes["priority"]] else withIssues)
    case _ => None
  }

  /** A layer of the property set: the non-empty `known-issues` or `priority` attribute of the command. */
  predicate AttributeLayer(command: Element, k: string) {
    (k == "known-issues" || k == "priority") && NotNull(Attr(command, k))
  }

  /**
   * A command's property set is layered: root `property` elements, then the command's own,
   * which overwrite same-named root ones, then its `known-issues` and `priority` attributes.
   */
  lemma PropertyLayers(root: Element, command: Element, k: string)
    requires PropertyPairs(Elements(root, "property")).Some?
    requires PropertyPairs(Elements(command, "property")).Some?
    ensures CommandProperties(root, command).Some?
    ensures AttributeLayer(command, k) ==>
      k in CommandProperties(root, command).value && CommandProperties(root, command).value[k] == command.attributes[k]
    ensures !AttributeLayer(command, k) ==>
      var rootPairs := PropertyPairs(Elements(root, "property")).value;
      var commandPairs := PropertyPairs(Elements(command, "property")).value;
      var p := CommandProperties(root, command).value;
      && (k in p <==> LastValue(commandPairs, k).Some? || LastValue(rootPairs, k).Some?)
      && (LastValue(commandPairs, k).Some? ==> p[k] == LastValue(commandPairs, k).value)
      && (LastValue(commandPairs, k).None? && LastValue(rootPairs, k).Some? ==> p[k] == LastValue(rootPairs, k).value)
  {
    var rootPairs := PropertyPairs(Elements(root, "property")).value;
    var commandPairs := PropertyPairs(Elements(command, "property")).value;
    SetAllLastWins(map[], rootPairs, k);
    SetAllLastWins(SetAll(map[], rootPairs), commandPairs, k);
  }

  /** A `java.util.Properties` object: its own table and, for a layered one, the handle of its defaults. */
  datatype Properties = Properties(table: map<string, string>, defaults: Option<nat>)

  /** Every defaults handle names an object created earlier, so lookups through defaults end. */
  predicate DefaultsEarlier(store: seq<Properties>) {
    forall i :: 0 <= i < |store| && store[i].defaults.Some? ==> store[i].defaults.value < i
  }

  /** Creating a new object whose defaults, if any, already exist keeps defaults chains finite. */
  lemma AppendKeepsDefaultsEarlier(store: seq<Properties>, p: Properties)
    requires DefaultsEarlier(store)
    requires p.defaults.Some? ==> p.defaults.value < |store|
    ensures DefaultsEarlier(store + [p])
  {
    forall i | 0 <= i < |store + [p]| && (store + [p])[i].defaults.Some?
      ensures (store + [p])[i].defaults.value < i
    {
      if i < |store| {
        assert (store + [p])[i] == store[i];
      }
    }
  }

  /** `getProperty(k)` on the object with handle `h`: its own table first, then its defaults. */
  function GetProperty(store: seq<Properties>, h: nat, k: string): Option<string>
    requires h < |store| && DefaultsEarlier(store)
    decreases h
  {
    if k in store[h].table then Some(store[h].table[k])
    else match store[h].defaults
      case None => None
      case Some(d) => GetProperty(store, d, k)
  }

  /** Creating a new object changes no lookup through the objects that already exist. */
  lemma {:induction false} GetPropertyAfterAppend(store: seq<Properties>, p: Properties, h: nat, k: string)
    requires DefaultsEarlier(store) && DefaultsEarlier(store + [p]) && h < |store|
    ensures GetProperty(store + [p], h, k) == GetProperty(store, h, k)
    decreases h
  {
    assert (store + [p])[h] == store[h];
    if k !in store[h].table && store[h].defaults.Some? {
      GetPropertyAfterAppend(store, p, store[h].defaults.value, k);
    }
  }

  /** The table `getProperty` sees: the defaults' table overlaid with the object's own. */
  function Effective(store: seq<Properties>, h: nat): map<string, string>
    requires h < |store| && DefaultsEarlier(store)
    decreases h
  {
    (match store[h].defaults
     case None => map[]
     case Some(d) => Effective(store, d)) + store[h].table
  }

  lemma {:induction false} EffectiveAgreesWithGetProperty(store: seq<Properties>, h: nat, k: string)
    requires h < |store| && DefaultsEarlier(store)
    ensures k in Effective(store, h) <==> GetProperty(store, h, k).Some?
    ensures k in Effective(store, h) ==> Effective(store, h)[k] == GetProperty(store, h, k).value
    decreases h
  {
    if store[h].defaults.Some? {
      EffectiveAgreesWithGetProperty(store, store[h].defaults.value, k);
    }
  }

  // ---------------------------------------------------------------- function locator count

  /** The first index at or above `i` that is not a placeholder. */
  function FirstMissing(placeholders: set<nat>, i: nat): (r: nat)
    ensures r >= i && r !in placeholders
    ensures forall j :: i <= j < r ==> j in placeholders
    decreases |set j | j in placeholders && j >= i|
  {
    if i in placeholders then
      assert (set j | j in placeholders && j >= i) == (set j | j in placeholders && j >= i + 1) + {i};
      FirstMissing(placeholders, i + 1)
    else i
  }

  /**
   * The locator count stored for a function file whose XML mentions `${locatorN}` exactly for
   * the N in `placeholders`: the length of the run 1, 2, ... of mentioned placeholders, but 1
   * when `${locator1}` is not mentioned at all.
   */
  function FunctionLocatorCount(placeholders: set<nat>): nat {
    var i := FirstMissing(placeholders, 1);
    if i > 1 then i - 1 else i
  }

  /** The `for (int i = 1;; i++)` loop of `_storeRootElement` and `_overrideRootElement`. */
  method CountLocators(placeholders: set<nat>) returns (count: nat)
    ensures count == FunctionLocatorCount(placeholders)
    ensures 1 !in placeholders ==> count == 1
    ensures 1 in placeholders ==>
      (forall j :: 1 <= j <= count ==> j in placeholders) && count + 1 !in placeholders
  {
    var i := 1;
    while i in placeholders
      invariant i >= 1
      invariant FirstMissing(placeholders, i) == FirstMissing(placeholders, 1)
      decreases |set j | j in placeholders && j >= i|
    {
      assert (set j | j in placeholders && j >= i) == (set j | j in placeholders && j >= i + 1) + {i};
      i := i + 1;
    }
    if i > 1 {
      i := i - 1;
    }
    count := i;
  }

  // ---------------------------------------------------------------- file order

  const FileTypeOrder: seq<string> := ["action", "path", "function", "macro", "testcase", "prose"]

  function IndexIn(xs: seq<string>, x: string): (r: int)
    ensures -1 <= r < |xs|
    ensures r >= 0 ==> xs[r] == x
    ensures r == -1 <==> x !in xs
  {
    if xs == [] then -1
    else if xs[0] == x then 0
    else
      var i := IndexIn(xs[1..], x);
      if i == -1 then -1 else i + 1
  }

  /** `fileTypeList.indexOf(toLowerCase(fileType))`: -1 for a type outside the list. */
  function FileTypeRank(fileType: string): int {
    IndexIn(FileTypeOrder, ToLowerAscii(fileType))
  }

  /** The comparator of `_storeRootElements`; the source throws when either path has no type. */
  function CompareFiles(a: PoshiFile, b: PoshiFile): int
    requires a.fileType.Some? && b.fileType.Some?
  {
    var ra := FileTypeRank(a.fileType.value);
    var rb := FileTypeRank(b.fileType.value);
    if ra < rb then -1
    else if ra > rb then 1
    else CompareStrings(a.filePath, b.filePath)
  }

  /** The rank used for sorting; files without a type are only sorted when they are alone. */
  function SortRank(f: PoshiFile): int {
    if f.fileType.Some? then FileTypeRank(f.fileType.value) else -2
  }

  predicate FileOrderLe(a: PoshiFile, b: PoshiFile) {
    SortRank(a) < SortRank(b) || (SortRank(a) == SortRank(b) && CompareStrings(a.filePath, b.filePath) <= 0)
  }

  lemma FileOrderLeAgreesWithComparator(a: PoshiFile, b: PoshiFile)
    requires a.fileType.Some? && b.fileType.Some?
    ensures FileOrderLe(a, b) <==> CompareFiles(a, b) <= 0
  {
  }

  lemma FileOrderIsTotalPreorder()
    ensures TotalPreorder(FileOrderLe)
  {
    forall a: PoshiFile, b: PoshiFile ensures FileOrderLe(a, b) || FileOrderLe(b, a) {
      CompareAntisymmetric(a.filePath, b.filePath);
    }
    forall a: PoshiFile, b: PoshiFile, c: PoshiFile | FileOrderLe(a, b) && FileOrderLe(b, c)
      ensures FileOrderLe(a, c)
    {
      if SortRank(a) == SortRank(b) == SortRank(c) {
        CompareTransitive(a.filePath, b.filePath, c.filePath);
      }
    }
  }

  /** `Collections.sort(urls, comparator)`: it throws once it compares a file without a type. */
  function SortFiles(files: seq<PoshiFile>): Result<seq<PoshiFile>, RegistryError> {
    if |files| >= 2 && exists f :: f in files && f.fileType.None? then Err(UnsortableFiles)
    else Ok(SortBy(files, FileOrderLe))
  }

  /**
   * Sorting stores every file once, all actions before paths, functions, macros, test cases and
   * prose files, and files of one type by path.
   */
  lemma SortFilesOrder(files: seq<PoshiFile>)
    requires SortFiles(files).Ok?
    ensures multiset(SortFiles(files).value) == multiset(files)
    ensures forall i, j :: 0 <= i < j < |SortFiles(files).value| ==>
      var a := SortFiles(files).value[i];
      var b := SortFiles(files).value[j];
      SortRank(a) <= SortRank(b) &&
      (SortRank(a) == SortRank(b) ==> CompareStrings(a.filePath, b.filePath) <= 0)
  {
    FileOrderIsTotalPreorder();
    SortByIsSortedPermutation(files, FileOrderLe);
  }

  // ---------------------------------------------------------------- namespaces

  /** The namespace of locally authored files; no dependency may use it. */
  const DefaultNamespace := "LocalFile"

  /**
   * The namespace checks of `_readPoshiFilesFromClassPath`: `found` is the capitalised
   * namespace group of the jar name, `None` when the jar name does not match.
   */
  function AdmitNamespace(admitted: seq<string>, found: Option<string>): (r: Result<string, RegistryError>)
    ensures r.Ok? <==> found.Some? && found.value != DefaultNamespace && found.value !in admitted
    ensures r.Ok? ==> r.value == found.value
  {
    match found
    case None => Err(MissingNamespace)
    case Some(n) =>
      if n == DefaultNamespace then Err(ReservedNamespace)
      else if n in admitted then Err(DuplicateNamespace(n))
      else Ok(n)
  }
}
