/**
 * PoshiRunnerContext: the registry's static maps and lists, and the operations that fill them in
 * place, loop by loop as the source does. Each operation is proved to leave the registry exactly
 * as the corresponding function of module Registry says, or to throw the exception it says; the
 * properties of those functions are the lemmas of RegistryFacts, OverrideFacts, ExtendsFacts and
 * ReadFacts.
 */
module Context {
  import opened Wrappers
  import opened Text
  import opened ScriptTree
  import opened RegistryRules
  import opened Registry
  import opened ReadFacts

  /**
   * A method that returns `err` and leaves the registry at `now` did what `outcome` says:
   * on a result it threw nothing and the registry is that result; on an exception it threw that one
   * (what it had already stored by then is not specified).
   */
  predicate Follows(err: Option<RegistryError>, now: Snapshot, outcome: Result<Snapshot, RegistryError>) {
    match outcome
    case Ok(t) => err.None? && now == t
    case Err(e) => err == Some(e)
  }

  // ---------------------------------------------------------------- one more pass of each loop

  /** A failing prefix of the rows makes the whole table fail with the same exception. */
  lemma {:induction false} ReadRowsFailurePersists(trs: seq<Element>, k: nat, filePath: string)
    requires k <= |trs| && ReadRows(trs[..k], filePath).Err?
    ensures ReadRows(trs, filePath) == ReadRows(trs[..k], filePath)
    decreases |trs| - k
  {
    if k < |trs| {
      var n := |trs| - 1;
      assert trs[..n][..k] == trs[..k];
      ReadRowsFailurePersists(trs[..n], k, filePath);
    } else {
      assert trs[..k] == trs;
    }
  }

  /** A row read after the first `i` extends their rows by one. */
  lemma ReadRowsStep(trs: seq<Element>, i: nat, filePath: string, rows: seq<PathRow>, row: PathRow)
    requires i < |trs| && ReadRows(trs[..i], filePath) == Ok(rows) && ReadRow(trs[i], filePath) == Ok(row)
    ensures ReadRows(trs[..i + 1], filePath) == Ok(rows + [row])
  {
    assert trs[..i + 1][..i] == trs[..i];
  }

  /** A short row after the first `i` fails the whole table. */
  lemma ReadRowsShortRow(trs: seq<Element>, i: nat, filePath: string, rows: seq<PathRow>)
    requires i < |trs| && ReadRows(trs[..i], filePath) == Ok(rows) && ReadRow(trs[i], filePath).Err?
    ensures ReadRows(trs, filePath) == Err(ReadRow(trs[i], filePath).error)
  {
    assert trs[..i + 1][..i] == trs[..i];
    ReadRowsFailurePersists(trs, i + 1, filePath);
  }

  /** The state of the row loop after `i` rows: they were read as `rows`, stored into `t0` giving `t`, and `seen` holds their kept keys. */
  ghost predicate RowsStored(trs: seq<Element>, i: nat, className: string, filePath: string, ns: string,
                             t0: Snapshot, rows: seq<PathRow>, seen: set<string>, t: Snapshot) {
    && i <= |trs|
    && ReadRows(trs[..i], filePath) == Ok(rows)
    && t == StoreRows(t0, className, filePath, ns, rows)
    && seen == PairKeys(KeptPairs(rows))
  }

  /** Storing one more row is one more pass of the row loop, with the keys of the earlier kept rows. */
  lemma StoreRowsStep(trs: seq<Element>, i: nat, className: string, filePath: string, ns: string,
                      t0: Snapshot, rows: seq<PathRow>, seen: set<string>, row: PathRow, after: Snapshot)
    requires i < |trs| && RowsStored(trs, i, className, filePath, ns, t0, rows, seen, StoreRows(t0, className, filePath, ns, rows))
    requires ReadRow(trs[i], filePath) == Ok(row)
    requires after == StoreRow(StoreRows(t0, className, filePath, ns, rows), className, filePath, ns, row, seen)
    ensures RowsStored(trs, i + 1, className, filePath, ns, t0, rows + [row],
                       seen + (if Skipped(row) then {} else {row.key}), after)
  {
    ReadRowsStep(trs, i, filePath, rows, row);
    StoreRowsAppend(t0, className, filePath, ns, rows, row);
    KeptKeysAppend(rows, row);
  }

  lemma StoreRowsAppend(t0: Snapshot, className: string, filePath: string, ns: string, rows: seq<PathRow>, row: PathRow)
    ensures StoreRows(t0, className, filePath, ns, rows + [row])
         == StoreRow(StoreRows(t0, className, filePath, ns, rows), className, filePath, ns, row, PairKeys(KeptPairs(rows)))
  {
    assert (rows + [row])[..|rows|] == rows;
  }

  lemma KeptKeysAppend(rows: seq<PathRow>, row: PathRow)
    ensures PairKeys(KeptPairs(rows + [row])) == PairKeys(KeptPairs(rows)) + (if Skipped(row) then {} else {row.key})
  {
    assert (rows + [row])[..|rows|] == rows;
    var ps := KeptPairs(rows);
    if !Skipped(row) {
      assert forall x :: x in ps + [(row.key, row.locator)] <==> x in ps || x == (row.key, row.locator);
    } else {
      assert ps + [] == ps;
    }
  }

  lemma StoreCommandsStep(t: Snapshot, f: PoshiFile, ns: string, commands: seq<Element>, i: nat)
    requires i < |commands|
    ensures StoreCommands(t, f, ns, commands[i..]) ==
      match StoreCommand(t, f, ns, commands[i])
      case Err(e) => Err(e)
      case Ok(t1) => StoreCommands(t1, f, ns, commands[i + 1..])
  {
    assert commands[i..][1..] == commands[i + 1..];
  }

  lemma OverrideCommandsStep(t: Snapshot, f: PoshiFile, baseNs: string, commands: seq<Element>, i: nat)
    requires i < |commands|
    ensures OverrideCommands(t, f, baseNs, commands[i..]) ==
      match OverrideCommand(t, f, baseNs, commands[i])
      case Err(e) => Err(e)
      case Ok(t1) => OverrideCommands(t1, f, baseNs, commands[i + 1..])
  {
    assert commands[i..][1..] == commands[i + 1..];
  }

  lemma PutVarsStep(vars: seq<Element>, more: seq<Element>, i: nat)
    requires i < |more|
    ensures PutVars(vars, more[i..]) == PutVars(PutVar(vars, more[i]), more[i + 1..])
  {
    assert more[i..][1..] == more[i + 1..];
  }

  lemma ExtendCommandsStep(t: Snapshot, qc: QualifiedClass, root: Element, baseClass: string, commands: seq<Element>, i: nat)
    requires i < |commands|
    ensures ExtendCommands(t, qc, root, baseClass, commands[i..]) ==
      match ExtendCommand(t, qc, root, baseClass, commands[i])
      case Err(e) => Err(e)
      case Ok(t1) => ExtendCommands(t1, qc, root, baseClass, commands[i + 1..])
  {
    assert commands[i..][1..] == commands[i + 1..];
  }

  lemma ListCommandsStep(t: Snapshot, qc: QualifiedClass, root: Element, commands: seq<Element>, i: nat)
    requires i < |commands|
    ensures ListCommands(t, qc, root, commands[i..]) ==
      match ListCommand(t, qc, root, commands[i])
      case Err(e) => Err(e)
      case Ok(t1) => ListCommands(t1, qc, root, commands[i + 1..])
  {
    assert commands[i..][1..] == commands[i + 1..];
  }

  lemma InitClassesStep(t: Snapshot, classes: seq<QualifiedClass>, i: nat)
    requires i < |classes|
    ensures InitClasses(t, classes[i..]) ==
      match InitClass(t, classes[i])
      case Err(e) => Err(e)
      case Ok(t1) => InitClasses(t1, classes[i + 1..])
  {
    assert classes[i..][1..] == classes[i + 1..];
  }

  /** After file `i` is stored with outcome `err` and tables `t1`, the rest of the files decide the outcome. */
  lemma StoreFilesStep(t: Snapshot, files: seq<PoshiFile>, ns: string, i: nat, err: Option<RegistryError>, t1: Snapshot)
    requires i < |files| && Follows(err, t1, StoreFile(t, files[i], ns))
    ensures err.Some? ==> Follows(err, t1, StoreFiles(t, files[i..], ns))
    ensures err.None? ==> StoreFiles(t, files[i..], ns) == StoreFiles(t1, files[i + 1..], ns)
  {
    assert files[i..][1..] == files[i + 1..];
  }

  lemma ReadSourcesStep(t: Snapshot, sources: seq<Source>, i: nat)
    requires i < |sources|
    ensures ReadSources(t, sources[i..]) ==
      match ReadSource(t, sources[i])
      case Err(e) => Err(e)
      case Ok(t1) => ReadSources(t1, sources[i + 1..])
  {
    assert sources[i..][1..] == sources[i + 1..];
  }

  /** A source that throws makes `_readPoshiFiles()` throw the same exception before the expansion. */
  lemma ReadPoshiFilesFailsEarly(t: Snapshot, sources: seq<Source>, i: nat, before: Snapshot, e: RegistryError)
    requires i < |sources| && ReadSources(t, sources) == ReadSources(before, sources[i..])
    requires ReadSource(before, sources[i]) == Err(e)
    ensures ReadAndExpand(t, sources) == Err(e) && ReadPoshiFiles(t, sources) == Err(e)
  {
    ReadSourcesStep(before, sources, i);
  }

  /** A source read without exception leaves the rest of the sources to read from its result. */
  lemma ReadSourcesNext(t: Snapshot, sources: seq<Source>, i: nat, before: Snapshot, after: Snapshot)
    requires i < |sources| && ReadSources(t, sources) == ReadSources(before, sources[i..])
    requires ReadSource(before, sources[i]) == Ok(after)
    ensures ReadSources(t, sources) == ReadSources(after, sources[i + 1..])
  {
    ReadSourcesStep(before, sources, i);
  }

  /** Once the sources are read into `t1`, the expansion decides what `_readPoshiFiles()` stores and throws. */
  lemma ReadPoshiFilesAfterSources(t: Snapshot, sources: seq<Source>, t1: Snapshot)
    requires ReadSources(t, sources) == Ok(t1)
    ensures ReadAndExpand(t, sources) == InitComponentCommandNames(t1)
    ensures ReadPoshiFiles(t, sources) ==
      match InitComponentCommandNames(t1)
      case Err(e) => Err(e)
      case Ok(t2) => if t2.duplicateMessages != {} then Err(DuplicateLocators(t2.duplicateMessages)) else Ok(t2)
  {
  }

  // ---------------------------------------------------------------- the registry object

  class PoshiRunnerContext {
    /** The static maps and lists, one component each (see Registry.Tables). */
    var tables: Snapshot

    /** The static initialisers: every map and list starts empty. */
    constructor ()
      ensures tables == EmptyTables
    {
      tables := EmptyTables;
    }

    /** `clear()`: six of the modelled maps are emptied, everything else is kept. */
    method Clear()
      modifies this
      ensures tables == Cleared(old(tables))
    {
      tables := tables.(commandElements := map[], commandSummaries := map[], filePaths := map[],
                        functionLocatorCounts := map[], pathLocators := map[], rootElements := map[]);
    }

    // -------------------------------------------------------------- _storePathElement

    /** One kept or skipped row of a path table; `seen` holds the keys of the earlier kept rows. */
    method StorePathRow(className: string, filePath: string, ns: string, row: PathRow, seen: set<string>)
      modifies this
      ensures tables == StoreRow(old(tables), className, filePath, ns, row, seen)
    {
      if !Skipped(row) {
        if row.key == ExtendActionPath {
          tables := tables.(duplicateMessages := tables.duplicateMessages + RowMessages(className, filePath, ns, row, seen),
                            pathExtensions := tables.pathExtensions[QualifiedClass(ns, className) := row.locator]);
        } else {
          tables := tables.(duplicateMessages := tables.duplicateMessages + RowMessages(className, filePath, ns, row, seen),
                            pathLocators := tables.pathLocators[LocatorKey(ns, className, row.key) := row.locator]);
        }
      }
    }

    /** The row loop of `_storePathElement`: every row is read and stored in turn, until a short one throws. */
    method StoreTableRows(trs: seq<Element>, className: string, filePath: string, ns: string) returns (err: Option<RegistryError>)
      modifies this
      ensures match ReadRows(trs, filePath)
        case Err(e) => err == Some(e)
        case Ok(rows) => err.None? && tables == StoreRows(old(tables), className, filePath, ns, rows)
    {
      ghost var rows: seq<PathRow> := [];
      var seen: set<string> := {};
      var i := 0;
      while i < |trs|
        invariant i <= |trs|
        invariant RowsStored(trs, i, className, filePath, ns, old(tables), rows, seen, tables)
      {
        var read := ReadRow(trs[i], filePath);
        if read.Err? {
          ReadRowsShortRow(trs, i, filePath, rows);
          return Some(read.error);
        }
        var row := read.value;
        StorePathRow(className, filePath, ns, row, seen);
        StoreRowsStep(trs, i, className, filePath, ns, old(tables), rows, seen, row, tables);
        if !Skipped(row) {
          seen := seen + {row.key};
        }
        rows := rows + [row];
        i := i + 1;
      }
      assert trs[..i] == trs;
      return None;
    }

    /** `_storePathElement(rootElement, className, filePath, namespace)`: the root first, then the rows. */
    method StorePathElement(root: Element, className: string, filePath: string, ns: string) returns (err: Option<RegistryError>)
      modifies this
      ensures Follows(err, tables, StorePath(old(tables), root, className, filePath, ns))
    {
      tables := tables.(rootElements := if Attr(root, "override").None?
        then tables.rootElements[ClassKey(Path, ns, className) := root] else tables.rootElements);
      var table := TableRows(root);
      if table.None? {
        return Some(MissingValue("body/table/tbody"));
      }
      err := StoreTableRows(table.value, className, filePath, ns);
    }

    // -------------------------------------------------------------- _storeRootElement

    /** One pass of the command loop of `_storeRootElement`: a repeated key only adds a message. */
    method StoreCommandElement(f: PoshiFile, ns: string, command: Element) returns (err: Option<RegistryError>)
      modifies this
      ensures Follows(err, tables, StoreCommand(old(tables), f, ns, command))
    {
      var name := AttrText(command, "name");
      var key := CommandKey(f.classType, ns, f.className, name);
      if key in tables.commandElements {
        tables := tables.(duplicateMessages := tables.duplicateMessages + {DuplicateCommandMessage(tables, f, ns, command)});
        return None;
      }
      tables := WithCommand(tables, key, command, CommandSummary(f.className + "#" + name, f.classType, command, f.root));
      if f.classType == TestCase {
        var props := CommandProperties(f.root, command);
        if props.None? {
          return Some(MissingValue("property name or value"));
        }
        tables := AddTestProperties(tables, QualifiedCommand(ns, f.className, name), command, Properties(props.value, None));
      }
      return None;
    }

    /** The command loop of `_storeRootElement`. */
    method StoreCommandElements(f: PoshiFile, ns: string, commands: seq<Element>) returns (err: Option<RegistryError>)
      modifies this
      ensures Follows(err, tables, StoreCommands(old(tables), f, ns, commands))
    {
      var i := 0;
      while i < |commands|
        invariant 0 <= i <= |commands|
        invariant StoreCommands(old(tables), f, ns, commands) == StoreCommands(tables, f, ns, commands[i..])
      {
        StoreCommandsStep(tables, f, ns, commands, i);
        err := StoreCommandElement(f, ns, commands[i]);
        if err.Some? {
          return;
        }
        i := i + 1;
      }
      return None;
    }

    /** The default command of a function class, stored again under the class key with its summary. */
    method StoreDefaultCommandElement(root: Element, ns: string, className: string) returns (err: Option<RegistryError>)
      modifies this
      ensures Follows(err, tables, StoreDefaultCommand(old(tables), root, ns, className))
    {
      var defaultName := AttrText(root, "default");
      var named := CommandKey(Function, ns, className, defaultName);
      if named !in tables.commandElements {
        return Some(MissingValue("default function command"));
      }
      var command := tables.commandElements[named];
      var key := DefaultCommandKey(Function, ns, className);
      tables := tables.(commandElements := tables.commandElements[key := command],
                        commandSummaries := tables.commandSummaries[key := CommandSummary(className + "#" + defaultName, Function, command, root)]);
      return None;
    }

    /** The end of `_storeRootElement` for a function file: the default command and the locator count. */
    method StoreFunctionDefaultElements(f: PoshiFile, ns: string) returns (err: Option<RegistryError>)
      modifies this
      ensures Follows(err, tables, StoreFunctionDefaults(old(tables), f, ns))
    {
      err := StoreDefaultCommandElement(f.root, ns, f.className);
      if err.Some? {
        return;
      }
      var count := CountLocators(f.locatorPlaceholders);
      tables := tables.(functionLocatorCounts := tables.functionLocatorCounts[QualifiedClass(ns, f.className) := count]);
    }

    /** `_storeRootElement(rootElement, filePath, namespace)` for a file without an `override` attribute. */
    method StoreRootElement(f: PoshiFile, ns: string) returns (err: Option<RegistryError>)
      modifies this
      ensures Follows(err, tables, StoreRoot(old(tables), f, ns))
    {
      if HasCommands(f.classType) {
        var key := ClassKey(f.classType, ns, f.className);
        tables := tables.(testCaseClassNames := if f.classType == TestCase then tables.testCaseClassNames + [QualifiedClass(ns, f.className)] else tables.testCaseClassNames,
                          commandElements := if f.classType == TestCase then WithSetUpTearDown(tables.commandElements, f.root, ns, f.className) else tables.commandElements,
                          rootElements := tables.rootElements[key := f.root],
                          rootVarElements := tables.rootVarElements[key := Elements(f.root, "var")]);
        err := StoreCommandElements(f, ns, Elements(f.root, "command"));
        if err.None? && f.classType == Function {
          err := StoreFunctionDefaultElements(f, ns);
        }
      } else if f.classType == Path {
        err := StorePathElement(f.root, f.className, f.filePath, ns);
      } else {
        err := None;
      }
    }

    // -------------------------------------------------------------- _overrideRootElement

    /** One pass of the override command loop: the command replaces the base one under the base namespace. */
    method OverrideCommandElement(f: PoshiFile, baseNs: string, command: Element) returns (err: Option<RegistryError>)
      modifies this
      ensures Follows(err, tables, OverrideCommand(old(tables), f, baseNs, command))
    {
      var name := AttrText(command, "name");
      var key := CommandKey(f.classType, baseNs, f.className, name);
      tables := WithCommand(tables, key, command, CommandSummary(f.className + "#" + name, f.classType, command, f.root));
      if f.classType == TestCase {
        var props := CommandProperties(f.root, command);
        if props.None? {
          return Some(MissingValue("property name or value"));
        }
        var q := QualifiedCommand(baseNs, f.className, name);
        var base := if q in tables.commandProperties then Some(tables.commandProperties[q]) else None;
        tables := AddTestProperties(tables, q, command, Properties(props.value, base));
      }
      return None;
    }

    /** The command loop of `_overrideRootElement`. */
    method OverrideCommandElements(f: PoshiFile, baseNs: string, commands: seq<Element>) returns (err: Option<RegistryError>)
      modifies this
      ensures Follows(err, tables, OverrideCommands(old(tables), f, baseNs, commands))
    {
      var i := 0;
      while i < |commands|
        invariant 0 <= i <= |commands|
        invariant OverrideCommands(old(tables), f, baseNs, commands) == OverrideCommands(tables, f, baseNs, commands[i..])
      {
        OverrideCommandsStep(tables, f, baseNs, commands, i);
        err := OverrideCommandElement(f, baseNs, commands[i]);
        if err.Some? {
          return;
        }
        i := i + 1;
      }
      return None;
    }

    /** The two `put` loops of the var merge: every element of `more`, keyed by name, into `vars`. */
    static method PutVarElements(vars: seq<Element>, more: seq<Element>) returns (merged: seq<Element>)
      ensures merged == PutVars(vars, more)
    {
      merged := vars;
      var i := 0;
      while i < |more|
        invariant 0 <= i <= |more|
        invariant PutVars(merged, more[i..]) == PutVars(vars, more)
      {
        PutVarsStep(merged, more, i);
        merged := PutVar(merged, more[i]);
        i := i + 1;
      }
      assert more[i..] == [];
    }

    /** The var merge of `_overrideRootElement`: nothing is stored when the override has no vars. */
    method OverrideVarElements(f: PoshiFile, baseNs: string) returns (err: Option<RegistryError>)
      modifies this
      ensures Follows(err, tables, OverrideVars(old(tables), f, baseNs))
    {
      var overrideVars := Elements(f.root, "var");
      var key := ClassKey(f.classType, baseNs, f.className);
      if overrideVars == [] {
        return None;
      }
      if key !in tables.rootVarElements {
        return Some(MissingValue("base var elements"));
      }
      var merged := PutVarElements([], tables.rootVarElements[key]);
      merged := PutVarElements(merged, overrideVars);
      tables := tables.(rootVarElements := tables.rootVarElements[key := merged]);
      return None;
    }

    /** The end of `_overrideRootElement` for a function file: the base default command and the locator-count check. */
    method OverrideFunctionDefaultElements(f: PoshiFile, ns: string) returns (err: Option<RegistryError>)
      modifies this
      ensures Follows(err, tables, OverrideFunctionDefaults(old(tables), f, ns))
    {
      err := StoreDefaultCommandElement(f.root, f.overrideBase.namespace, f.className);
      if err.Some? {
        return;
      }
      var count := CountLocators(f.locatorPlaceholders);
      var base := QualifiedClass(f.overrideBase.namespace, f.className);
      if base !in tables.functionLocatorCounts {
        return Some(MissingValue("base locator count"));
      }
      if count > tables.functionLocatorCounts[base] {
        return Some(LocatorCountExceeded(QualifiedClass(ns, f.className), count, base, tables.functionLocatorCounts[base]));
      }
    }

    /** `_overrideRootElement(rootElement, filePath, namespace)`. */
    method OverrideRootElement(f: PoshiFile, ns: string) returns (err: Option<RegistryError>)
      modifies this
      ensures Follows(err, tables, Override(old(tables), f, ns))
    {
      var baseNs := f.overrideBase.namespace;
      var base := QualifiedClass(baseNs, f.overrideBase.className);
      if f.className != f.overrideBase.className {
        return Some(OverrideClassNameMismatch(f.className, f.overrideBase.className));
      }
      if base in tables.overrideClassNames {
        return Some(DuplicateOverride(base, QualifiedClass(ns, f.className), tables.overrideClassNames[base]));
      }
      tables := tables.(commandElements := if f.classType == TestCase
        then WithSetUpTearDown(tables.commandElements, f.root, baseNs, f.className) else tables.commandElements);
      if HasCommands(f.classType) {
        err := OverrideVarElements(f, baseNs);
        if err.None? {
          err := OverrideCommandElements(f, baseNs, Elements(f.root, "command"));
          if err.None? && f.classType == Function {
            err := OverrideFunctionDefaultElements(f, ns);
          }
        }
      } else if f.classType == Path {
        err := StorePathElement(f.root, f.className, f.filePath, baseNs);
      } else {
        err := None;
      }
    }

    // -------------------------------------------------------------- _storeRootElements

    /** One pass of the file loop of `_storeRootElements`. */
    method StoreFileElement(f: PoshiFile, ns: string) returns (err: Option<RegistryError>)
      modifies this
      ensures Follows(err, tables, StoreFile(old(tables), f, ns))
    {
      if IsOverride(f) {
        err := OverrideRootElement(f, ns);
        return;
      }
      err := StoreRootElement(f, ns);
      if err.None? {
        tables := tables.(filePaths := tables.filePaths[FileKey(ns, f.fileName) := f.filePath],
                          functionFileNames := if EndsWith(f.fileName, ".function")
                            then tables.functionFileNames + {RemoveAll(f.fileName, ".function")} else tables.functionFileNames);
      }
    }

    /** `_storeRootElements(urls, namespace)`: sort the files, then store them in that order. */
    method StoreRootElements(files: seq<PoshiFile>, ns: string) returns (err: Option<RegistryError>)
      modifies this
      ensures Follows(err, tables, Registry.StoreRootElements(old(tables), files, ns))
    {
      var sorted := SortFiles(files);
      if sorted.Err? {
        return Some(sorted.error);
      }
      var fs := sorted.value;
      assert Registry.StoreRootElements(old(tables), files, ns) == StoreFiles(old(tables), fs, ns);
      var i := 0;
      while i < |fs|
        invariant 0 <= i <= |fs|
        invariant StoreFiles(old(tables), fs, ns) == StoreFiles(tables, fs[i..], ns)
      {
        ghost var before := tables;
        err := StoreFileElement(fs[i], ns);
        StoreFilesStep(before, fs, ns, i, err, tables);
        if err.Some? {
          return;
        }
        i := i + 1;
      }
      return None;
    }

    // -------------------------------------------------------------- _initComponentCommandNamesMap

    /** An extended command the subclass ignores: it shares the base command's Properties, now marked ignored. */
    method ExtendIgnoredCommand(qc: QualifiedClass, root: Element, baseClass: string, command: Element) returns (err: Option<RegistryError>)
      requires IsIgnorable(root, command, Attr(command, "name"))
      modifies this
      ensures Follows(err, tables, ExtendCommand(old(tables), qc, root, baseClass, command))
    {
      var name := AttrText(command, "name");
      var baseQ := QualifiedCommand(qc.namespace, baseClass, name);
      if baseQ !in tables.commandProperties {
        return Some(MissingValue("properties of the extended command"));
      }
      var h := tables.commandProperties[baseQ];
      tables := tables.(propertySets := SetIgnored(tables.propertySets, h),
                        commandProperties := tables.commandProperties[QualifiedCommand(qc.namespace, qc.className, name) := h],
                        commandElements := tables.commandElements[CommandKey(TestCase, qc.namespace, qc.className, name) := command]);
      return None;
    }

    /** An extended command the subclass keeps: it shares the base command's Properties, if there are any. */
    method ExtendKeptCommand(qc: QualifiedClass, root: Element, baseClass: string, command: Element) returns (err: Option<RegistryError>)
      requires !IsIgnorable(root, command, Attr(command, "name"))
      modifies this
      ensures Follows(err, tables, ExtendCommand(old(tables), qc, root, baseClass, command))
    {
      var name := AttrText(command, "name");
      var baseQ := QualifiedCommand(qc.namespace, baseClass, name);
      var q := QualifiedCommand(qc.namespace, qc.className, name);
      var key := CommandKey(TestCase, qc.namespace, qc.className, name);
      if baseQ !in tables.commandProperties {
        tables := tables.(commandProperties := tables.commandProperties - {q},
                          commandElements := tables.commandElements[key := command]);
      } else {
        tables := tables.(commandProperties := tables.commandProperties[q := tables.commandProperties[baseQ]],
                          commandElements := tables.commandElements[key := command]);
      }
      return None;
    }

    /** One pass of the loop over the extended class's commands. */
    method ExtendCommandElement(qc: QualifiedClass, root: Element, baseClass: string, command: Element) returns (err: Option<RegistryError>)
      modifies this
      ensures Follows(err, tables, ExtendCommand(old(tables), qc, root, baseClass, command))
    {
      if IsIgnorable(root, command, Attr(command, "name")) {
        err := ExtendIgnoredCommand(qc, root, baseClass, command);
      } else {
        err := ExtendKeptCommand(qc, root, baseClass, command);
      }
    }

    /** The loop over the extended class's commands. */
    method ExtendCommandElements(qc: QualifiedClass, root: Element, baseClass: string, commands: seq<Element>) returns (err: Option<RegistryError>)
      modifies this
      ensures Follows(err, tables, ExtendCommands(old(tables), qc, root, baseClass, commands))
    {
      var i := 0;
      while i < |commands|
        invariant 0 <= i <= |commands|
        invariant ExtendCommands(old(tables), qc, root, baseClass, commands) == ExtendCommands(tables, qc, root, baseClass, commands[i..])
      {
        ExtendCommandsStep(tables, qc, root, baseClass, commands, i);
        err := ExtendCommandElement(qc, root, baseClass, commands[i]);
        if err.Some? {
          return;
        }
        i := i + 1;
      }
      return None;
    }

    /** One pass of the loop over the class's own commands: mark an ignored one, list every one. */
    method ListCommandElement(qc: QualifiedClass, root: Element, command: Element) returns (err: Option<RegistryError>)
      modifies this
      ensures Follows(err, tables, ListCommand(old(tables), qc, root, command))
    {
      var q := QualifiedCommand(qc.namespace, qc.className, AttrText(command, "name"));
      if IsIgnorable(root, command, Attr(command, "name")) {
        if q !in tables.commandProperties {
          return Some(MissingValue("properties of the command"));
        }
        tables := tables.(propertySets := SetIgnored(tables.propertySets, tables.commandProperties[q]));
      }
      tables := tables.(testCaseCommandNames := tables.testCaseCommandNames + [q]);
      return None;
    }

    /** The loop over the class's own commands. */
    method ListCommandElements(qc: QualifiedClass, root: Element, commands: seq<Element>) returns (err: Option<RegistryError>)
      modifies this
      ensures Follows(err, tables, ListCommands(old(tables), qc, root, commands))
    {
      var i := 0;
      while i < |commands|
        invariant 0 <= i <= |commands|
        invariant ListCommands(old(tables), qc, root, commands) == ListCommands(tables, qc, root, commands[i..])
      {
        ListCommandsStep(tables, qc, root, commands, i);
        err := ListCommandElement(qc, root, commands[i]);
        if err.Some? {
          return;
        }
        i := i + 1;
      }
      return None;
    }

    /** The body of `_initComponentCommandNamesMap` for one test-case class. */
    method InitClassElements(qc: QualifiedClass) returns (err: Option<RegistryError>)
      modifies this
      ensures Follows(err, tables, InitClass(old(tables), qc))
    {
      var key := ClassKey(TestCase, qc.namespace, qc.className);
      if key !in tables.rootElements {
        return Some(MissingValue("test-case root element"));
      }
      var root := tables.rootElements[key];
      var ext := Attr(root, "extends");
      if ext.Some? {
        var extKey := ClassKey(TestCase, qc.namespace, ext.value);
        if extKey !in tables.rootElements {
          return Some(MissingValue("extended test-case root element"));
        }
        err := ExtendCommandElements(qc, root, ext.value, Elements(tables.rootElements[extKey], "command"));
        if err.Some? {
          return;
        }
      }
      err := ListCommandElements(qc, root, Elements(root, "command"));
    }

    /** `_initComponentCommandNamesMap()`: every stored test-case class, in the order it was stored. */
    method InitComponentCommandNamesMap() returns (err: Option<RegistryError>)
      modifies this
      ensures Follows(err, tables, InitComponentCommandNames(old(tables)))
    {
      var classes := tables.testCaseClassNames;
      var i := 0;
      while i < |classes|
        invariant 0 <= i <= |classes|
        invariant InitClasses(old(tables), classes) == InitClasses(tables, classes[i..])
      {
        InitClassesStep(tables, classes, i);
        err := InitClassElements(classes[i]);
        if err.Some? {
          return;
        }
        i := i + 1;
      }
      return None;
    }

    // -------------------------------------------------------------- _readPoshiFiles

    /** One directory or jar: a jar's namespace is admitted first. */
    method ReadSourceElements(s: Source) returns (err: Option<RegistryError>)
      modifies this
      ensures Follows(err, tables, ReadSource(old(tables), s))
    {
      match s
      case LocalFiles(files) =>
        err := StoreRootElements(files, DefaultNamespace);
      case ResourceJar(found, files) =>
        var ns := AdmitNamespace(tables.namespaces, found);
        if ns.Err? {
          return Some(ns.error);
        }
        tables := tables.(namespaces := tables.namespaces + [ns.value]);
        err := StoreRootElements(files, ns.value);
    }

    /** `_readPoshiFiles()`: every source in order, then the extends expansion, then the duplicate check. */
    method ReadPoshiFiles(sources: seq<Source>) returns (err: Option<RegistryError>)
      modifies this
      ensures Follows(err, tables, Registry.ReadPoshiFiles(old(tables), sources))
      ensures err.Some? && ReadAndExpand(old(tables), sources).Ok? ==> ReadAndExpand(old(tables), sources) == Ok(tables)
    {
      var i := 0;
      while i < |sources|
        invariant 0 <= i <= |sources|
        invariant ReadSources(old(tables), sources) == ReadSources(tables, sources[i..])
      {
        ghost var before := tables;
        err := ReadSourceElements(sources[i]);
        if err.Some? {
          ReadPoshiFilesFailsEarly(old(tables), sources, i, before, err.value);
          return;
        }
        ReadSourcesNext(old(tables), sources, i, before, tables);
        i := i + 1;
      }
      assert sources[i..] == [];
      ReadPoshiFilesAfterSources(old(tables), sources, tables);
      err := InitComponentCommandNamesMap();
      if err.Some? {
        return;
      }
      if tables.duplicateMessages != {} {
        return Some(DuplicateLocators(tables.duplicateMessages));
      }
      return None;
    }
  }

  /**
   * A caller that reads, calls `clear()` and reads again: when the first read stored everything
   * and still failed, the duplicate messages it left make the second read fail too.
   */
  method ReadClearRead(c: PoshiRunnerContext, first: seq<Source>, later: seq<Source>)
    returns (err1: Option<RegistryError>, err2: Option<RegistryError>)
    requires c.tables.overrideClassNames == map[]
    requires NamespacesDistinct(c.tables.namespaces)
    modifies c
    ensures err1.Some? && ReadAndExpand(old(c.tables), first).Ok? ==> err2.Some?
  {
    ghost var t0 := c.tables;
    err1 := c.ReadPoshiFiles(first);
    if err1.Some? && ReadAndExpand(t0, first).Ok? {
      FailedReadPoisonsLaterReads(t0, first, later);
    }
    c.Clear();
    err2 := c.ReadPoshiFiles(later);
  }
}
