/**
 * What a whole `_readPoshiFiles` run promises: `_overrideClassNames` is never written, so the
 * duplicate-override check never fires; namespaces stay distinct and never the default one;
 * duplicate messages only accumulate, so a registry that was not fully reset keeps failing.
 */
module ReadFacts {
  import opened Wrappers
  import opened Text
  import opened ScriptTree
  import opened RegistryRules
  import opened Registry
  import opened RegistryFacts
  import opened OverrideFacts
  import opened ExtendsFacts

  /** The override table and the namespaces are as they were; duplicate messages were only added. */
  predicate Settled(t: Tables, r: Tables) {
    && r.overrideClassNames == t.overrideClassNames
    && r.namespaces == t.namespaces
    && t.duplicateMessages <= r.duplicateMessages
  }

  /** The result is not the duplicate-override exception. */
  predicate NotDuplicateOverride<T>(r: Result<T, RegistryError>) {
    r.Err? ==> !r.error.DuplicateOverride?
  }

  // ---------------------------------------------------------------- commands of a stored file

  lemma StoreRepeatedCommandSettled(t: Snapshot, f: PoshiFile, ns: string, command: Element)
    requires CommandKey(f.classType, ns, f.className, AttrText(command, "name")) in t.commandElements
    ensures StoreCommand(t, f, ns, command).Ok? && Settled(t, StoreCommand(t, f, ns, command).value)
  {
  }

  lemma StoreOtherCommandSettled(t: Snapshot, f: PoshiFile, ns: string, command: Element)
    requires CommandKey(f.classType, ns, f.className, AttrText(command, "name")) !in t.commandElements
    requires f.classType != TestCase
    ensures StoreCommand(t, f, ns, command).Ok? && Settled(t, StoreCommand(t, f, ns, command).value)
  {
  }

  lemma StoreTestCommandSettled(t: Snapshot, f: PoshiFile, ns: string, command: Element)
    requires CommandKey(f.classType, ns, f.className, AttrText(command, "name")) !in t.commandElements
    requires f.classType == TestCase && CommandProperties(f.root, command).Some?
    ensures StoreCommand(t, f, ns, command).Ok? && Settled(t, StoreCommand(t, f, ns, command).value)
  {
  }

  lemma StoreBadTestCommandFails(t: Snapshot, f: PoshiFile, ns: string, command: Element)
    requires CommandKey(f.classType, ns, f.className, AttrText(command, "name")) !in t.commandElements
    requires f.classType == TestCase && CommandProperties(f.root, command).None?
    ensures StoreCommand(t, f, ns, command) == Err(MissingValue("property name or value"))
  {
  }

  lemma StoreCommandSettled(t: Snapshot, f: PoshiFile, ns: string, command: Element)
    ensures NotDuplicateOverride(StoreCommand(t, f, ns, command))
    ensures StoreCommand(t, f, ns, command).Ok? ==> Settled(t, StoreCommand(t, f, ns, command).value)
  {
    if CommandKey(f.classType, ns, f.className, AttrText(command, "name")) in t.commandElements {
      StoreRepeatedCommandSettled(t, f, ns, command);
    } else if f.classType != TestCase {
      StoreOtherCommandSettled(t, f, ns, command);
    } else if CommandProperties(f.root, command).Some? {
      StoreTestCommandSettled(t, f, ns, command);
    } else {
      StoreBadTestCommandFails(t, f, ns, command);
    }
  }

  lemma {:induction false} StoreCommandsSettled(t: Snapshot, f: PoshiFile, ns: string, commands: seq<Element>)
    ensures NotDuplicateOverride(StoreCommands(t, f, ns, commands))
    ensures StoreCommands(t, f, ns, commands).Ok? ==> Settled(t, StoreCommands(t, f, ns, commands).value)
    decreases |commands|
  {
    if commands != [] {
      StoreCommandSettled(t, f, ns, commands[0]);
      if StoreCommand(t, f, ns, commands[0]).Ok? {
        StoreCommandsSettled(StoreCommand(t, f, ns, commands[0]).value, f, ns, commands[1..]);
      }
    }
  }

  // ---------------------------------------------------------------- path files

  lemma {:induction false} StoreRowsSettled(t: Snapshot, className: string, filePath: string, ns: string, rows: seq<PathRow>)
    ensures Settled(t, StoreRows(t, className, filePath, ns, rows))
    decreases |rows|
  {
    if rows != [] {
      var init := rows[..|rows| - 1];
      StoreRowsSettled(t, className, filePath, ns, init);
      StoreRowCases(StoreRows(t, className, filePath, ns, init), className, filePath, ns, rows[|rows| - 1], PairKeys(KeptPairs(init)));
    }
  }

  lemma {:induction false} ReadRowsFailOnShortRow(trs: seq<Element>, filePath: string)
    ensures ReadRows(trs, filePath).Err? ==> ReadRows(trs, filePath).error.MissingTableCell?
    decreases |trs|
  {
    if trs != [] {
      ReadRowsFailOnShortRow(trs[..|trs| - 1], filePath);
    }
  }

  lemma StorePathSettled(t: Snapshot, root: Element, className: string, filePath: string, ns: string)
    ensures NotDuplicateOverride(StorePath(t, root, className, filePath, ns))
    ensures StorePath(t, root, className, filePath, ns).Ok? ==> Settled(t, StorePath(t, root, className, filePath, ns).value)
  {
    match TableRows(root)
    case None =>
    case Some(trs) =>
      ReadRowsFailOnShortRow(trs, filePath);
      if ReadRows(trs, filePath).Ok? {
        var t1 := t.(rootElements := if Attr(root, "override").None?
          then t.rootElements[ClassKey(Path, ns, className) := root] else t.rootElements);
        StoreRowsSettled(t1, className, filePath, ns, ReadRows(trs, filePath).value);
      }
  }

  // ---------------------------------------------------------------- a stored file

  lemma StoreFunctionDefaultsSettled(t: Snapshot, f: PoshiFile, ns: string)
    ensures NotDuplicateOverride(StoreFunctionDefaults(t, f, ns))
    ensures StoreFunctionDefaults(t, f, ns).Ok? ==> Settled(t, StoreFunctionDefaults(t, f, ns).value)
  {
  }

  /** The tables `_storeRootElement` has before its command loop. */
  function RootIndexed(t: Snapshot, f: PoshiFile, ns: string): Snapshot {
    var key := ClassKey(f.classType, ns, f.className);
    t.(testCaseClassNames := if f.classType == TestCase then t.testCaseClassNames + [QualifiedClass(ns, f.className)] else t.testCaseClassNames,
       commandElements := if f.classType == TestCase then WithSetUpTearDown(t.commandElements, f.root, ns, f.className) else t.commandElements,
       rootElements := t.rootElements[key := f.root],
       rootVarElements := t.rootVarElements[key := Elements(f.root, "var")])
  }

  lemma StoreRootWithCommandsSettled(t: Snapshot, f: PoshiFile, ns: string)
    requires HasCommands(f.classType) && f.classType != Function
    ensures StoreRoot(t, f, ns) == StoreCommands(RootIndexed(t, f, ns), f, ns, Elements(f.root, "command"))
    ensures NotDuplicateOverride(StoreRoot(t, f, ns))
    ensures StoreRoot(t, f, ns).Ok? ==> Settled(t, StoreRoot(t, f, ns).value)
  {
    StoreCommandsSettled(RootIndexed(t, f, ns), f, ns, Elements(f.root, "command"));
  }

  lemma StoreFunctionRootSettled(t: Snapshot, f: PoshiFile, ns: string)
    requires f.classType == Function
    ensures NotDuplicateOverride(StoreRoot(t, f, ns))
    ensures StoreRoot(t, f, ns).Ok? ==> Settled(t, StoreRoot(t, f, ns).value)
  {
    var t1 := RootIndexed(t, f, ns);
    var commands := Elements(f.root, "command");
    StoreCommandsSettled(t1, f, ns, commands);
    if StoreCommands(t1, f, ns, commands).Ok? {
      assert StoreRoot(t, f, ns) == StoreFunctionDefaults(StoreCommands(t1, f, ns, commands).value, f, ns);
      StoreFunctionDefaultsSettled(StoreCommands(t1, f, ns, commands).value, f, ns);
    }
  }

  lemma StorePathRootSettled(t: Snapshot, f: PoshiFile, ns: string)
    requires f.classType == Path
    ensures NotDuplicateOverride(StoreRoot(t, f, ns))
    ensures StoreRoot(t, f, ns).Ok? ==> Settled(t, StoreRoot(t, f, ns).value)
  {
    StorePathSettled(t, f.root, f.className, f.filePath, ns);
  }

  lemma StoreRootSettled(t: Snapshot, f: PoshiFile, ns: string)
    ensures NotDuplicateOverride(StoreRoot(t, f, ns))
    ensures StoreRoot(t, f, ns).Ok? ==> Settled(t, StoreRoot(t, f, ns).value)
  {
    if f.classType == Function {
      StoreFunctionRootSettled(t, f, ns);
    } else if HasCommands(f.classType) {
      StoreRootWithCommandsSettled(t, f, ns);
    } else if f.classType == Path {
      StorePathRootSettled(t, f, ns);
    }
  }

  // ---------------------------------------------------------------- an overriding file

  lemma {:induction false} OverrideCommandsSettled(t: Snapshot, f: PoshiFile, baseNs: string, commands: seq<Element>)
    ensures NotDuplicateOverride(OverrideCommands(t, f, baseNs, commands))
    ensures OverrideCommands(t, f, baseNs, commands).Ok? ==> Settled(t, OverrideCommands(t, f, baseNs, commands).value)
    decreases |commands|
  {
    if commands != [] {
      if OverrideCommand(t, f, baseNs, commands[0]).Ok? {
        OverrideCommandStep(t, f, baseNs, commands[0]);
        OverrideCommandsSettled(OverrideCommand(t, f, baseNs, commands[0]).value, f, baseNs, commands[1..]);
      }
    }
  }

  /** The tables `_overrideRootElement` has after storing a test case's set-up and tear-down. */
  function OverrideIndexed(t: Snapshot, f: PoshiFile): Snapshot {
    t.(commandElements := if f.classType == TestCase
      then WithSetUpTearDown(t.commandElements, f.root, f.overrideBase.namespace, f.className) else t.commandElements)
  }

  /** Whether `_overrideRootElement` gets past its two checks. */
  predicate PassesOverrideChecks(t: Snapshot, f: PoshiFile) {
    f.className == f.overrideBase.className && QualifiedClass(f.overrideBase.namespace, f.overrideBase.className) !in t.overrideClassNames
  }

  lemma MergeVarsSettled(t: Snapshot, f: PoshiFile, baseNs: string)
    requires Elements(f.root, "var") != [] && ClassKey(f.classType, baseNs, f.className) in t.rootVarElements
    ensures OverrideVars(t, f, baseNs).Ok? && SameBookkeeping(t, OverrideVars(t, f, baseNs).value)
  {
  }

  lemma OverrideVarsSettled(t: Snapshot, f: PoshiFile, baseNs: string)
    ensures NotDuplicateOverride(OverrideVars(t, f, baseNs))
    ensures OverrideVars(t, f, baseNs).Ok? ==> SameBookkeeping(t, OverrideVars(t, f, baseNs).value)
  {
    if Elements(f.root, "var") == [] {
      assert OverrideVars(t, f, baseNs) == Ok(t);
    } else if ClassKey(f.classType, baseNs, f.className) in t.rootVarElements {
      MergeVarsSettled(t, f, baseNs);
    }
  }

  /** The var merge followed by the command loop. */
  function OverrideVarsAndCommands(t: Snapshot, f: PoshiFile): Result<Snapshot, RegistryError> {
    match OverrideVars(t, f, f.overrideBase.namespace)
    case Err(e) => Err(e)
    case Ok(t2) => OverrideCommands(t2, f, f.overrideBase.namespace, Elements(f.root, "command"))
  }

  lemma OverrideVarsAndCommandsSettled(t: Snapshot, f: PoshiFile)
    ensures NotDuplicateOverride(OverrideVarsAndCommands(t, f))
    ensures OverrideVarsAndCommands(t, f).Ok? ==> Settled(t, OverrideVarsAndCommands(t, f).value)
  {
    var baseNs := f.overrideBase.namespace;
    OverrideVarsSettled(t, f, baseNs);
    if OverrideVars(t, f, baseNs).Ok? {
      OverrideCommandsSettled(OverrideVars(t, f, baseNs).value, f, baseNs, Elements(f.root, "command"));
    }
  }

  lemma OverrideWithCommandsSettled(t: Snapshot, f: PoshiFile, ns: string)
    requires PassesOverrideChecks(t, f)
    requires HasCommands(f.classType) && f.classType != Function
    ensures Override(t, f, ns) == OverrideVarsAndCommands(OverrideIndexed(t, f), f)
    ensures NotDuplicateOverride(Override(t, f, ns))
    ensures Override(t, f, ns).Ok? ==> Settled(t, Override(t, f, ns).value)
  {
    OverrideVarsAndCommandsSettled(OverrideIndexed(t, f), f);
  }

  lemma OverrideFunctionSettled(t: Snapshot, f: PoshiFile, ns: string)
    requires PassesOverrideChecks(t, f)
    requires f.classType == Function
    ensures NotDuplicateOverride(Override(t, f, ns))
    ensures Override(t, f, ns).Ok? ==> Settled(t, Override(t, f, ns).value)
  {
    var t1 := OverrideIndexed(t, f);
    OverrideVarsAndCommandsSettled(t1, f);
    if OverrideVarsAndCommands(t1, f).Ok? {
      var t3 := OverrideVarsAndCommands(t1, f).value;
      assert Override(t, f, ns) == OverrideFunctionDefaults(t3, f, ns);
    }
  }

  lemma OverridePathSettled(t: Snapshot, f: PoshiFile, ns: string)
    requires PassesOverrideChecks(t, f)
    requires f.classType == Path
    ensures NotDuplicateOverride(Override(t, f, ns))
    ensures Override(t, f, ns).Ok? ==> Settled(t, Override(t, f, ns).value)
  {
    StorePathSettled(OverrideIndexed(t, f), f.root, f.className, f.filePath, f.overrideBase.namespace);
  }

  /** What `_overrideRootElement` does after its two checks. */
  lemma OverrideBodySettled(t: Snapshot, f: PoshiFile, ns: string)
    requires PassesOverrideChecks(t, f)
    ensures NotDuplicateOverride(Override(t, f, ns))
    ensures Override(t, f, ns).Ok? ==> Settled(t, Override(t, f, ns).value)
  {
    if f.classType == Function {
      OverrideFunctionSettled(t, f, ns);
    } else if HasCommands(f.classType) {
      OverrideWithCommandsSettled(t, f, ns);
    } else if f.classType == Path {
      OverridePathSettled(t, f, ns);
    }
  }

  /**
   * With no override recorded, which is always the case since nothing records one, an
   * override never fails with the duplicate-override exception.
   */
  lemma OverrideSettled(t: Snapshot, f: PoshiFile, ns: string)
    requires t.overrideClassNames == map[]
    ensures NotDuplicateOverride(Override(t, f, ns))
    ensures Override(t, f, ns).Ok? ==> Settled(t, Override(t, f, ns).value)
  {
    if f.className == f.overrideBase.className {
      OverrideBodySettled(t, f, ns);
    }
  }

  // ---------------------------------------------------------------- lists of files

  lemma StoreFileSettled(t: Snapshot, f: PoshiFile, ns: string)
    requires t.overrideClassNames == map[]
    ensures NotDuplicateOverride(StoreFile(t, f, ns))
    ensures StoreFile(t, f, ns).Ok? ==> Settled(t, StoreFile(t, f, ns).value)
  {
    if IsOverride(f) {
      OverrideSettled(t, f, ns);
    } else {
      StoreRootSettled(t, f, ns);
    }
  }

  lemma {:induction false} StoreFilesSettled(t: Snapshot, files: seq<PoshiFile>, ns: string)
    requires t.overrideClassNames == map[]
    ensures NotDuplicateOverride(StoreFiles(t, files, ns))
    ensures StoreFiles(t, files, ns).Ok? ==> Settled(t, StoreFiles(t, files, ns).value)
    decreases |files|
  {
    if files != [] {
      StoreFileSettled(t, files[0], ns);
      if StoreFile(t, files[0], ns).Ok? {
        StoreFilesSettled(StoreFile(t, files[0], ns).value, files[1..], ns);
      }
    }
  }

  /** Namespaces are pairwise different and none is the default one. */
  predicate NamespacesDistinct(namespaces: seq<string>) {
    && (forall i, j :: 0 <= i < j < |namespaces| ==> namespaces[i] != namespaces[j])
    && DefaultNamespace !in namespaces
  }

  /** One directory or jar: the override table stays empty, messages only grow, and a jar's namespace is admitted once. */
  lemma ReadSourceGrows(t: Snapshot, s: Source)
    requires t.overrideClassNames == map[]
    requires NamespacesDistinct(t.namespaces)
    ensures NotDuplicateOverride(ReadSource(t, s))
    ensures ReadSource(t, s).Ok? ==>
      var r := ReadSource(t, s).value;
      && r.overrideClassNames == map[]
      && t.duplicateMessages <= r.duplicateMessages
      && t.namespaces <= r.namespaces
      && NamespacesDistinct(r.namespaces)
  {
    match s
    case LocalFiles(files) =>
      if SortFiles(files).Ok? {
        StoreFilesSettled(t, SortFiles(files).value, DefaultNamespace);
      }
    case ResourceJar(found, files) =>
      if AdmitNamespace(t.namespaces, found).Ok? {
        var ns := found.value;
        var t1 := t.(namespaces := t.namespaces + [ns]);
        assert NamespacesDistinct(t1.namespaces);
        if SortFiles(files).Ok? {
          StoreFilesSettled(t1, SortFiles(files).value, ns);
        }
      }
  }

  lemma {:induction false} ReadSourcesGrow(t: Snapshot, sources: seq<Source>)
    requires t.overrideClassNames == map[]
    requires NamespacesDistinct(t.namespaces)
    ensures NotDuplicateOverride(ReadSources(t, sources))
    ensures ReadSources(t, sources).Ok? ==>
      var r := ReadSources(t, sources).value;
      && r.overrideClassNames == map[]
      && t.duplicateMessages <= r.duplicateMessages
      && t.namespaces <= r.namespaces
      && NamespacesDistinct(r.namespaces)
    decreases |sources|
  {
    if sources != [] {
      ReadSourceGrows(t, sources[0]);
      if ReadSource(t, sources[0]).Ok? {
        ReadSourcesGrow(ReadSource(t, sources[0]).value, sources[1..]);
      }
    }
  }

  // ---------------------------------------------------------------- extends expansion

  lemma {:induction false} ExtendCommandsNeverDuplicateOverride(t: Snapshot, qc: QualifiedClass, root: Element, baseClass: string, commands: seq<Element>)
    ensures NotDuplicateOverride(ExtendCommands(t, qc, root, baseClass, commands))
    decreases |commands|
  {
    if commands != [] && ExtendCommand(t, qc, root, baseClass, commands[0]).Ok? {
      ExtendCommandsNeverDuplicateOverride(ExtendCommand(t, qc, root, baseClass, commands[0]).value, qc, root, baseClass, commands[1..]);
    }
  }

  lemma {:induction false} ListCommandsNeverDuplicateOverride(t: Snapshot, qc: QualifiedClass, root: Element, commands: seq<Element>)
    ensures NotDuplicateOverride(ListCommands(t, qc, root, commands))
    decreases |commands|
  {
    if commands != [] && ListCommand(t, qc, root, commands[0]).Ok? {
      ListCommandsNeverDuplicateOverride(ListCommand(t, qc, root, commands[0]).value, qc, root, commands[1..]);
    }
  }

  lemma {:induction false} InitClassesNeverDuplicateOverride(t: Snapshot, classes: seq<QualifiedClass>)
    ensures NotDuplicateOverride(InitClasses(t, classes))
    decreases |classes|
  {
    if classes != [] {
      var qc := classes[0];
      var key := ClassKey(TestCase, qc.namespace, qc.className);
      if key in t.rootElements {
        var root := t.rootElements[key];
        ListCommandsNeverDuplicateOverride(t, qc, root, Elements(root, "command"));
        match Attr(root, "extends")
        case None =>
        case Some(ext) =>
          var extKey := ClassKey(TestCase, qc.namespace, ext);
          if extKey in t.rootElements {
            ExtendCommandsNeverDuplicateOverride(t, qc, root, ext, Elements(t.rootElements[extKey], "command"));
            if ExtendCommands(t, qc, root, ext, Elements(t.rootElements[extKey], "command")).Ok? {
              ListCommandsNeverDuplicateOverride(ExtendCommands(t, qc, root, ext, Elements(t.rootElements[extKey], "command")).value,
                                                 qc, root, Elements(root, "command"));
            }
          }
      }
      if InitClass(t, qc).Ok? {
        InitClassesNeverDuplicateOverride(InitClass(t, qc).value, classes[1..]);
      }
    }
  }

  // ---------------------------------------------------------------- the whole read

  /**
   * Reading from a registry without recorded overrides never throws the duplicate-override
   * exception and records no override: the check at the start of `_overrideRootElement` is dead.
   */
  lemma DuplicateOverrideNeverThrown(t: Snapshot, sources: seq<Source>)
    requires t.overrideClassNames == map[]
    requires NamespacesDistinct(t.namespaces)
    ensures NotDuplicateOverride(ReadPoshiFiles(t, sources))
    ensures ReadPoshiFiles(t, sources).Ok? ==> ReadPoshiFiles(t, sources).value.overrideClassNames == map[]
  {
    ReadSourcesGrow(t, sources);
    if ReadSources(t, sources).Ok? {
      var t1 := ReadSources(t, sources).value;
      InitClassesNeverDuplicateOverride(t1, t1.testCaseClassNames);
      if InitComponentCommandNames(t1).Ok? {
        InitClassesFrame(t1, t1.testCaseClassNames);
      }
    }
  }

  /**
   * A successful read leaves no duplicate message and distinct namespaces. Since messages
   * only accumulate and `clear()` does not reset them, a registry that still holds messages
   * from an earlier read fails every later read.
   */
  lemma ReadOutcome(t: Snapshot, sources: seq<Source>)
    requires t.overrideClassNames == map[]
    requires NamespacesDistinct(t.namespaces)
    ensures ReadPoshiFiles(t, sources).Ok? ==>
      var r := ReadPoshiFiles(t, sources).value;
      && r.duplicateMessages == {}
      && t.namespaces <= r.namespaces
      && NamespacesDistinct(r.namespaces)
    ensures t.duplicateMessages != {} ==> ReadPoshiFiles(t, sources).Err?
  {
    ReadSourcesGrow(t, sources);
    if ReadSources(t, sources).Ok? {
      var t1 := ReadSources(t, sources).value;
      if InitComponentCommandNames(t1).Ok? {
        InitClassesFrame(t1, t1.testCaseClassNames);
      }
    }
  }

  /** After `clear()` a registry that held duplicate messages still fails every read. */
  lemma ClearKeepsStaleMessages(t: Snapshot, sources: seq<Source>)
    requires t.overrideClassNames == map[]
    requires NamespacesDistinct(t.namespaces)
    requires t.duplicateMessages != {}
    ensures ReadPoshiFiles(Cleared(t), sources).Err?
  {
    ReadOutcome(Cleared(t), sources);
  }

  /**
   * A read that stores everything and then fails has failed on the duplicate messages, and the
   * registry it leaves behind keeps them: after `clear()` every later read fails as well.
   */
  lemma FailedReadPoisonsLaterReads(t: Snapshot, sources: seq<Source>, later: seq<Source>)
    requires t.overrideClassNames == map[]
    requires NamespacesDistinct(t.namespaces)
    requires ReadPoshiFiles(t, sources).Err? && ReadAndExpand(t, sources).Ok?
    ensures var stored := ReadAndExpand(t, sources).value;
      && stored.duplicateMessages != {}
      && ReadPoshiFiles(t, sources).error == DuplicateLocators(stored.duplicateMessages)
      && ReadPoshiFiles(Cleared(stored), later).Err?
  {
    ReadSourcesGrow(t, sources);
    var t1 := ReadSources(t, sources).value;
    InitClassesFrame(t1, t1.testCaseClassNames);
    ClearKeepsStaleMessages(ReadAndExpand(t, sources).value, later);
  }
}
