/** What `_initComponentCommandNamesMap` promises: inherited commands share the base's Properties object, overwrite, and every own command is listed in order. */
module ExtendsFacts {
  import opened Wrappers
  import opened ScriptTree
  import opened RegistryRules
  import opened Registry
  import opened OverrideFacts

  /** `setProperty("ignored", "true")` makes `getProperty("ignored")` return "true" on that object. */
  lemma SetIgnoredLookup(store: seq<Properties>, h: nat)
    requires h < |store| && DefaultsEarlier(store)
    ensures DefaultsEarlier(SetIgnored(store, h))
    ensures GetProperty(SetIgnored(store, h), h, "ignored") == Some("true")
  {
  }

  /**
   * An inherited command whose base command has a Properties object is registered under the
   * subclass with that very object: marking it ignored marks the base command ignored too.
   * The base command's element is stored under the subclass key, whatever was there before.
   */
  lemma ExtendSharesBaseProperties(t: Snapshot, qc: QualifiedClass, root: Element, baseClass: string, command: Element)
    requires QualifiedCommand(qc.namespace, baseClass, AttrText(command, "name")) in t.commandProperties
    ensures ExtendCommand(t, qc, root, baseClass, command).Ok?
    ensures var r := ExtendCommand(t, qc, root, baseClass, command).value;
      var name := AttrText(command, "name");
      var baseQ := QualifiedCommand(qc.namespace, baseClass, name);
      var q := QualifiedCommand(qc.namespace, qc.className, name);
      && q in r.commandProperties && baseQ in r.commandProperties
      && r.commandProperties[q] == r.commandProperties[baseQ]
      && r.commandElements == t.commandElements[CommandKey(TestCase, qc.namespace, qc.className, name) := command]
      && (IsIgnorable(root, command, Attr(command, "name")) ==>
            CommandProperty(r, baseQ, "ignored") == Some("true") && CommandProperty(r, q, "ignored") == Some("true"))
      && (!IsIgnorable(root, command, Attr(command, "name")) ==> r.propertySets == t.propertySets)
  {
    var baseQ := QualifiedCommand(qc.namespace, baseClass, AttrText(command, "name"));
    SetIgnoredLookup(t.propertySets, t.commandProperties[baseQ]);
  }

  /**
   * An inherited command whose base command has no Properties object throws when it is
   * ignorable (the source calls `setProperty` on null); otherwise the subclass command is
   * left without properties and the base element is still stored.
   */
  lemma ExtendWithoutBaseProperties(t: Snapshot, qc: QualifiedClass, root: Element, baseClass: string, command: Element)
    requires QualifiedCommand(qc.namespace, baseClass, AttrText(command, "name")) !in t.commandProperties
    ensures IsIgnorable(root, command, Attr(command, "name")) <==> ExtendCommand(t, qc, root, baseClass, command).Err?
    ensures ExtendCommand(t, qc, root, baseClass, command).Ok? ==>
      var r := ExtendCommand(t, qc, root, baseClass, command).value;
      var name := AttrText(command, "name");
      && QualifiedCommand(qc.namespace, qc.className, name) !in r.commandProperties
      && r.commandElements == t.commandElements[CommandKey(TestCase, qc.namespace, qc.className, name) := command]
  {
    var name := AttrText(command, "name");
    var q := QualifiedCommand(qc.namespace, qc.className, name);
    if !IsIgnorable(root, command, Attr(command, "name")) {
      var r := ExtendCommand(t, qc, root, baseClass, command);
      assert r == Ok(t.(commandProperties := t.commandProperties - {q},
                        commandElements := t.commandElements[CommandKey(TestCase, qc.namespace, qc.className, name) := command]));
    }
  }

  /** One inherited command: its element is stored under the subclass key, and only the property tables change besides. */
  lemma ExtendCommandStep(t: Snapshot, qc: QualifiedClass, root: Element, baseClass: string, command: Element)
    requires ExtendCommand(t, qc, root, baseClass, command).Ok?
    ensures var r := ExtendCommand(t, qc, root, baseClass, command).value;
      r == t.(propertySets := r.propertySets, commandProperties := r.commandProperties,
              commandElements := t.commandElements[CommandKey(TestCase, qc.namespace, qc.className, AttrText(command, "name")) := command])
  {
  }

  /**
   * After the base class's commands are copied, every subclass key of a base command name
   * holds the last base command with that name: a command the subclass declares itself is
   * overwritten, not skipped. Keys of other names are unchanged.
   */
  lemma {:induction false} ExtendCommandsOverwrite(t: Snapshot, qc: QualifiedClass, root: Element, baseClass: string, commands: seq<Element>, name: string)
    requires ExtendCommands(t, qc, root, baseClass, commands).Ok?
    ensures var r := ExtendCommands(t, qc, root, baseClass, commands).value;
      var key := CommandKey(TestCase, qc.namespace, qc.className, name);
      && r.testCaseCommandNames == t.testCaseCommandNames
      && SameBookkeeping(t, r)
      && (LastWithName(commands, name).Some? ==> key in r.commandElements && r.commandElements[key] == LastWithName(commands, name).value)
      && (LastWithName(commands, name).None? ==>
            (key in r.commandElements <==> key in t.commandElements) &&
            (key in t.commandElements ==> r.commandElements[key] == t.commandElements[key]))
    decreases |commands|
  {
    if commands != [] {
      ExtendCommandStep(t, qc, root, baseClass, commands[0]);
      ExtendCommandsOverwrite(ExtendCommand(t, qc, root, baseClass, commands[0]).value, qc, root, baseClass, commands[1..], name);
    }
  }

  /** The names `_testCaseNamespacedClassCommandNames` gets for a class's commands, in document order. */
  function ListedNames(qc: QualifiedClass, commands: seq<Element>): (r: seq<QualifiedCommand>)
    ensures |r| == |commands|
    ensures forall i :: 0 <= i < |commands| ==> r[i] == QualifiedCommand(qc.namespace, qc.className, AttrText(commands[i], "name"))
    decreases |commands|
  {
    if commands == [] then [] else [QualifiedCommand(qc.namespace, qc.className, AttrText(commands[0], "name"))] + ListedNames(qc, commands[1..])
  }

  /** An ignorable own command is marked ignored on its Properties object, which must exist. */
  lemma ListCommandMarksIgnored(t: Snapshot, qc: QualifiedClass, root: Element, command: Element)
    requires IsIgnorable(root, command, Attr(command, "name"))
    ensures var q := QualifiedCommand(qc.namespace, qc.className, AttrText(command, "name"));
      && (ListCommand(t, qc, root, command).Ok? <==> q in t.commandProperties)
      && (q in t.commandProperties ==> CommandProperty(ListCommand(t, qc, root, command).value, q, "ignored") == Some("true"))
  {
    var q := QualifiedCommand(qc.namespace, qc.className, AttrText(command, "name"));
    if q in t.commandProperties {
      SetIgnoredLookup(t.propertySets, t.commandProperties[q]);
    }
  }

  lemma ListIgnoredCommand(t: Snapshot, qc: QualifiedClass, root: Element, command: Element)
    requires IsIgnorable(root, command, Attr(command, "name"))
    requires QualifiedCommand(qc.namespace, qc.className, AttrText(command, "name")) in t.commandProperties
    ensures ListCommand(t, qc, root, command).Ok?
    ensures var r := ListCommand(t, qc, root, command).value;
      && r.testCaseCommandNames == t.testCaseCommandNames + [QualifiedCommand(qc.namespace, qc.className, AttrText(command, "name"))]
      && r.commandElements == t.commandElements
      && r.commandProperties == t.commandProperties
      && SameBookkeeping(t, r)
  {
  }

  lemma ListKeptCommand(t: Snapshot, qc: QualifiedClass, root: Element, command: Element)
    requires !IsIgnorable(root, command, Attr(command, "name"))
    ensures ListCommand(t, qc, root, command).Ok?
    ensures var r := ListCommand(t, qc, root, command).value;
      && r.testCaseCommandNames == t.testCaseCommandNames + [QualifiedCommand(qc.namespace, qc.className, AttrText(command, "name"))]
      && r.commandElements == t.commandElements
      && r.commandProperties == t.commandProperties
      && SameBookkeeping(t, r)
  {
  }

  /** One own command: its name is appended and only the Properties store may change. */
  lemma ListCommandStep(t: Snapshot, qc: QualifiedClass, root: Element, command: Element)
    requires ListCommand(t, qc, root, command).Ok?
    ensures var r := ListCommand(t, qc, root, command).value;
      && r.testCaseCommandNames == t.testCaseCommandNames + [QualifiedCommand(qc.namespace, qc.className, AttrText(command, "name"))]
      && r.commandElements == t.commandElements
      && r.commandProperties == t.commandProperties
      && SameBookkeeping(t, r)
  {
    if IsIgnorable(root, command, Attr(command, "name")) {
      ListIgnoredCommand(t, qc, root, command);
    } else {
      ListKeptCommand(t, qc, root, command);
    }
  }

  /** Listing a class's own commands appends one name per command, in order. */
  lemma {:induction false} ListCommandsAppendNames(t: Snapshot, qc: QualifiedClass, root: Element, commands: seq<Element>)
    requires ListCommands(t, qc, root, commands).Ok?
    ensures ListCommands(t, qc, root, commands).value.testCaseCommandNames == t.testCaseCommandNames + ListedNames(qc, commands)
    decreases |commands|
  {
    if commands != [] {
      var t1 := ListCommand(t, qc, root, commands[0]).value;
      var first := [QualifiedCommand(qc.namespace, qc.className, AttrText(commands[0], "name"))];
      ListCommandStep(t, qc, root, commands[0]);
      ListCommandsAppendNames(t1, qc, root, commands[1..]);
      assert ListedNames(qc, commands) == first + ListedNames(qc, commands[1..]);
      assert t.testCaseCommandNames + first + ListedNames(qc, commands[1..]) == t.testCaseCommandNames + (first + ListedNames(qc, commands[1..]));
    }
  }

  /** Listing a class's own commands changes no command element, no handle and no bookkeeping table. */
  lemma {:induction false} ListCommandsFrame(t: Snapshot, qc: QualifiedClass, root: Element, commands: seq<Element>)
    requires ListCommands(t, qc, root, commands).Ok?
    ensures var r := ListCommands(t, qc, root, commands).value;
      && r.commandElements == t.commandElements
      && r.commandProperties == t.commandProperties
      && SameBookkeeping(t, r)
    decreases |commands|
  {
    if commands != [] {
      ListCommandStep(t, qc, root, commands[0]);
      ListCommandsFrame(ListCommand(t, qc, root, commands[0]).value, qc, root, commands[1..]);
    }
  }

  /**
   * One test-case class: its own commands are listed in order after any inherited ones are
   * copied; a class without `extends` copies nothing.
   */
  lemma InitClassListsOwnCommands(t: Snapshot, qc: QualifiedClass)
    requires InitClass(t, qc).Ok?
    ensures var key := ClassKey(TestCase, qc.namespace, qc.className);
      && key in t.rootElements
      && InitClass(t, qc).value.testCaseCommandNames == t.testCaseCommandNames + ListedNames(qc, Elements(t.rootElements[key], "command"))
      && SameBookkeeping(t, InitClass(t, qc).value)
      && (Attr(t.rootElements[key], "extends").None? ==> InitClass(t, qc).value.commandElements == t.commandElements)
  {
    var root := t.rootElements[ClassKey(TestCase, qc.namespace, qc.className)];
    var own := Elements(root, "command");
    match Attr(root, "extends")
    case None =>
      ListCommandsAppendNames(t, qc, root, own);
      ListCommandsFrame(t, qc, root, own);
    case Some(ext) =>
      var inherited := Elements(t.rootElements[ClassKey(TestCase, qc.namespace, ext)], "command");
      var t1 := ExtendCommands(t, qc, root, ext, inherited).value;
      ExtendCommandsOverwrite(t, qc, root, ext, inherited, "");
      ListCommandsAppendNames(t1, qc, root, own);
      ListCommandsFrame(t1, qc, root, own);
  }

  /** Names of the commands of the listed classes, class by class. */
  function AllListedNames(t: Tables, classes: seq<QualifiedClass>): seq<QualifiedCommand>
    decreases |classes|
  {
    if classes == [] then []
    else
      var key := ClassKey(TestCase, classes[0].namespace, classes[0].className);
      (if key in t.rootElements then ListedNames(classes[0], Elements(t.rootElements[key], "command")) else [])
        + AllListedNames(t, classes[1..])
  }

  /**
   * `_initComponentCommandNamesMap` appends the command names of every stored test case, class
   * by class in storing order and command by command in document order.
   */
  lemma {:induction false} InitClassesListAll(t: Snapshot, classes: seq<QualifiedClass>)
    requires InitClasses(t, classes).Ok?
    ensures InitClasses(t, classes).value.testCaseCommandNames == t.testCaseCommandNames + AllListedNames(t, classes)
    decreases |classes|
  {
    if classes != [] {
      var t1 := InitClass(t, classes[0]).value;
      InitClassListsOwnCommands(t, classes[0]);
      InitClassesListAll(t1, classes[1..]);
      AllListedNamesFrame(t, t1, classes[1..]);
    }
  }

  /** Expanding the test cases leaves the bookkeeping tables alone. */
  lemma {:induction false} InitClassesFrame(t: Snapshot, classes: seq<QualifiedClass>)
    requires InitClasses(t, classes).Ok?
    ensures SameBookkeeping(t, InitClasses(t, classes).value)
    decreases |classes|
  {
    if classes != [] {
      InitClassListsOwnCommands(t, classes[0]);
      InitClassesFrame(InitClass(t, classes[0]).value, classes[1..]);
    }
  }

  /** The listed names depend on the root elements only. */
  lemma {:induction false} AllListedNamesFrame(t: Tables, u: Tables, classes: seq<QualifiedClass>)
    requires t.rootElements == u.rootElements
    ensures AllListedNames(t, classes) == AllListedNames(u, classes)
    decreases |classes|
  {
    if classes != [] {
      AllListedNamesFrame(t, u, classes[1..]);
    }
  }
}
