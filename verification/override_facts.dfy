/** What `_overrideRootElement` promises: the name check, the var merge, the command replacement and property layering, and the locator-count bound. */
module OverrideFacts {
  import opened Wrappers
  import opened ScriptTree
  import opened RegistryRules
  import opened Registry

  /** The bookkeeping tables that storing or replacing commands leaves alone. */
  predicate SameBookkeeping(t: Tables, r: Tables) {
    && r.namespaces == t.namespaces
    && r.overrideClassNames == t.overrideClassNames
    && r.functionLocatorCounts == t.functionLocatorCounts
    && r.duplicateMessages == t.duplicateMessages
    && r.pathLocators == t.pathLocators
    && r.pathExtensions == t.pathExtensions
    && r.filePaths == t.filePaths
    && r.rootElements == t.rootElements
    && r.testCaseClassNames == t.testCaseClassNames
  }

  // ---------------------------------------------------------------- the two checks

  /** An override whose class name differs from the base class name throws before changing anything. */
  lemma OverrideNameMismatch(t: Snapshot, f: PoshiFile, ns: string)
    requires f.className != f.overrideBase.className
    ensures Override(t, f, ns) == Err(OverrideClassNameMismatch(f.className, f.overrideBase.className))
  {
  }

  /** A second override of the same base class would throw, naming the earlier overrider. */
  lemma OverrideTwiceRejected(t: Snapshot, f: PoshiFile, ns: string)
    requires f.className == f.overrideBase.className
    requires QualifiedClass(f.overrideBase.namespace, f.className) in t.overrideClassNames
    ensures Override(t, f, ns).Err? && Override(t, f, ns).error.DuplicateOverride?
    ensures Override(t, f, ns).error.previous == t.overrideClassNames[QualifiedClass(f.overrideBase.namespace, f.className)]
  {
  }

  // ---------------------------------------------------------------- var merge

  /** The element a var list holds for `name`: the first one with that `name` attribute. */
  function VarNamed(vars: seq<Element>, name: Option<string>): Option<Element>
    decreases |vars|
  {
    if vars == [] then None
    else if Attr(vars[0], "name") == name then Some(vars[0])
    else VarNamed(vars[1..], name)
  }

  /** The last element of `vars` with that `name` attribute: the one a run of `HashMap.put` keeps. */
  function LastNamed(vars: seq<Element>, name: Option<string>): Option<Element>
    decreases |vars|
  {
    if vars == [] then None
    else if Attr(vars[|vars| - 1], "name") == name then Some(vars[|vars| - 1])
    else LastNamed(vars[..|vars| - 1], name)
  }

  /** No two elements of the list share a `name` attribute: the list holds a map's values. */
  predicate NamesUnique(vars: seq<Element>) {
    forall i, j :: 0 <= i < j < |vars| ==> Attr(vars[i], "name") != Attr(vars[j], "name")
  }

  lemma {:induction false} PutVarLookup(vars: seq<Element>, v: Element, name: Option<string>)
    requires NamesUnique(vars)
    ensures NamesUnique(PutVar(vars, v))
    ensures VarNamed(PutVar(vars, v), name) == if Attr(v, "name") == name then Some(v) else VarNamed(vars, name)
    ensures forall x :: x in PutVar(vars, v) ==> x == v || x in vars
    decreases |vars|
  {
    if vars != [] && Attr(vars[0], "name") != Attr(v, "name") {
      var rest := vars[1..];
      PutVarLookup(rest, v, name);
      var r := PutVar(vars, v);
      assert r == [vars[0]] + PutVar(rest, v);
      forall i, j | 0 <= i < j < |r| ensures Attr(r[i], "name") != Attr(r[j], "name") {
        if i == 0 {
          assert r[j] in PutVar(rest, v);
          if r[j] != v {
            var k :| 0 <= k < |rest| && rest[k] == r[j];
            assert vars[k + 1] == r[j];
          }
        } else {
          assert r[i] == PutVar(rest, v)[i - 1] && r[j] == PutVar(rest, v)[j - 1];
        }
      }
    } else if vars != [] {
      var r := PutVar(vars, v);
      forall i, j | 0 <= i < j < |r| ensures Attr(r[i], "name") != Attr(r[j], "name") {
        assert r[j] == vars[j];
        if i > 0 { assert r[i] == vars[i]; }
      }
      forall x | x in r ensures x == v || x in vars {
        if x != v {
          var k :| 0 <= k < |r| && r[k] == x;
          assert k > 0 && vars[k] == x;
        }
      }
    }
  }

  lemma {:induction false} PutVarsLookup(vars: seq<Element>, more: seq<Element>, name: Option<string>)
    requires NamesUnique(vars)
    ensures NamesUnique(PutVars(vars, more))
    ensures VarNamed(PutVars(vars, more), name) == if LastNamed(more, name).Some? then LastNamed(more, name) else VarNamed(vars, name)
    decreases |more|
  {
    if more != [] {
      PutVarLookup(vars, more[0], name);
      PutVarsLookup(PutVar(vars, more[0]), more[1..], name);
      LastNamedCons(more, name);
    }
  }

  /** `LastNamed` read from the front: a later element with the name wins over the head. */
  lemma {:induction false} LastNamedCons(vars: seq<Element>, name: Option<string>)
    requires vars != []
    ensures LastNamed(vars, name) ==
      if LastNamed(vars[1..], name).Some? then LastNamed(vars[1..], name)
      else if Attr(vars[0], "name") == name then Some(vars[0]) else None
    decreases |vars|
  {
    if |vars| > 1 {
      var init := vars[..|vars| - 1];
      assert init[1..] == vars[1..][..|vars[1..]| - 1];
      assert vars[1..][|vars[1..]| - 1] == vars[|vars| - 1];
      if Attr(vars[|vars| - 1], "name") != name {
        LastNamedCons(init, name);
        assert init[0] == vars[0];
      }
    }
  }

  /**
   * The merged var list holds, for every name, the last override var with that name and
   * otherwise the last base var with it; names stay unique, so base-only names survive.
   */
  lemma MergeVarsByName(base: seq<Element>, override: seq<Element>, name: Option<string>)
    ensures NamesUnique(MergeVars(base, override))
    ensures VarNamed(MergeVars(base, override), name) ==
      if LastNamed(override, name).Some? then LastNamed(override, name) else LastNamed(base, name)
  {
    PutVarsLookup([], base, name);
    PutVarsLookup(PutVars([], base), override, name);
  }

  /** An override without vars stores nothing; otherwise the base vars must exist and are merged by name. */
  lemma OverrideVarsResult(t: Snapshot, f: PoshiFile, baseNs: string, name: Option<string>)
    ensures Elements(f.root, "var") == [] ==> OverrideVars(t, f, baseNs) == Ok(t)
    ensures var key := ClassKey(f.classType, baseNs, f.className);
      Elements(f.root, "var") != [] && key !in t.rootVarElements ==> OverrideVars(t, f, baseNs).Err?
    ensures var key := ClassKey(f.classType, baseNs, f.className);
      Elements(f.root, "var") != [] && key in t.rootVarElements ==>
        && OverrideVars(t, f, baseNs).Ok?
        && key in OverrideVars(t, f, baseNs).value.rootVarElements
        && var merged := OverrideVars(t, f, baseNs).value.rootVarElements[key];
           && NamesUnique(merged)
           && VarNamed(merged, name) ==
                if LastNamed(Elements(f.root, "var"), name).Some? then LastNamed(Elements(f.root, "var"), name)
                else LastNamed(t.rootVarElements[key], name)
  {
    var key := ClassKey(f.classType, baseNs, f.className);
    if Elements(f.root, "var") != [] && key in t.rootVarElements {
      MergeVarsByName(t.rootVarElements[key], Elements(f.root, "var"), name);
    }
  }

  // ---------------------------------------------------------------- commands

  /** One override command replaces the command under the base namespace and touches no bookkeeping table. */
  lemma OverrideCommandStep(t: Snapshot, f: PoshiFile, baseNs: string, command: Element)
    requires OverrideCommand(t, f, baseNs, command).Ok?
    ensures var r := OverrideCommand(t, f, baseNs, command).value;
      && r.commandElements == t.commandElements[CommandKey(f.classType, baseNs, f.className, AttrText(command, "name")) := command]
      && SameBookkeeping(t, r)
  {
    var name := AttrText(command, "name");
    var t1 := WithCommand(t, CommandKey(f.classType, baseNs, f.className, name), command, CommandSummary(f.className + "#" + name, f.classType, command, f.root));
    assert SameBookkeeping(t, t1);
    if f.classType == TestCase {
      var q := QualifiedCommand(baseNs, f.className, name);
      var base := if q in t1.commandProperties then Some(t1.commandProperties[q]) else None;
      var r := AddTestProperties(t1, q, command, Properties(CommandProperties(f.root, command).value, base));
      assert OverrideCommand(t, f, baseNs, command) == Ok(r);
      assert SameBookkeeping(t1, r);
    }
  }

  /** A new Properties object layered over `q`'s current one, and registered for `q`. */
  lemma LayeredPropertiesLookup(t: Snapshot, q: QualifiedCommand, command: Element, props: map<string, string>, other: QualifiedCommand, k: string)
    requires other != q
    ensures var base := if q in t.commandProperties then Some(t.commandProperties[q]) else None;
      var r := AddTestProperties(t, q, command, Properties(props, base));
      && CommandProperty(r, q, k) == (if k in props then Some(props[k]) else CommandProperty(t, q, k))
      && CommandProperty(r, other, k) == CommandProperty(t, other, k)
  {
    var base := if q in t.commandProperties then Some(t.commandProperties[q]) else None;
    var p := Properties(props, base);
    var r := AddTestProperties(t, q, command, p);
    AppendKeepsDefaultsEarlier(t.propertySets, p);
    assert r.propertySets == t.propertySets + [p];
    assert r.commandProperties == t.commandProperties[q := |t.propertySets|];
    if k !in props && base.Some? {
      GetPropertyAfterAppend(t.propertySets, p, base.value, k);
    }
    if other in t.commandProperties {
      GetPropertyAfterAppend(t.propertySets, p, t.commandProperties[other], k);
    }
  }

  /**
   * An override test command gets a new Properties object whose own keys are the override's
   * layered set and whose defaults are the base command's object: override keys win, every
   * other key falls back to the base. No other command's properties change.
   */
  lemma OverrideTestCommandLayers(t: Snapshot, f: PoshiFile, baseNs: string, command: Element, other: QualifiedCommand, k: string)
    requires f.classType == TestCase && CommandProperties(f.root, command).Some?
    requires other != QualifiedCommand(baseNs, f.className, AttrText(command, "name"))
    ensures OverrideCommand(t, f, baseNs, command).Ok?
    ensures var r := OverrideCommand(t, f, baseNs, command).value;
      var q := QualifiedCommand(baseNs, f.className, AttrText(command, "name"));
      var props := CommandProperties(f.root, command).value;
      && CommandProperty(r, q, k) == (if k in props then Some(props[k]) else CommandProperty(t, q, k))
      && CommandProperty(r, other, k) == CommandProperty(t, other, k)
  {
    var name := AttrText(command, "name");
    var q := QualifiedCommand(baseNs, f.className, name);
    var props := CommandProperties(f.root, command).value;
    var t1 := WithCommand(t, CommandKey(TestCase, baseNs, f.className, name), command, CommandSummary(f.className + "#" + name, TestCase, command, f.root));
    assert t1.propertySets == t.propertySets && t1.commandProperties == t.commandProperties;
    var base := if q in t1.commandProperties then Some(t1.commandProperties[q]) else None;
    assert OverrideCommand(t, f, baseNs, command) == Ok(AddTestProperties(t1, q, command, Properties(props, base)));
    LayeredPropertiesLookup(t1, q, command, props, other, k);
  }

  /** The last command of a list with a given `name` attribute (as printed, so a missing one is "null"). */
  function LastWithName(commands: seq<Element>, name: string): Option<Element>
    decreases |commands|
  {
    if commands == [] then None
    else match LastWithName(commands[1..], name)
      case Some(c) => Some(c)
      case None => if AttrText(commands[0], "name") == name then Some(commands[0]) else None
  }

  /**
   * After the override commands are stored, the base key of every name holds the last override
   * command with that name, and keys of names the override does not use are unchanged.
   */
  lemma {:induction false} OverrideCommandsStoreLast(t: Snapshot, f: PoshiFile, baseNs: string, commands: seq<Element>, name: string)
    requires OverrideCommands(t, f, baseNs, commands).Ok?
    ensures var r := OverrideCommands(t, f, baseNs, commands).value;
      var key := CommandKey(f.classType, baseNs, f.className, name);
      && SameBookkeeping(t, r)
      && (LastWithName(commands, name).Some? ==> key in r.commandElements && r.commandElements[key] == LastWithName(commands, name).value)
      && (LastWithName(commands, name).None? ==>
            (key in r.commandElements <==> key in t.commandElements) &&
            (key in t.commandElements ==> r.commandElements[key] == t.commandElements[key]))
    decreases |commands|
  {
    if commands != [] {
      var t1 := OverrideCommand(t, f, baseNs, commands[0]).value;
      OverrideCommandStep(t, f, baseNs, commands[0]);
      OverrideCommandsStoreLast(t1, f, baseNs, commands[1..], name);
    }
  }

  // ---------------------------------------------------------------- function files

  lemma OverrideFunctionDefaultsBound(t: Snapshot, f: PoshiFile, ns: string)
    requires OverrideFunctionDefaults(t, f, ns).Ok?
    ensures var base := QualifiedClass(f.overrideBase.namespace, f.className);
      && base in t.functionLocatorCounts
      && FunctionLocatorCount(f.locatorPlaceholders) <= t.functionLocatorCounts[base]
      && OverrideFunctionDefaults(t, f, ns).value.functionLocatorCounts == t.functionLocatorCounts
  {
    var t1 := StoreDefaultCommand(t, f.root, f.overrideBase.namespace, f.className).value;
    assert t1.functionLocatorCounts == t.functionLocatorCounts;
  }

  /**
   * An override of a function file succeeds only when the base class has a locator count and
   * the override's count does not exceed it; the base count itself is left as it was.
   */
  lemma OverrideLocatorBound(t: Snapshot, f: PoshiFile, ns: string)
    requires f.classType == Function
    requires Override(t, f, ns).Ok?
    ensures var base := QualifiedClass(f.overrideBase.namespace, f.className);
      && base in t.functionLocatorCounts
      && FunctionLocatorCount(f.locatorPlaceholders) <= t.functionLocatorCounts[base]
      && Override(t, f, ns).value.functionLocatorCounts == t.functionLocatorCounts
  {
    var baseNs := f.overrideBase.namespace;
    assert t.(commandElements := t.commandElements) == t;
    var t2 := OverrideVars(t, f, baseNs).value;
    var commands := Elements(f.root, "command");
    var t3 := OverrideCommands(t2, f, baseNs, commands).value;
    OverrideCommandsStoreLast(t2, f, baseNs, commands, "");
    assert Override(t, f, ns) == OverrideFunctionDefaults(t3, f, ns);
    OverrideFunctionDefaultsBound(t3, f, ns);
  }
}
