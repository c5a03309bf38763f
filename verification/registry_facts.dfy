/** What the registry operations of module Registry promise. */
module RegistryFacts {
  import opened Wrappers
  import opened Text
  import opened ScriptTree
  import opened RegistryRules
  import opened Registry

  // ---------------------------------------------------------------- storing commands

  /**
   * A command whose key is already stored adds exactly one message and leaves the stored
   * element, summary and property sets as they were.
   */
  lemma DuplicateCommandKeepsFirst(t: Snapshot, f: PoshiFile, ns: string, command: Element)
    requires CommandKey(f.classType, ns, f.className, AttrText(command, "name")) in t.commandElements
    ensures StoreCommand(t, f, ns, command).Ok?
    ensures var r := StoreCommand(t, f, ns, command).value;
      && r.commandElements == t.commandElements
      && r.commandSummaries == t.commandSummaries
      && r.propertySets == t.propertySets
      && r.commandProperties == t.commandProperties
      && r.testCaseDescriptions == t.testCaseDescriptions
      && r.duplicateMessages == t.duplicateMessages + {DuplicateCommandMessage(t, f, ns, command)}
  {
  }

  /** A new command of a class other than a test case is stored with its summary, and nothing else changes. */
  lemma NewCommandStored(t: Snapshot, f: PoshiFile, ns: string, command: Element)
    requires CommandKey(f.classType, ns, f.className, AttrText(command, "name")) !in t.commandElements
    requires f.classType != TestCase
    ensures StoreCommand(t, f, ns, command).Ok?
    ensures var r := StoreCommand(t, f, ns, command).value;
      var key := CommandKey(f.classType, ns, f.className, AttrText(command, "name"));
      && r.commandElements == t.commandElements[key := command]
      && r.commandSummaries[key] == CommandSummary(f.className + "#" + AttrText(command, "name"), f.classType, command, f.root)
      && r.duplicateMessages == t.duplicateMessages
      && r.propertySets == t.propertySets
      && r.commandProperties == t.commandProperties
  {
  }

  /**
   * A new test command is stored with its summary and gets a Properties object of its own,
   * without defaults, holding exactly its layered property set.
   */
  lemma NewTestCommandStored(t: Snapshot, f: PoshiFile, ns: string, command: Element, k: string)
    requires CommandKey(TestCase, ns, f.className, AttrText(command, "name")) !in t.commandElements
    requires f.classType == TestCase && CommandProperties(f.root, command).Some?
    ensures StoreCommand(t, f, ns, command).Ok?
    ensures var r := StoreCommand(t, f, ns, command).value;
      var key := CommandKey(TestCase, ns, f.className, AttrText(command, "name"));
      var q := QualifiedCommand(ns, f.className, AttrText(command, "name"));
      var props := CommandProperties(f.root, command).value;
      && r.commandElements == t.commandElements[key := command]
      && r.commandSummaries[key] == CommandSummary(f.className + "#" + AttrText(command, "name"), TestCase, command, f.root)
      && r.duplicateMessages == t.duplicateMessages
      && CommandProperty(r, q, k) == (if k in props then Some(props[k]) else None)
  {
  }

  /** A new test command whose property set cannot be built makes the whole read fail. */
  lemma NewTestCommandFails(t: Snapshot, f: PoshiFile, ns: string, command: Element)
    requires CommandKey(TestCase, ns, f.className, AttrText(command, "name")) !in t.commandElements
    requires f.classType == TestCase && CommandProperties(f.root, command).None?
    ensures StoreCommand(t, f, ns, command).Err?
  {
  }

  /** One command: stored commands keep their elements and messages are only added. */
  lemma StoreCommandKeeps(t: Snapshot, f: PoshiFile, ns: string, command: Element)
    requires StoreCommand(t, f, ns, command).Ok?
    ensures var r := StoreCommand(t, f, ns, command).value;
      var key := CommandKey(f.classType, ns, f.className, AttrText(command, "name"));
      && t.duplicateMessages <= r.duplicateMessages
      && key in r.commandElements
      && (key in t.commandElements ==> r.commandElements == t.commandElements)
      && (key !in t.commandElements ==> r.commandElements == t.commandElements[key := command])
  {
    var key := CommandKey(f.classType, ns, f.className, AttrText(command, "name"));
    if key in t.commandElements {
      DuplicateCommandKeepsFirst(t, f, ns, command);
    } else if f.classType != TestCase {
      NewCommandStored(t, f, ns, command);
    } else {
      NewTestCommandStored(t, f, ns, command, "");
    }
  }

  /** Storing a file's commands never replaces a command stored before, and only adds messages. */
  lemma {:induction false} StoredCommandsNeverReplaced(t: Snapshot, f: PoshiFile, ns: string, commands: seq<Element>)
    requires StoreCommands(t, f, ns, commands).Ok?
    ensures var r := StoreCommands(t, f, ns, commands).value;
      && t.duplicateMessages <= r.duplicateMessages
      && forall key :: key in t.commandElements ==> key in r.commandElements && r.commandElements[key] == t.commandElements[key]
    decreases |commands|
  {
    if commands != [] {
      StoreCommandKeeps(t, f, ns, commands[0]);
      StoredCommandsNeverReplaced(StoreCommand(t, f, ns, commands[0]).value, f, ns, commands[1..]);
    }
  }

  /** Every command of the list ends up stored under its key, the first one of each name winning. */
  lemma {:induction false} EveryCommandStored(t: Snapshot, f: PoshiFile, ns: string, commands: seq<Element>)
    requires StoreCommands(t, f, ns, commands).Ok?
    ensures forall c :: c in commands ==>
      CommandKey(f.classType, ns, f.className, AttrText(c, "name")) in StoreCommands(t, f, ns, commands).value.commandElements
    decreases |commands|
  {
    if commands != [] {
      var t1 := StoreCommand(t, f, ns, commands[0]).value;
      StoreCommandKeeps(t, f, ns, commands[0]);
      EveryCommandStored(t1, f, ns, commands[1..]);
      StoredCommandsNeverReplaced(t1, f, ns, commands[1..]);
      forall c | c in commands
        ensures CommandKey(f.classType, ns, f.className, AttrText(c, "name")) in StoreCommands(t, f, ns, commands).value.commandElements
      {
        if c != commands[0] {
          assert c in commands[1..];
        }
      }
    }
  }

  // ---------------------------------------------------------------- path files

  lemma KeptPairsKeys(rows: seq<PathRow>, k: string)
    ensures k in PairKeys(KeptPairs(rows)) <==> LastValue(KeptPairs(rows), k).Some?
  {
    var ps := KeptPairs(rows);
    LastValueFound(ps, k);
  }

  lemma {:induction false} LastValueFound(ps: seq<(string, string)>, k: string)
    ensures k in PairKeys(ps) <==> LastValue(ps, k).Some?
    decreases |ps|
  {
    if ps != [] {
      LastValueFound(ps[1..], k);
      assert PairKeys(ps) == {ps[0].0} + PairKeys(ps[1..]) by {
        assert forall p :: p in ps <==> p == ps[0] || p in ps[1..];
      }
    }
  }

  lemma StoreSkippedRow(t: Snapshot, className: string, filePath: string, ns: string, row: PathRow, seen: set<string>)
    requires Skipped(row)
    ensures StoreRow(t, className, filePath, ns, row, seen) == t
  {
  }

  lemma StoreExtensionRow(t: Snapshot, className: string, filePath: string, ns: string, row: PathRow, seen: set<string>)
    requires !Skipped(row) && row.key == ExtendActionPath
    ensures var r := StoreRow(t, className, filePath, ns, row, seen);
      && r.pathLocators == t.pathLocators
      && r.pathExtensions == t.pathExtensions[QualifiedClass(ns, className) := row.locator]
      && r.duplicateMessages == t.duplicateMessages + RowMessages(className, filePath, ns, row, seen)
  {
  }

  lemma StoreLocatorRow(t: Snapshot, className: string, filePath: string, ns: string, row: PathRow, seen: set<string>)
    requires !Skipped(row) && row.key != ExtendActionPath
    ensures var r := StoreRow(t, className, filePath, ns, row, seen);
      && r.pathLocators == t.pathLocators[LocatorKey(ns, className, row.key) := row.locator]
      && r.pathExtensions == t.pathExtensions
      && r.duplicateMessages == t.duplicateMessages + RowMessages(className, filePath, ns, row, seen)
  {
  }

  /** Unfolds one row of `StoreRows` through the lemma for its kind. */
  lemma StoreRowCases(t: Snapshot, className: string, filePath: string, ns: string, row: PathRow, seen: set<string>)
    ensures Skipped(row) ==> StoreRow(t, className, filePath, ns, row, seen) == t
    ensures !Skipped(row) && row.key == ExtendActionPath ==>
      var r := StoreRow(t, className, filePath, ns, row, seen);
      && r.pathLocators == t.pathLocators
      && r.pathExtensions == t.pathExtensions[QualifiedClass(ns, className) := row.locator]
      && r.duplicateMessages == t.duplicateMessages + RowMessages(className, filePath, ns, row, seen)
    ensures !Skipped(row) && row.key != ExtendActionPath ==>
      var r := StoreRow(t, className, filePath, ns, row, seen);
      && r.pathLocators == t.pathLocators[LocatorKey(ns, className, row.key) := row.locator]
      && r.pathExtensions == t.pathExtensions
      && r.duplicateMessages == t.duplicateMessages + RowMessages(className, filePath, ns, row, seen)
  {
    if Skipped(row) {
      StoreSkippedRow(t, className, filePath, ns, row, seen);
    } else if row.key == ExtendActionPath {
      StoreExtensionRow(t, className, filePath, ns, row, seen);
    } else {
      StoreLocatorRow(t, className, filePath, ns, row, seen);
    }
  }

  /**
   * After the rows of a path table are stored, each key of the class other than
   * `EXTEND_ACTION_PATH` holds the locator of its last kept row (a repeated key still
   * overwrites), and keeps its earlier locator when no kept row has it.
   */
  lemma {:induction false} StoreRowsLastRowWins(t: Snapshot, className: string, filePath: string, ns: string, rows: seq<PathRow>, k: string)
    requires k != ExtendActionPath
    ensures var r := StoreRows(t, className, filePath, ns, rows).pathLocators;
      var lk := LocatorKey(ns, className, k);
      var last := LastValue(KeptPairs(rows), k);
      && (lk in r <==> lk in t.pathLocators || last.Some?)
      && (last.Some? ==> r[lk] == last.value)
      && (last.None? && lk in t.pathLocators ==> r[lk] == t.pathLocators[lk])
    decreases |rows|
  {
    if rows != [] {
      var init := rows[..|rows| - 1];
      var row := rows[|rows| - 1];
      var before := StoreRows(t, className, filePath, ns, init);
      assert StoreRows(t, className, filePath, ns, rows) == StoreRow(before, className, filePath, ns, row, PairKeys(KeptPairs(init)));
      StoreRowsLastRowWins(t, className, filePath, ns, init, k);
      StoreRowCases(before, className, filePath, ns, row, PairKeys(KeptPairs(init)));
      if !Skipped(row) {
        assert KeptPairs(rows) == KeptPairs(init) + [(row.key, row.locator)];
        LastValueAppend(KeptPairs(init), (row.key, row.locator), k);
      } else {
        assert KeptPairs(rows) == KeptPairs(init) + [];
        assert KeptPairs(init) + [] == KeptPairs(init);
      }
    }
  }

  /** The class's `EXTEND_ACTION_PATH` row sets its extension (the last such row wins) and never a locator. */
  lemma {:induction false} StoreRowsExtension(t: Snapshot, className: string, filePath: string, ns: string, rows: seq<PathRow>)
    ensures var r := StoreRows(t, className, filePath, ns, rows);
      var qc := QualifiedClass(ns, className);
      var last := LastValue(KeptPairs(rows), ExtendActionPath);
      && (qc in r.pathExtensions <==> qc in t.pathExtensions || last.Some?)
      && (last.Some? ==> r.pathExtensions[qc] == last.value)
      && (LocatorKey(ns, className, ExtendActionPath) in r.pathLocators <==> LocatorKey(ns, className, ExtendActionPath) in t.pathLocators)
    decreases |rows|
  {
    if rows != [] {
      var init := rows[..|rows| - 1];
      var row := rows[|rows| - 1];
      var before := StoreRows(t, className, filePath, ns, init);
      assert StoreRows(t, className, filePath, ns, rows) == StoreRow(before, className, filePath, ns, row, PairKeys(KeptPairs(init)));
      StoreRowsExtension(t, className, filePath, ns, init);
      StoreRowCases(before, className, filePath, ns, row, PairKeys(KeptPairs(init)));
      if !Skipped(row) {
        assert KeptPairs(rows) == KeptPairs(init) + [(row.key, row.locator)];
        LastValueAppend(KeptPairs(init), (row.key, row.locator), ExtendActionPath);
      } else {
        assert KeptPairs(rows) == KeptPairs(init) + [];
        assert KeptPairs(init) + [] == KeptPairs(init);
      }
    }
  }

  /** Storing a class's path table leaves the locators and extensions of every other class alone. */
  lemma {:induction false} StoreRowsOtherClasses(t: Snapshot, className: string, filePath: string, ns: string, rows: seq<PathRow>)
    ensures var r := StoreRows(t, className, filePath, ns, rows);
      && (forall lk: LocatorKey :: lk.namespace != ns || lk.className != className ==>
            (lk in r.pathLocators <==> lk in t.pathLocators) && (lk in t.pathLocators ==> r.pathLocators[lk] == t.pathLocators[lk]))
      && (forall qc: QualifiedClass :: qc != QualifiedClass(ns, className) ==>
            (qc in r.pathExtensions <==> qc in t.pathExtensions) && (qc in t.pathExtensions ==> r.pathExtensions[qc] == t.pathExtensions[qc]))
    decreases |rows|
  {
    if rows != [] {
      var init := rows[..|rows| - 1];
      StoreRowsOtherClasses(t, className, filePath, ns, init);
      StoreRowCases(StoreRows(t, className, filePath, ns, init), className, filePath, ns, rows[|rows| - 1], PairKeys(KeptPairs(init)));
    }
  }

  /** The message a repeated key of a path table adds. */
  function PathMessage(className: string, filePath: string, ns: string, row: PathRow): Diagnostic {
    DuplicatePathLocator(className + "#" + row.key, ns, filePath, row.line)
  }

  lemma RowMessagesOfRepeat(className: string, filePath: string, ns: string, row: PathRow, seen: set<string>)
    ensures RowMessages(className, filePath, ns, row, seen) == if row.key in seen then {PathMessage(className, filePath, ns, row)} else {}
  {
  }

  /** A kept row whose key an earlier kept row of the same table already had. */
  predicate RepeatsKey(rows: seq<PathRow>, i: int)
    requires 0 <= i < |rows|
  {
    !Skipped(rows[i]) && rows[i].key in PairKeys(KeptPairs(rows[..i]))
  }

  /** The messages for the kept rows that repeat an earlier key. */
  function RepeatMessages(className: string, filePath: string, ns: string, rows: seq<PathRow>): set<Diagnostic> {
    set i | 0 <= i < |rows| && RepeatsKey(rows, i) :: PathMessage(className, filePath, ns, rows[i])
  }

  lemma RepeatMessagesAppend(className: string, filePath: string, ns: string, rows: seq<PathRow>)
    requires rows != []
    ensures var n := |rows| - 1;
      RepeatMessages(className, filePath, ns, rows) ==
        RepeatMessages(className, filePath, ns, rows[..n]) +
        (if RepeatsKey(rows, n) then {PathMessage(className, filePath, ns, rows[n])} else {})
  {
    var n := |rows| - 1;
    var init := rows[..n];
    var all := RepeatMessages(className, filePath, ns, rows);
    var earlier := RepeatMessages(className, filePath, ns, init);
    var last: set<Diagnostic> := if RepeatsKey(rows, n) then {PathMessage(className, filePath, ns, rows[n])} else {};
    RepeatMessagesWithin(className, filePath, ns, rows);
    RepeatMessagesOfPrefix(className, filePath, ns, rows);
    assert last <= all;
    assert all == earlier + last;
  }

  lemma RepeatMessagesWithin(className: string, filePath: string, ns: string, rows: seq<PathRow>)
    requires rows != []
    ensures var n := |rows| - 1;
      forall d :: d in RepeatMessages(className, filePath, ns, rows) ==>
        d in RepeatMessages(className, filePath, ns, rows[..n]) || (RepeatsKey(rows, n) && d == PathMessage(className, filePath, ns, rows[n]))
  {
    var n := |rows| - 1;
    forall d | d in RepeatMessages(className, filePath, ns, rows)
      ensures d in RepeatMessages(className, filePath, ns, rows[..n]) || (RepeatsKey(rows, n) && d == PathMessage(className, filePath, ns, rows[n]))
    {
      var i :| 0 <= i < |rows| && RepeatsKey(rows, i) && d == PathMessage(className, filePath, ns, rows[i]);
      if i < n {
        RepeatsKeyInPrefix(rows, n, i);
      }
    }
  }

  lemma RepeatMessagesOfPrefix(className: string, filePath: string, ns: string, rows: seq<PathRow>)
    requires rows != []
    ensures RepeatMessages(className, filePath, ns, rows[..|rows| - 1]) <= RepeatMessages(className, filePath, ns, rows)
  {
    var n := |rows| - 1;
    forall d | d in RepeatMessages(className, filePath, ns, rows[..n]) ensures d in RepeatMessages(className, filePath, ns, rows) {
      var i :| 0 <= i < n && RepeatsKey(rows[..n], i) && d == PathMessage(className, filePath, ns, rows[..n][i]);
      RepeatsKeyInPrefix(rows, n, i);
    }
  }

  /** Whether a row repeats a key depends only on the rows up to it. */
  lemma RepeatsKeyInPrefix(rows: seq<PathRow>, n: nat, i: nat)
    requires i < n <= |rows|
    ensures rows[..n][i] == rows[i] && (RepeatsKey(rows[..n], i) <==> RepeatsKey(rows, i))
  {
    assert rows[..n][..i] == rows[..i];
  }

  /** Storing a path table adds one message for each kept row that repeats an earlier key, and no other. */
  lemma {:induction false} StoreRowsReportsRepeats(t: Snapshot, className: string, filePath: string, ns: string, rows: seq<PathRow>)
    ensures StoreRows(t, className, filePath, ns, rows).duplicateMessages ==
      t.duplicateMessages + RepeatMessages(className, filePath, ns, rows)
    decreases |rows|
  {
    if rows != [] {
      var n := |rows| - 1;
      var init := rows[..n];
      var before := StoreRows(t, className, filePath, ns, init);
      assert StoreRows(t, className, filePath, ns, rows) == StoreRow(before, className, filePath, ns, rows[n], PairKeys(KeptPairs(init)));
      StoreRowsReportsRepeats(t, className, filePath, ns, init);
      StoreRowCases(before, className, filePath, ns, rows[n], PairKeys(KeptPairs(init)));
      RepeatMessagesAppend(className, filePath, ns, rows);
      assert RepeatsKey(rows, n) <==> !Skipped(rows[n]) && rows[n].key in PairKeys(KeptPairs(init));
    }
  }

  // ---------------------------------------------------------------- path locator lookup

  /** Every extension of namespace `ns` leads to a class of lower rank: the extension chains are acyclic. */
  ghost predicate ExtensionsRanked(t: Tables, ns: string, rank: string -> nat) {
    forall qc :: qc in t.pathExtensions && qc.namespace == ns ==> rank(t.pathExtensions[qc]) < rank(qc.className)
  }

  /** The lookup of `getPathLocator` where the extension chains are acyclic. */
  ghost function RankedLookup(t: Tables, ns: string, className: string, key: string, rank: string -> nat): Lookup
    requires ExtensionsRanked(t, ns, rank)
    decreases rank(className)
  {
    var qc := QualifiedClass(ns, className);
    if LocatorKey(ns, className, key) in t.pathLocators then Found(t.pathLocators[LocatorKey(ns, className, key)])
    else if qc !in t.pathExtensions then Missing
    else RankedLookup(t, ns, t.pathExtensions[qc], key, rank)
  }

  lemma {:induction false} LookupAgreesWithRanked(t: Tables, ns: string, className: string, key: string, visited: set<string>, rank: string -> nat)
    requires ExtensionsRanked(t, ns, rank)
    requires forall v :: v in visited ==> rank(v) > rank(className)
    ensures PathLocatorFrom(t, ns, className, key, visited) == RankedLookup(t, ns, className, key, rank)
    decreases rank(className)
  {
    var qc := QualifiedClass(ns, className);
    if LocatorKey(ns, className, key) !in t.pathLocators && qc in t.pathExtensions {
      LookupAgreesWithRanked(t, ns, t.pathExtensions[qc], key, visited + {className}, rank);
    }
  }

  /**
   * With acyclic extension chains `getPathLocator` returns: the direct entry if there is one,
   * else the result for the extended class with the same key, else null; and `isPathLocator`
   * holds exactly when one of those gives a locator.
   */
  lemma PathLocatorResolution(t: Tables, ns: string, className: string, key: string, rank: string -> nat)
    requires ExtensionsRanked(t, ns, rank)
    ensures PathLocator(t, ns, className, key) != Unbounded
    ensures var qc := QualifiedClass(ns, className);
      PathLocator(t, ns, className, key) ==
        if LocatorKey(ns, className, key) in t.pathLocators then Found(t.pathLocators[LocatorKey(ns, className, key)])
        else if qc in t.pathExtensions then PathLocator(t, ns, t.pathExtensions[qc], key)
        else Missing
    ensures QualifiedClass(ns, className) in t.pathExtensions ==>
      PathLocator(t, ns, t.pathExtensions[QualifiedClass(ns, className)], key) != Unbounded
    ensures IsPathLocator(t, ns, className, key) <==>
      LocatorKey(ns, className, key) in t.pathLocators ||
      (QualifiedClass(ns, className) in t.pathExtensions && IsPathLocator(t, ns, t.pathExtensions[QualifiedClass(ns, className)], key))
  {
    LookupAgreesWithRanked(t, ns, className, key, {}, rank);
    RankedNeverUnbounded(t, ns, className, key, rank);
    var qc := QualifiedClass(ns, className);
    if qc in t.pathExtensions {
      LookupAgreesWithRanked(t, ns, t.pathExtensions[qc], key, {}, rank);
      RankedNeverUnbounded(t, ns, t.pathExtensions[qc], key, rank);
    }
  }

  lemma {:induction false} RankedNeverUnbounded(t: Tables, ns: string, className: string, key: string, rank: string -> nat)
    requires ExtensionsRanked(t, ns, rank)
    ensures RankedLookup(t, ns, className, key, rank) != Unbounded
    decreases rank(className)
  {
    var qc := QualifiedClass(ns, className);
    if LocatorKey(ns, className, key) !in t.pathLocators && qc in t.pathExtensions {
      RankedNeverUnbounded(t, ns, t.pathExtensions[qc], key, rank);
    }
  }

  /** A class that extends itself and lacks the key sends `getPathLocator` into endless recursion. */
  lemma SelfExtensionNeverReturns(t: Tables, ns: string, className: string, key: string)
    requires QualifiedClass(ns, className) in t.pathExtensions && t.pathExtensions[QualifiedClass(ns, className)] == className
    requires LocatorKey(ns, className, key) !in t.pathLocators
    ensures PathLocator(t, ns, className, key) == Unbounded
  {
    assert {} + {className} == {className};
    assert PathLocatorFrom(t, ns, className, key, {className}) == Unbounded;
  }

  /**
   * After `clear()` no key resolves to a locator, though the extension table survives: a lookup
   * gives null, or never returns on a cyclic chain.
   */
  lemma ClearedForgetsLocators(t: Snapshot, ns: string, className: string, key: string)
    ensures !PathLocator(Cleared(t), ns, className, key).Found?
    ensures Cleared(t).pathExtensions == t.pathExtensions
    ensures Cleared(t).namespaces == t.namespaces && Cleared(t).duplicateMessages == t.duplicateMessages
    ensures Cleared(t).rootVarElements == t.rootVarElements && Cleared(t).commandProperties == t.commandProperties
  {
  }
}
