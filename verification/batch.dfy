/**
 * The test-batch groups: which stored test commands a property query selects, and how they are
 * cut into groups and written out as `RUN_TEST_CASE_METHOD_GROUP_*` properties.
 */
module Batch {
  import opened Wrappers
  import opened Text
  import opened Sorting
  import opened RegistryRules
  import opened Registry

  // ---------------------------------------------------------------- group sizes

  /** `MathUtil.quotient(a, b, true)`: the quotient rounded up. */
  function CeilDiv(a: nat, b: nat): nat
    requires b > 0
  {
    (a + b - 1) / b
  }

  /** The rounded-up quotient times the divisor reaches the dividend. */
  lemma CeilDivCovers(a: nat, b: nat)
    requires b > 0
    ensures CeilDiv(a, b) * b >= a
  {
    var q := CeilDiv(a, b);
    assert a + b - 1 == q * b + (a + b - 1) % b;
  }

  lemma LessTimes(x: int, y: int, g: int)
    requires g > 0 && x * g < y * g
    ensures x < y
  {
  }

  lemma CeilDivStep(a: nat, b: nat)
    requires b > 0
    ensures CeilDiv(a + b, b) == CeilDiv(a, b) + 1
  {
    var d := CeilDiv(a, b);
    var e := CeilDiv(a + b, b);
    CeilDivCovers(a, b);
    assert (d + 1) * b == d * b + b;
    CeilDivLeast(a + b, b, d + 1);
    CeilDivCovers(a + b, b);
    assert e >= 1;
    assert (e - 1) * b == e * b - b;
    CeilDivLeast(a, b, e - 1);
  }

  /** ... and it is the least such quotient. */
  lemma CeilDivLeast(a: nat, b: nat, q: nat)
    requires b > 0 && q * b >= a
    ensures CeilDiv(a, b) <= q
  {
    var d := CeilDiv(a, b);
    assert d * b <= a + b - 1 by {
      assert a + b - 1 == d * b + (a + b - 1) % b;
    }
    assert d * b < (q + 1) * b;
    LessTimes(d, q + 1, b);
  }

  /**
   * `_getAllocatedTestGroupSize(testCount)`: as many groups as groups of at most `maxSize`
   * need, with the tests spread evenly over them.
   */
  function AllocatedGroupSize(testCount: nat, maxSize: nat): nat
    requires testCount >= 1 && maxSize >= 1
  {
    CeilDivCovers(testCount, maxSize);
    CeilDiv(testCount, CeilDiv(testCount, maxSize))
  }

  /**
   * For at least one test the allocated size is between 1 and the maximum, and cutting the tests
   * into groups of it gives exactly as many groups as cutting them into groups of the maximum.
   */
  lemma AllocatedGroupSizeBounds(n: nat, m: nat)
    requires n >= 1 && m >= 1
    ensures 1 <= AllocatedGroupSize(n, m) <= m
    ensures CeilDiv(n, AllocatedGroupSize(n, m)) == CeilDiv(n, m)
  {
    var g := CeilDiv(n, m);
    CeilDivCovers(n, m);
    assert g >= 1;
    var r := CeilDiv(n, g);
    CeilDivCovers(n, g);
    assert r >= 1;
    CeilDivLeast(n, g, m);
    var q := CeilDiv(n, r);
    CeilDivLeast(n, r, g);
    CeilDivCovers(n, r);
    assert q * m >= q * r by {
      assert q * m - q * r == q * (m - r);
    }
    CeilDivLeast(n, m, q);
  }

  // ---------------------------------------------------------------- Lists.partition

  function Flatten<T>(xss: seq<seq<T>>): seq<T> {
    if xss == [] then [] else xss[0] + Flatten(xss[1..])
  }

  /** `Lists.partition(xs, size)`: consecutive pieces of `size` elements, the last one possibly shorter. */
  function Partition<T>(xs: seq<T>, size: nat): (r: seq<seq<T>>)
    requires size >= 1
    ensures forall i :: 0 <= i < |r| ==> 1 <= |r[i]| <= size
    ensures forall i :: 0 <= i < |r| - 1 ==> |r[i]| == size
    decreases |xs|
  {
    if xs == [] then []
    else if |xs| <= size then
      assert [xs][1..] == [];
      [xs]
    else
      var rest := Partition(xs[size..], size);
      assert ([xs[..size]] + rest)[1..] == rest;
      [xs[..size]] + rest
  }

  /** Put back together, the pieces are the input: nothing is lost, repeated or reordered. */
  lemma {:induction false} PartitionFlatten<T>(xs: seq<T>, size: nat)
    requires size >= 1
    ensures Flatten(Partition(xs, size)) == xs
    decreases |xs|
  {
    if xs == [] {
    } else if |xs| <= size {
      assert Partition(xs, size) == [xs];
      assert Flatten([xs]) == xs + Flatten([]);
    } else {
      var rest := Partition(xs[size..], size);
      PartitionLong(xs, size);
      PartitionFlatten(xs[size..], size);
      assert ([xs[..size]] + rest)[1..] == rest;
      assert xs == xs[..size] + xs[size..];
    }
  }

  /** There are as many pieces as the rounded-up quotient says. */
  lemma {:induction false} PartitionCount<T>(xs: seq<T>, size: nat)
    requires size >= 1
    ensures |Partition(xs, size)| == CeilDiv(|xs|, size)
    decreases |xs|
  {
    if xs == [] {
      CeilDivLeast(0, size, 0);
    } else if |xs| <= size {
      CeilDivLeast(|xs|, size, 1);
      CeilDivCovers(|xs|, size);
    } else {
      PartitionLong(xs, size);
      PartitionCount(xs[size..], size);
      CeilDivStep(|xs| - size, size);
    }
  }

  // ---------------------------------------------------------------- StringBuilder joins

  /** The items with `sep` between them. */
  function JoinWith(items: seq<string>, sep: string): string {
    if items == [] then ""
    else if |items| == 1 then items[0]
    else items[0] + sep + JoinWith(items[1..], sep)
  }

  /**
   * What the loop `append(items[j]); if (j < size - 1) append(sep)` has written after `k`
   * passes: each of the first `k` items, followed by `sep` unless it is the last item.
   */
  function JoinedPrefix(items: seq<string>, sep: string, k: nat): string
    requires k <= |items|
  {
    if k == 0 then ""
    else JoinedPrefix(items, sep, k - 1) + items[k - 1] + (if k < |items| then sep else "")
  }

  /** The prefix of the first `k` items ends with the separator that the next item follows. */
  lemma {:induction false} JoinedPrefixOpen(items: seq<string>, sep: string, k: nat)
    requires 0 < k < |items|
    ensures JoinedPrefix(items, sep, k) == JoinWith(items[..k], sep) + sep
  {
    if k > 1 {
      JoinedPrefixOpen(items, sep, k - 1);
      JoinWithSnoc(items[..k - 1], items[k - 1], sep);
      assert items[..k - 1] + [items[k - 1]] == items[..k];
    } else {
      assert JoinWith(items[..1], sep) == items[0];
    }
  }

  lemma {:induction false} JoinWithSnoc(items: seq<string>, x: string, sep: string)
    requires items != []
    ensures JoinWith(items + [x], sep) == JoinWith(items, sep) + sep + x
  {
    if |items| == 1 {
      assert (items + [x])[1..] == [x];
    } else {
      assert (items + [x])[1..] == items[1..] + [x];
      JoinWithSnoc(items[1..], x, sep);
    }
  }

  /** After every pass the loop has written the items joined by `sep`, and no trailing separator. */
  lemma JoinedPrefixIsJoin(items: seq<string>, sep: string)
    ensures JoinedPrefix(items, sep, |items|) == JoinWith(items, sep)
  {
    var n := |items|;
    if n > 1 {
      JoinedPrefixOpen(items, sep, n - 1);
      JoinWithSnoc(items[..n - 1], items[n - 1], sep);
      assert items[..n - 1] + [items[n - 1]] == items;
    } else if n == 1 {
      assert JoinedPrefix(items, sep, 0) == "";
    }
  }

  /** The loop itself, for any list and separator. */
  method AppendJoined(sb: string, items: seq<string>, sep: string) returns (r: string)
    ensures r == sb + JoinWith(items, sep)
  {
    r := sb;
    var j := 0;
    while j < |items|
      invariant 0 <= j <= |items|
      invariant r == sb + JoinedPrefix(items, sep, j)
    {
      r := r + items[j];
      if j < |items| - 1 {
        r := r + sep;
      }
      j := j + 1;
    }
    JoinedPrefixIsJoin(items, sep);
  }

  // ---------------------------------------------------------------- the text of the groups

  function GroupName(i: nat): string {
    "RUN_TEST_CASE_METHOD_GROUP_" + DecimalString(i)
  }

  /** `i_0`, `i_1`, ..., `i_{n-1}`: the subgroup names of group `i`. */
  function SubgroupIds(i: nat, n: nat): (r: seq<string>)
    ensures |r| == n
  {
    seq(n, j requires 0 <= j => DecimalString(i) + "_" + DecimalString(j))
  }

  /** `0`, `1`, ..., `n-1`: the group names. */
  function GroupIds(n: nat): (r: seq<string>)
    ensures |r| == n
  {
    seq(n, i requires 0 <= i => DecimalString(i))
  }

  const GroupsLine := "RUN_TEST_CASE_METHOD_GROUPS="

  // single mode

  const SingleGroupSize := 15

  /** `RUN_TEST_CASE_METHOD_GROUP_i_j=name`, one line. */
  function MemberLine(i: nat, j: nat, name: string): string {
    GroupName(i) + "_" + DecimalString(j) + "=" + name + "\n"
  }

  /** The first `k` member lines of a single-mode group: one per member, each a subgroup of its own. */
  function MemberLines(i: nat, members: seq<string>, k: nat): string
    requires k <= |members|
  {
    if k == 0 then "" else MemberLines(i, members, k - 1) + MemberLine(i, k - 1, members[k - 1])
  }

  lemma MemberLinesStep(prefix: string, i: nat, members: seq<string>, j: nat, r: string)
    requires j < |members| && r == prefix + MemberLines(i, members, j)
    ensures r + MemberLine(i, j, members[j]) == prefix + MemberLines(i, members, j + 1)
  {
  }

  lemma SingleBlockSplit(text: string, i: nat, members: seq<string>, r: string)
    requires r == text + HeaderLine(i, |members|) + MemberLines(i, members, |members|)
    ensures r == text + SingleBlock(i, members)
  {
  }

  /** `RUN_TEST_CASE_METHOD_GROUP_i=i_0 i_1 ... i_{n-1}`, one line. */
  function HeaderLine(i: nat, n: nat): string {
    GroupName(i) + "=" + JoinWith(SubgroupIds(i, n), " ") + "\n"
  }

  /** One single-mode group: the line naming its subgroups, then one line per member. */
  function SingleBlock(i: nat, members: seq<string>): string {
    HeaderLine(i, |members|) + MemberLines(i, members, |members|)
  }

  function SingleBlocks(groups: seq<seq<string>>, k: nat): string
    requires k <= |groups|
  {
    if k == 0 then "" else SingleBlocks(groups, k - 1) + SingleBlock(k - 1, groups[k - 1])
  }

  /** The text `_getTestBatchSingleGroups` returns: groups of 15, then the list of group names. */
  function SingleGroupsText(names: seq<string>): string {
    var groups := Partition(names, SingleGroupSize);
    SingleBlocks(groups, |groups|) + GroupsLine + JoinWith(GroupIds(|groups|), " ")
  }

  lemma TimesPredecessor(i: nat, size: nat)
    requires i >= 1
    ensures i * size == (i - 1) * size + size >= size
  {
  }

  lemma PartitionLong<T>(xs: seq<T>, size: nat)
    requires size >= 1 && |xs| > size
    ensures Partition(xs, size) == [xs[..size]] + Partition(xs[size..], size)
  {
  }

  /**
   * Piece `i` holds a `j`-th element exactly when `i * size + j` is an index of `xs`, and then it is that
   * element: the pieces are consecutive runs of `xs`, in order.
   */
  lemma {:induction false} PartitionAt<T>(xs: seq<T>, size: nat, i: nat, j: nat)
    requires size >= 1 && j < size
    ensures (i < |Partition(xs, size)| && j < |Partition(xs, size)[i]|) <==> i * size + j < |xs|
    ensures i * size + j < |xs| ==> Partition(xs, size)[i][j] == xs[i * size + j]
    decreases |xs|
  {
    if xs == [] {
    } else if |xs| <= size {
      assert Partition(xs, size) == [xs];
      if i >= 1 {
        TimesPredecessor(i, size);
      }
    } else {
      PartitionLong(xs, size);
      if i >= 1 {
        TimesPredecessor(i, size);
        PartitionAt(xs[size..], size, i - 1, j);
      }
    }
  }

  /** Writes the line naming the `n` subgroups of group `i` after `text`. */
  method AppendHeaderLine(text: string, i: nat, n: nat) returns (r: string)
    ensures r == text + HeaderLine(i, n)
  {
    r := AppendJoined(text + GroupName(i) + "=", SubgroupIds(i, n), " ");
    r := r + "\n";
  }

  /** Writes one single-mode group after `text`. */
  method AppendSingleBlock(text: string, i: nat, members: seq<string>) returns (r: string)
    ensures r == text + SingleBlock(i, members)
  {
    r := AppendHeaderLine(text, i, |members|);
    ghost var header := r;
    var j := 0;
    while j < |members|
      invariant 0 <= j <= |members|
      invariant r == header + MemberLines(i, members, j)
    {
      MemberLinesStep(header, i, members, j, r);
      r := r + MemberLine(i, j, members[j]);
      j := j + 1;
    }
    SingleBlockSplit(text, i, members, r);
  }

  /** `_getTestBatchSingleGroups(namespacedClassCommandNames)`. */
  method GetTestBatchSingleGroups(names: seq<string>) returns (text: string)
    ensures text == SingleGroupsText(names)
  {
    var groups := Partition(names, SingleGroupSize);
    text := "";
    var i := 0;
    while i < |groups|
      invariant 0 <= i <= |groups|
      invariant text == SingleBlocks(groups, i)
    {
      text := AppendSingleBlock(text, i, groups[i]);
      i := i + 1;
    }
    text := text + GroupsLine;
    text := AppendJoined(text, GroupIds(|groups|), " ");
  }

  /** Every name is written as member `k % 15` of group `k / 15`, and there are as many groups as 15s needed. */
  lemma SingleGroupsPlaceEveryName(names: seq<string>, k: nat)
    requires k < |names|
    ensures |Partition(names, SingleGroupSize)| == CeilDiv(|names|, SingleGroupSize)
    ensures k / SingleGroupSize < |Partition(names, SingleGroupSize)|
    ensures k % SingleGroupSize < |Partition(names, SingleGroupSize)[k / SingleGroupSize]|
    ensures Partition(names, SingleGroupSize)[k / SingleGroupSize][k % SingleGroupSize] == names[k]
  {
    PartitionCount(names, SingleGroupSize);
    PartitionAt(names, SingleGroupSize, k / SingleGroupSize, k % SingleGroupSize);
  }

  // ---------------------------------------------------------------- the property query

  /** The batch settings `_getTestBatchGroups` reads. */
  datatype BatchConfig = BatchConfig(
    propertyQuery: Option<string>,            // test.batch.property.query
    propertyNames: Option<seq<string>>,       // test.batch.property.names
    propertyValues: Option<seq<string>>,      // test.batch.property.values
    runEnvironment: Option<string>,           // test.run.environment
    runType: string,                          // test.batch.run.type
    maxGroupSize: int,                        // test.batch.max.group.size
    maxSubgroupSize: nat,                     // test.batch.max.subgroup.size
    groupIgnoreRegex: Option<string>)         // test.batch.group.ignore.regex

  datatype BatchError =
    | MismatchedPropertyLists                 // names and values of different lengths
    | MissingCommandProperties(name: string)  // a selected command without Properties (a null putAll)
    | SubgroupSizeZero                        // a division by a subgroup size of 0
    | UnknownRunType(runType: string)         // neither "sequential" nor "single"

  /**
   * The guard of `_writeTestCaseMethodNamesProperties`: groups are written only for a positive
   * maximum group size and either an explicit query or both property lists.
   */
  predicate BatchRequested(config: BatchConfig) {
    && config.maxGroupSize > 0
    && ((config.propertyNames.Some? && config.propertyValues.Some?) || config.propertyQuery.Some?)
  }

  /** `name == "value"`. */
  function Clause(name: string, value: string): string {
    name + " == \"" + value + "\""
  }

  function Clauses(names: seq<string>, values: seq<string>): (r: seq<string>)
    requires |names| == |values|
    ensures |r| == |names|
    ensures forall i :: 0 <= i < |r| ==> r[i] == Clause(names[i], values[i])
  {
    seq(|names|, i requires 0 <= i < |names| => Clause(names[i], values[i]))
  }

  /** The query built from the property lists: one clause per name, joined by ` OR `. */
  function ListQuery(names: seq<string>, values: seq<string>): Result<string, BatchError> {
    if |names| != |values| then Err(MismatchedPropertyLists)
    else Ok(JoinWith(Clauses(names, values), " OR "))
  }

  /** The query restricted to tests that are not ignored and run in the environment `env`. */
  function EnvironmentQuery(query: string, env: string): string {
    "(" + query + ") AND (ignored != true) AND (test.run.environment == \"" + env
      + "\" OR test.run.environment == null)"
  }

  /** The query `_getTestBatchGroups` evaluates: the explicit one or the list one, then the environment. */
  function BatchQuery(config: BatchConfig): Result<string, BatchError>
    requires BatchRequested(config)
  {
    var query := if config.propertyQuery.Some? then Ok(config.propertyQuery.value)
      else ListQuery(config.propertyNames.value, config.propertyValues.value);
    match query
    case Err(e) => Err(e)
    case Ok(q) => Ok(if NotNull(config.runEnvironment) then EnvironmentQuery(q, config.runEnvironment.value) else q)
  }

  /** One pair of lists gives exactly one clause; lists of different lengths are refused. */
  lemma ListQueryCases(names: seq<string>, values: seq<string>)
    ensures ListQuery(names, values).Err? <==> |names| != |values|
    ensures |names| == |values| == 1 ==> ListQuery(names, values) == Ok(Clause(names[0], values[0]))
    ensures |names| == |values| == 0 ==> ListQuery(names, values) == Ok("")
  {
  }

  /** The loop over the property lists. */
  method BuildListQuery(names: seq<string>, values: seq<string>) returns (r: Result<string, BatchError>)
    ensures r == ListQuery(names, values)
  {
    if |names| != |values| {
      return Err(MismatchedPropertyLists);
    }
    var query := AppendJoined("", Clauses(names, values), " OR ");
    assert "" + JoinWith(Clauses(names, values), " OR ") == JoinWith(Clauses(names, values), " OR ");
    return Ok(query);
  }

  /** The query-building part of `_getTestBatchGroups`. */
  method BuildBatchQuery(config: BatchConfig) returns (r: Result<string, BatchError>)
    requires BatchRequested(config)
    ensures r == BatchQuery(config)
  {
    var query: string;
    if config.propertyQuery.Some? {
      query := config.propertyQuery.value;
    } else {
      var built := BuildListQuery(config.propertyNames.value, config.propertyValues.value);
      if built.Err? {
        return Err(built.error);
      }
      query := built.value;
    }
    if NotNull(config.runEnvironment) {
      query := EnvironmentQuery(query, config.runEnvironment.value);
    }
    return Ok(query);
  }

  // ---------------------------------------------------------------- selecting the test commands

  /**
   * What the query is evaluated against for a test command: its Properties as `getProperty` reads
   * them (defaults included), or nothing (Java's `null`) for a command without Properties.
   */
  function PropertiesView(t: Snapshot, q: QualifiedCommand): Option<map<string, string>> {
    if q in t.commandProperties then Some(Effective(t.propertySets, t.commandProperties[q])) else None
  }

  /** The first `k` test commands the query accepts, in the registry's order. */
  function Selected(t: Snapshot, accepts: (string, Option<map<string, string>>) -> bool, query: string, k: nat): seq<QualifiedCommand>
    requires k <= |t.testCaseCommandNames|
  {
    if k == 0 then []
    else
      var q := t.testCaseCommandNames[k - 1];
      Selected(t, accepts, query, k - 1) + (if accepts(query, PropertiesView(t, q)) then [q] else [])
  }

  /** A command is selected exactly when it is a test command and the query accepts its Properties. */
  lemma {:induction false} SelectedMembers(t: Snapshot, accepts: (string, Option<map<string, string>>) -> bool, query: string, k: nat, q: QualifiedCommand)
    requires k <= |t.testCaseCommandNames|
    ensures q in Selected(t, accepts, query, k) <==> q in t.testCaseCommandNames[..k] && accepts(query, PropertiesView(t, q))
    ensures |Selected(t, accepts, query, k)| <= k
  {
    if k > 0 {
      SelectedMembers(t, accepts, query, k - 1, q);
      assert t.testCaseCommandNames[..k] == t.testCaseCommandNames[..k - 1] + [t.testCaseCommandNames[k - 1]];
    }
  }

  /** The filtering loop of `_getTestBatchGroups`. */
  method SelectTestCommands(t: Snapshot, accepts: (string, Option<map<string, string>>) -> bool, query: string)
    returns (selected: seq<QualifiedCommand>)
    ensures selected == Selected(t, accepts, query, |t.testCaseCommandNames|)
  {
    selected := [];
    var k := 0;
    while k < |t.testCaseCommandNames|
      invariant 0 <= k <= |t.testCaseCommandNames|
      invariant selected == Selected(t, accepts, query, k)
    {
      var q := t.testCaseCommandNames[k];
      if accepts(query, PropertiesView(t, q)) {
        selected := selected + [q];
      }
      k := k + 1;
    }
  }

  function CommandTexts(qs: seq<QualifiedCommand>): (r: seq<string>)
    ensures |r| == |qs|
    ensures forall i :: 0 <= i < |qs| ==> r[i] == CommandText(qs[i])
  {
    seq(|qs|, i requires 0 <= i < |qs| => CommandText(qs[i]))
  }

  // ---------------------------------------------------------------- skipped tests

  const SkippedPrefix := "SKIPPED_TEST_CASE_METHOD_GROUP_0="

  /** Each of the first `k` names followed by a comma. */
  function CommaTerminated(names: seq<string>, k: nat): string
    requires k <= |names|
  {
    if k == 0 then "" else CommaTerminated(names, k - 1) + names[k - 1] + ","
  }

  /** The text written when validation fails: the prefix and the comma-terminated names, less the last character. */
  function SkippedText(names: seq<string>): string {
    var s := SkippedPrefix + CommaTerminated(names, |names|);
    s[..|s| - 1]
  }

  lemma {:induction false} CommaTerminatedIsJoin(names: seq<string>, k: nat)
    requires 1 <= k <= |names|
    ensures CommaTerminated(names, k) == JoinWith(names[..k], ",") + ","
  {
    if k > 1 {
      CommaTerminatedIsJoin(names, k - 1);
      JoinWithSnoc(names[..k - 1], names[k - 1], ",");
      assert names[..k - 1] + [names[k - 1]] == names[..k];
    }
  }

  /**
   * With names, the skipped line lists them separated by commas. With none, cutting the last
   * character removes the `=` of the prefix instead.
   */
  lemma SkippedTextShape(names: seq<string>)
    ensures names != [] ==> SkippedText(names) == SkippedPrefix + JoinWith(names, ",")
    ensures names == [] ==> SkippedText(names) == "SKIPPED_TEST_CASE_METHOD_GROUP_0"
  {
    if names != [] {
      CommaTerminatedIsJoin(names, |names|);
      assert names[..|names|] == names;
      var s := SkippedPrefix + JoinWith(names, ",");
      assert SkippedPrefix + CommaTerminated(names, |names|) == s + ",";
      assert (s + ",")[..|s + ","| - 1] == s;
    }
  }

  /** The `catch` branch of `_getTestBatchGroups`. */
  method WriteSkippedGroups(names: seq<string>) returns (text: string)
    ensures text == SkippedText(names)
  {
    text := SkippedPrefix;
    var k := 0;
    while k < |names|
      invariant 0 <= k <= |names|
      invariant text == SkippedPrefix + CommaTerminated(names, k)
    {
      text := text + names[k] + ",";
      k := k + 1;
    }
    text := text[..|text| - 1];
  }

  // ---------------------------------------------------------------- sequential mode: grouping

  /** `String.compareTo(a, b) <= 0`: the natural order `Collections.sort` uses on names. */
  predicate StringLe(a: string, b: string) {
    CompareStrings(a, b) <= 0
  }

  lemma StringLeIsTotalPreorder()
    ensures TotalPreorder(StringLe)
  {
    forall a: string, b: string ensures StringLe(a, b) || StringLe(b, a) {
      CompareAntisymmetric(a, b);
    }
    forall a: string, b: string, c: string | StringLe(a, b) && StringLe(b, c) ensures StringLe(a, c) {
      CompareTransitive(a, b, c);
    }
  }

  /** The property names the ignore pattern removes from group keys, when the pattern is set. */
  function IgnoredNames(config: BatchConfig, matches: (string, string) -> bool): Option<string -> bool> {
    if NotNull(config.groupIgnoreRegex) then Some(k => matches(k, config.groupIgnoreRegex.value)) else None
  }

  /**
   * The Properties a command is grouped by: a copy of its own table (`putAll` copies no defaults)
   * without the ignored names; nothing when the command has no Properties.
   */
  function GroupKey(t: Snapshot, q: QualifiedCommand, ignored: Option<string -> bool>): (r: Option<map<string, string>>)
    ensures r.Some? <==> q in t.commandProperties
    ensures r.Some? ==> forall k :: k in r.value <==>
      k in t.propertySets[t.commandProperties[q]].table && !(ignored.Some? && ignored.value(k))
    ensures r.Some? ==> forall k :: k in r.value ==> r.value[k] == t.propertySets[t.commandProperties[q]].table[k]
  {
    if q !in t.commandProperties then None
    else
      var table := t.propertySets[t.commandProperties[q]].table;
      match ignored
      case None => Some(table)
      case Some(drop) => Some(map k | k in table && !drop(k) :: table[k])
  }

  /** One `multimap.put(properties, name)`. */
  datatype Entry = Entry(key: map<string, string>, name: string)

  /** The entries the first `k` selected commands put into the multimap; the first command without Properties fails. */
  function Entries(t: Snapshot, names: seq<QualifiedCommand>, ignored: Option<string -> bool>, k: nat): Result<seq<Entry>, BatchError>
    requires k <= |names|
  {
    if k == 0 then Ok([])
    else
      match Entries(t, names, ignored, k - 1)
      case Err(e) => Err(e)
      case Ok(es) =>
        match GroupKey(t, names[k - 1], ignored)
        case None => Err(MissingCommandProperties(CommandText(names[k - 1])))
        case Some(key) => Ok(es + [Entry(key, CommandText(names[k - 1]))])
  }

  /** Grouping fails exactly when a command has no Properties; otherwise entry `i` is command `i` under its key. */
  lemma {:induction false} EntriesShape(t: Snapshot, names: seq<QualifiedCommand>, ignored: Option<string -> bool>, k: nat)
    requires k <= |names|
    ensures Entries(t, names, ignored, k).Ok? <==> forall i :: 0 <= i < k ==> names[i] in t.commandProperties
    ensures Entries(t, names, ignored, k).Ok? ==>
      var es := Entries(t, names, ignored, k).value;
      |es| == k &&
      forall i :: 0 <= i < k ==> es[i] == Entry(GroupKey(t, names[i], ignored).value, CommandText(names[i]))
  {
    if k > 0 {
      EntriesShape(t, names, ignored, k - 1);
    }
  }

  lemma {:induction false} EntriesFailurePersists(t: Snapshot, names: seq<QualifiedCommand>, ignored: Option<string -> bool>, k: nat, n: nat)
    requires k <= n <= |names| && Entries(t, names, ignored, k).Err?
    ensures Entries(t, names, ignored, n) == Entries(t, names, ignored, k)
    decreases n
  {
    if n > k {
      EntriesFailurePersists(t, names, ignored, k, n - 1);
    }
  }

  /** The loop of `_getTestBatchSequentialGroups` that fills the multimap. */
  method CollectEntries(t: Snapshot, names: seq<QualifiedCommand>, ignored: Option<string -> bool>)
    returns (r: Result<seq<Entry>, BatchError>)
    ensures r == Entries(t, names, ignored, |names|)
  {
    var es: seq<Entry> := [];
    var k := 0;
    while k < |names|
      invariant 0 <= k <= |names|
      invariant Entries(t, names, ignored, k) == Ok(es)
    {
      var key := GroupKey(t, names[k], ignored);
      if key.None? {
        EntriesFailurePersists(t, names, ignored, k + 1, |names|);
        return Err(MissingCommandProperties(CommandText(names[k])));
      }
      es := es + [Entry(key.value, CommandText(names[k]))];
      k := k + 1;
    }
    return Ok(es);
  }

  /** The names put under `key`, in order of insertion. */
  function Members(es: seq<Entry>, key: map<string, string>): (r: seq<string>)
    ensures forall x {:trigger x in r} :: x in r <==> Entry(key, x) in es
  {
    if es == [] then []
    else
      var last := es[|es| - 1];
      assert es == es[..|es| - 1] + [last];
      Members(es[..|es| - 1], key) + (if last.key == key then [last.name] else [])
  }

  /** The distinct elements, first occurrences kept: what a set of names holds. */
  function Dedup(xs: seq<string>): (r: seq<string>)
    ensures forall x :: x in r <==> x in xs
    ensures forall i, j :: 0 <= i < j < |r| ==> r[i] != r[j]
  {
    if xs == [] then []
    else
      var rest := Dedup(xs[..|xs| - 1]);
      assert xs == xs[..|xs| - 1] + [xs[|xs| - 1]];
      if xs[|xs| - 1] in rest then rest else rest + [xs[|xs| - 1]]
  }

  /** The sorted list made of the names a key holds (`new ArrayList(value)` and `Collections.sort`). */
  function Group(es: seq<Entry>, key: map<string, string>): seq<string> {
    SortBy(Dedup(Members(es, key)), StringLe)
  }

  /** A group holds exactly the names put under its key, each once, in ascending order. */
  lemma GroupFacts(es: seq<Entry>, key: map<string, string>)
    ensures forall x {:trigger x in Group(es, key)} :: x in Group(es, key) <==> Entry(key, x) in es
    ensures SortedBy(Group(es, key), StringLe)
    ensures multiset(Group(es, key)) == multiset(Dedup(Members(es, key)))
  {
    StringLeIsTotalPreorder();
    SortByIsSortedPermutation(Dedup(Members(es, key)), StringLe);
    forall x ensures x in Group(es, key) <==> x in Dedup(Members(es, key)) {
      assert x in Group(es, key) <==> x in multiset(Group(es, key));
    }
  }

  /** A non-empty group cut into pieces of the allocated size. */
  function GroupParts(g: seq<string>, maxSize: nat): seq<seq<string>>
    requires maxSize >= 1
  {
    if g == [] then [] else Partition(g, AllocatedGroupSize(|g|, maxSize))
  }

  /** The groups of the first `k` keys, in turn, each cut into its pieces. */
  function Parts(es: seq<Entry>, order: seq<map<string, string>>, maxSize: nat, k: nat): seq<seq<string>>
    requires maxSize >= 1 && k <= |order|
  {
    if k == 0 then [] else Parts(es, order, maxSize, k - 1) + GroupParts(Group(es, order[k - 1]), maxSize)
  }

  /** The key each piece was cut from. */
  function PartKeys(es: seq<Entry>, order: seq<map<string, string>>, maxSize: nat, k: nat): (r: seq<map<string, string>>)
    requires maxSize >= 1 && k <= |order|
    ensures |r| == |Parts(es, order, maxSize, k)|
  {
    if k == 0 then []
    else PartKeys(es, order, maxSize, k - 1) + seq(|GroupParts(Group(es, order[k - 1]), maxSize)|, _ => order[k - 1])
  }

  /** The pieces of a sorted sequence are sorted. */
  lemma PartitionKeepsSorted(xs: seq<string>, size: nat, i: nat)
    requires size >= 1 && SortedBy(xs, StringLe) && i < |Partition(xs, size)|
    ensures SortedBy(Partition(xs, size)[i], StringLe)
    ensures forall x :: x in Partition(xs, size)[i] ==> x in xs
  {
    var p := Partition(xs, size)[i];
    var base := i * size;
    PieceIsSlice(xs, size, i);
    forall j1, j2 | 0 <= j1 < j2 < |p| ensures StringLe(p[j1], p[j2]) {
      SliceOrdered(xs, StringLe, base, p, j1, j2);
    }
  }

  /** Two members of a slice of a sorted sequence are in order. */
  lemma SliceOrdered<T>(xs: seq<T>, le: (T, T) -> bool, base: nat, p: seq<T>, j1: nat, j2: nat)
    requires SortedBy(xs, le) && base + |p| <= |xs| && p == xs[base..base + |p|] && j1 < j2 < |p|
    ensures le(p[j1], p[j2])
  {
    assert p[j1] == xs[base + j1] && p[j2] == xs[base + j2];
  }

  /** Piece `i` is the slice of the input that starts at `i * size`. */
  lemma {:induction false} PieceIsSlice<T>(xs: seq<T>, size: nat, i: nat)
    requires size >= 1 && i < |Partition(xs, size)|
    ensures i * size + |Partition(xs, size)[i]| <= |xs|
    ensures Partition(xs, size)[i] == xs[i * size..i * size + |Partition(xs, size)[i]|]
    decreases |xs|
  {
    if |xs| <= size {
      assert Partition(xs, size) == [xs];
      assert i * size == 0;
    } else {
      PartitionLong(xs, size);
      if i == 0 {
        assert i * size == 0;
      } else {
        var tail := xs[size..];
        PieceIsSlice(tail, size, i - 1);
        TimesPredecessor(i, size);
        var q := Partition(tail, size)[i - 1];
        var b := (i - 1) * size;
        assert Partition(xs, size)[i] == q;
        forall k | 0 <= k < |q| ensures q[k] == xs[size + b + k] {
          assert q[k] == tail[b + k];
        }
      }
    }
  }

  /** Member `j` of piece `i` is the element at `i * size + j`. */
  lemma PieceAt<T>(xs: seq<T>, size: nat, i: nat, j: nat)
    requires size >= 1 && i < |Partition(xs, size)| && j < |Partition(xs, size)[i]|
    ensures i * size + j < |xs| && Partition(xs, size)[i][j] == xs[i * size + j]
  {
    PartitionAt(xs, size, i, j);
  }

  /** Each piece of a group is sorted, holds between 1 and the maximum number of names, and only names put under its key. */
  lemma GroupPartsFacts(es: seq<Entry>, key: map<string, string>, maxSize: nat, i: nat)
    requires maxSize >= 1 && i < |GroupParts(Group(es, key), maxSize)|
    ensures SortedBy(GroupParts(Group(es, key), maxSize)[i], StringLe)
    ensures 1 <= |GroupParts(Group(es, key), maxSize)[i]| <= maxSize
    ensures forall x {:trigger x in GroupParts(Group(es, key), maxSize)[i]} :: x in GroupParts(Group(es, key), maxSize)[i] ==> Entry(key, x) in es
  {
    var g := Group(es, key);
    GroupFacts(es, key);
    AllocatedGroupSizeBounds(|g|, maxSize);
    PartitionKeepsSorted(g, AllocatedGroupSize(|g|, maxSize), i);
  }

  /**
   * Every piece written in sequential mode is sorted, holds between 1 and `maxSize` names, and
   * all its names were put under the same key: they share their Properties.
   */
  lemma {:induction false} PartsFacts(es: seq<Entry>, order: seq<map<string, string>>, maxSize: nat, k: nat, i: nat)
    requires maxSize >= 1 && k <= |order| && i < |Parts(es, order, maxSize, k)|
    ensures SortedBy(Parts(es, order, maxSize, k)[i], StringLe)
    ensures 1 <= |Parts(es, order, maxSize, k)[i]| <= maxSize
    ensures forall x :: x in Parts(es, order, maxSize, k)[i] ==> Entry(PartKeys(es, order, maxSize, k)[i], x) in es
  {
    var before := Parts(es, order, maxSize, k - 1);
    if i < |before| {
      PartsFacts(es, order, maxSize, k - 1, i);
    } else {
      GroupPartsFacts(es, order[k - 1], maxSize, i - |before|);
    }
  }

  lemma {:induction false} FlattenAppend<T>(a: seq<seq<T>>, b: seq<seq<T>>)
    ensures Flatten(a + b) == Flatten(a) + Flatten(b)
  {
    if a == [] {
      assert a + b == b;
    } else {
      FlattenAppend(a[1..], b);
      assert (a + b)[1..] == a[1..] + b;
      assert (a + b)[0] == a[0];
      AppendAssoc(a[0], Flatten(a[1..]), Flatten(b));
    }
  }

  lemma AppendAssoc<T>(x: seq<T>, y: seq<T>, z: seq<T>)
    ensures (x + y) + z == x + (y + z)
  {
  }

  /** The pieces of a group, put back together, are the group. */
  lemma GroupPartsFlatten(g: seq<string>, maxSize: nat)
    requires maxSize >= 1
    ensures Flatten(GroupParts(g, maxSize)) == g
  {
    if g != [] {
      AllocatedGroupSizeBounds(|g|, maxSize);
      PartitionFlatten(g, AllocatedGroupSize(|g|, maxSize));
    }
  }

  /** `x` was put under one of the first `k` listed keys. */
  predicate Listed(es: seq<Entry>, order: seq<map<string, string>>, k: nat, x: string)
    requires k <= |order|
  {
    k > 0 && (Listed(es, order, k - 1, x) || Entry(order[k - 1], x) in es)
  }

  lemma {:induction false} ListedMeans(es: seq<Entry>, order: seq<map<string, string>>, k: nat, x: string)
    requires k <= |order|
    ensures Listed(es, order, k, x) <==> exists i :: 0 <= i < k && Entry(order[i], x) in es
  {
    if k > 0 {
      ListedMeans(es, order, k - 1, x);
      if Listed(es, order, k, x) && !Listed(es, order, k - 1, x) {
        assert 0 <= k - 1 < k && Entry(order[k - 1], x) in es;
      }
      if exists i :: 0 <= i < k && Entry(order[i], x) in es {
        var i :| 0 <= i < k && Entry(order[i], x) in es;
        if i < k - 1 {
          assert Listed(es, order, k - 1, x);
        }
      }
    }
  }

  lemma FlattenAppendMembers<T>(a: seq<seq<T>>, b: seq<seq<T>>, x: T)
    ensures x in Flatten(a + b) <==> x in Flatten(a) || x in Flatten(b)
  {
    FlattenAppend(a, b);
  }

  lemma {:induction false} PartsMembers(es: seq<Entry>, order: seq<map<string, string>>, maxSize: nat, k: nat, x: string)
    requires maxSize >= 1 && k <= |order|
    ensures x in Flatten(Parts(es, order, maxSize, k)) <==> Listed(es, order, k, x)
  {
    if k > 0 {
      var pieces := GroupParts(Group(es, order[k - 1]), maxSize);
      PartsMembers(es, order, maxSize, k - 1, x);
      assert Parts(es, order, maxSize, k) == Parts(es, order, maxSize, k - 1) + pieces;
      FlattenAppendMembers(Parts(es, order, maxSize, k - 1), pieces, x);
      GroupPartsFlatten(Group(es, order[k - 1]), maxSize);
      GroupFacts(es, order[k - 1]);
    }
  }

  /** A name is written in sequential mode exactly when it was put under one of the listed keys. */
  lemma PartsCover(es: seq<Entry>, order: seq<map<string, string>>, maxSize: nat, k: nat, x: string)
    requires maxSize >= 1 && k <= |order|
    ensures x in Flatten(Parts(es, order, maxSize, k)) <==> exists i :: 0 <= i < k && Entry(order[i], x) in es
  {
    PartsMembers(es, order, maxSize, k, x);
    ListedMeans(es, order, k, x);
  }

  /** When the keys listed are all the keys put, every selected name is written. */
  lemma SequentialPartsCoverEveryName(es: seq<Entry>, order: seq<map<string, string>>, maxSize: nat, e: Entry)
    requires maxSize >= 1 && e in es && e.key in order
    ensures e.name in Flatten(Parts(es, order, maxSize, |order|))
  {
    var i :| 0 <= i < |order| && order[i] == e.key;
    PartsCover(es, order, maxSize, |order|, e.name);
    assert Entry(order[i], e.name) == e;
  }

  /**
   * `order` lists the keys of the multimap, as iterating over its key set does: each key once,
   * every key some name was put under, and no other.
   */
  predicate ListsKeys(es: seq<Entry>, order: seq<map<string, string>>) {
    && (forall i, j :: 0 <= i < j < |order| ==> order[i] != order[j])
    && (forall e :: e in es ==> e.key in order)
    && (forall i :: 0 <= i < |order| ==> exists e :: e in es && e.key == order[i])
  }

  /** How many of the first `k` listed keys `x` was put under. */
  function KeyCount(es: seq<Entry>, order: seq<map<string, string>>, k: nat, x: string): nat
    requires k <= |order|
  {
    if k == 0 then 0 else KeyCount(es, order, k - 1, x) + (if Entry(order[k - 1], x) in es then 1 else 0)
  }

  /** A sequence without repetitions holds each element once. */
  lemma {:induction false} DistinctCount(xs: seq<string>, x: string)
    requires forall i, j :: 0 <= i < j < |xs| ==> xs[i] != xs[j]
    ensures multiset(xs)[x] == if x in xs then 1 else 0
  {
    if xs != [] {
      var init := xs[..|xs| - 1];
      assert xs == init + [xs[|xs| - 1]];
      DistinctCount(init, x);
    }
  }

  /** A group holds each name put under its key exactly once, and no other name. */
  lemma GroupCount(es: seq<Entry>, key: map<string, string>, x: string)
    ensures multiset(Group(es, key))[x] == if Entry(key, x) in es then 1 else 0
  {
    GroupFacts(es, key);
    DistinctCount(Dedup(Members(es, key)), x);
  }

  /** In sequential mode a name is written once for every listed key it was put under. */
  lemma {:induction false} PartsCount(es: seq<Entry>, order: seq<map<string, string>>, maxSize: nat, k: nat, x: string)
    requires maxSize >= 1 && k <= |order|
    ensures multiset(Flatten(Parts(es, order, maxSize, k)))[x] == KeyCount(es, order, k, x)
  {
    if k > 0 {
      var pieces := GroupParts(Group(es, order[k - 1]), maxSize);
      PartsCount(es, order, maxSize, k - 1, x);
      FlattenAppend(Parts(es, order, maxSize, k - 1), pieces);
      GroupPartsFlatten(Group(es, order[k - 1]), maxSize);
      GroupCount(es, order[k - 1], x);
    }
  }

  /** Listed once each, the key a name was put under is counted once if it is among the first `k`. */
  lemma {:induction false} KeyCountOfOneKey(es: seq<Entry>, order: seq<map<string, string>>, k: nat, x: string, key: map<string, string>)
    requires k <= |order| && ListsKeys(es, order)
    requires forall y :: Entry(y, x) in es <==> y == key
    ensures KeyCount(es, order, k, x) == if key in order[..k] then 1 else 0
  {
    if k > 0 {
      KeyCountOfOneKey(es, order, k - 1, x, key);
      assert order[..k] == order[..k - 1] + [order[k - 1]];
    }
  }

  /**
   * With `order` listing the keys, sequential mode writes a name exactly when it was put into the
   * multimap, once for a name put under one key; and it writes nothing exactly when nothing was put.
   */
  lemma SequentialPartsWriteEachNameOnce(es: seq<Entry>, order: seq<map<string, string>>, maxSize: nat, x: string)
    requires maxSize >= 1 && ListsKeys(es, order)
    ensures x in Flatten(Parts(es, order, maxSize, |order|)) <==> exists e :: e in es && e.name == x
    ensures (exists e :: e in es && e.name == x) && (forall e1, e2 :: e1 in es && e2 in es && e1.name == x && e2.name == x ==> e1.key == e2.key) ==>
      multiset(Flatten(Parts(es, order, maxSize, |order|)))[x] == 1
    ensures Parts(es, order, maxSize, |order|) == [] <==> es == []
  {
    var parts := Parts(es, order, maxSize, |order|);
    if e :| e in es && e.name == x {
      SequentialPartsCoverEveryName(es, order, maxSize, e);
      if forall e1, e2 :: e1 in es && e2 in es && e1.name == x && e2.name == x ==> e1.key == e2.key {
        forall y ensures Entry(y, x) in es <==> y == e.key {
          if Entry(y, x) in es {
            assert Entry(y, x).name == x;
          }
          assert Entry(e.key, x) == e;
        }
        PartsCount(es, order, maxSize, |order|, x);
        KeyCountOfOneKey(es, order, |order|, x, e.key);
        assert order[..|order|] == order;
      }
    }
    if x in Flatten(parts) {
      PartsCover(es, order, maxSize, |order|, x);
      var i :| 0 <= i < |order| && Entry(order[i], x) in es;
      assert Entry(order[i], x).name == x;
    }
    if es != [] {
      SequentialPartsCoverEveryName(es, order, maxSize, es[0]);
    }
  }

  /** One key's group cut into pieces of the allocated size; an empty group gives none. */
  method CutGroup(es: seq<Entry>, key: map<string, string>, maxSize: nat) returns (pieces: seq<seq<string>>)
    requires maxSize >= 1
    ensures pieces == GroupParts(Group(es, key), maxSize)
  {
    var group := Group(es, key);
    pieces := [];
    if group != [] {
      var groupSize := AllocatedGroupSize(|group|, maxSize);
      AllocatedGroupSizeBounds(|group|, maxSize);
      pieces := Partition(group, groupSize);
    }
  }

  lemma PartsNext(es: seq<Entry>, order: seq<map<string, string>>, maxSize: nat, k: nat, parts: seq<seq<string>>, pieces: seq<seq<string>>)
    requires maxSize >= 1 && k < |order|
    requires parts == Parts(es, order, maxSize, k) && pieces == GroupParts(Group(es, order[k]), maxSize)
    ensures parts + pieces == Parts(es, order, maxSize, k + 1)
  {
  }

  /** The loop over the multimap's keys of `_getTestBatchSequentialGroups`. */
  method CutGroups(es: seq<Entry>, order: seq<map<string, string>>, maxSize: nat) returns (parts: seq<seq<string>>)
    requires maxSize >= 1
    ensures parts == Parts(es, order, maxSize, |order|)
  {
    parts := [];
    var k := 0;
    while k < |order|
      invariant 0 <= k <= |order|
      invariant parts == Parts(es, order, maxSize, k)
    {
      var pieces := CutGroup(es, order[k], maxSize);
      PartsNext(es, order, maxSize, k, parts, pieces);
      parts := parts + pieces;
      k := k + 1;
    }
  }

  // ---------------------------------------------------------------- sequential mode: the text

  /**
   * What member `j` of a group adds: it opens subgroup `j / size` when `j` is a multiple of the
   * subgroup size, and otherwise continues the open line after a comma, ending it when `j + 1` is
   * a multiple.
   */
  function SubgroupPiece(i: nat, size: nat, j: nat, name: string): string
    requires size >= 1
  {
    if j % size == 0 then GroupName(i) + "_" + DecimalString(j / size) + "=" + name
    else if (j + 1) % size == 0 then "," + name + "\n"
    else "," + name
  }

  function SubgroupLines(i: nat, group: seq<string>, size: nat, k: nat): string
    requires size >= 1 && k <= |group|
  {
    if k == 0 then "" else SubgroupLines(i, group, size, k - 1) + SubgroupPiece(i, size, k - 1, group[k - 1])
  }

  /** One sequential-mode group: the line naming its subgroups, the subgroup lines, and a newline. */
  function SequentialBlock(i: nat, group: seq<string>, size: nat): string
    requires size >= 1
  {
    HeaderLine(i, CeilDiv(|group|, size)) + SubgroupLines(i, group, size, |group|) + "\n"
  }

  function SequentialBlocks(groups: seq<seq<string>>, size: nat, k: nat): string
    requires size >= 1 && k <= |groups|
  {
    if k == 0 then "" else SequentialBlocks(groups, size, k - 1) + SequentialBlock(k - 1, groups[k - 1], size)
  }

  function SequentialText(groups: seq<seq<string>>, size: nat): string
    requires size >= 1
  {
    SequentialBlocks(groups, size, |groups|) + GroupsLine + JoinWith(GroupIds(|groups|), " ")
  }

  /**
   * The text `_getTestBatchSequentialGroups` returns: the first command without Properties fails,
   * a subgroup size of 0 fails once there is a group to write, and otherwise every piece is written.
   */
  function SequentialGroups(t: Snapshot, names: seq<QualifiedCommand>, ignored: Option<string -> bool>,
                            order: seq<map<string, string>>, maxSize: nat, subgroupSize: nat): Result<string, BatchError>
    requires maxSize >= 1
    requires Entries(t, names, ignored, |names|).Ok? ==> ListsKeys(Entries(t, names, ignored, |names|).value, order)
  {
    match Entries(t, names, ignored, |names|)
    case Err(e) => Err(e)
    case Ok(es) =>
      var parts := Parts(es, order, maxSize, |order|);
      if parts == [] then Ok(GroupsLine)
      else if subgroupSize == 0 then Err(SubgroupSizeZero)
      else Ok(SequentialText(parts, subgroupSize))
  }

  lemma TimesMonotone(a: nat, b: nat, s: nat)
    requires a <= b
    ensures a * s <= b * s
  {
  }

  /**
   * The header of a group names subgroup `c` exactly when member `c * size` exists: every subgroup
   * named is opened by a member line, and every member opens or continues a named subgroup.
   */
  lemma SubgroupsAnnounced(n: nat, size: nat, c: nat, j: nat)
    requires size >= 1
    ensures c < CeilDiv(n, size) <==> c * size < n
    ensures j < n ==> j / size < CeilDiv(n, size)
  {
    CeilDivCovers(n, size);
    if c * size >= n {
      CeilDivLeast(n, size, c);
    }
    if c < CeilDiv(n, size) && c * size >= n {
      assert false;
    }
    if c >= CeilDiv(n, size) {
      TimesMonotone(CeilDiv(n, size), c, size);
    }
    if j < n {
      var q := j / size;
      assert q * size <= j;
      if q >= CeilDiv(n, size) {
        TimesMonotone(CeilDiv(n, size), q, size);
      }
    }
  }

  /**
   * With a subgroup size of 1 every member opens a subgroup and no member ends one: the subgroup
   * assignments of a group run together on one line.
   */
  lemma SubgroupSizeOneRunsTogether(i: nat, j: nat, name: string)
    ensures SubgroupPiece(i, 1, j, name) == GroupName(i) + "_" + DecimalString(j) + "=" + name
  {
  }

  lemma SubgroupLinesStep(prefix: string, r: string, i: nat, group: seq<string>, size: nat, j: nat)
    requires size >= 1 && j < |group| && r == prefix + SubgroupLines(i, group, size, j)
    ensures r + SubgroupPiece(i, size, j, group[j]) == prefix + SubgroupLines(i, group, size, j + 1)
  {
  }

  /** The branches of the member loop's body. */
  method WritePiece(i: nat, size: nat, j: nat, name: string) returns (piece: string)
    requires size >= 1
    ensures piece == SubgroupPiece(i, size, j, name)
  {
    if j % size == 0 {
      piece := GroupName(i) + "_" + DecimalString(j / size) + "=" + name;
    } else if (j + 1) % size == 0 {
      piece := "," + name + "\n";
    } else {
      piece := "," + name;
    }
  }

  /** The member loop of one group. */
  method AppendSubgroupLines(text: string, i: nat, group: seq<string>, size: nat) returns (r: string)
    requires size >= 1
    ensures r == text + SubgroupLines(i, group, size, |group|)
  {
    r := text;
    var j := 0;
    while j < |group|
      invariant 0 <= j <= |group|
      invariant r == text + SubgroupLines(i, group, size, j)
    {
      SubgroupLinesStep(text, r, i, group, size, j);
      var piece := WritePiece(i, size, j, group[j]);
      r := r + piece;
      j := j + 1;
    }
  }

  /** Writes one sequential-mode group after `text`. */
  method AppendSequentialBlock(text: string, i: nat, group: seq<string>, size: nat) returns (r: string)
    requires size >= 1
    ensures r == text + SequentialBlock(i, group, size)
  {
    var subgroupCount := CeilDiv(|group|, size);
    r := AppendHeaderLine(text, i, subgroupCount);
    ghost var header := r;
    r := AppendSubgroupLines(r, i, group, size);
    r := r + "\n";
    AppendAssoc(text, HeaderLine(i, subgroupCount), SubgroupLines(i, group, size, |group|));
    AppendAssoc(text, HeaderLine(i, subgroupCount) + SubgroupLines(i, group, size, |group|), "\n");
  }

  /** The writing loops of `_getTestBatchSequentialGroups`. */
  method WriteSequentialText(groups: seq<seq<string>>, size: nat) returns (text: string)
    requires size >= 1
    ensures text == SequentialText(groups, size)
  {
    text := "";
    var i: nat := 0;
    while i < |groups|
      invariant i <= |groups|
      invariant text == SequentialBlocks(groups, size, i)
    {
      text := AppendSequentialBlock(text, i, groups[i], size);
      i := i + 1;
    }
    text := AppendGroupsLine(text, |groups|);
  }

  /** The closing `RUN_TEST_CASE_METHOD_GROUPS=` line naming groups `0` to `n - 1`. */
  method AppendGroupsLine(text: string, n: nat) returns (r: string)
    ensures r == text + GroupsLine + JoinWith(GroupIds(n), " ")
  {
    r := text + GroupsLine;
    r := AppendJoined(r, GroupIds(n), " ");
  }

  /** `_getTestBatchSequentialGroups(namespacedClassCommandNames)`. */
  method GetTestBatchSequentialGroups(t: Snapshot, names: seq<QualifiedCommand>, ignored: Option<string -> bool>,
                                      order: seq<map<string, string>>, maxSize: nat, subgroupSize: nat)
    returns (r: Result<string, BatchError>)
    requires maxSize >= 1
    requires Entries(t, names, ignored, |names|).Ok? ==> ListsKeys(Entries(t, names, ignored, |names|).value, order)
    ensures r == SequentialGroups(t, names, ignored, order, maxSize, subgroupSize)
  {
    var entries := CollectEntries(t, names, ignored);
    if entries.Err? {
      return Err(entries.error);
    }
    var parts := CutGroups(entries.value, order, maxSize);
    if parts == [] {
      return Ok(GroupsLine);
    }
    if subgroupSize == 0 {
      return Err(SubgroupSizeZero);
    }
    var text := WriteSequentialText(parts, subgroupSize);
    return Ok(text);
  }

  // ---------------------------------------------------------------- _getTestBatchGroups

  /** In sequential mode, `order` lists the keys of the multimap the selected commands fill. */
  predicate OrderListsKeys(t: Snapshot, config: BatchConfig, accepts: (string, Option<map<string, string>>) -> bool,
                           matches: (string, string) -> bool, order: seq<map<string, string>>)
    requires BatchRequested(config)
  {
    BatchQuery(config).Ok? ==>
      var selected := Selected(t, accepts, BatchQuery(config).value, |t.testCaseCommandNames|);
      var es := Entries(t, selected, IgnoredNames(config, matches), |selected|);
      es.Ok? ==> ListsKeys(es.value, order)
  }

  /**
   * `_getTestBatchGroups`: the query, the selected test commands, then the skipped line when
   * validation failed, or the groups of the configured run type.
   */
  function TestBatchGroups(t: Snapshot, config: BatchConfig, accepts: (string, Option<map<string, string>>) -> bool,
                           valid: bool, matches: (string, string) -> bool, order: seq<map<string, string>>): Result<string, BatchError>
    requires BatchRequested(config) && OrderListsKeys(t, config, accepts, matches, order)
  {
    match BatchQuery(config)
    case Err(e) => Err(e)
    case Ok(query) =>
      var selected := Selected(t, accepts, query, |t.testCaseCommandNames|);
      if !valid then Ok(SkippedText(CommandTexts(selected)))
      else if config.runType == "sequential" then
        SequentialGroups(t, selected, IgnoredNames(config, matches), order, config.maxGroupSize as nat, config.maxSubgroupSize)
      else if config.runType == "single" then Ok(SingleGroupsText(CommandTexts(selected)))
      else Err(UnknownRunType(config.runType))
  }

  /**
   * Only mismatched property lists fail before the query runs; a failed validation always yields the
   * skipped line; an unknown run type fails after that.
   */
  lemma TestBatchGroupsOutcomes(t: Snapshot, config: BatchConfig, accepts: (string, Option<map<string, string>>) -> bool,
                                valid: bool, matches: (string, string) -> bool, order: seq<map<string, string>>)
    requires BatchRequested(config) && OrderListsKeys(t, config, accepts, matches, order)
    ensures TestBatchGroups(t, config, accepts, valid, matches, order) == Err(MismatchedPropertyLists) <==>
      config.propertyQuery.None? && |config.propertyNames.value| != |config.propertyValues.value|
    ensures BatchQuery(config).Ok? && !valid ==>
      TestBatchGroups(t, config, accepts, valid, matches, order)
        == Ok(SkippedText(CommandTexts(Selected(t, accepts, BatchQuery(config).value, |t.testCaseCommandNames|))))
    ensures BatchQuery(config).Ok? && valid && config.runType != "sequential" && config.runType != "single" ==>
      TestBatchGroups(t, config, accepts, valid, matches, order) == Err(UnknownRunType(config.runType))
  {
    var r := TestBatchGroups(t, config, accepts, valid, matches, order);
    if BatchQuery(config).Ok? && valid && config.runType == "sequential" {
      var query := BatchQuery(config).value;
      var selected := Selected(t, accepts, query, |t.testCaseCommandNames|);
      var es := Entries(t, selected, IgnoredNames(config, matches), |selected|);
      if es.Err? {
        EntriesError(t, selected, IgnoredNames(config, matches), |selected|);
      }
    }
  }

  /** Grouping only ever fails for a command without Properties. */
  lemma {:induction false} EntriesError(t: Snapshot, names: seq<QualifiedCommand>, ignored: Option<string -> bool>, k: nat)
    requires k <= |names| && Entries(t, names, ignored, k).Err?
    ensures Entries(t, names, ignored, k).error.MissingCommandProperties?
  {
    if Entries(t, names, ignored, k - 1).Err? {
      EntriesError(t, names, ignored, k - 1);
    }
  }

  /** `_getTestBatchGroups()`, from the point where the settings are read. */
  method GetTestBatchGroups(t: Snapshot, config: BatchConfig, accepts: (string, Option<map<string, string>>) -> bool,
                            valid: bool, matches: (string, string) -> bool, order: seq<map<string, string>>)
    returns (r: Result<string, BatchError>)
    requires BatchRequested(config) && OrderListsKeys(t, config, accepts, matches, order)
    ensures r == TestBatchGroups(t, config, accepts, valid, matches, order)
  {
    var query := BuildBatchQuery(config);
    if query.Err? {
      return Err(query.error);
    }
    var selected := SelectTestCommands(t, accepts, query.value);
    if !valid {
      var text := WriteSkippedGroups(CommandTexts(selected));
      return Ok(text);
    }
    if config.runType == "sequential" {
      r := GetTestBatchSequentialGroups(t, selected, IgnoredNames(config, matches), order,
                                        config.maxGroupSize as nat, config.maxSubgroupSize);
      return;
    }
    if config.runType == "single" {
      var text := GetTestBatchSingleGroups(CommandTexts(selected));
      return Ok(text);
    }
    return Err(UnknownRunType(config.runType));
  }

  /** `x` is the text of at most one selected command. */
  predicate NamesOneCommand(selected: seq<QualifiedCommand>, x: string) {
    forall i, j :: 0 <= i < |selected| && 0 <= j < |selected| && CommandText(selected[i]) == x && CommandText(selected[j]) == x ==>
      selected[i] == selected[j]
  }

  /** Entries named after the commands, in order: one is named `x` exactly when `x` is a command's text. */
  lemma EntryNamesAreTexts(es: seq<Entry>, selected: seq<QualifiedCommand>, x: string)
    requires |es| == |selected| && forall i :: 0 <= i < |es| ==> es[i].name == CommandText(selected[i])
    ensures (exists e :: e in es && e.name == x) <==> x in CommandTexts(selected)
  {
    var texts := CommandTexts(selected);
    if x in texts {
      var i :| 0 <= i < |texts| && texts[i] == x;
      assert es[i] in es && es[i].name == x;
    }
    if e :| e in es && e.name == x {
      var a :| 0 <= a < |es| && es[a] == e;
      assert texts[a] == x;
    }
  }

  /** When the key depends on the command alone, a name of one command is put under one key. */
  lemma EntryKeysOfOneCommand(es: seq<Entry>, selected: seq<QualifiedCommand>, x: string)
    requires |es| == |selected| && forall i :: 0 <= i < |es| ==> es[i].name == CommandText(selected[i])
    requires forall i, j :: 0 <= i < |es| && 0 <= j < |es| && selected[i] == selected[j] ==> es[i].key == es[j].key
    requires NamesOneCommand(selected, x)
    ensures forall e1, e2 :: e1 in es && e2 in es && e1.name == x && e2.name == x ==> e1.key == e2.key
  {
    forall e1, e2 | e1 in es && e2 in es && e1.name == x && e2.name == x ensures e1.key == e2.key {
      var a :| 0 <= a < |es| && es[a] == e1;
      var b :| 0 <= b < |es| && es[b] == e2;
      assert selected[a] == selected[b];
    }
  }

  /**
   * The entries of the selected commands: none exactly when nothing is selected, one named `x`
   * exactly when `x` is a selected name, and a name of one command is put under one key.
   */
  lemma EntriesNames(t: Snapshot, selected: seq<QualifiedCommand>, ignored: Option<string -> bool>, x: string)
    requires Entries(t, selected, ignored, |selected|).Ok?
    ensures var es := Entries(t, selected, ignored, |selected|).value;
      && (es == [] <==> selected == [])
      && ((exists e :: e in es && e.name == x) <==> x in CommandTexts(selected))
      && (NamesOneCommand(selected, x) ==>
            forall e1, e2 :: e1 in es && e2 in es && e1.name == x && e2.name == x ==> e1.key == e2.key)
  {
    EntriesShape(t, selected, ignored, |selected|);
    var es := Entries(t, selected, ignored, |selected|).value;
    EntryNamesAreTexts(es, selected, x);
    if NamesOneCommand(selected, x) {
      EntryKeysOfOneCommand(es, selected, x);
    }
  }

  /**
   * Sequential mode writes the groups of the selected commands: nothing but the groups line when
   * none is selected, and otherwise every selected name, once for a name that belongs to one command.
   */
  lemma SequentialGroupsWriteSelected(t: Snapshot, config: BatchConfig, accepts: (string, Option<map<string, string>>) -> bool,
                                      matches: (string, string) -> bool, order: seq<map<string, string>>, x: string)
    requires BatchRequested(config) && OrderListsKeys(t, config, accepts, matches, order)
    requires BatchQuery(config).Ok? && config.runType == "sequential"
    ensures var selected := Selected(t, accepts, BatchQuery(config).value, |t.testCaseCommandNames|);
      var es := Entries(t, selected, IgnoredNames(config, matches), |selected|);
      es.Ok? ==>
        var parts := Parts(es.value, order, config.maxGroupSize as nat, |order|);
        && TestBatchGroups(t, config, accepts, true, matches, order) ==
             (if selected == [] then Ok(GroupsLine)
              else if config.maxSubgroupSize == 0 then Err(SubgroupSizeZero)
              else Ok(SequentialText(parts, config.maxSubgroupSize)))
        && (x in Flatten(parts) <==> x in CommandTexts(selected))
        && (x in CommandTexts(selected) && NamesOneCommand(selected, x) ==> multiset(Flatten(parts))[x] == 1)
  {
    var selected := Selected(t, accepts, BatchQuery(config).value, |t.testCaseCommandNames|);
    var ignored := IgnoredNames(config, matches);
    var es := Entries(t, selected, ignored, |selected|);
    if es.Ok? {
      EntriesNames(t, selected, ignored, x);
      SequentialPartsWriteEachNameOnce(es.value, order, config.maxGroupSize as nat, x);
      assert TestBatchGroups(t, config, accepts, true, matches, order) ==
        SequentialGroups(t, selected, ignored, order, config.maxGroupSize as nat, config.maxSubgroupSize);
    }
  }
}
