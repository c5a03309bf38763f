/**
 * The `task` node of the readable syntax: a header `task ("summary") {`, recognised by its shape,
 * cut into blocks line by line, and parsed into a `summary` attribute and a list of children.
 */
module TaskElement {
  import opened Wrappers
  import opened Text
  import opened ScriptTree
  import opened PoshiElements

  const ElementName := "task"
  const SummaryKey := "summary"

  // ---------------------------------------------------------------- recognition and cloning

  /** The text, once trimmed, is balanced, opens with `task (` and closes with `}`. */
  predicate IsTaskSyntax(h: SyntaxHelpers, poshiScript: string) {
    var t := Trim(poshiScript);
    h.isBalancedReadableSyntax(t) && StartsWith(t, "task (") && EndsWith(t, "}")
  }

  /** Recognition looks only at the trimmed text: blanks around it never change the answer. */
  lemma TaskSyntaxIgnoresPadding(h: SyntaxHelpers, pre: string, s: string, post: string)
    requires AllBlank(pre) && AllBlank(post)
    ensures IsTaskSyntax(h, pre + s + post) <==> IsTaskSyntax(h, s)
  {
    TrimIgnoresPadding(pre, s, post);
  }

  /** `clone(element)`: a `task` node for an element of that type, nothing otherwise. */
  function CloneElement(h: SyntaxHelpers, element: Element): (r: Option<Built>)
    ensures r.Some? <==> h.isElementType(ElementName, element)
    ensures r.Some? ==> r.value == FromElement(ElementName, element)
  {
    if h.isElementType(ElementName, element) then Some(FromElement(ElementName, element)) else None
  }

  /** `clone(parent, poshiScript)`: a `task` node exactly for recognised text, which then opens with `task (`. */
  function CloneSyntax(h: SyntaxHelpers, parent: ParentKind, poshiScript: string): (r: Option<Built>)
    ensures r.Some? <==> IsTaskSyntax(h, poshiScript)
    ensures r.Some? ==> r.value.FromScript? && r.value.name == ElementName && r.value.parent == parent
    ensures r.Some? ==> StartsWith(Trim(r.value.script), "task (") && EndsWith(Trim(r.value.script), "}")
  {
    if IsTaskSyntax(h, poshiScript) then Some(FromScript(ElementName, parent, poshiScript)) else None
  }

  // ---------------------------------------------------------------- header

  /** The header as `getBlockName` prints it for a summary. */
  function Header(summary: string): string {
    "task (\"" + summary + "\")"
  }

  /** A block read as the header: it opens with `task (`. */
  predicate IsHeaderBlock(block: string) {
    StartsWith(block, "task (")
  }

  /** The header branch of `parseReadableSyntax`: the quoted content of the parenthetical content, untrimmed. */
  function ParseSummary(h: SyntaxHelpers, block: string): string {
    h.getQuotedContent(h.getParentheticalContent(block))
  }

  /** What a header holds between its outer parentheses. */
  function QuotedSummary(summary: string): string {
    "\"" + summary + "\""
  }

  lemma HeaderEnclosed(summary: string, rest: string)
    requires ')' !in rest
    ensures Enclosed(Header(summary) + rest, '(', ')') == Some(QuotedSummary(summary))
  {
    assert Header(summary) + rest == "task " + ['('] + QuotedSummary(summary) + [')'] + rest;
    EnclosedFindsMiddle("task ", '(', QuotedSummary(summary), ')', rest);
  }

  lemma QuotedSummaryEnclosed(summary: string)
    ensures Enclosed(QuotedSummary(summary), '"', '"') == Some(summary)
  {
    assert QuotedSummary(summary) == "" + ['"'] + summary + ['"'] + "";
    EnclosedFindsMiddle("", '"', summary, '"', "");
  }

  /**
   * Header round trip: any summary printed into a header is read back unchanged, when the line goes
   * on without `)` and the helpers return the text between the outer parentheses and between the
   * outer quotes.
   */
  lemma HeaderRoundTrip(h: SyntaxHelpers, summary: string, rest: string)
    requires ')' !in rest
    requires Some(h.getParentheticalContent(Header(summary) + rest)) == Enclosed(Header(summary) + rest, '(', ')')
    requires Some(h.getQuotedContent(QuotedSummary(summary))) == Enclosed(QuotedSummary(summary), '"', '"')
    ensures ParseSummary(h, Header(summary) + rest) == summary
  {
    HeaderEnclosed(summary, rest);
    QuotedSummaryEnclosed(summary);
  }

  // ---------------------------------------------------------------- getReadableBlocks

  /**
   * One line of `getReadableBlocks`, for a node whose readable name is `readableName`. A line
   * opening with that name and ` (` and closing with `{`, met while the builder trims to nothing,
   * is a block of its own. Before any block exists, a line closing with `{` is skipped. Otherwise
   * the trimmed builder is emitted, when it is a valid block, and emptied; then the line and a
   * newline are appended.
   */
  function TaskStep(h: SyntaxHelpers, readableName: string, s: Scan, line: string): Scan {
    var trimmedLine := Trim(line);
    var readableBlock := Trim(s.acc);
    if StartsWith(trimmedLine, readableName + " (") && EndsWith(trimmedLine, "{") && |readableBlock| == 0 then
      Scan(s.blocks + [line], s.acc)
    else if EndsWith(trimmedLine, "{") && s.blocks == [] then
      s
    else if h.isValidReadableBlock(readableBlock) then
      Scan(s.blocks + [readableBlock], line + "\n")
    else
      Scan(s.blocks, s.acc + line + "\n")
  }

  function StepOf(h: SyntaxHelpers, readableName: string): (Scan, string) -> Scan {
    (s, line) => TaskStep(h, readableName, s, line)
  }

  /** `getReadableBlocks(poshiScript)`: what the builder holds after the last line is dropped. */
  function ReadableBlocks(h: SyntaxHelpers, readableName: string, poshiScript: string): seq<string> {
    var lines := JavaSplit(poshiScript, '\n');
    ScanLines(StepOf(h, readableName), lines, |lines|).blocks
  }

  /** A block is a header line, or a trimmed accumulation the helper accepts. */
  predicate BlockOrigin(h: SyntaxHelpers, readableName: string, block: string) {
    (StartsWith(Trim(block), readableName + " (") && EndsWith(Trim(block), "{"))
    || (Trimmed(block) && h.isValidReadableBlock(block))
  }

  lemma TaskStepFacts(h: SyntaxHelpers, readableName: string, s: Scan, line: string)
    ensures var after := TaskStep(h, readableName, s, line).blocks;
      |s.blocks| <= |after| <= |s.blocks| + 1 && after[..|s.blocks|] == s.blocks
      && forall b :: b in after ==> b in s.blocks || BlockOrigin(h, readableName, b)
  {
  }

  lemma TaskStepAppendsAtMostOne(h: SyntaxHelpers, readableName: string)
    ensures StepAppendsAtMostOne(StepOf(h, readableName))
  {
    var step := StepOf(h, readableName);
    forall s: Scan, line: string
      ensures |s.blocks| <= |step(s, line).blocks| <= |s.blocks| + 1 && step(s, line).blocks[..|s.blocks|] == s.blocks
    {
      TaskStepFacts(h, readableName, s, line);
    }
  }

  lemma TaskStepEmitsOnly(h: SyntaxHelpers, readableName: string)
    ensures StepEmitsOnly(StepOf(h, readableName), b => BlockOrigin(h, readableName, b))
  {
    var step := StepOf(h, readableName);
    forall s: Scan, line: string, b | b in step(s, line).blocks
      ensures b in s.blocks || BlockOrigin(h, readableName, b)
    {
      TaskStepFacts(h, readableName, s, line);
    }
  }

  /** Every block `getReadableBlocks` returns is a header line or a valid trimmed block. */
  lemma ReadableBlocksOrigin(h: SyntaxHelpers, readableName: string, poshiScript: string)
    ensures forall b :: b in ReadableBlocks(h, readableName, poshiScript) ==> BlockOrigin(h, readableName, b)
  {
    var lines := JavaSplit(poshiScript, '\n');
    TaskStepEmitsOnly(h, readableName);
    ScanLinesEmitOnly(StepOf(h, readableName), b => BlockOrigin(h, readableName, b), lines, |lines|);
  }

  /**
   * Blocks come out in the order of the lines: those the first `k` lines emit begin the result,
   * and no line emits more than one.
   */
  lemma ReadableBlocksInLineOrder(h: SyntaxHelpers, readableName: string, poshiScript: string, k: nat)
    requires k <= |JavaSplit(poshiScript, '\n')|
    ensures var lines := JavaSplit(poshiScript, '\n');
      var before := ScanLines(StepOf(h, readableName), lines, k).blocks;
      var all := ReadableBlocks(h, readableName, poshiScript);
      |before| <= |all| <= |before| + (|lines| - k) && all[..|before|] == before
  {
    var lines := JavaSplit(poshiScript, '\n');
    TaskStepAppendsAtMostOne(h, readableName);
    ScanLinesGrows(StepOf(h, readableName), lines, k, |lines|);
  }

  /** Before the first block, a line closing with `{` that is not a header is skipped altogether. */
  lemma OpeningLineSkipped(h: SyntaxHelpers, readableName: string, s: Scan, line: string)
    requires s.blocks == [] && EndsWith(Trim(line), "{")
    requires !StartsWith(Trim(line), readableName + " (") || Trim(s.acc) != []
    ensures TaskStep(h, readableName, s, line) == s
  {
  }

  /**
   * Once a block exists, a valid accumulation is emitted before any line that does not open a
   * block, an `else` line included: unlike `for`, nothing keeps an if/else chain together.
   */
  lemma ValidBlockClosedByAnyLine(h: SyntaxHelpers, readableName: string, s: Scan, line: string)
    requires s.blocks != [] && Trim(s.acc) != [] && h.isValidReadableBlock(Trim(s.acc))
    ensures TaskStep(h, readableName, s, line) == Scan(s.blocks + [Trim(s.acc)], line + "\n")
  {
  }

  // ---------------------------------------------------------------- parseReadableSyntax

  /** The node's state after parsing: its attributes and its children. */
  datatype Parsed = Parsed(attributes: map<string, string>, children: seq<Child>)

  /** `parseReadableSyntax` over the blocks from some point on: a header sets `summary`, any other block is a child. */
  function ParseBlocks(h: SyntaxHelpers, blocks: seq<string>, attributes: map<string, string>, children: seq<Child>): Parsed
    decreases |blocks|
  {
    if blocks == [] then Parsed(attributes, children)
    else if IsHeaderBlock(blocks[0]) then
      ParseBlocks(h, blocks[1..], attributes[SummaryKey := ParseSummary(h, blocks[0])], children)
    else
      ParseBlocks(h, blocks[1..], attributes, children + [Child(true, blocks[0])])
  }

  /** The child each non-header block becomes, in block order: always one with this node as parent. */
  function BlockChildren(blocks: seq<string>): (r: seq<Child>)
    ensures |r| <= |blocks|
    ensures forall c :: c in r <==> c.parentIsThis && c.block in blocks && !IsHeaderBlock(c.block)
  {
    if blocks == [] then []
    else if IsHeaderBlock(blocks[0]) then BlockChildren(blocks[1..])
    else [Child(true, blocks[0])] + BlockChildren(blocks[1..])
  }

  /** Every non-header block becomes a child under this node, in block order; parsing never fails. */
  lemma {:induction false} ParseBlocksChildren(h: SyntaxHelpers, blocks: seq<string>, attributes: map<string, string>, children: seq<Child>)
    ensures ParseBlocks(h, blocks, attributes, children).children == children + BlockChildren(blocks)
    decreases |blocks|
  {
    if blocks != [] {
      var rest := blocks[1..];
      if IsHeaderBlock(blocks[0]) {
        ParseBlocksChildren(h, rest, attributes[SummaryKey := ParseSummary(h, blocks[0])], children);
      } else {
        var c := Child(true, blocks[0]);
        ParseBlocksChildren(h, rest, attributes, children + [c]);
        assert children + [c] + BlockChildren(rest) == children + ([c] + BlockChildren(rest));
      }
    }
  }

  /** The last header decides `summary`. */
  lemma {:induction false} ParseLastHeaderDecides(h: SyntaxHelpers, blocks: seq<string>, i: nat, attributes: map<string, string>, children: seq<Child>)
    requires i < |blocks| && IsHeaderBlock(blocks[i])
    requires forall j :: i < j < |blocks| ==> !IsHeaderBlock(blocks[j])
    ensures var p := ParseBlocks(h, blocks, attributes, children);
      SummaryKey in p.attributes && p.attributes[SummaryKey] == ParseSummary(h, blocks[i])
    decreases |blocks|
  {
    var rest := blocks[1..];
    assert forall j :: 0 <= j < |rest| ==> rest[j] == blocks[j + 1];
    if i == 0 {
      ParseWithoutHeaderKeepsAttributes(h, rest, attributes[SummaryKey := ParseSummary(h, blocks[0])], children);
    } else if IsHeaderBlock(blocks[0]) {
      ParseLastHeaderDecides(h, rest, i - 1, attributes[SummaryKey := ParseSummary(h, blocks[0])], children);
    } else {
      ParseLastHeaderDecides(h, rest, i - 1, attributes, children + [Child(true, blocks[0])]);
    }
  }

  /** Without a header block the attributes are left as they were. */
  lemma {:induction false} ParseWithoutHeaderKeepsAttributes(h: SyntaxHelpers, blocks: seq<string>, attributes: map<string, string>, children: seq<Child>)
    requires forall j :: 0 <= j < |blocks| ==> !IsHeaderBlock(blocks[j])
    ensures ParseBlocks(h, blocks, attributes, children).attributes == attributes
    decreases |blocks|
  {
    if blocks != [] {
      assert forall j :: 0 <= j < |blocks[1..]| ==> blocks[1..][j] == blocks[j + 1];
      ParseWithoutHeaderKeepsAttributes(h, blocks[1..], attributes, children + [Child(true, blocks[0])]);
    }
  }

  // ---------------------------------------------------------------- toReadableSyntax

  /** The child renderings one after another, as the `content` builder collects them. */
  function Concat(parts: seq<string>): string {
    if parts == [] then "" else Concat(parts[..|parts| - 1]) + parts[|parts| - 1]
  }

  /** Rendering splits along the children: the renderings of two runs of children are concatenated in order. */
  lemma {:induction false} ConcatAppend(a: seq<string>, b: seq<string>)
    ensures Concat(a + b) == Concat(a) + Concat(b)
    decreases |b|
  {
    if b == [] {
      assert a + b == a;
    } else {
      var init := b[..|b| - 1];
      var last := b[|b| - 1];
      assert (a + b)[..|a + b| - 1] == a + init;
      assert (a + b)[|a + b| - 1] == last;
      ConcatAppend(a, init);
      assert Concat(a + b) == Concat(a) + Concat(init) + last;
      assert Concat(b) == Concat(init) + last;
    }
  }

  // ---------------------------------------------------------------- the node

  class TaskPoshiElement {
    var name: string
    var attributes: map<string, string>
    var children: seq<Child>

    /** A `task` node with no attributes and no children yet. */
    constructor ()
      ensures name == ElementName && attributes == map[] && children == []
    {
      name := ElementName;
      attributes := map[];
      children := [];
    }

    /** `getReadableName()`: the node's own element name, which names the header lines it reads. */
    function GetReadableName(): (r: string)
      reads this
      ensures r == name
    {
      name
    }

    /** `getBlockName()`: the header for the current `summary`; a missing one prints "null". */
    function BlockName(): (r: string)
      reads this
      ensures SummaryKey in attributes ==> r == Header(attributes[SummaryKey])
      ensures SummaryKey !in attributes ==> r == Header("null")
      ensures IsHeaderBlock(r)
    {
      var r := Header(ValueText(attributes, SummaryKey));
      StartsWithAppend("task (", r[6..]);
      assert r == "task (" + r[6..];
      r
    }

    /**
     * `toReadableSyntax()`, given the rendering of each child in child order: a newline, then the
     * concatenated renderings wrapped by `createReadableBlock`.
     */
    method ToReadableSyntax(h: SyntaxHelpers, renderings: seq<string>) returns (r: string)
      ensures r == "\n" + h.createReadableBlock(Concat(renderings))
    {
      var sb := "\n";
      var content := "";
      var i := 0;
      while i < |renderings|
        invariant 0 <= i <= |renderings|
        invariant content == Concat(renderings[..i])
      {
        assert renderings[..i + 1][..i] == renderings[..i];
        content := content + renderings[i];
        i := i + 1;
      }
      assert renderings[..i] == renderings;
      var readableBlock := h.createReadableBlock(content);
      r := sb + readableBlock;
    }

    /** One pass of the `getReadableBlocks` loop body, for `line`. */
    method ReadLine(h: SyntaxHelpers, blocks: seq<string>, sb: string, line: string)
      returns (blocks': seq<string>, sb': string)
      ensures Scan(blocks', sb') == StepOf(h, name)(Scan(blocks, sb), line)
    {
      blocks', sb' := blocks, sb;
      var trimmedLine := Trim(line);
      var readableBlock := Trim(sb);
      if StartsWith(trimmedLine, GetReadableName() + " (") && EndsWith(trimmedLine, "{") && |readableBlock| == 0 {
        blocks' := blocks + [line];
      } else if EndsWith(trimmedLine, "{") && |blocks| == 0 {
        // a line opening the node's body before any block: skipped
      } else if h.isValidReadableBlock(readableBlock) {
        // the builder's trimmed content is a block: emitted, and the builder restarts with this line
        blocks', sb' := blocks + [readableBlock], line + "\n";
      } else {
        sb' := sb + line + "\n";
      }
    }

    /** `getReadableBlocks(poshiScript)`. */
    method GetReadableBlocks(h: SyntaxHelpers, poshiScript: string) returns (blocks: seq<string>)
      ensures blocks == ReadableBlocks(h, name, poshiScript)
    {
      var lines := JavaSplit(poshiScript, '\n');
      ghost var step := StepOf(h, name);
      var sb := "";
      blocks := [];
      var i := 0;
      while i < |lines|
        invariant 0 <= i <= |lines|
        invariant Scan(blocks, sb) == ScanLines(step, lines, i)
      {
        ghost var before := Scan(blocks, sb);
        blocks, sb := ReadLine(h, blocks, sb, lines[i]);
        ScanLinesNext(step, lines, i, before, Scan(blocks, sb));
        i := i + 1;
      }
    }

    /** `parseReadableSyntax(poshiScript)`: the blocks are read in order into this node's summary and children. */
    method ParseReadableSyntax(h: SyntaxHelpers, poshiScript: string)
      modifies this
      ensures name == old(name)
      ensures Parsed(attributes, children)
        == ParseBlocks(h, ReadableBlocks(h, name, poshiScript), old(attributes), old(children))
    {
      var blocks := GetReadableBlocks(h, poshiScript);
      var summaries, kids := attributes, children;
      var i := 0;
      while i < |blocks|
        invariant 0 <= i <= |blocks|
        invariant ParseBlocks(h, blocks, attributes, children) == ParseBlocks(h, blocks[i..], summaries, kids)
      {
        var readableBlock := blocks[i];
        assert blocks[i..][1..] == blocks[i + 1..];
        if StartsWith(readableBlock, "task (") {
          var parentheticalContent := h.getParentheticalContent(readableBlock);
          var summary := h.getQuotedContent(parentheticalContent);
          summaries := summaries[SummaryKey := summary];
        } else {
          kids := kids + [Child(true, readableBlock)];
        }
        i := i + 1;
      }
      attributes, children := summaries, kids;
    }
  }
}
