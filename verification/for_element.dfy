/**
 * The `for` node of the readable syntax: a loop header `for (param : "list") {`, recognised by its
 * shape, cut into blocks line by line, and parsed into two attributes and a list of children.
 */
module ForElement {
  import opened Wrappers
  import opened Text
  import opened ScriptTree
  import opened PoshiElements

  const ElementName := "for"
  const ParamKey := "param"
  const ListKey := "list"

  // ---------------------------------------------------------------- recognition and cloning

  /** The text, once trimmed, is balanced, opens with `for (` and closes with `}`. */
  predicate IsForSyntax(h: SyntaxHelpers, readableSyntax: string) {
    var t := Trim(readableSyntax);
    h.isBalancedReadableSyntax(t) && StartsWith(t, "for (") && EndsWith(t, "}")
  }

  /** Recognition looks only at the trimmed text: blanks around it never change the answer. */
  lemma ForSyntaxIgnoresPadding(h: SyntaxHelpers, pre: string, s: string, post: string)
    requires AllBlank(pre) && AllBlank(post)
    ensures IsForSyntax(h, pre + s + post) <==> IsForSyntax(h, s)
  {
    TrimIgnoresPadding(pre, s, post);
  }

  /** `clone(element)`: a `for` node for an element of that type, nothing otherwise. */
  function CloneElement(h: SyntaxHelpers, element: Element): (r: Option<Built>)
    ensures r.Some? <==> h.isElementType(ElementName, element)
    ensures r.Some? ==> r.value == FromElement(ElementName, element)
  {
    if h.isElementType(ElementName, element) then Some(FromElement(ElementName, element)) else None
  }

  /** `clone(parent, readableSyntax)`: a `for` node exactly for recognised text, which then opens with `for (`. */
  function CloneSyntax(h: SyntaxHelpers, parent: ParentKind, readableSyntax: string): (r: Option<Built>)
    ensures r.Some? <==> IsForSyntax(h, readableSyntax)
    ensures r.Some? ==> r.value.FromScript? && r.value.name == ElementName && r.value.parent == parent
    ensures r.Some? ==> StartsWith(Trim(r.value.script), "for (") && EndsWith(Trim(r.value.script), "}")
  {
    if IsForSyntax(h, readableSyntax) then Some(FromScript(ElementName, parent, readableSyntax)) else None
  }

  // ---------------------------------------------------------------- header

  /** The header as `getBlockName` prints it for a parameter and a list. */
  function Header(param: string, list: string): string {
    "for (" + param + " : \"" + list + "\")"
  }

  /** A block read as the loop header: it opens with `for (` and does not close with `}`. */
  predicate IsHeaderBlock(block: string) {
    StartsWith(block, "for (") && !EndsWith(block, "}")
  }

  /**
   * The header branch of `parseReadableSyntax`: the trimmed text before the first `:` of the
   * parenthetical content is the parameter, the trimmed quoted content after it is the list; with
   * no `:`, `substring(0, -1)` throws.
   */
  function ParseHeader(h: SyntaxHelpers, block: string): (r: Result<(string, string), ElementError>)
    ensures r.Err? <==> ':' !in h.getParentheticalContent(block)
    ensures r.Err? ==> r.error == MissingColon(block)
    ensures r.Ok? ==> Trimmed(r.value.0) && Trimmed(r.value.1)
    ensures r.Ok? ==> ':' !in r.value.0
  {
    var content := h.getParentheticalContent(block);
    if ':' !in content then Err(MissingColon(block))
    else
      var index := IndexOfChar(content, ':');
      var param := Trim(content[..index]);
      assert ':' !in param by {
        assert forall i :: 0 <= i < |param| ==> param[i] in content[..index];
      }
      Ok((param, Trim(h.getQuotedContent(content[index + 1..]))))
  }

  /** What a header line holds between its outer parentheses. */
  function HeaderContent(param: string, list: string): string {
    param + " : \"" + list + "\""
  }

  lemma HeaderEnclosed(param: string, list: string, rest: string)
    requires ')' !in rest
    ensures Enclosed(Header(param, list) + rest, '(', ')') == Some(HeaderContent(param, list))
  {
    assert Header(param, list) + rest == "for " + ['('] + HeaderContent(param, list) + [')'] + rest;
    EnclosedFindsMiddle("for ", '(', HeaderContent(param, list), ')', rest);
  }

  lemma HeaderContentColon(param: string, list: string)
    requires ':' !in param
    ensures var c := HeaderContent(param, list);
      ':' in c && IndexOfChar(c, ':') == |param| + 1
      && c[..|param| + 1] == param + [' '] && c[|param| + 2..] == QuotedList(list)
  {
    var c := HeaderContent(param, list);
    assert c == param + [' '] + [':'] + QuotedList(list);
    FirstIndexAfter(param + [' '], ':', QuotedList(list));
  }

  /** The list part of the header content, after the colon. */
  function QuotedList(list: string): string {
    " \"" + list + "\""
  }

  lemma QuotedListEnclosed(list: string)
    ensures Enclosed(QuotedList(list), '"', '"') == Some(list)
  {
    assert QuotedList(list) == " " + ['"'] + list + ['"'] + "";
    EnclosedFindsMiddle(" ", '"', list, '"', "");
  }

  /**
   * Header round trip: a header printed for a trimmed parameter without `:` and a trimmed list is
   * read back as that parameter and list, when the line goes on without `)` and the helpers return
   * the text between the outer parentheses and between the outer quotes.
   */
  lemma HeaderRoundTrip(h: SyntaxHelpers, param: string, list: string, rest: string)
    requires Trimmed(param) && Trimmed(list) && ':' !in param && ')' !in rest
    requires Some(h.getParentheticalContent(Header(param, list) + rest))
      == Enclosed(Header(param, list) + rest, '(', ')')
    requires Some(h.getQuotedContent(QuotedList(list))) == Enclosed(QuotedList(list), '"', '"')
    ensures ParseHeader(h, Header(param, list) + rest) == Ok((param, list))
  {
    HeaderEnclosed(param, list, rest);
    HeaderContentColon(param, list);
    QuotedListEnclosed(list);
    TrimDropsTrailingBlank(param, ' ');
    TrimOfTrimmed(param);
    TrimOfTrimmed(list);
  }

  // ---------------------------------------------------------------- getReadableBlocks

  /**
   * One line of `getReadableBlocks`. A line that starts the whole text and opens with `for (` is a
   * block of its own and leaves the builder alone. Any other line that does not continue an
   * if/else chain first emits the trimmed builder, when that is a valid block, and empties it; then
   * the line and a newline are appended.
   */
  function ForStep(h: SyntaxHelpers, readableSyntax: string, s: Scan, line: string): Scan {
    var trimmedLine := Trim(line);
    if StartsWith(readableSyntax, line) && StartsWith(trimmedLine, "for (") then
      Scan(s.blocks + [line], s.acc)
    else if !StartsWith(trimmedLine, "else if (") && !StartsWith(trimmedLine, "else {")
      && h.isValidReadableBlock(Trim(s.acc)) then
      Scan(s.blocks + [Trim(s.acc)], line + "\n")
    else
      Scan(s.blocks, s.acc + line + "\n")
  }

  /** `getReadableBlocks(readableSyntax)`: what the builder holds after the last line is dropped. */
  function ReadableBlocks(h: SyntaxHelpers, readableSyntax: string): seq<string> {
    var lines := JavaSplit(readableSyntax, '\n');
    ScanLines(StepOf(h, readableSyntax), lines, |lines|).blocks
  }

  function StepOf(h: SyntaxHelpers, readableSyntax: string): (Scan, string) -> Scan {
    (s, line) => ForStep(h, readableSyntax, s, line)
  }

  /** A block is a header line that starts the text, or a trimmed accumulation the helper accepts. */
  predicate BlockOrigin(h: SyntaxHelpers, readableSyntax: string, block: string) {
    (StartsWith(readableSyntax, block) && StartsWith(Trim(block), "for ("))
    || (Trimmed(block) && h.isValidReadableBlock(block))
  }

  lemma ForStepAppendsAtMostOne(h: SyntaxHelpers, readableSyntax: string)
    ensures StepAppendsAtMostOne(StepOf(h, readableSyntax))
  {
    var step := StepOf(h, readableSyntax);
    forall s: Scan, line: string
      ensures |s.blocks| <= |step(s, line).blocks| <= |s.blocks| + 1 && step(s, line).blocks[..|s.blocks|] == s.blocks
    {
    }
  }

  lemma ForStepEmitsOnly(h: SyntaxHelpers, readableSyntax: string)
    ensures StepEmitsOnly(StepOf(h, readableSyntax), b => BlockOrigin(h, readableSyntax, b))
  {
    var step := StepOf(h, readableSyntax);
    forall s: Scan, line: string, b | b in step(s, line).blocks
      ensures b in s.blocks || BlockOrigin(h, readableSyntax, b)
    {
    }
  }

  /** Every block `getReadableBlocks` returns is a header line starting the text or a valid trimmed block. */
  lemma ReadableBlocksOrigin(h: SyntaxHelpers, readableSyntax: string)
    ensures forall b :: b in ReadableBlocks(h, readableSyntax) ==> BlockOrigin(h, readableSyntax, b)
  {
    var lines := JavaSplit(readableSyntax, '\n');
    ForStepEmitsOnly(h, readableSyntax);
    ScanLinesEmitOnly(StepOf(h, readableSyntax), b => BlockOrigin(h, readableSyntax, b), lines, |lines|);
  }

  /**
   * Blocks come out in the order of the lines: those the first `k` lines emit begin the result,
   * and no line emits more than one.
   */
  lemma ReadableBlocksInLineOrder(h: SyntaxHelpers, readableSyntax: string, k: nat)
    requires k <= |JavaSplit(readableSyntax, '\n')|
    ensures var lines := JavaSplit(readableSyntax, '\n');
      var before := ScanLines(StepOf(h, readableSyntax), lines, k).blocks;
      var all := ReadableBlocks(h, readableSyntax);
      |before| <= |all| <= |before| + (|lines| - k) && all[..|before|] == before
  {
    var lines := JavaSplit(readableSyntax, '\n');
    ForStepAppendsAtMostOne(h, readableSyntax);
    ScanLinesGrows(StepOf(h, readableSyntax), lines, k, |lines|);
  }

  /** A line continuing an if/else chain never closes the block being built: it only joins it. */
  lemma ElseLineJoinsBlock(h: SyntaxHelpers, readableSyntax: string, s: Scan, line: string)
    requires StartsWith(Trim(line), "else if (") || StartsWith(Trim(line), "else {")
    ensures ForStep(h, readableSyntax, s, line) == Scan(s.blocks, s.acc + line + "\n")
  {
    if StartsWith(Trim(line), "else if (") {
      assert Trim(line)[..5] == "else " == "else if ("[..5];
    } else {
      assert Trim(line)[..5] == "else " == "else {"[..5];
    }
  }

  /**
   * The last line of the text, unless it is a header, stays in the builder and so is never part of
   * a block: with a closing `}` on a line of its own, the brace is what is left over.
   */
  lemma {:induction false} LastLineLeftOver(h: SyntaxHelpers, readableSyntax: string, lines: seq<string>)
    requires lines != []
    requires !(StartsWith(readableSyntax, lines[|lines| - 1]) && StartsWith(Trim(lines[|lines| - 1]), "for ("))
    ensures EndsWith(ScanLines(StepOf(h, readableSyntax), lines, |lines|).acc, lines[|lines| - 1] + "\n")
  {
    var s := ScanLines(StepOf(h, readableSyntax), lines, |lines| - 1);
    var line := lines[|lines| - 1];
    EndsWithAppend(s.acc, line + "\n");
    EndsWithAppend([], line + "\n");
    assert s.acc + line + "\n" == s.acc + (line + "\n");
    assert [] + (line + "\n") == line + "\n";
  }

  // ---------------------------------------------------------------- parseReadableSyntax

  /** The node's state after parsing: its attributes, its children, and the failure that stopped it, if any. */
  datatype Parsed = Parsed(attributes: map<string, string>, children: seq<Child>, failure: Option<ElementError>)

  /**
   * `parseReadableSyntax` over the blocks from some point on: a header sets `param` and `list`, a
   * comment becomes a child created without a parent, any other block a child of this node.
   */
  function ParseBlocks(h: SyntaxHelpers, blocks: seq<string>, attributes: map<string, string>, children: seq<Child>): Parsed
    decreases |blocks|
  {
    if blocks == [] then Parsed(attributes, children, None)
    else
      var block := blocks[0];
      if IsHeaderBlock(block) then
        match ParseHeader(h, block)
        case Err(e) => Parsed(attributes, children, Some(e))
        case Ok((param, list)) => ParseBlocks(h, blocks[1..], attributes[ParamKey := param][ListKey := list], children)
      else
        ParseBlocks(h, blocks[1..], attributes, children + [Child(!h.isReadableSyntaxComment(block), block)])
  }

  /** The child each non-header block becomes, in block order. */
  function BlockChildren(h: SyntaxHelpers, blocks: seq<string>): (r: seq<Child>)
    ensures |r| <= |blocks|
  {
    if blocks == [] then []
    else if IsHeaderBlock(blocks[0]) then BlockChildren(h, blocks[1..])
    else [Child(!h.isReadableSyntaxComment(blocks[0]), blocks[0])] + BlockChildren(h, blocks[1..])
  }

  /** Every header has a `:` in its parenthetical content. */
  predicate HeadersWellFormed(h: SyntaxHelpers, blocks: seq<string>) {
    forall i :: 0 <= i < |blocks| && IsHeaderBlock(blocks[i]) ==> ':' in h.getParentheticalContent(blocks[i])
  }

  /**
   * Parsing fails exactly when some header lacks a `:`; when it succeeds, the non-header blocks are
   * appended as children in order, comments without a parent and all others under this node.
   */
  lemma {:induction false} ParseBlocksChildren(h: SyntaxHelpers, blocks: seq<string>, attributes: map<string, string>, children: seq<Child>)
    ensures var p := ParseBlocks(h, blocks, attributes, children);
      (p.failure.None? <==> HeadersWellFormed(h, blocks))
      && (p.failure.None? ==> p.children == children + BlockChildren(h, blocks))
    decreases |blocks|
  {
    if blocks != [] {
      var block := blocks[0];
      var rest := blocks[1..];
      assert HeadersWellFormed(h, blocks) <==>
        (IsHeaderBlock(block) ==> ':' in h.getParentheticalContent(block)) && HeadersWellFormed(h, rest)
      by {
        if HeadersWellFormed(h, rest) && (IsHeaderBlock(block) ==> ':' in h.getParentheticalContent(block)) {
          forall i | 0 <= i < |blocks| && IsHeaderBlock(blocks[i])
            ensures ':' in h.getParentheticalContent(blocks[i])
          {
            if i > 0 {
              assert blocks[i] == rest[i - 1];
            }
          }
        }
        if HeadersWellFormed(h, blocks) {
          forall i | 0 <= i < |rest| && IsHeaderBlock(rest[i])
            ensures ':' in h.getParentheticalContent(rest[i])
          {
            assert rest[i] == blocks[i + 1];
          }
        }
      }
      if IsHeaderBlock(block) {
        match ParseHeader(h, block)
        case Err(e) =>
        case Ok((param, list)) =>
          ParseBlocksChildren(h, rest, attributes[ParamKey := param][ListKey := list], children);
      } else {
        var c := Child(!h.isReadableSyntaxComment(block), block);
        ParseBlocksChildren(h, rest, attributes, children + [c]);
        assert children + [c] + BlockChildren(h, rest) == children + ([c] + BlockChildren(h, rest));
      }
    }
  }

  /** Without a header block the attributes are left as they were. */
  lemma {:induction false} ParseWithoutHeaderKeepsAttributes(h: SyntaxHelpers, blocks: seq<string>, attributes: map<string, string>, children: seq<Child>)
    requires forall i :: 0 <= i < |blocks| ==> !IsHeaderBlock(blocks[i])
    ensures ParseBlocks(h, blocks, attributes, children) == Parsed(attributes, children + BlockChildren(h, blocks), None)
    decreases |blocks|
  {
    if blocks != [] {
      var block := blocks[0];
      var rest := blocks[1..];
      assert forall i :: 0 <= i < |rest| ==> rest[i] == blocks[i + 1];
      var c := Child(!h.isReadableSyntaxComment(block), block);
      ParseWithoutHeaderKeepsAttributes(h, rest, attributes, children + [c]);
      assert children + [c] + BlockChildren(h, rest) == children + ([c] + BlockChildren(h, rest));
    }
  }

  /** A parse that does not fail goes past a leading header with the attributes that header sets. */
  lemma ParseThroughHeader(h: SyntaxHelpers, blocks: seq<string>, attributes: map<string, string>, children: seq<Child>)
    requires blocks != [] && IsHeaderBlock(blocks[0])
    requires ParseBlocks(h, blocks, attributes, children).failure.None?
    ensures var header := ParseHeader(h, blocks[0]);
      header.Ok?
      && ParseBlocks(h, blocks, attributes, children)
         == ParseBlocks(h, blocks[1..], attributes[ParamKey := header.value.0][ListKey := header.value.1], children)
  {
  }

  /** When a parse runs through a final header block, that header decides `param` and `list`. */
  lemma {:induction false} ParseLastHeaderDecides(h: SyntaxHelpers, blocks: seq<string>, attributes: map<string, string>, children: seq<Child>)
    requires blocks != [] && IsHeaderBlock(blocks[|blocks| - 1])
    requires ParseBlocks(h, blocks, attributes, children).failure.None?
    ensures var p := ParseBlocks(h, blocks, attributes, children);
      var last := ParseHeader(h, blocks[|blocks| - 1]);
      last.Ok? && ParamKey in p.attributes && ListKey in p.attributes
      && (p.attributes[ParamKey], p.attributes[ListKey]) == last.value
    decreases |blocks|
  {
    var block := blocks[0];
    var rest := blocks[1..];
    if IsHeaderBlock(block) {
      ParseThroughHeader(h, blocks, attributes, children);
      var header := ParseHeader(h, block);
      if rest != [] {
        assert rest[|rest| - 1] == blocks[|blocks| - 1];
        ParseLastHeaderDecides(h, rest, attributes[ParamKey := header.value.0][ListKey := header.value.1], children);
      }
    } else {
      assert rest[|rest| - 1] == blocks[|blocks| - 1];
      ParseLastHeaderDecides(h, rest, attributes, children + [Child(!h.isReadableSyntaxComment(block), block)]);
    }
  }

  // ---------------------------------------------------------------- the node

  class ForPoshiElement {
    var attributes: map<string, string>
    var children: seq<Child>

    /** A node with no attributes and no children yet. */
    constructor ()
      ensures attributes == map[] && children == []
    {
      attributes := map[];
      children := [];
    }

    /** `getBlockName()`: the header for the current `param` and `list`; a missing one prints "null". */
    function BlockName(): (r: string)
      reads this
      ensures ParamKey in attributes && ListKey in attributes ==>
        r == Header(attributes[ParamKey], attributes[ListKey])
      ensures IsHeaderBlock(r)
    {
      var r := Header(ValueText(attributes, ParamKey), ValueText(attributes, ListKey));
      StartsWithAppend("for (", r[5..]);
      assert r == "for (" + r[5..];
      assert r[|r| - 1] == ')';
      r
    }

    /**
     * `toReadableSyntax()`: the rendering the base class produces for this node, `inner`, wrapped
     * by `createReadableBlock` and put on a line of its own.
     */
    function ToReadableSyntax(h: SyntaxHelpers, inner: string): (r: string)
      ensures StartsWith(r, "\n") && r[1..] == h.createReadableBlock(inner)
    {
      "\n" + h.createReadableBlock(inner)
    }

    /** One pass of the `getReadableBlocks` loop body, for `line`. */
    method ReadLine(h: SyntaxHelpers, readableSyntax: string, blocks: seq<string>, sb: string, line: string)
      returns (blocks': seq<string>, sb': string)
      ensures Scan(blocks', sb') == StepOf(h, readableSyntax)(Scan(blocks, sb), line)
    {
      blocks', sb' := blocks, sb;
      var trimmedLine := Trim(line);
      if StartsWith(readableSyntax, line) && StartsWith(trimmedLine, "for (") {
        blocks' := blocks + [line];
      } else if !StartsWith(trimmedLine, "else if (") && !StartsWith(trimmedLine, "else {") && h.isValidReadableBlock(Trim(sb)) {
        // the builder's trimmed content is a block: emitted, and the builder restarts with this line
        blocks', sb' := blocks + [Trim(sb)], line + "\n";
      } else {
        sb' := sb + line + "\n";
      }
    }

    /** `getReadableBlocks(readableSyntax)`. */
    method GetReadableBlocks(h: SyntaxHelpers, readableSyntax: string) returns (blocks: seq<string>)
      ensures blocks == ReadableBlocks(h, readableSyntax)
    {
      var lines := JavaSplit(readableSyntax, '\n');
      var sb := "";
      blocks := [];
      ghost var step := StepOf(h, readableSyntax);
      var i := 0;
      while i < |lines|
        invariant 0 <= i <= |lines|
        invariant Scan(blocks, sb) == ScanLines(step, lines, i)
      {
        ghost var before := Scan(blocks, sb);
        blocks, sb := ReadLine(h, readableSyntax, blocks, sb, lines[i]);
        ScanLinesNext(step, lines, i, before, Scan(blocks, sb));
        i := i + 1;
      }
    }

    /**
     * `parseReadableSyntax(readableSyntax)`: the blocks are read in order into this node's
     * attributes and children; a header without `:` stops the parse and is reported.
     */
    method ParseReadableSyntax(h: SyntaxHelpers, readableSyntax: string) returns (failure: Option<ElementError>)
      modifies this
      ensures Parsed(attributes, children, failure)
        == ParseBlocks(h, ReadableBlocks(h, readableSyntax), old(attributes), old(children))
    {
      var blocks := GetReadableBlocks(h, readableSyntax);
      var i := 0;
      while i < |blocks|
        invariant 0 <= i <= |blocks|
        invariant ParseBlocks(h, blocks, old(attributes), old(children))
          == ParseBlocks(h, blocks[i..], attributes, children)
      {
        var readableBlock := blocks[i];
        assert blocks[i..][1..] == blocks[i + 1..];
        if StartsWith(readableBlock, "for (") && !EndsWith(readableBlock, "}") {
          var content := h.getParentheticalContent(readableBlock);
          if ':' !in content {
            failure := Some(MissingColon(readableBlock));
            return;
          }
          var index := IndexOfChar(content, ':');
          var param := content[..index];
          attributes := attributes[ParamKey := Trim(param)];
          var list := h.getQuotedContent(content[index + 1..]);
          attributes := attributes[ListKey := Trim(list)];
        } else if h.isReadableSyntaxComment(readableBlock) {
          children := children + [Child(false, readableBlock)];
        } else {
          children := children + [Child(true, readableBlock)];
        }
        i := i + 1;
      }
      failure := None;
    }
  }
}
