/**
 * What the readable-syntax node variants share: the base-class helpers they call, the children they
 * create, and the delimiter arithmetic their headers rely on.
 */
module PoshiElements {
  import opened Wrappers
  import opened Text
  import opened ScriptTree

  /**
   * The `PoshiElement` base-class operations the variants call. Their code is not part of this
   * model, so they are parameters; a lemma that needs one to behave in a particular way says so
   * for the input it is applied to.
   */
  datatype SyntaxHelpers = SyntaxHelpers(
    isBalancedReadableSyntax: string -> bool,
    isValidReadableBlock: string -> bool,
    isReadableSyntaxComment: string -> bool,
    getParentheticalContent: string -> string,
    getQuotedContent: string -> string,
    getSingleQuotedContent: string -> string,
    createReadableBlock: string -> string,
    isElementType: (string, Element) -> bool)

  /** The parent handed to `clone`, as far as the variants ask about it. */
  datatype ParentKind = NoParent | ExecuteParent | OtherParent

  /**
   * A child created by `PoshiNodeFactory.newPoshiNode(parent, block)`: whether this node or null
   * was passed as the parent, and the block it is made from.
   */
  datatype Child = Child(parentIsThis: bool, block: string)

  /** The node a successful `clone` constructs: from a dom4j element, or from script text under a parent. */
  datatype Built =
    | FromElement(name: string, element: Element)
    | FromScript(name: string, parent: ParentKind, script: string)

  /** A failure while parsing a block: `substring` with an index of -1. */
  datatype ElementError = MissingColon(block: string)

  /** The state of a `getReadableBlocks` loop: the blocks emitted so far and the builder's content. */
  datatype Scan = Scan(blocks: seq<string>, acc: string)

  // ---------------------------------------------------------------- scanning lines

  /** The scan after the first `k` lines, `step` applied once per line in order. */
  function ScanLines(step: (Scan, string) -> Scan, lines: seq<string>, k: nat): Scan
    requires k <= |lines|
  {
    if k == 0 then Scan([], "") else step(ScanLines(step, lines, k - 1), lines[k - 1])
  }

  /** One more line: the scan after `k + 1` lines is the step applied to the scan after `k`. */
  lemma ScanLinesNext(step: (Scan, string) -> Scan, lines: seq<string>, k: nat, s: Scan, s': Scan)
    requires k < |lines| && s == ScanLines(step, lines, k) && s' == step(s, lines[k])
    ensures s' == ScanLines(step, lines, k + 1)
  {
  }

  /** A step keeps the blocks it is given, in order, and emits at most one more. */
  ghost predicate StepAppendsAtMostOne(step: (Scan, string) -> Scan) {
    forall s: Scan, line: string ::
      |s.blocks| <= |step(s, line).blocks| <= |s.blocks| + 1 && step(s, line).blocks[..|s.blocks|] == s.blocks
  }

  /** Every block a step emits has the property `P`. */
  ghost predicate StepEmitsOnly(step: (Scan, string) -> Scan, P: string -> bool) {
    forall s: Scan, line: string, b :: b in step(s, line).blocks ==> b in s.blocks || P(b)
  }

  /** Blocks emitted by the first `k` lines stay, in order, and each later line adds at most one. */
  lemma {:induction false} ScanLinesGrows(step: (Scan, string) -> Scan, lines: seq<string>, k: nat, n: nat)
    requires StepAppendsAtMostOne(step)
    requires k <= n <= |lines|
    ensures var before := ScanLines(step, lines, k).blocks;
      var after := ScanLines(step, lines, n).blocks;
      |before| <= |after| <= |before| + (n - k) && after[..|before|] == before
    decreases n - k
  {
    if k < n {
      ScanLinesGrows(step, lines, k, n - 1);
      var before := ScanLines(step, lines, k).blocks;
      var s := ScanLines(step, lines, n - 1);
      var after := ScanLines(step, lines, n).blocks;
      assert after[..|s.blocks|] == s.blocks;
      assert after[..|before|] == after[..|s.blocks|][..|before|];
    }
  }

  /** When every emitted block has `P`, so does every block of the scan. */
  lemma {:induction false} ScanLinesEmitOnly(step: (Scan, string) -> Scan, P: string -> bool, lines: seq<string>, k: nat)
    requires StepEmitsOnly(step, P)
    requires k <= |lines|
    ensures forall b :: b in ScanLines(step, lines, k).blocks ==> P(b)
  {
    if k > 0 {
      ScanLinesEmitOnly(step, P, lines, k - 1);
    }
  }

  // ---------------------------------------------------------------- delimiters

  /** `s.lastIndexOf(c)` for a char that occurs in `s`. */
  function LastIndexOfChar(s: string, c: char): (i: nat)
    requires c in s
    ensures i < |s| && s[i] == c && c !in s[i + 1..]
  {
    if s[|s| - 1] == c then |s| - 1
    else
      assert c in s[..|s| - 1] by {
        var k :| 0 <= k < |s| && s[k] == c;
        assert s[..|s| - 1][k] == c;
      }
      var j := LastIndexOfChar(s[..|s| - 1], c);
      assert s[j + 1..] == s[..|s| - 1][j + 1..] + [s[|s| - 1]];
      j
  }

  /**
   * The text between the first `open` and the last `close`, when both occur in that order: what the
   * base-class content helpers are taken to return.
   */
  function Enclosed(s: string, open: char, close: char): Option<string> {
    if open in s && close in s && IndexOfChar(s, open) < LastIndexOfChar(s, close)
    then Some(s[IndexOfChar(s, open) + 1..LastIndexOfChar(s, close)])
    else None
  }

  lemma FirstIndexAfter(pre: string, c: char, rest: string)
    requires c !in pre
    ensures c in pre + [c] + rest && IndexOfChar(pre + [c] + rest, c) == |pre|
  {
    var s := pre + [c] + rest;
    assert s[|pre|] == c;
    var i := IndexOfChar(s, c);
    assert i >= |pre| by {
      assert forall k :: 0 <= k < |pre| ==> s[k] == pre[k];
    }
    assert i <= |pre| by {
      assert c !in s[..i];
      assert forall k :: 0 <= k < i ==> s[..i][k] == s[k];
    }
  }

  lemma LastIndexBefore(front: string, c: char, post: string)
    requires c !in post
    ensures c in front + [c] + post && LastIndexOfChar(front + [c] + post, c) == |front|
  {
    var s := front + [c] + post;
    assert s[|front|] == c;
    var i := LastIndexOfChar(s, c);
    assert i <= |front| by {
      assert forall k :: |front| < k < |s| ==> s[k] == post[k - |front| - 1];
    }
    assert i >= |front| by {
      assert c !in s[i + 1..];
      assert forall k :: i < k < |s| ==> s[i + 1..][k - i - 1] == s[k];
    }
  }

  /**
   * Delimiters placed around `mid` are found again: with no `open` before the first and no `close`
   * after the last, the enclosed text is exactly `mid`, whatever `mid` contains.
   */
  lemma EnclosedFindsMiddle(pre: string, open: char, mid: string, close: char, post: string)
    requires open !in pre && close !in post
    ensures Enclosed(pre + [open] + mid + [close] + post, open, close) == Some(mid)
  {
    var front := pre + [open] + mid;
    var s := front + [close] + post;
    FirstIndexAfter(pre, open, mid + [close] + post);
    assert pre + [open] + (mid + [close] + post) == s;
    LastIndexBefore(front, close, post);
    assert s[..|front|] == front;
    assert front[|pre| + 1..] == mid;
    assert s[|pre| + 1..|front|] == s[..|front|][|pre| + 1..];
  }

  // ---------------------------------------------------------------- trimming

  predicate AllBlank(s: string) {
    forall i :: 0 <= i < |s| ==> IsBlank(s[i])
  }

  lemma {:induction false} TrimStartOfBlank(pad: string, s: string)
    requires AllBlank(pad)
    ensures TrimStart(pad + s) == TrimStart(s)
    decreases |pad|
  {
    if pad != [] {
      assert (pad + s)[1..] == pad[1..] + s;
      TrimStartOfBlank(pad[1..], s);
    } else {
      assert pad + s == s;
    }
  }

  lemma {:induction false} TrimEndOfBlank(s: string, pad: string)
    requires AllBlank(pad)
    ensures TrimEnd(s + pad) == TrimEnd(s)
    decreases |pad|
  {
    if pad != [] {
      assert (s + pad)[..|s + pad| - 1] == s + pad[..|pad| - 1];
      TrimEndOfBlank(s, pad[..|pad| - 1]);
    } else {
      assert s + pad == s;
    }
  }

  /** Nothing is left of an all-blank text once its end is trimmed. */
  lemma TrimEndOfAllBlank(s: string)
    requires AllBlank(s)
    ensures TrimEnd(s) == []
  {
    var r := TrimEnd(s);
    assert r == s[..|r|];
  }

  /** Blanks around a text do not change what `trim()` makes of it. */
  lemma TrimIgnoresPadding(pre: string, s: string, post: string)
    requires AllBlank(pre) && AllBlank(post)
    ensures Trim(pre + s + post) == Trim(s)
  {
    assert pre + s + post == pre + (s + post);
    TrimStartOfBlank(pre, s + post);
    TrimStartAppend(s, post);
    if TrimStart(s) == [] {
      var t := TrimStart(post);
      assert t == post[|post| - |t|..];
      TrimEndOfAllBlank(t);
      TrimEndOfAllBlank(TrimStart(s));
    } else {
      TrimEndOfBlank(TrimStart(s), post);
    }
  }
}
