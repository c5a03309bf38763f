/**
 * The `arg` node: a single-quoted argument of an execute call. It has no header and no children,
 * only a `value` attribute read from and printed back to its quoted text.
 */
module ArgElement {
  import opened Wrappers
  import opened Text
  import opened ScriptTree
  import opened PoshiElements

  const ElementName := "arg"
  const ValueKey := "value"

  /** Text is an argument only under an execute node, and only when, trimmed, it opens with a single quote. */
  predicate IsArgSyntax(parent: ParentKind, poshiScript: string) {
    parent == ExecuteParent && StartsWith(Trim(poshiScript), "'")
  }

  /** Recognition looks only at the parent and the trimmed text: blanks around it never change the answer. */
  lemma ArgSyntaxIgnoresPadding(parent: ParentKind, pre: string, s: string, post: string)
    requires AllBlank(pre) && AllBlank(post)
    ensures IsArgSyntax(parent, pre + s + post) <==> IsArgSyntax(parent, s)
  {
    TrimIgnoresPadding(pre, s, post);
  }

  /** `clone(element)`: an `arg` node for an element of that type, nothing otherwise. */
  function CloneElement(h: SyntaxHelpers, element: Element): (r: Option<Built>)
    ensures r.Some? <==> h.isElementType(ElementName, element)
    ensures r.Some? ==> r.value == FromElement(ElementName, element)
  {
    if h.isElementType(ElementName, element) then Some(FromElement(ElementName, element)) else None
  }

  /** `clone(parent, poshiScript)`: an `arg` node only under an execute node and for quoted text. */
  function CloneSyntax(parent: ParentKind, poshiScript: string): (r: Option<Built>)
    ensures r.Some? <==> parent == ExecuteParent && StartsWith(Trim(poshiScript), "'")
    ensures r.Some? ==> r.value == FromScript(ElementName, ExecuteParent, poshiScript)
  {
    if IsArgSyntax(parent, poshiScript) then Some(FromScript(ElementName, parent, poshiScript)) else None
  }

  /** The script an argument with these attributes prints: the value between single quotes, "null" when missing. */
  function Script(attributes: map<string, string>): string {
    "'" + ValueText(attributes, ValueKey) + "'"
  }

  /**
   * Round trip: parsing the printed script gives back the value, whatever it contains, when the
   * helper returns the text between the outer single quotes; so parsing an argument's own script
   * leaves its attributes as they were.
   */
  lemma ScriptRoundTrip(h: SyntaxHelpers, attributes: map<string, string>)
    requires ValueKey in attributes
    requires Some(h.getSingleQuotedContent(Script(attributes))) == Enclosed(Script(attributes), '\'', '\'')
    ensures h.getSingleQuotedContent(Script(attributes)) == attributes[ValueKey]
    ensures attributes[ValueKey := h.getSingleQuotedContent(Script(attributes))] == attributes
  {
    var value := attributes[ValueKey];
    assert Script(attributes) == "" + ['\''] + value + ['\''] + "";
    EnclosedFindsMiddle("", '\'', value, '\'', "");
  }

  /** Printed scripts are always recognised under an execute node, whatever the value. */
  lemma ScriptRecognised(attributes: map<string, string>)
    ensures IsArgSyntax(ExecuteParent, Script(attributes))
  {
    var s := Script(attributes);
    assert s[0] == '\'' && s[|s| - 1] == '\'';
    TrimOfTrimmed(s);
    assert s[..1] == "'";
  }

  class ArgPoshiElement {
    var attributes: map<string, string>

    /** An argument with no value yet. */
    constructor ()
      ensures attributes == map[]
    {
      attributes := map[];
    }

    /** `parsePoshiScript(poshiScript)`: `value` becomes the single-quoted content; nothing else changes. */
    method ParsePoshiScript(h: SyntaxHelpers, poshiScript: string)
      modifies this
      ensures attributes == old(attributes)[ValueKey := h.getSingleQuotedContent(poshiScript)]
    {
      attributes := attributes[ValueKey := h.getSingleQuotedContent(poshiScript)];
    }

    /** `toPoshiScript()`: the value between single quotes; a missing value prints as 'null'. */
    function ToPoshiScript(): (r: string)
      reads this
      ensures |r| >= 2 && r[0] == '\'' && r[|r| - 1] == '\''
      ensures ValueKey in attributes ==> r[1..|r| - 1] == attributes[ValueKey]
      ensures ValueKey !in attributes ==> r == "'null'"
    {
      Script(attributes)
    }

    /** `getBlockName()`: an argument is a leaf with no block header. */
    function BlockName(): (r: Option<string>)
      ensures r.None?
    {
      None
    }
  }
}
