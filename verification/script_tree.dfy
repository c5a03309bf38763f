/** The parsed script tree: the part of a dom4j element that the registry reads. */
module ScriptTree {
  import opened Wrappers

  /** One element: its tag, its attributes, its child elements in document order, its text and its source line. */
  datatype Element = Element(
    name: string,
    attributes: map<string, string>,
    children: seq<Element>,
    text: string,
    line: nat)

  /** `attributeValue(key)`: the value, or null. */
  function Attr(e: Element, key: string): Option<string> {
    if key in e.attributes then Some(e.attributes[key]) else None
  }

  /** The value as Java string concatenation prints it: a missing attribute prints as "null". */
  function ValueText(attributes: map<string, string>, key: string): string {
    if key in attributes then attributes[key] else "null"
  }

  function AttrText(e: Element, key: string): string {
    ValueText(e.attributes, key)
  }

  function Named(cs: seq<Element>, name: string): (r: seq<Element>)
    ensures |r| <= |cs|
    ensures forall x :: x in r <==> x in cs && x.name == name
  {
    if cs == [] then [] else (if cs[0].name == name then [cs[0]] else []) + Named(cs[1..], name)
  }

  /** `elements(name)`: the children with that tag, in document order. */
  function Elements(e: Element, name: string): (r: seq<Element>)
    ensures forall x :: x in r <==> x in e.children && x.name == name
  {
    Named(e.children, name)
  }

  /** `element(name)`: the first child with that tag, or null. */
  function FirstElement(e: Element, name: string): (r: Option<Element>)
    ensures r.Some? <==> exists x :: x in e.children && x.name == name
    ensures r.Some? ==> r.value in e.children && r.value.name == name
  {
    var named := Elements(e, name);
    if named == [] then None
    else
      assert named[0] in named;
      Some(named[0])
  }
}
