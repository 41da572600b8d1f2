/** The tree `xmltodict.parse` hands the parser. An element carries its attributes (the "@" keys
    of the Python dictionary), its text (the "#text" key) and its child elements by tag, each
    either a single element or, when the tag repeats, a list of them. Python sees an element with
    nothing in it as `None` and an element with text only as a plain string; the accessors below
    behave on those the way indexing a `None` or a string does, by raising. */
module Xml {
  import opened Wrappers
  import opened Text
  import opened Errors

  datatype Node = Node(attrs: map<string, string>, text: Option<string>, children: map<string, Field>)

  /** The value under a child tag: one element, or the list `xmltodict` builds for a repeated tag. */
  datatype Field = Single(node: Node) | Many(nodes: seq<Node>)

  /** The whole document: `xmltodict.parse` returns a dictionary with the root tag as its one key. */
  datatype Document = Document(tag: string, root: Node)

  /** An empty element, which Python sees as `None`. */
  predicate IsNull(n: Node) {
    n.attrs == map[] && n.text.None? && n.children == map[]
  }

  /** An element with text and nothing else, which Python sees as a string. */
  predicate IsStr(n: Node) {
    n.attrs == map[] && n.text.Some? && n.children == map[]
  }

  /** An element with attributes or children, which Python sees as a dictionary. */
  predicate IsDict(n: Node) {
    n.attrs != map[] || n.children != map[]
  }

  /** Python's truth value of the element: `None` and the empty string are false. */
  predicate Truthy(n: Node) {
    IsDict(n) || (n.text.Some? && n.text.value != "")
  }

  /** `f[tag]` for a child tag: the child field, `KeyError` when the tag is missing, `TypeError`
      when `f` is a list, `None` or a string. */
  function Child(f: Field, tag: string): (r: Result<Field, ParseError>)
    ensures r.Ok? <==> f.Single? && IsDict(f.node) && tag in f.node.children
    ensures r.Ok? ==> r.value == f.node.children[tag]
    ensures r == Err(MissingKey(tag)) <==> f.Single? && IsDict(f.node) && tag !in f.node.children
  {
    if f.Many? || !IsDict(f.node) then Err(WrongShape(tag))
    else if tag in f.node.children then Ok(f.node.children[tag])
    else Err(MissingKey(tag))
  }

  /** `f["@" + name]`: the attribute's value, raising as `Child` does. */
  function Attr(f: Field, name: string): (r: Result<string, ParseError>)
    ensures r.Ok? <==> f.Single? && IsDict(f.node) && name in f.node.attrs
    ensures r.Ok? ==> r.value == f.node.attrs[name]
    ensures r == Err(MissingKey("@" + name)) <==> f.Single? && IsDict(f.node) && name !in f.node.attrs
  {
    if f.Many? || !IsDict(f.node) then Err(WrongShape("@" + name))
    else if name in f.node.attrs then Ok(f.node.attrs[name])
    else Err(MissingKey("@" + name))
  }

  /** `f["#text"]`, raising as `Child` does. */
  function TextOf(f: Field): (r: Result<string, ParseError>)
    ensures r.Ok? <==> f.Single? && IsDict(f.node) && f.node.text.Some?
    ensures r.Ok? ==> r.value == f.node.text.value
    ensures r == Err(MissingKey("#text")) <==> f.Single? && IsDict(f.node) && f.node.text.None?
  {
    if f.Many? || !IsDict(f.node) then Err(WrongShape("#text"))
    else if f.node.text.Some? then Ok(f.node.text.value)
    else Err(MissingKey("#text"))
  }

  /** `tag in n` for a child tag: membership for a dictionary, a substring test for a string, and
      `TypeError` for `None`. */
  function HasChild(n: Node, tag: string): (r: Result<bool, ParseError>)
    ensures r.Err? <==> IsNull(n)
    ensures IsDict(n) ==> r == Ok(tag in n.children)
    ensures IsStr(n) ==> r == Ok(Contains(n.text.value, tag))
  {
    if IsDict(n) then Ok(tag in n.children)
    else if n.text.Some? then Ok(Contains(n.text.value, tag))
    else Err(WrongShape(tag))
  }

  /** The elements of a field, a single one wrapped in a list (`if not isinstance(x, list): x = [x]`). */
  function Members(f: Field): (ns: seq<Node>)
    ensures f.Single? ==> ns == [f.node]
    ensures f.Many? ==> ns == f.nodes
  {
    match f
    case Single(n) => [n]
    case Many(ns) => ns
  }

  /** Every element is exactly one of `None`, a string and a dictionary to Python. */
  lemma ThreeShapes(n: Node)
    ensures IsNull(n) || IsStr(n) || IsDict(n)
    ensures !(IsNull(n) && IsStr(n)) && !(IsNull(n) && IsDict(n)) && !(IsStr(n) && IsDict(n))
  {
  }
}
