/** An XML document tree of elements, text, CDATA and comments (attributes play
    no part in the parsers modelled here), with the lookups the parsers use:
    xmltree's `get_child` and `get_text` on the agent side, roxmltree's
    `children`, `descendants` and `text` on the server side. */
module Xml {
  import opened Common

  datatype Node = ElementNode(elem: Element) | Text(text: string) | CData(data: string) | Comment(comment: string)

  datatype Element = Element(name: string, children: seq<Node>)

  predicate IsElementNamed(n: Node, name: string) {
    n.ElementNode? && n.elem.name == name
  }

  /** An element holding a single text node: what `<tag>text</tag>` parses to. */
  function TextElement(name: string, text: string): Node {
    ElementNode(Element(name, [Text(text)]))
  }

  /** An element holding a single CDATA section. */
  function CDataElement(name: string, data: string): Node {
    ElementNode(Element(name, [CData(data)]))
  }

  /** An element without children: what `<tag/>` parses to. */
  function EmptyElement(name: string): Node {
    ElementNode(Element(name, []))
  }

  // ---------------------------------------------------------------------------
  // Child lookup

  /** The first element among `children` called `name` (xmltree's `get_child`). */
  function FindChild(children: seq<Node>, name: string): (r: Option<Element>)
    ensures r.Some? ==> r.value.name == name
  {
    if children == [] then None
    else if IsElementNamed(children[0], name) then Some(children[0].elem)
    else FindChild(children[1..], name)
  }

  /** `get_child` finds nothing exactly when no child is an element of that
      name, and what it finds is the first such child. */
  lemma {:induction false} FindChildSpec(children: seq<Node>, name: string)
    ensures FindChild(children, name).None? <==> forall i :: 0 <= i < |children| ==> !IsElementNamed(children[i], name)
    ensures FindChild(children, name).Some? ==>
      exists i :: 0 <= i < |children| && children[i] == ElementNode(FindChild(children, name).value)
        && forall j :: 0 <= j < i ==> !IsElementNamed(children[j], name)
  {
    if children != [] && !IsElementNamed(children[0], name) {
      FindChildSpec(children[1..], name);
      assert forall i :: 1 <= i < |children| ==> children[i] == children[1..][i - 1];
      if FindChild(children, name).Some? {
        var k :| 0 <= k < |children[1..]| && children[1..][k] == ElementNode(FindChild(children, name).value)
          && forall j :: 0 <= j < k ==> !IsElementNamed(children[1..][j], name);
        assert children[k + 1] == ElementNode(FindChild(children, name).value);
      }
    } else if children != [] {
      assert children[0] == ElementNode(FindChild(children, name).value);
    }
  }

  function GetChild(e: Element, name: string): Option<Element> {
    FindChild(e.children, name)
  }

  predicate HasChild(e: Element, name: string) {
    GetChild(e, name).Some?
  }

  lemma {:induction false} FindChildAppend(a: seq<Node>, b: seq<Node>, name: string)
    ensures FindChild(a + b, name) == if FindChild(a, name).Some? then FindChild(a, name) else FindChild(b, name)
  {
    if a != [] {
      assert (a + b)[1..] == a[1..] + b;
      FindChildAppend(a[1..], b, name);
    } else {
      assert a + b == b;
    }
  }

  lemma FindChildSingle(n: Node, name: string)
    ensures FindChild([n], name) == if IsElementNamed(n, name) then Some(n.elem) else None
  {
    assert [n][1..] == [];
  }

  /** The first of two lookups that finds something. */
  function OrElse(a: Option<Element>, b: Option<Element>): Option<Element> {
    if a.Some? then a else b
  }

  /** Looking a name up in five consecutive runs of children looks it up in
      each run in turn. */
  lemma FindChildRuns(a: seq<Node>, b: seq<Node>, c: seq<Node>, d: seq<Node>, e: seq<Node>, name: string)
    ensures FindChild(a + b + c + d + e, name) ==
      OrElse(FindChild(a, name), OrElse(FindChild(b, name), OrElse(FindChild(c, name), OrElse(FindChild(d, name), FindChild(e, name)))))
  {
    FindChildAppend(a + b + c + d, e, name);
    FindChildAppend(a + b + c, d, name);
    FindChildAppend(a + b, c, name);
    FindChildAppend(a, b, name);
  }

  /** `[n]` when `present`, nothing otherwise: a child written only under a
      condition. */
  function Optional(present: bool, n: Node): seq<Node> {
    if present then [n] else []
  }

  /** What looking `name` up in `Optional(present, n)` finds. */
  function OptLookup(present: bool, n: Node, name: string): Option<Element> {
    if present && IsElementNamed(n, name) then Some(n.elem) else None
  }

  lemma FindChildOpt(a: seq<Node>, present: bool, n: Node, name: string)
    ensures FindChild(a + Optional(present, n), name) == OrElse(FindChild(a, name), OptLookup(present, n, name))
  {
    FindChildAppend(a, Optional(present, n), name);
    if present {
      FindChildSingle(n, name);
    }
  }

  lemma FindChildOne(a: seq<Node>, n: Node, name: string)
    ensures FindChild(a + [n], name) == OrElse(FindChild(a, name), OptLookup(true, n, name))
  {
    FindChildAppend(a, [n], name);
    FindChildSingle(n, name);
  }

  lemma FindChildNone(name: string)
    ensures FindChild([], name) == None
  {
  }

  lemma FindChildCons(n: Node, rest: seq<Node>, name: string)
    ensures FindChild([n] + rest, name) == if IsElementNamed(n, name) then Some(n.elem) else FindChild(rest, name)
  {
    assert ([n] + rest)[1..] == rest;
  }

  /** Looking `name` up in `a + [n] + b`, where `n` is the first element
      called `name`, finds `n`. */
  lemma FindChildAt(a: seq<Node>, n: Node, b: seq<Node>, name: string)
    requires IsElementNamed(n, name)
    requires FindChild(a, name).None?
    ensures FindChild(a + [n] + b, name) == Some(n.elem)
  {
    FindChildAppend(a, [n] + b, name);
    assert a + [n] + b == a + ([n] + b);
  }

  /** The element children of `children`, in document order. */
  function ChildElements(children: seq<Node>): (r: seq<Element>)
    ensures |r| <= |children|
  {
    if children == [] then []
    else if children[0].ElementNode? then [children[0].elem] + ChildElements(children[1..])
    else ChildElements(children[1..])
  }

  lemma {:induction false} ChildElementsAppend(a: seq<Node>, b: seq<Node>)
    ensures ChildElements(a + b) == ChildElements(a) + ChildElements(b)
  {
    if a == [] {
      assert a + b == b;
    } else {
      assert (a + b)[1..] == a[1..] + b;
      ChildElementsAppend(a[1..], b);
    }
  }

  lemma ChildElementsNext(cs: seq<Node>, i: nat)
    requires i < |cs|
    ensures ChildElements(cs[..i + 1]) == ChildElements(cs[..i]) + (if cs[i].ElementNode? then [cs[i].elem] else [])
  {
    assert cs[..i + 1] == cs[..i] + [cs[i]];
    ChildElementsAppend(cs[..i], [cs[i]]);
    assert [cs[i]][1..] == [];
  }

  lemma {:induction false} ChildrenNamedAppend(a: seq<Node>, b: seq<Node>, name: string)
    ensures ChildrenNamed(a + b, name) == ChildrenNamed(a, name) + ChildrenNamed(b, name)
  {
    if a == [] {
      assert a + b == b;
    } else {
      assert (a + b)[1..] == a[1..] + b;
      ChildrenNamedAppend(a[1..], b, name);
    }
  }

  /** Taking one more child adds it to the named children when it is one. */
  lemma ChildrenNamedNext(cs: seq<Node>, i: nat, name: string)
    requires i < |cs|
    ensures ChildrenNamed(cs[..i + 1], name) == ChildrenNamed(cs[..i], name) + (if IsElementNamed(cs[i], name) then [cs[i].elem] else [])
  {
    assert cs[..i + 1] == cs[..i] + [cs[i]];
    ChildrenNamedAppend(cs[..i], [cs[i]], name);
    assert [cs[i]][1..] == [];
  }

  /** The element children called `name`, in document order. */
  function ChildrenNamed(children: seq<Node>, name: string): (r: seq<Element>)
    ensures |r| <= |children|
    ensures forall k :: 0 <= k < |r| ==> r[k].name == name
  {
    if children == [] then []
    else if IsElementNamed(children[0], name) then [children[0].elem] + ChildrenNamed(children[1..], name)
    else ChildrenNamed(children[1..], name)
  }

  // ---------------------------------------------------------------------------
  // Text content

  /** The contents of the text and CDATA nodes among `children`, in order. */
  function TextParts(children: seq<Node>): seq<string> {
    if children == [] then []
    else match children[0]
      case Text(t) => [t] + TextParts(children[1..])
      case CData(t) => [t] + TextParts(children[1..])
      case _ => TextParts(children[1..])
  }

  function Concat(parts: seq<string>): string {
    if parts == [] then "" else parts[0] + Concat(parts[1..])
  }

  /** xmltree's `get_text`: all text and CDATA children concatenated, or None
      when the element has none. */
  function GetText(e: Element): (r: Option<string>)
    ensures r.None? <==> forall i :: 0 <= i < |e.children| ==> e.children[i].ElementNode? || e.children[i].Comment?
  {
    TextPartsEmpty(e.children);
    var parts := TextParts(e.children);
    if parts == [] then None else Some(Concat(parts))
  }

  lemma {:induction false} TextPartsEmpty(children: seq<Node>)
    ensures TextParts(children) == [] <==> forall i :: 0 <= i < |children| ==> children[i].ElementNode? || children[i].Comment?
  {
    if children != [] {
      TextPartsEmpty(children[1..]);
      assert forall i :: 1 <= i < |children| ==> children[i] == children[1..][i - 1];
    }
  }

  /** The text of the child called `name`, if that child exists and has text. */
  function ChildText(e: Element, name: string): Option<string> {
    match GetChild(e, name)
    case None => None
    case Some(c) => GetText(c)
  }

  /** The run of text and CDATA nodes at the head of `children`. */
  function LeadingText(children: seq<Node>): string {
    if children == [] then ""
    else match children[0]
      case Text(t) => t + LeadingText(children[1..])
      case CData(t) => t + LeadingText(children[1..])
      case _ => ""
  }

  /** roxmltree's `text`: the text of the first child when that child is a text
      node. roxmltree merges adjacent text and CDATA into one text node, so the
      first text node is the whole leading run. */
  function FirstText(e: Element): (r: Option<string>)
    ensures r.Some? <==> e.children != [] && (e.children[0].Text? || e.children[0].CData?)
  {
    if e.children != [] && (e.children[0].Text? || e.children[0].CData?) then Some(LeadingText(e.children)) else None
  }

  /** The roxmltree text of the child called `name`. */
  function ChildFirstText(e: Element, name: string): Option<string> {
    match GetChild(e, name)
    case None => None
    case Some(c) => FirstText(c)
  }

  lemma TextOfTextElement(name: string, t: string)
    ensures GetText(TextElement(name, t).elem) == Some(t)
    ensures FirstText(TextElement(name, t).elem) == Some(t)
  {
    var cs := [Text(t)];
    assert cs[1..] == [];
    assert TextParts(cs) == [t];
    assert [t][1..] == [];
    assert Concat([t]) == t + Concat([]) == t + "" == t;
    assert LeadingText(cs) == t + LeadingText([]) == t;
  }

  lemma TextOfCDataElement(name: string, t: string)
    ensures GetText(CDataElement(name, t).elem) == Some(t)
  {
    var cs := [CData(t)];
    assert cs[1..] == [];
    assert TextParts(cs) == [t];
    assert [t][1..] == [];
    assert Concat([t]) == t + Concat([]) == t + "" == t;
  }

  // ---------------------------------------------------------------------------
  // Descendants

  /** roxmltree's `descendants().find(has_tag_name(name))`: the first element
      in document order (the element itself first) called `name`. */
  function FindDescendant(e: Element, name: string): (r: Option<Element>)
    ensures r.Some? ==> r.value.name == name
    decreases e, |e.children| + 1
  {
    if e.name == name then Some(e) else FindDescendantFrom(e, 0, name)
  }

  function FindDescendantFrom(e: Element, i: nat, name: string): (r: Option<Element>)
    requires i <= |e.children|
    ensures r.Some? ==> r.value.name == name
    decreases e, |e.children| - i
  {
    if i == |e.children| then None
    else match e.children[i]
      case ElementNode(c) =>
        var r := FindDescendant(c, name);
        if r.Some? then r else FindDescendantFrom(e, i + 1, name)
      case _ => FindDescendantFrom(e, i + 1, name)
  }
}
