/** The agent's pfSense alias parser and writer (`PfSenseAliasesParser`). An
    alias's `<address>` holds its entries separated by whitespace; the parsed
    value holds them separated by commas. */
module PfAliases {
  import opened Common
  import opened Xml
  import opened Models

  /** The entries of an alias's text, as `split_whitespace` finds them,
      joined by ','. */
  function NormaliseValue(text: string): string {
    Join(SplitWhitespace(text), ",")
  }

  /** The text the value comes from: the `<address>` text, else the `<url>`
      text, else "None". An empty `<address/>` has no text and falls through
      to `<url>`. */
  function ValueSource(e: Element): string {
    if ChildText(e, "address").Some? then ChildText(e, "address").value
    else ChildText(e, "url").GetOr("None")
  }

  /** One `<alias>`: name and type default to "none", the description to "";
      a pfSense alias has no nftables family or table. */
  function ParseAlias(e: Element): (r: Alias)
  {
    Alias(
      kind := ChildText(e, "type").GetOr("none"),
      name := ChildText(e, "name").GetOr("none"),
      value := NormaliseValue(ValueSource(e)),
      description := ChildText(e, "descr").GetOr(""),
      family := "",
      table := "")
  }

  /** The defaults of a missing field: "none" for the name and type, "" for
      the description, and "None" for the value when neither `<address>` nor
      `<url>` has text. */
  lemma ParseAliasDefaults(e: Element)
    ensures ChildText(e, "name").None? ==> ParseAlias(e).name == "none"
    ensures ChildText(e, "type").None? ==> ParseAlias(e).kind == "none"
    ensures ChildText(e, "descr").None? ==> ParseAlias(e).description == ""
    ensures ChildText(e, "address").None? && ChildText(e, "url").None? ==> ParseAlias(e).value == "None"
  {
    NoneIsOneWord();
  }

  lemma NoneIsOneWord()
    ensures NormaliseValue("None") == "None"
  {
    SplitWhitespaceCons("None", "");
    assert "None" + "" == "None";
    assert SplitWhitespace("") == [];
  }

  /** `PfSenseAliasesParser::parse`: one alias per `<alias>` element child of
      the first `<aliases>`, in document order; none without `<aliases>`. */
  method ParseAliases(document: Element) returns (aliases: seq<Alias>)
    ensures GetChild(document, "aliases").None? ==> aliases == []
    ensures GetChild(document, "aliases").Some? ==>
      ParsedFrom(aliases, ChildrenNamed(GetChild(document, "aliases").value.children, "alias"))
  {
    aliases := [];
    var node := GetChild(document, "aliases");
    if node.Some? {
      var children := node.value.children;
      var i := 0;
      while i < |children|
        invariant 0 <= i <= |children|
        invariant ParsedFrom(aliases, ChildrenNamed(children[..i], "alias"))
      {
        ChildrenNamedNext(children, i, "alias");
        if IsElementNamed(children[i], "alias") {
          ParsedFromNext(aliases, ChildrenNamed(children[..i], "alias"), children[i].elem);
          aliases := aliases + [ParseAlias(children[i].elem)];
        }
        i := i + 1;
      }
      assert children[..i] == children;
    }
  }

  /** `aliases` are the parses of `nodes`, one for one and in order. */
  predicate ParsedFrom(aliases: seq<Alias>, nodes: seq<Element>) {
    |aliases| == |nodes| && forall k :: 0 <= k < |nodes| ==> aliases[k] == ParseAlias(nodes[k])
  }

  lemma ParsedFromNext(aliases: seq<Alias>, nodes: seq<Element>, n: Element)
    requires ParsedFrom(aliases, nodes)
    ensures ParsedFrom(aliases + [ParseAlias(n)], nodes + [n])
  {
    var a := aliases + [ParseAlias(n)];
    var ns := nodes + [n];
    forall k | 0 <= k < |ns|
      ensures a[k] == ParseAlias(ns[k])
    {
      if k < |nodes| {
        assert a[k] == aliases[k] && ns[k] == nodes[k];
      }
    }
  }

  // ---------------------------------------------------------------------------
  // Writing an alias

  /** The text written for a value: its ','-separated parts joined by ' '. */
  function ContentText(value: string): string {
    Join(Split(value, ','), " ")
  }

  /** The children `to_element` writes: `<name>`, `<type>`, `<content>` and
      `<description>`, in that order. */
  function AliasElementAsWritten(a: Alias): Element {
    Element("alias", [
      TextElement("name", a.name),
      TextElement("type", a.kind),
      TextElement("content", ContentText(a.value)),
      TextElement("description", a.description)])
  }

  /** `PfSenseAliasesParser::to_element`. */
  method AliasToElement(a: Alias) returns (e: Element)
    ensures e == AliasElementAsWritten(a)
  {
    var children: seq<Node> := [];
    children := children + [TextElement("name", a.name)];
    children := children + [TextElement("type", a.kind)];
    var value := Join(Split(a.value, ','), " ");
    children := children + [TextElement("content", value)];
    children := children + [TextElement("description", a.description)];
    e := Element("alias", children);
  }

  /** The parser reads `<address>` and `<descr>`, but the writer writes
      `<content>` and `<description>`: whatever the alias held, its value
      reads back as "None" and its description as "". */
  lemma WrittenAliasLosesValue(a: Alias)
    ensures ParseAlias(AliasElementAsWritten(a)) == Alias(a.kind, a.name, "None", "", "", "")
  {
    var e := AliasElementAsWritten(a);
    AliasLookups(e.children, a, "content", "description");
    TextOfTextElement("name", a.name);
    TextOfTextElement("type", a.kind);
    NoneIsOneWord();
  }

  /** The element a writer using the parser's own tag names produces. */
  function AliasElement(a: Alias): Element {
    Element("alias", [
      TextElement("name", a.name),
      TextElement("type", a.kind),
      TextElement("address", ContentText(a.value)),
      TextElement("descr", a.description)])
  }

  /** A value the parser can produce from a list of entries: empty, or
      non-empty ','-separated parts without whitespace. */
  predicate EntryList(value: string) {
    value == [] || Words(Split(value, ','))
  }

  /** With the parser's tag names, an alias whose value is an entry list
      reads back unchanged; such an alias has no family or table. */
  lemma AliasRoundTrip(a: Alias)
    requires EntryList(a.value)
    requires a.family == "" && a.table == ""
    ensures ParseAlias(AliasElement(a)) == a
  {
    var e := AliasElement(a);
    AliasLookups(e.children, a, "address", "descr");
    TextOfTextElement("name", a.name);
    TextOfTextElement("type", a.kind);
    TextOfTextElement("address", ContentText(a.value));
    TextOfTextElement("descr", a.description);
    ValueRoundTrip(a.value);
  }

  /** Entries written with spaces and read back with `split_whitespace` come
      back as the same entry list. */
  lemma ValueRoundTrip(value: string)
    requires EntryList(value)
    ensures NormaliseValue(ContentText(value)) == value
  {
    var parts := Split(value, ',');
    if value == [] {
      assert IndexOf(value, ',').None?;
      assert parts == [""];
      assert Join(parts, " ") == "";
      assert SplitWhitespace("") == [];
    } else {
      SplitWhitespaceJoin(parts);
      JoinSplit(value, ',');
    }
  }

  /** Where the lookups of `ParseAlias` land in a four-child alias element
      whose third and fourth tags are `valueTag` and `descrTag`. */
  lemma AliasLookups(children: seq<Node>, a: Alias, valueTag: string, descrTag: string)
    requires valueTag in {"content", "address"} && descrTag in {"description", "descr"}
    requires children == [TextElement("name", a.name), TextElement("type", a.kind),
      TextElement(valueTag, ContentText(a.value)), TextElement(descrTag, a.description)]
    ensures FindChild(children, "name") == Some(Element("name", [Text(a.name)]))
    ensures FindChild(children, "type") == Some(Element("type", [Text(a.kind)]))
    ensures FindChild(children, "address") ==
      if valueTag == "address" then Some(Element("address", [Text(ContentText(a.value))])) else None
    ensures FindChild(children, "url") == None
    ensures FindChild(children, "descr") ==
      if descrTag == "descr" then Some(Element("descr", [Text(a.description)])) else None
  {
    FindChildCons(children[0], children[1..], "type");
    FindChildCons(children[0], children[1..], "address");
    FindChildCons(children[0], children[1..], "url");
    FindChildCons(children[0], children[1..], "descr");
    assert children[1..][1..] == children[2..];
    FindChildCons(children[1], children[2..], "address");
    FindChildCons(children[1], children[2..], "url");
    FindChildCons(children[1], children[2..], "descr");
    assert children[2..][1..] == children[3..];
    FindChildCons(children[2], children[3..], "address");
    FindChildCons(children[2], children[3..], "url");
    FindChildCons(children[2], children[3..], "descr");
    FindChildSingle(children[3], "address");
    FindChildSingle(children[3], "url");
    FindChildSingle(children[3], "descr");
    assert children[3..] == [children[3]];
  }
}
