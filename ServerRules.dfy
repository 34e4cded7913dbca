/** The server's pfSense rules parser (`PfSenseRulesParser` of the server
    crate). It reads the same `<filter>` and `<nat>` sections as the agent,
    through roxmltree, into one list of rules whose `type` names the section
    each came from. The server's `Rule` record is declared here, since the
    module that defines it is not part of this model. */
module ServerRules {
  import opened Common
  import opened Xml
  import opened PfEndpoint

  /** A server rule; `kind` is the Rust field `r#type`. */
  datatype Rule = Rule(
    disabled: bool,
    kind: string,
    protocol: string,
    policy: string,
    description: string,
    sourcePort: string,
    sourceAddr: string,
    sourceType: string,
    sourceInversed: bool,
    destinationAddr: string,
    destinationPort: string,
    destinationType: string,
    destinationInversed: bool,
    interface: string,
    order: nat)

  /** `map_ipprotocol`: the pfSense address family as the server names it. */
  function MapIpProtocol(ipprotocol: string): (r: string)
    ensures r == "IPv4" <==> ipprotocol == "inet"
    ensures r == "IPv6" <==> ipprotocol == "inet6"
    ensures r == "none" <==> ipprotocol != "inet" && ipprotocol != "inet6"
  {
    if ipprotocol == "inet" then "IPv4"
    else if ipprotocol == "inet6" then "IPv6"
    else "none"
  }

  /** The roxmltree text of child `name`, or `default`. */
  function TextOr(e: Element, name: string, default: string): string {
    ChildFirstText(e, name).GetOr(default)
  }

  /** One `<rule>` of section `section`, numbered `index` within it. */
  function ParseRule(child: Element, section: string, index: nat): (r: Rule)
    ensures r.kind == section && r.order == index
    ensures r.disabled <==> HasChild(child, "disabled")
    ensures ChildFirstText(child, "type").None? ==> r.policy == "pass"
    ensures ChildFirstText(child, "descr").None? ==> r.description == ""
    ensures ChildFirstText(child, "interface").None? ==> r.interface == "none"
    ensures ChildFirstText(child, "type").Some? ==> r.policy == ChildFirstText(child, "type").value
    ensures ChildFirstText(child, "descr").Some? ==> r.description == ChildFirstText(child, "descr").value
    ensures ChildFirstText(child, "interface").Some? ==> r.interface == ChildFirstText(child, "interface").value
    ensures var s := ParseEndpoint(RoXml, GetChild(child, "source"));
      r.sourceAddr == s.addr && r.sourcePort == s.port && r.sourceType == s.kind && r.sourceInversed == s.inversed
    ensures var d := ParseEndpoint(RoXml, GetChild(child, "destination"));
      r.destinationAddr == d.addr && r.destinationPort == d.port && r.destinationType == d.kind
      && r.destinationInversed == d.inversed
    ensures IndexOf(r.protocol, '/').Some?
    ensures var i := IndexOf(r.protocol, '/').value;
      (r.protocol[..i] == "IPv4" <==> ChildFirstText(child, "ipprotocol") == Some("inet"))
      && (r.protocol[..i] == "IPv6" <==> ChildFirstText(child, "ipprotocol") == Some("inet6"))
      && (r.protocol[..i] == "IPv4" || r.protocol[..i] == "IPv6" || r.protocol[..i] == "none")
      && r.protocol[i + 1..] == TextOr(child, "protocol", "any")
  {
    var family := MapIpProtocol(TextOr(child, "ipprotocol", "*"));
    var protocol := TextOr(child, "protocol", "any");
    var src := ParseEndpoint(RoXml, GetChild(child, "source"));
    var dst := ParseEndpoint(RoXml, GetChild(child, "destination"));
    assert '/' !in family;
    IndexOfAfterPrefix(family, '/', protocol);
    assert (family + "/" + protocol)[..|family|] == family;
    assert (family + "/" + protocol)[|family| + 1..] == protocol;
    Rule(
      disabled := HasChild(child, "disabled"),
      kind := section,
      protocol := family + "/" + protocol,
      policy := TextOr(child, "type", "pass"),
      description := TextOr(child, "descr", ""),
      sourcePort := src.port,
      sourceAddr := src.addr,
      sourceType := src.kind,
      sourceInversed := src.inversed,
      destinationAddr := dst.addr,
      destinationPort := dst.port,
      destinationType := dst.kind,
      destinationInversed := dst.inversed,
      interface := TextOr(child, "interface", "none"),
      order := index)
  }

  /** The rules of one section: the k-th `<rule>` element numbered k. */
  function SectionRules(rules: seq<Element>, section: string): (r: seq<Rule>)
    ensures |r| == |rules|
    ensures forall k :: 0 <= k < |r| ==> r[k].kind == section && r[k].order == k
  {
    seq(|rules|, k requires 0 <= k < |rules| => ParseRule(rules[k], section, k))
  }

  lemma SectionRulesNext(rules: seq<Element>, section: string, e: Element)
    ensures SectionRules(rules + [e], section) == SectionRules(rules, section) + [ParseRule(e, section, |rules|)]
  {
    var all := rules + [e];
    var a := SectionRules(all, section);
    var b := SectionRules(rules, section) + [ParseRule(e, section, |rules|)];
    assert |a| == |b|;
    forall k | 0 <= k < |a|
      ensures a[k] == b[k]
    {
      assert a[k] == ParseRule(all[k], section, k);
      if k < |rules| {
        assert all[k] == rules[k];
        assert b[k] == SectionRules(rules, section)[k];
      } else {
        assert all[k] == e;
      }
    }
  }

  /** `parse_rules`: one rule per `<rule>` element child of the section, in
      document order, numbered from 0 and tagged with the section's name. */
  method ParseSection(node: Element, section: string) returns (rules: seq<Rule>)
    ensures rules == SectionRules(ChildrenNamed(node.children, "rule"), section)
  {
    rules := [];
    var i := 0;
    while i < |node.children|
      invariant 0 <= i <= |node.children|
      invariant rules == SectionRules(ChildrenNamed(node.children[..i], "rule"), section)
    {
      ChildrenNamedNext(node.children, i, "rule");
      if IsElementNamed(node.children[i], "rule") {
        SectionRulesNext(ChildrenNamed(node.children[..i], "rule"), section, node.children[i].elem);
        rules := rules + [ParseRule(node.children[i].elem, section, |rules|)];
      }
      i := i + 1;
    }
    assert node.children[..i] == node.children;
  }

  /** The section `name` of the first `<pfsense>` in the document, if any. */
  function Section(document: Element, name: string): Option<Element> {
    match FindDescendant(document, "pfsense")
    case None => None
    case Some(pf) => GetChild(pf, name)
  }

  /** The rules of an optional section; none when it is missing. */
  function RulesOf(section: Option<Element>, name: string): seq<Rule> {
    match section
    case None => []
    case Some(node) => SectionRules(ChildrenNamed(node.children, "rule"), name)
  }

  /** `PfSenseRulesParser::parse`: the `<filter>` rules, then the `<nat>`
      rules, of the first `<pfsense>` element; every rule's type names its
      section, so no NAT rule comes before a filter rule, and the numbering
      starts again at 0 in the NAT section. */
  method Parse(document: Element) returns (rules: seq<Rule>)
    ensures rules == RulesOf(Section(document, "filter"), "filter") + RulesOf(Section(document, "nat"), "nat")
    ensures forall k :: 0 <= k < |rules| ==> rules[k].kind == "filter" || rules[k].kind == "nat"
    ensures forall i, j :: 0 <= i < j < |rules| && rules[i].kind == "nat" ==> rules[j].kind == "nat"
    ensures forall k :: 0 <= k < |rules| ==>
      rules[k].order == if rules[k].kind == "filter" then k else k - |RulesOf(Section(document, "filter"), "filter")|
  {
    rules := [];
    var filter := Section(document, "filter");
    if filter.Some? {
      rules := ParseSection(filter.value, "filter");
    }
    var natSection := Section(document, "nat");
    if natSection.Some? {
      var natRules := ParseSection(natSection.value, "nat");
      rules := rules + natRules;
    }
    SectionsInOrder(RulesOf(filter, "filter"), RulesOf(natSection, "nat"));
  }

  lemma SectionsInOrder(filter: seq<Rule>, natRules: seq<Rule>)
    requires forall k :: 0 <= k < |filter| ==> filter[k].kind == "filter" && filter[k].order == k
    requires forall k :: 0 <= k < |natRules| ==> natRules[k].kind == "nat" && natRules[k].order == k
    ensures var rules := filter + natRules;
      (forall k :: 0 <= k < |rules| ==> rules[k].kind == "filter" || rules[k].kind == "nat")
      && (forall i, j :: 0 <= i < j < |rules| && rules[i].kind == "nat" ==> rules[j].kind == "nat")
      && (forall k :: 0 <= k < |rules| ==> rules[k].order == if rules[k].kind == "filter" then k else k - |filter|)
  {
    var rules := filter + natRules;
    forall i, j | 0 <= i < j < |rules| && rules[i].kind == "nat"
      ensures rules[j].kind == "nat"
    {
      assert i >= |filter|;
    }
  }
}
