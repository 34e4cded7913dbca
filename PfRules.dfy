/** The agent's pfSense rule parser and writer (`PfSenseRulesParser`): the
    `<rule>` children of `<filter>` become filter rules and those of `<nat>`
    become NAT rules, numbered in document order, and a rule is written back
    as a `<rule>` element. */
module PfRules {
  import opened Common
  import opened Xml
  import opened Models
  import opened PfEndpoint

  // ---------------------------------------------------------------------------
  // Reading one rule

  /** The text of the child called `name`, or `default`. */
  function TextOr(e: Element, name: string, default: string): string {
    ChildText(e, name).GetOr(default)
  }

  /** The child called `name` read as a u32, or 0 when it is missing, has no
      text or does not parse. */
  function U32Or0(e: Element, name: string): (r: nat)
    ensures IsU32(r)
  {
    match ChildText(e, name)
    case Some(t) => ParseU32(t).GetOr(0)
    case None => 0
  }

  /** The port and address records built from a parsed endpoint: its value
      with the default operator "" and version 0. */
  function PortOf(ep: Endpoint): Option<PortInfo> {
    Some(PortInfo(ep.port, ""))
  }

  function AddrOf(ep: Endpoint): Option<AddrInfo> {
    Some(AddrInfo(ep.addr, "", 0))
  }

  /** The protocol of a rule: "ipprotocol/protocol", with "*" and "any" for a
      missing part. */
  function ProtocolOf(child: Element): string {
    TextOr(child, "ipprotocol", "*") + "/" + TextOr(child, "protocol", "any")
  }

  /** One filter rule, the `index`-th `<rule>` of `<filter>`. */
  function ParseFilterRule(child: Element, index: nat): (r: FilterRule)
    ensures ValidFilterRule(r)
    ensures r.disabled <==> HasChild(child, "disabled")
    ensures index < U32_LIMIT ==> r.order == index
    ensures '/' in r.protocol
  {
    var src := ParseEndpoint(XmlTree, GetChild(child, "source"));
    var dst := ParseEndpoint(XmlTree, GetChild(child, "destination"));
    assert ProtocolOf(child)[|TextOr(child, "ipprotocol", "*")|] == '/';
    FilterRule(
      disabled := HasChild(child, "disabled"),
      policy := TextOr(child, "type", "pass"),
      protocol := ProtocolOf(child),
      sourceInversed := src.inversed,
      sourcePort := PortOf(src),
      sourceAddr := AddrOf(src),
      sourceType := src.kind,
      destinationInversed := dst.inversed,
      destinationPort := PortOf(dst),
      destinationAddr := AddrOf(dst),
      destinationType := dst.kind,
      description := TextOr(child, "descr", ""),
      interface := TextOr(child, "interface", "none"),
      id := U32Or0(child, "tracker"),
      order := index % U32_LIMIT,
      associatedRuleId := TextOr(child, "associated-rule-id", ""),
      table := "",
      chain := "",
      family := "")
  }

  /** One NAT rule, the `index`-th `<rule>` of `<nat>`. */
  function ParseNatRule(child: Element, index: nat): (r: NatRule)
    ensures ValidNatRule(r)
    ensures r.disabled <==> HasChild(child, "disabled")
    ensures index < U32_LIMIT ==> r.order == index
    ensures '/' in r.protocol
  {
    var src := ParseEndpoint(XmlTree, GetChild(child, "source"));
    var dst := ParseEndpoint(XmlTree, GetChild(child, "destination"));
    assert ProtocolOf(child)[|TextOr(child, "ipprotocol", "*")|] == '/';
    NatRule(
      disabled := HasChild(child, "disabled"),
      protocol := ProtocolOf(child),
      sourceInversed := src.inversed,
      sourcePort := PortOf(src),
      sourceAddr := AddrOf(src),
      sourceType := src.kind,
      destinationInversed := dst.inversed,
      destinationPort := PortOf(dst),
      destinationAddr := AddrOf(dst),
      destinationType := dst.kind,
      description := TextOr(child, "descr", ""),
      interface := TextOr(child, "interface", "none"),
      redirectIp := TextOr(child, "target", "none"),
      redirectPort := U32Or0(child, "local-port"),
      order := index % U32_LIMIT,
      associatedRuleId := TextOr(child, "associated-rule-id", ""),
      table := "",
      chain := "",
      family := "")
  }

  /** A `<rule/>` with no children reads as the defaults: policy "pass",
      ipprotocol "*" with protocol "any", wildcard endpoints of type "address", empty
      description, interface "none" and id 0. */
  lemma EmptyRuleDefaults(index: nat)
    requires index < U32_LIMIT
    ensures ParseFilterRule(Element("rule", []), index) == FilterRule(
      false, "pass", "*/any",
      false, Some(PortInfo(ANY, "")), Some(AddrInfo(ANY, "", 0)), "address",
      false, Some(PortInfo(ANY, "")), Some(AddrInfo(ANY, "", 0)), "address",
      "", "none", 0, index, "", "", "", "")
    ensures ParseNatRule(Element("rule", []), index) == NatRule(
      false, "*/any",
      false, Some(PortInfo(ANY, "")), Some(AddrInfo(ANY, "", 0)), "address",
      false, Some(PortInfo(ANY, "")), Some(AddrInfo(ANY, "", 0)), "address",
      "", "none", "none", 0, index, "", "", "", "")
  {
  }

  // ---------------------------------------------------------------------------
  // Reading a section and a document

  /** The rules of a section's `<rule>` elements, the k-th numbered k. */
  function FilterRulesOf(elems: seq<Element>): (r: seq<FilterRule>)
    ensures |r| == |elems|
    ensures forall k :: 0 <= k < |r| && k < U32_LIMIT ==> r[k].order == k
  {
    seq(|elems|, k requires 0 <= k < |elems| => ParseFilterRule(elems[k], k))
  }

  function NatRulesOf(elems: seq<Element>): (r: seq<NatRule>)
    ensures |r| == |elems|
    ensures forall k :: 0 <= k < |r| && k < U32_LIMIT ==> r[k].order == k
  {
    seq(|elems|, k requires 0 <= k < |elems| => ParseNatRule(elems[k], k))
  }

  lemma FilterRulesNext(elems: seq<Element>, e: Element)
    ensures FilterRulesOf(elems + [e]) == FilterRulesOf(elems) + [ParseFilterRule(e, |elems|)]
  {
    var all := elems + [e];
    var a := FilterRulesOf(all);
    var b := FilterRulesOf(elems) + [ParseFilterRule(e, |elems|)];
    assert |a| == |b|;
    forall k | 0 <= k < |a|
      ensures a[k] == b[k]
    {
      assert a[k] == ParseFilterRule(all[k], k);
      if k < |elems| {
        assert all[k] == elems[k];
        assert b[k] == FilterRulesOf(elems)[k];
      } else {
        assert all[k] == e;
      }
    }
  }

  lemma NatRulesNext(elems: seq<Element>, e: Element)
    ensures NatRulesOf(elems + [e]) == NatRulesOf(elems) + [ParseNatRule(e, |elems|)]
  {
    var all := elems + [e];
    var a := NatRulesOf(all);
    var b := NatRulesOf(elems) + [ParseNatRule(e, |elems|)];
    assert |a| == |b|;
    forall k | 0 <= k < |a|
      ensures a[k] == b[k]
    {
      assert a[k] == ParseNatRule(all[k], k);
      if k < |elems| {
        assert all[k] == elems[k];
        assert b[k] == NatRulesOf(elems)[k];
      } else {
        assert all[k] == e;
      }
    }
  }

  /** `parse_filter_rules`: one rule per `<rule>` element child, in document
      order, the k-th numbered k; other children are skipped. */
  method ParseFilterRules(node: Element) returns (rules: seq<FilterRule>)
    ensures rules == FilterRulesOf(ChildrenNamed(node.children, "rule"))
  {
    rules := [];
    var i := 0;
    while i < |node.children|
      invariant 0 <= i <= |node.children|
      invariant rules == FilterRulesOf(ChildrenNamed(node.children[..i], "rule"))
    {
      ChildrenNamedNext(node.children, i, "rule");
      if IsElementNamed(node.children[i], "rule") {
        FilterRulesNext(ChildrenNamed(node.children[..i], "rule"), node.children[i].elem);
        rules := rules + [ParseFilterRule(node.children[i].elem, |rules|)];
      }
      i := i + 1;
    }
    assert node.children[..i] == node.children;
  }

  /** `parse_nat_rules`, the same walk over the `<rule>` children of `<nat>`. */
  method ParseNatRules(node: Element) returns (rules: seq<NatRule>)
    ensures rules == NatRulesOf(ChildrenNamed(node.children, "rule"))
  {
    rules := [];
    var i := 0;
    while i < |node.children|
      invariant 0 <= i <= |node.children|
      invariant rules == NatRulesOf(ChildrenNamed(node.children[..i], "rule"))
    {
      ChildrenNamedNext(node.children, i, "rule");
      if IsElementNamed(node.children[i], "rule") {
        NatRulesNext(ChildrenNamed(node.children[..i], "rule"), node.children[i].elem);
        rules := rules + [ParseNatRule(node.children[i].elem, |rules|)];
      }
      i := i + 1;
    }
    assert node.children[..i] == node.children;
  }

  /** `PfSenseRulesParser::parse`: the filter rules of the first `<filter>`
      child and the NAT rules of the first `<nat>` child, none for a missing
      section. */
  method ParseRules(document: Element) returns (filterRules: seq<FilterRule>, natRules: seq<NatRule>)
    ensures GetChild(document, "filter").None? ==> filterRules == []
    ensures GetChild(document, "filter").Some? ==>
      filterRules == FilterRulesOf(ChildrenNamed(GetChild(document, "filter").value.children, "rule"))
    ensures GetChild(document, "nat").None? ==> natRules == []
    ensures GetChild(document, "nat").Some? ==>
      natRules == NatRulesOf(ChildrenNamed(GetChild(document, "nat").value.children, "rule"))
  {
    filterRules := [];
    natRules := [];
    var f := GetChild(document, "filter");
    if f.Some? {
      filterRules := ParseFilterRules(f.value);
    }
    var n := GetChild(document, "nat");
    if n.Some? {
      natRules := ParseNatRules(n.value);
    }
  }

  // ---------------------------------------------------------------------------
  // Writing one rule

  /** `splitn(2, '/')` on a protocol: the part before the first '/', and the
      rest after it, or "any" when there is no '/'. */
  function SplitProtocol(protocol: string): (r: (string, string))
    ensures '/' !in r.0
    ensures '/' in protocol ==> r.0 + "/" + r.1 == protocol
    ensures '/' !in protocol ==> r == (protocol, "any")
  {
    match IndexOf(protocol, '/')
    case None => (protocol, "any")
    case Some(i) =>
      assert protocol == protocol[..i] + "/" + protocol[i + 1..];
      (protocol[..i], protocol[i + 1..])
  }

  /** The value written for an endpoint: the record's value, or the wildcard
      when the record is missing. */
  function PortValue(p: Option<PortInfo>): string {
    if p.Some? then p.value.value else ANY
  }

  function AddrValue(a: Option<AddrInfo>): string {
    if a.Some? then a.value.value else ANY
  }

  function SourceNode(port: Option<PortInfo>, addr: Option<AddrInfo>, kind: string, inversed: bool): Node {
    ElementNode(EndpointElement("source", AddrValue(addr), PortValue(port), kind, inversed))
  }

  function DestinationNode(port: Option<PortInfo>, addr: Option<AddrInfo>, kind: string, inversed: bool): Node {
    ElementNode(EndpointElement("destination", AddrValue(addr), PortValue(port), kind, inversed))
  }

  /** The children `filter_rule_to_element` writes, in order. */
  function FilterRuleChildren(r: FilterRule): seq<Node> {
    var proto := SplitProtocol(r.protocol);
    Optional(r.disabled, EmptyElement("disabled"))
    + [TextElement("type", r.policy)]
    + [TextElement("ipprotocol", proto.0)]
    + Optional(proto.1 != "any", TextElement("protocol", proto.1))
    + Optional(r.description != "", CDataElement("descr", r.description))
    + [TextElement("interface", r.interface)]
    + [SourceNode(r.sourcePort, r.sourceAddr, r.sourceType, r.sourceInversed)]
    + [DestinationNode(r.destinationPort, r.destinationAddr, r.destinationType, r.destinationInversed)]
    + [TextElement("tracker", NatToString(r.id))]
    + [TextElement("associated-rule-id", r.associatedRuleId)]
  }

  function FilterRuleElement(r: FilterRule): Element {
    Element("rule", FilterRuleChildren(r))
  }

  /** The children before the endpoints: flags, protocol, description and
      interface. */
  function NatRuleHead(r: NatRule): seq<Node> {
    var proto := SplitProtocol(r.protocol);
    Optional(r.disabled, EmptyElement("disabled"))
    + [TextElement("ipprotocol", proto.0)]
    + Optional(proto.1 != "any", TextElement("protocol", proto.1))
    + Optional(r.description != "", CDataElement("descr", r.description))
    + [TextElement("interface", r.interface)]
  }

  /** The children `nat_rule_to_element` writes, in order. */
  function NatRuleChildren(r: NatRule): seq<Node> {
    NatRuleHead(r)
    + [SourceNode(r.sourcePort, r.sourceAddr, r.sourceType, r.sourceInversed)]
    + [DestinationNode(r.destinationPort, r.destinationAddr, r.destinationType, r.destinationInversed)]
    + [TextElement("associated-rule-id", r.associatedRuleId)]
    + [TextElement("target", r.redirectIp)]
    + [TextElement("local-port", NatToString(r.redirectPort))]
  }

  function NatRuleElement(r: NatRule): Element {
    Element("rule", NatRuleChildren(r))
  }

  /** `filter_rule_to_element`: `<protocol>` is written exactly when the part
      of the protocol after its first '/' is present and not "any", and
      `<descr>` exactly when the description is not empty. */
  method FilterRuleToElement(r: FilterRule) returns (e: Element)
    ensures e == FilterRuleElement(r)
    ensures HasChild(e, "protocol") <==> SplitProtocol(r.protocol).1 != "any"
    ensures HasChild(e, "descr") <==> r.description != ""
  {
    var children: seq<Node> := [];
    if r.disabled {
      children := children + [EmptyElement("disabled")];
    }
    assert children == Optional(r.disabled, EmptyElement("disabled"));
    children := children + [TextElement("type", r.policy)];
    var proto := SplitProtocol(r.protocol);
    children := children + [TextElement("ipprotocol", proto.0)];
    ghost var before := children;
    if proto.1 != "any" {
      children := children + [TextElement("protocol", proto.1)];
    }
    assert children == before + Optional(proto.1 != "any", TextElement("protocol", proto.1));
    before := children;
    if r.description != "" {
      children := children + [CDataElement("descr", r.description)];
    }
    assert children == before + Optional(r.description != "", CDataElement("descr", r.description));
    children := children + [TextElement("interface", r.interface)];
    var source := ToElement("source", AddrValue(r.sourceAddr), PortValue(r.sourcePort), r.sourceType, r.sourceInversed);
    children := children + [ElementNode(source)];
    var destination := ToElement("destination", AddrValue(r.destinationAddr), PortValue(r.destinationPort), r.destinationType, r.destinationInversed);
    children := children + [ElementNode(destination)];
    children := children + [TextElement("tracker", NatToString(r.id))];
    children := children + [TextElement("associated-rule-id", r.associatedRuleId)];
    e := Element("rule", children);
    FilterRuleOptionalChildren(r);
  }

  /** `<protocol>` is written exactly when the part of the protocol after its
      first '/' is present and not "any", and `<descr>` exactly when the
      description is not empty. */
  lemma FilterRuleOptionalChildren(r: FilterRule)
    ensures HasChild(FilterRuleElement(r), "protocol") <==> SplitProtocol(r.protocol).1 != "any"
    ensures HasChild(FilterRuleElement(r), "descr") <==> r.description != ""
  {
    FilterRuleLookups(r, "protocol");
    FilterRuleLookups(r, "descr");
  }

  /** Looking a name up in what `filter_rule_to_element` writes looks it up
      in each child in turn. */
  lemma FilterRuleLookups(r: FilterRule, name: string)
    ensures var proto := SplitProtocol(r.protocol);
      FindChild(FilterRuleChildren(r), name) ==
      OrElse(OptLookup(r.disabled, EmptyElement("disabled"), name),
      OrElse(OptLookup(true, TextElement("type", r.policy), name),
      OrElse(OptLookup(true, TextElement("ipprotocol", proto.0), name),
      OrElse(OptLookup(proto.1 != "any", TextElement("protocol", proto.1), name),
      OrElse(OptLookup(r.description != "", CDataElement("descr", r.description), name),
      OrElse(OptLookup(true, TextElement("interface", r.interface), name),
      OrElse(OptLookup(true, SourceNode(r.sourcePort, r.sourceAddr, r.sourceType, r.sourceInversed), name),
      OrElse(OptLookup(true, DestinationNode(r.destinationPort, r.destinationAddr, r.destinationType, r.destinationInversed), name),
      OrElse(OptLookup(true, TextElement("tracker", NatToString(r.id)), name),
             OptLookup(true, TextElement("associated-rule-id", r.associatedRuleId), name))))))))))
  {
    var c5 := FilterRuleHead(r);
    var c6 := c5 + [SourceNode(r.sourcePort, r.sourceAddr, r.sourceType, r.sourceInversed)];
    var c7 := c6 + [DestinationNode(r.destinationPort, r.destinationAddr, r.destinationType, r.destinationInversed)];
    var c8 := c7 + [TextElement("tracker", NatToString(r.id))];
    assert FilterRuleChildren(r) == c8 + [TextElement("associated-rule-id", r.associatedRuleId)];
    FilterRuleHeadLookups(r, name);
    FindChildOne(c5, SourceNode(r.sourcePort, r.sourceAddr, r.sourceType, r.sourceInversed), name);
    FindChildOne(c6, DestinationNode(r.destinationPort, r.destinationAddr, r.destinationType, r.destinationInversed), name);
    FindChildOne(c7, TextElement("tracker", NatToString(r.id)), name);
    FindChildOne(c8, TextElement("associated-rule-id", r.associatedRuleId), name);
  }

  /** The children of a filter rule before its endpoints. */
  function FilterRuleHead(r: FilterRule): seq<Node> {
    var proto := SplitProtocol(r.protocol);
    Optional(r.disabled, EmptyElement("disabled"))
    + [TextElement("type", r.policy)]
    + [TextElement("ipprotocol", proto.0)]
    + Optional(proto.1 != "any", TextElement("protocol", proto.1))
    + Optional(r.description != "", CDataElement("descr", r.description))
    + [TextElement("interface", r.interface)]
  }

  lemma FilterRuleHeadLookups(r: FilterRule, name: string)
    ensures var proto := SplitProtocol(r.protocol);
      FindChild(FilterRuleHead(r), name) ==
      OrElse(OptLookup(r.disabled, EmptyElement("disabled"), name),
      OrElse(OptLookup(true, TextElement("type", r.policy), name),
      OrElse(OptLookup(true, TextElement("ipprotocol", proto.0), name),
      OrElse(OptLookup(proto.1 != "any", TextElement("protocol", proto.1), name),
      OrElse(OptLookup(r.description != "", CDataElement("descr", r.description), name),
             OptLookup(true, TextElement("interface", r.interface), name))))))
  {
    var proto := SplitProtocol(r.protocol);
    var c0 := Optional(r.disabled, EmptyElement("disabled"));
    var c1 := c0 + [TextElement("type", r.policy)];
    var c2 := c1 + [TextElement("ipprotocol", proto.0)];
    var c3 := c2 + Optional(proto.1 != "any", TextElement("protocol", proto.1));
    var c4 := c3 + Optional(r.description != "", CDataElement("descr", r.description));
    FindChildOpt([], r.disabled, EmptyElement("disabled"), name);
    assert [] + c0 == c0;
    FindChildOne(c0, TextElement("type", r.policy), name);
    FindChildOne(c1, TextElement("ipprotocol", proto.0), name);
    FindChildOpt(c2, proto.1 != "any", TextElement("protocol", proto.1), name);
    FindChildOpt(c3, r.description != "", CDataElement("descr", r.description), name);
    FindChildOne(c4, TextElement("interface", r.interface), name);
  }

  // ---------------------------------------------------------------------------
  // Writing, then reading back

  /** How an endpoint reads back from what `to_element` wrote for it: a
      missing record comes back as the wildcard, and the type comes back as
      "network" only when it was "network" with a real address. */
  function EndpointImage(port: Option<PortInfo>, addr: Option<AddrInfo>, kind: string, inversed: bool): Endpoint {
    Endpoint(AddrValue(addr), PortValue(port),
      if AddrValue(addr) != ANY && kind == "network" then "network" else "address", inversed)
  }

  /** How a filter rule reads back from its `<rule>` element: the protocol is
      re-joined around its first '/', endpoints as `EndpointImage` says, with
      operator "" and version 0, and no table, chain or family. */
  function FilterRuleImage(r: FilterRule): FilterRule {
    var proto := SplitProtocol(r.protocol);
    var src := EndpointImage(r.sourcePort, r.sourceAddr, r.sourceType, r.sourceInversed);
    var dst := EndpointImage(r.destinationPort, r.destinationAddr, r.destinationType, r.destinationInversed);
    r.(protocol := proto.0 + "/" + proto.1,
       sourcePort := PortOf(src), sourceAddr := AddrOf(src), sourceType := src.kind,
       destinationPort := PortOf(dst), destinationAddr := AddrOf(dst), destinationType := dst.kind,
       table := "", chain := "", family := "")
  }

  /** Reading back the `<rule>` written for `r`, at its own position, gives
      `FilterRuleImage(r)`. */
  lemma FilterRuleRoundTrip(r: FilterRule)
    requires IsU32(r.id) && IsU32(r.order)
    ensures ParseFilterRule(FilterRuleElement(r), r.order) == FilterRuleImage(r)
  {
    FilterRuleReadsFlags(r);
    FilterRuleReadsProtocol(r);
    FilterRuleReadsNames(r);
    FilterRuleReadsIds(r);
    FilterRuleReadsEndpoints(r);
  }

  lemma FilterRuleReadsFlags(r: FilterRule)
    ensures var e := FilterRuleElement(r);
      (HasChild(e, "disabled") <==> r.disabled) && TextOr(e, "type", "pass") == r.policy
  {
    FilterRuleLookups(r, "disabled");
    FilterRuleLookups(r, "type");
    TextOfTextElement("type", r.policy);
  }

  lemma FilterRuleReadsProtocol(r: FilterRule)
    ensures var proto := SplitProtocol(r.protocol);
      ProtocolOf(FilterRuleElement(r)) == proto.0 + "/" + proto.1
  {
    FilterRuleReadsFamily(r);
    FilterRuleReadsTransport(r);
  }

  lemma FilterRuleReadsFamily(r: FilterRule)
    ensures TextOr(FilterRuleElement(r), "ipprotocol", "*") == SplitProtocol(r.protocol).0
  {
    FilterRuleLookups(r, "ipprotocol");
    TextOfTextElement("ipprotocol", SplitProtocol(r.protocol).0);
  }

  lemma FilterRuleReadsTransport(r: FilterRule)
    ensures TextOr(FilterRuleElement(r), "protocol", "any") == SplitProtocol(r.protocol).1
  {
    FilterRuleLookups(r, "protocol");
    TextOfTextElement("protocol", SplitProtocol(r.protocol).1);
  }

  lemma FilterRuleReadsNames(r: FilterRule)
    ensures var e := FilterRuleElement(r);
      TextOr(e, "descr", "") == r.description && TextOr(e, "interface", "none") == r.interface
  {
    FilterRuleLookups(r, "descr");
    FilterRuleLookups(r, "interface");
    TextOfCDataElement("descr", r.description);
    TextOfTextElement("interface", r.interface);
  }

  lemma FilterRuleReadsIds(r: FilterRule)
    requires IsU32(r.id)
    ensures var e := FilterRuleElement(r);
      U32Or0(e, "tracker") == r.id && TextOr(e, "associated-rule-id", "") == r.associatedRuleId
  {
    FilterRuleLookups(r, "tracker");
    FilterRuleLookups(r, "associated-rule-id");
    TextOfTextElement("tracker", NatToString(r.id));
    TextOfTextElement("associated-rule-id", r.associatedRuleId);
    ParseU32OfNatToString(r.id);
  }

  lemma FilterRuleReadsEndpoints(r: FilterRule)
    ensures var e := FilterRuleElement(r);
      ParseEndpoint(XmlTree, GetChild(e, "source"))
        == EndpointImage(r.sourcePort, r.sourceAddr, r.sourceType, r.sourceInversed)
      && ParseEndpoint(XmlTree, GetChild(e, "destination"))
        == EndpointImage(r.destinationPort, r.destinationAddr, r.destinationType, r.destinationInversed)
  {
    FilterRuleLookups(r, "source");
    FilterRuleLookups(r, "destination");
    EndpointRoundTrip(XmlTree, "source", AddrValue(r.sourceAddr), PortValue(r.sourcePort), r.sourceType, r.sourceInversed);
    EndpointRoundTrip(XmlTree, "destination", AddrValue(r.destinationAddr), PortValue(r.destinationPort), r.destinationType, r.destinationInversed);
  }

  /** The endpoint records a rule can hold and still read back unchanged:
      present, with operator "" and version 0, and type "address", or
      "network" with a real address. */
  predicate EndpointShaped(port: Option<PortInfo>, addr: Option<AddrInfo>, kind: string) {
    port.Some? && port.value.operator == ""
    && addr.Some? && addr.value.operator == "" && addr.value.version == 0
    && (kind == "address" || (kind == "network" && addr.value.value != ANY))
  }

  /** The filter rules the XML holds exactly: a '/' in the protocol, shaped
      endpoints and no table, chain or family. */
  predicate FilterRuleShaped(r: FilterRule) {
    '/' in r.protocol
    && EndpointShaped(r.sourcePort, r.sourceAddr, r.sourceType)
    && EndpointShaped(r.destinationPort, r.destinationAddr, r.destinationType)
    && r.table == "" && r.chain == "" && r.family == ""
  }

  /** A filter rule reads back unchanged exactly when it is shaped. */
  lemma FilterRuleImageFixed(r: FilterRule)
    ensures FilterRuleImage(r) == r <==> FilterRuleShaped(r)
  {
    var proto := SplitProtocol(r.protocol);
    if '/' !in r.protocol {
      assert |proto.0 + "/" + proto.1| > |r.protocol|;
    }
  }

  // ---------------------------------------------------------------------------
  // NAT rules

  /** `nat_rule_to_element`: as for filter rules, `<protocol>` and `<descr>`
      are written only when they carry something; the rule ends with
      `<target>` and `<local-port>`. */
  method NatRuleToElement(r: NatRule) returns (e: Element)
    ensures e == NatRuleElement(r)
    ensures HasChild(e, "protocol") <==> SplitProtocol(r.protocol).1 != "any"
    ensures HasChild(e, "descr") <==> r.description != ""
  {
    var children: seq<Node> := [];
    if r.disabled {
      children := children + [EmptyElement("disabled")];
    }
    assert children == Optional(r.disabled, EmptyElement("disabled"));
    var proto := SplitProtocol(r.protocol);
    children := children + [TextElement("ipprotocol", proto.0)];
    ghost var before := children;
    if proto.1 != "any" {
      children := children + [TextElement("protocol", proto.1)];
    }
    assert children == before + Optional(proto.1 != "any", TextElement("protocol", proto.1));
    before := children;
    if r.description != "" {
      children := children + [CDataElement("descr", r.description)];
    }
    assert children == before + Optional(r.description != "", CDataElement("descr", r.description));
    children := children + [TextElement("interface", r.interface)];
    var source := ToElement("source", AddrValue(r.sourceAddr), PortValue(r.sourcePort), r.sourceType, r.sourceInversed);
    children := children + [ElementNode(source)];
    var destination := ToElement("destination", AddrValue(r.destinationAddr), PortValue(r.destinationPort), r.destinationType, r.destinationInversed);
    children := children + [ElementNode(destination)];
    children := children + [TextElement("associated-rule-id", r.associatedRuleId)];
    children := children + [TextElement("target", r.redirectIp)];
    children := children + [TextElement("local-port", NatToString(r.redirectPort))];
    e := Element("rule", children);
    NatRuleOptionalChildren(r);
  }

  lemma NatRuleOptionalChildren(r: NatRule)
    ensures HasChild(NatRuleElement(r), "protocol") <==> SplitProtocol(r.protocol).1 != "any"
    ensures HasChild(NatRuleElement(r), "descr") <==> r.description != ""
  {
    NatRuleLookups(r, "protocol");
    NatRuleLookups(r, "descr");
  }

  lemma NatRuleLookups(r: NatRule, name: string)
    ensures var proto := SplitProtocol(r.protocol);
      FindChild(NatRuleChildren(r), name) ==
      OrElse(OptLookup(r.disabled, EmptyElement("disabled"), name),
      OrElse(OptLookup(true, TextElement("ipprotocol", proto.0), name),
      OrElse(OptLookup(proto.1 != "any", TextElement("protocol", proto.1), name),
      OrElse(OptLookup(r.description != "", CDataElement("descr", r.description), name),
      OrElse(OptLookup(true, TextElement("interface", r.interface), name),
      OrElse(OptLookup(true, SourceNode(r.sourcePort, r.sourceAddr, r.sourceType, r.sourceInversed), name),
      OrElse(OptLookup(true, DestinationNode(r.destinationPort, r.destinationAddr, r.destinationType, r.destinationInversed), name),
      OrElse(OptLookup(true, TextElement("associated-rule-id", r.associatedRuleId), name),
      OrElse(OptLookup(true, TextElement("target", r.redirectIp), name),
             OptLookup(true, TextElement("local-port", NatToString(r.redirectPort)), name))))))))))
  {
    var c4 := NatRuleHead(r);
    var c5 := c4 + [SourceNode(r.sourcePort, r.sourceAddr, r.sourceType, r.sourceInversed)];
    var c6 := c5 + [DestinationNode(r.destinationPort, r.destinationAddr, r.destinationType, r.destinationInversed)];
    var c7 := c6 + [TextElement("associated-rule-id", r.associatedRuleId)];
    var c8 := c7 + [TextElement("target", r.redirectIp)];
    NatRuleHeadLookups(r, name);
    FindChildOne(c4, SourceNode(r.sourcePort, r.sourceAddr, r.sourceType, r.sourceInversed), name);
    FindChildOne(c5, DestinationNode(r.destinationPort, r.destinationAddr, r.destinationType, r.destinationInversed), name);
    FindChildOne(c6, TextElement("associated-rule-id", r.associatedRuleId), name);
    FindChildOne(c7, TextElement("target", r.redirectIp), name);
    FindChildOne(c8, TextElement("local-port", NatToString(r.redirectPort)), name);
  }

  lemma NatRuleHeadLookups(r: NatRule, name: string)
    ensures var proto := SplitProtocol(r.protocol);
      FindChild(NatRuleHead(r), name) ==
      OrElse(OptLookup(r.disabled, EmptyElement("disabled"), name),
      OrElse(OptLookup(true, TextElement("ipprotocol", proto.0), name),
      OrElse(OptLookup(proto.1 != "any", TextElement("protocol", proto.1), name),
      OrElse(OptLookup(r.description != "", CDataElement("descr", r.description), name),
             OptLookup(true, TextElement("interface", r.interface), name)))))
  {
    var proto := SplitProtocol(r.protocol);
    var c0 := Optional(r.disabled, EmptyElement("disabled"));
    var c1 := c0 + [TextElement("ipprotocol", proto.0)];
    var c2 := c1 + Optional(proto.1 != "any", TextElement("protocol", proto.1));
    var c3 := c2 + Optional(r.description != "", CDataElement("descr", r.description));
    FindChildOpt([], r.disabled, EmptyElement("disabled"), name);
    assert [] + c0 == c0;
    FindChildOne(c0, TextElement("ipprotocol", proto.0), name);
    FindChildOpt(c1, proto.1 != "any", TextElement("protocol", proto.1), name);
    FindChildOpt(c2, r.description != "", CDataElement("descr", r.description), name);
    FindChildOne(c3, TextElement("interface", r.interface), name);
  }

  /** How a NAT rule reads back from its `<rule>` element. */
  function NatRuleImage(r: NatRule): NatRule {
    var proto := SplitProtocol(r.protocol);
    var src := EndpointImage(r.sourcePort, r.sourceAddr, r.sourceType, r.sourceInversed);
    var dst := EndpointImage(r.destinationPort, r.destinationAddr, r.destinationType, r.destinationInversed);
    r.(protocol := proto.0 + "/" + proto.1,
       sourcePort := PortOf(src), sourceAddr := AddrOf(src), sourceType := src.kind,
       destinationPort := PortOf(dst), destinationAddr := AddrOf(dst), destinationType := dst.kind,
       table := "", chain := "", family := "")
  }

  /** Reading back the `<rule>` written for a NAT rule, at its own position,
      gives `NatRuleImage(r)`. */
  lemma NatRuleRoundTrip(r: NatRule)
    requires IsU32(r.redirectPort) && IsU32(r.order)
    ensures ParseNatRule(NatRuleElement(r), r.order) == NatRuleImage(r)
  {
    NatRuleReadsFlags(r);
    NatRuleReadsNames(r);
    NatRuleReadsRedirect(r);
    NatRuleReadsEndpoints(r);
  }

  lemma NatRuleReadsFlags(r: NatRule)
    ensures var e := NatRuleElement(r);
      var proto := SplitProtocol(r.protocol);
      (HasChild(e, "disabled") <==> r.disabled) && ProtocolOf(e) == proto.0 + "/" + proto.1
  {
    NatRuleReadsDisabled(r);
    NatRuleReadsProtocol(r);
  }

  lemma NatRuleReadsDisabled(r: NatRule)
    ensures HasChild(NatRuleElement(r), "disabled") <==> r.disabled
  {
    NatRuleLookups(r, "disabled");
  }

  lemma NatRuleReadsProtocol(r: NatRule)
    ensures var proto := SplitProtocol(r.protocol);
      ProtocolOf(NatRuleElement(r)) == proto.0 + "/" + proto.1
  {
    var proto := SplitProtocol(r.protocol);
    NatRuleLookups(r, "ipprotocol");
    NatRuleLookups(r, "protocol");
    TextOfTextElement("ipprotocol", proto.0);
    TextOfTextElement("protocol", proto.1);
  }

  lemma NatRuleReadsNames(r: NatRule)
    ensures var e := NatRuleElement(r);
      TextOr(e, "descr", "") == r.description && TextOr(e, "interface", "none") == r.interface
      && TextOr(e, "associated-rule-id", "") == r.associatedRuleId
  {
    NatRuleLookups(r, "descr");
    NatRuleLookups(r, "interface");
    NatRuleLookups(r, "associated-rule-id");
    TextOfCDataElement("descr", r.description);
    TextOfTextElement("interface", r.interface);
    TextOfTextElement("associated-rule-id", r.associatedRuleId);
  }

  lemma NatRuleReadsRedirect(r: NatRule)
    requires IsU32(r.redirectPort)
    ensures var e := NatRuleElement(r);
      TextOr(e, "target", "none") == r.redirectIp && U32Or0(e, "local-port") == r.redirectPort
  {
    NatRuleLookups(r, "target");
    NatRuleLookups(r, "local-port");
    TextOfTextElement("target", r.redirectIp);
    TextOfTextElement("local-port", NatToString(r.redirectPort));
    ParseU32OfNatToString(r.redirectPort);
  }

  lemma NatRuleReadsEndpoints(r: NatRule)
    ensures var e := NatRuleElement(r);
      ParseEndpoint(XmlTree, GetChild(e, "source"))
        == EndpointImage(r.sourcePort, r.sourceAddr, r.sourceType, r.sourceInversed)
      && ParseEndpoint(XmlTree, GetChild(e, "destination"))
        == EndpointImage(r.destinationPort, r.destinationAddr, r.destinationType, r.destinationInversed)
  {
    NatRuleLookups(r, "source");
    NatRuleLookups(r, "destination");
    EndpointRoundTrip(XmlTree, "source", AddrValue(r.sourceAddr), PortValue(r.sourcePort), r.sourceType, r.sourceInversed);
    EndpointRoundTrip(XmlTree, "destination", AddrValue(r.destinationAddr), PortValue(r.destinationPort), r.destinationType, r.destinationInversed);
  }

  predicate NatRuleShaped(r: NatRule) {
    '/' in r.protocol
    && EndpointShaped(r.sourcePort, r.sourceAddr, r.sourceType)
    && EndpointShaped(r.destinationPort, r.destinationAddr, r.destinationType)
    && r.table == "" && r.chain == "" && r.family == ""
  }

  /** A NAT rule reads back unchanged exactly when it is shaped. */
  lemma NatRuleImageFixed(r: NatRule)
    ensures NatRuleImage(r) == r <==> NatRuleShaped(r)
  {
    var proto := SplitProtocol(r.protocol);
    if '/' !in r.protocol {
      assert |proto.0 + "/" + proto.1| > |r.protocol|;
    }
  }
}
