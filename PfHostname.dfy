/** The agent's pfSense hostname parser (`PfSenseHostnameParser`): the
    fully qualified name from `<system>`'s `<hostname>` and `<domain>`. */
module PfHostname {
  import opened Common
  import opened Xml

  /** `PfSenseHostnameParser::parse`: "hostname.domain" when both are there,
      the one that is there when only one is, and "none" when neither is or
      when there is no `<system>`. */
  function ParseHostname(document: Element): (r: string)
    ensures GetChild(document, "system").None? ==> r == "none"
    ensures GetChild(document, "system").Some? ==>
      var sys := GetChild(document, "system").value;
      var h := ChildText(sys, "hostname");
      var d := ChildText(sys, "domain");
      (h.Some? && d.Some? ==> r == h.value + "." + d.value)
      && (h.Some? && d.None? ==> r == h.value)
      && (h.None? && d.Some? ==> r == d.value)
      && (h.None? && d.None? ==> r == "none")
  {
    match GetChild(document, "system")
    case None => "none"
    case Some(sys) =>
      match (ChildText(sys, "hostname"), ChildText(sys, "domain"))
      case (Some(h), Some(d)) => h + "." + d
      case (Some(h), None) => h
      case (None, Some(d)) => d
      case (None, None) => "none"
  }

  /** A document whose `<system>` holds `<hostname>` and `<domain>`. */
  function SystemDocument(hostname: string, domain: string): Element {
    Element("pfsense", [ElementNode(Element("system", [TextElement("hostname", hostname), TextElement("domain", domain)]))])
  }

  /** A host name without a dot is recovered from the parsed name: it is the
      part before the first '.', and the domain is the rest. */
  lemma HostnameSplits(hostname: string, domain: string)
    requires hostname != [] && domain != [] && '.' !in hostname
    ensures var r := ParseHostname(SystemDocument(hostname, domain));
      IndexOf(r, '.') == Some(|hostname|) && r[..|hostname|] == hostname && r[|hostname| + 1..] == domain
  {
    var sys := Element("system", [TextElement("hostname", hostname), TextElement("domain", domain)]);
    FindChildSingle(ElementNode(sys), "system");
    assert GetChild(SystemDocument(hostname, domain), "system") == Some(sys);
    assert FindChild(sys.children, "hostname") == Some(Element("hostname", [Text(hostname)]));
    assert sys.children[1..] == [TextElement("domain", domain)];
    assert FindChild(sys.children, "domain") == Some(Element("domain", [Text(domain)]));
    TextOfTextElement("hostname", hostname);
    TextOfTextElement("domain", domain);
    var r := hostname + "." + domain;
    IndexOfAfterPrefix(hostname, '.', domain);
    assert r[..|hostname|] == hostname;
    assert r[|hostname| + 1..] == domain;
  }
}
