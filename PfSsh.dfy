/** The agent's pfSense SSH parser (`PfSenseSSHParser`): whether SSH is
    enabled under `<system><ssh>` and on which port. */
module PfSsh {
  import opened Common
  import opened Xml

  const DEFAULT_PORT: nat := 22

  datatype SshConfig = SshConfig(enabled: bool, port: nat)

  function SshNode(document: Element): Option<Element> {
    match GetChild(document, "system")
    case None => None
    case Some(sys) => GetChild(sys, "ssh")
  }

  /** `PfSenseSSHParser::parse`: disabled on port 22 without
      `<system><ssh>`; otherwise enabled exactly when `<ssh>` has an
      `<enable>` child, on the `<port>` number when its text parses as a u32
      and on port 22 when it is missing or does not parse. */
  function ParseSsh(document: Element): (r: SshConfig)
    ensures IsU32(r.port)
    ensures SshNode(document).None? ==> r == SshConfig(false, DEFAULT_PORT)
    ensures SshNode(document).Some? ==>
      var ssh := SshNode(document).value;
      (r.enabled <==> HasChild(ssh, "enable"))
      && (ChildText(ssh, "port").Some? && ParseU32(ChildText(ssh, "port").value).Some? ==>
            r.port == ParseU32(ChildText(ssh, "port").value).value)
      && (ChildText(ssh, "port").None? || ParseU32(ChildText(ssh, "port").value).None? ==> r.port == DEFAULT_PORT)
  {
    match SshNode(document)
    case None => SshConfig(false, DEFAULT_PORT)
    case Some(ssh) =>
      var port := match ChildText(ssh, "port")
        case None => None
        case Some(text) => ParseU32(text);
      SshConfig(HasChild(ssh, "enable"), port.GetOr(DEFAULT_PORT))
  }

  /** A configuration as pfSense writes it: `<system><ssh>` with `<enable>`
      when enabled and the port in decimal. */
  function SshDocument(enabled: bool, port: nat): Element {
    var children := (if enabled then [EmptyElement("enable")] else []) + [TextElement("port", NatToString(port))];
    Element("pfsense", [ElementNode(Element("system", [ElementNode(Element("ssh", children))]))])
  }

  /** Reading back a written configuration gives it unchanged. */
  lemma SshRoundTrip(enabled: bool, port: nat)
    requires IsU32(port)
    ensures ParseSsh(SshDocument(enabled, port)) == SshConfig(enabled, port)
  {
    var children := (if enabled then [EmptyElement("enable")] else []) + [TextElement("port", NatToString(port))];
    var ssh := Element("ssh", children);
    var sys := Element("system", [ElementNode(ssh)]);
    assert GetChild(SshDocument(enabled, port), "system") == Some(sys);
    assert GetChild(sys, "ssh") == Some(ssh);
    FindChildAppend(if enabled then [EmptyElement("enable")] else [], [TextElement("port", NatToString(port))], "port");
    FindChildAppend(if enabled then [EmptyElement("enable")] else [], [TextElement("port", NatToString(port))], "enable");
    FindChildSingle(TextElement("port", NatToString(port)), "port");
    FindChildSingle(TextElement("port", NatToString(port)), "enable");
    TextOfTextElement("port", NatToString(port));
    ParseU32OfNatToString(port);
  }
}
