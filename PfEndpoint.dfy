/** A pfSense rule endpoint (`<source>` or `<destination>`): an address or
    network, a port, and a `<not>` marker, with `<any>` standing for "every
    address and port". The agent reads it with xmltree and writes it back with
    `to_element`; the server reads it with roxmltree, whose `text` differs from
    xmltree's `get_text`, so the parser takes the text lookup as a parameter. */
module PfEndpoint {
  import opened Common
  import opened Xml

  /** The wildcard address and port. */
  const ANY: string := "*"

  /** Which library reads an element's text. */
  datatype TextApi = XmlTree | RoXml

  function TextOf(api: TextApi, e: Element): Option<string> {
    match api
    case XmlTree => GetText(e)
    case RoXml => FirstText(e)
  }

  /** The text of the first child called `name`, if there is one with text. */
  function ChildTextOf(api: TextApi, e: Element, name: string): Option<string> {
    match GetChild(e, name)
    case None => None
    case Some(c) => TextOf(api, c)
  }

  /** An endpoint as the parsers return it: (addr, port, type, inversed). */
  datatype Endpoint = Endpoint(addr: string, port: string, kind: string, inversed: bool)

  const DEFAULT_ENDPOINT: Endpoint := Endpoint(ANY, ANY, "address", false)

  function ParsePort(api: TextApi, e: Element): string {
    ChildTextOf(api, e, "port").GetOr(ANY)
  }

  function ParseAddr(api: TextApi, e: Element): string {
    if HasChild(e, "any") then ANY
    else if ChildTextOf(api, e, "address").Some? then ChildTextOf(api, e, "address").value
    else ChildTextOf(api, e, "network").GetOr(ANY)
  }

  function ParseAddrType(e: Element): string {
    if HasChild(e, "network") then "network" else "address"
  }

  /** `EndpointParser::parse`: the defaults when the endpoint element is
      missing; otherwise `<any>` forces the wildcard address, `<address>` is
      preferred over `<network>`, the type is "network" exactly when a
      `<network>` child exists and the endpoint is inversed exactly when a
      `<not>` child exists. */
  function ParseEndpoint(api: TextApi, e: Option<Element>): (r: Endpoint)
    ensures e.None? ==> r == DEFAULT_ENDPOINT
    ensures e.Some? ==> (r.kind == "network" <==> HasChild(e.value, "network"))
    ensures r.kind == "network" || r.kind == "address"
    ensures e.Some? ==> (r.inversed <==> HasChild(e.value, "not"))
    ensures e.Some? && HasChild(e.value, "any") ==> r.addr == ANY
    ensures e.Some? && !HasChild(e.value, "any") && ChildTextOf(api, e.value, "address").Some? ==>
      r.addr == ChildTextOf(api, e.value, "address").value
    ensures e.Some? && ChildTextOf(api, e.value, "port").Some? ==> r.port == ChildTextOf(api, e.value, "port").value
  {
    match e
    case None => DEFAULT_ENDPOINT
    case Some(el) => Endpoint(ParseAddr(api, el), ParsePort(api, el), ParseAddrType(el), HasChild(el, "not"))
  }

  /** The tag of the address child: `<network>` for type "network", `<address>`
      for anything else. */
  function AddrTag(kind: string): string {
    if kind == "network" then "network" else "address"
  }

  /** The children `to_element` writes, in order. */
  function EndpointChildren(addr: string, port: string, kind: string, inversed: bool): seq<Node> {
    NotPart(inversed) + ValuePart(addr, port, kind)
  }

  function NotPart(inversed: bool): seq<Node> {
    if inversed then [EmptyElement("not")] else []
  }

  function ValuePart(addr: string, port: string, kind: string): seq<Node> {
    if addr == ANY && port == ANY then [EmptyElement("any")]
    else AddrPart(addr, kind) + PortPart(port)
  }

  function AddrPart(addr: string, kind: string): seq<Node> {
    if addr != ANY then [TextElement(AddrTag(kind), addr)] else []
  }

  function PortPart(port: string): seq<Node> {
    if port != ANY then [TextElement("port", port)] else []
  }

  /** Where each child `ParseEndpoint` asks for sits in what `to_element`
      writes. */
  lemma EndpointLookups(addr: string, port: string, kind: string, inversed: bool, name: string)
    requires name in {"not", "any", "address", "network", "port"}
    ensures FindChild(EndpointChildren(addr, port, kind, inversed), name) ==
      if name == "not" then (if inversed then Some(Element("not", [])) else None)
      else if name == "any" then (if addr == ANY && port == ANY then Some(Element("any", [])) else None)
      else if name == "port" then (if port != ANY then Some(Element("port", [Text(port)])) else None)
      else if addr != ANY && AddrTag(kind) == name then Some(Element(name, [Text(addr)]))
      else None
  {
    FindChildAppend(NotPart(inversed), ValuePart(addr, port, kind), name);
    FindChildAppend(AddrPart(addr, kind), PortPart(port), name);
    if inversed { FindChildSingle(EmptyElement("not"), name); }
    if addr != ANY { FindChildSingle(TextElement(AddrTag(kind), addr), name); }
    if port != ANY { FindChildSingle(TextElement("port", port), name); }
    FindChildSingle(EmptyElement("any"), name);
  }

  function EndpointElement(tag: string, addr: string, port: string, kind: string, inversed: bool): Element {
    Element(tag, EndpointChildren(addr, port, kind, inversed))
  }

  /** `EndpointParser::to_element`: `<not>` comes first exactly when the
      endpoint is inversed, and a single `<any>` is written exactly when both
      the address and the port are wildcards. */
  method ToElement(tag: string, addr: string, port: string, kind: string, inversed: bool) returns (e: Element)
    ensures e == EndpointElement(tag, addr, port, kind, inversed)
    ensures inversed <==> e.children != [] && e.children[0] == EmptyElement("not")
    ensures HasChild(e, "any") <==> addr == ANY && port == ANY
  {
    var children: seq<Node> := [];
    if inversed {
      children := children + [EmptyElement("not")];
    }
    if addr == ANY && port == ANY {
      children := children + [EmptyElement("any")];
    } else {
      if addr != ANY {
        var name := if kind == "network" then "network" else "address";
        children := children + [TextElement(name, addr)];
      }
      if port != ANY {
        children := children + [TextElement("port", port)];
      }
    }
    e := Element(tag, children);
    EndpointShape(tag, addr, port, kind, inversed);
  }

  lemma EndpointShape(tag: string, addr: string, port: string, kind: string, inversed: bool)
    ensures var e := EndpointElement(tag, addr, port, kind, inversed);
      (inversed <==> e.children != [] && e.children[0] == EmptyElement("not"))
      && (HasChild(e, "any") <==> addr == ANY && port == ANY)
  {
    EndpointLookups(addr, port, kind, inversed, "any");
  }

  /** Reading back what `to_element` wrote gives the address, the port and the
      inversion unchanged; the type comes back as "network" exactly when it was
      "network" with a non-wildcard address, and as "address" otherwise. */
  lemma EndpointRoundTrip(api: TextApi, tag: string, addr: string, port: string, kind: string, inversed: bool)
    ensures ParseEndpoint(api, Some(EndpointElement(tag, addr, port, kind, inversed)))
      == Endpoint(addr, port, if addr != ANY && kind == "network" then "network" else "address", inversed)
  {
    var children := EndpointChildren(addr, port, kind, inversed);
    EndpointLookups(addr, port, kind, inversed, "not");
    EndpointLookups(addr, port, kind, inversed, "any");
    EndpointLookups(addr, port, kind, inversed, "address");
    EndpointLookups(addr, port, kind, inversed, "network");
    EndpointLookups(addr, port, kind, inversed, "port");
    TextOfTextElement(AddrTag(kind), addr);
    TextOfTextElement("port", port);
  }
}
