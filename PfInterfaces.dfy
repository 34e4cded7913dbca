/** The agent's pfSense interfaces parser (`PfSenseInterfacesParser`). Each
    element under `<interfaces>` is one interface, named by its tag; its
    addresses come from the operating system's view of the device when that
    view has any, and from the configuration's `<ipaddr>` and `<ipaddrv6>`
    otherwise. The operating system's view is a parameter. */
module PfInterfaces {
  import opened Common
  import opened Xml

  /** An address as the operating system reports it: its text form and
      whether it is IPv4. */
  datatype IpAddr = IpAddr(text: string, isV4: bool)

  /** One device as the operating system sees it. */
  datatype InterfaceSnapshot = InterfaceSnapshot(name: string, ipAddresses: seq<IpAddr>)

  datatype IpAddress = IpAddress(address: string, version: int)

  datatype NetworkInterface = NetworkInterface(name: string, device: string, addresses: seq<IpAddress>)

  /** The first snapshot of device `device`. */
  function FindSnapshot(os: seq<InterfaceSnapshot>, device: string): (r: Option<InterfaceSnapshot>)
    ensures r.None? <==> forall k :: 0 <= k < |os| ==> os[k].name != device
    ensures r.Some? ==> r.value.name == device && r.value in os
  {
    if os == [] then None
    else if os[0].name == device then Some(os[0])
    else FindSnapshot(os[1..], device)
  }

  function VersionOf(a: IpAddr): int {
    if a.isV4 then 4 else 6
  }

  /** The addresses of a snapshot, each versioned by its family. */
  function SnapshotAddresses(ips: seq<IpAddr>): (r: seq<IpAddress>)
    ensures |r| == |ips|
    ensures forall k :: 0 <= k < |r| ==> r[k] == IpAddress(ips[k].text, VersionOf(ips[k]))
  {
    seq(|ips|, k requires 0 <= k < |ips| => IpAddress(ips[k].text, VersionOf(ips[k])))
  }

  /** The configured addresses: `<ipaddr>` as version 4, then `<ipaddrv6>`
      as version 6, each only when it has text. */
  function ConfigAddresses(e: Element): seq<IpAddress> {
    (if ChildText(e, "ipaddr").Some? then [IpAddress(ChildText(e, "ipaddr").value, 4)] else [])
    + (if ChildText(e, "ipaddrv6").Some? then [IpAddress(ChildText(e, "ipaddrv6").value, 6)] else [])
  }

  function Device(e: Element): string {
    ChildText(e, "if").GetOr("none")
  }

  /** What the parser makes of one interface element: it is named by its
      tag, its device is the `<if>` text or "none", and every address is
      versioned 4 or 6. When the operating system reports addresses for the
      device they are the interface's addresses, in its order; otherwise the
      configured IPv4 address comes first and the IPv6 one last, each when it
      has text. */
  function InterfaceOf(e: Element, os: seq<InterfaceSnapshot>): (r: NetworkInterface)
    ensures r.name == e.name
    ensures ChildText(e, "if").Some? ==> r.device == ChildText(e, "if").value
    ensures ChildText(e, "if").None? ==> r.device == "none"
    ensures forall k :: 0 <= k < |r.addresses| ==> r.addresses[k].version == 4 || r.addresses[k].version == 6
    ensures var s := FindSnapshot(os, r.device);
      s.Some? && s.value.ipAddresses != [] ==>
        |r.addresses| == |s.value.ipAddresses|
        && forall k :: 0 <= k < |r.addresses| ==>
          r.addresses[k].address == s.value.ipAddresses[k].text
          && (r.addresses[k].version == 4 <==> s.value.ipAddresses[k].isV4)
    ensures var s := FindSnapshot(os, r.device);
      s.None? || s.value.ipAddresses == [] ==>
        |r.addresses| <= 2
        && (r.addresses == [] <==> ChildText(e, "ipaddr").None? && ChildText(e, "ipaddrv6").None?)
        && (ChildText(e, "ipaddr").Some? ==> r.addresses[0] == IpAddress(ChildText(e, "ipaddr").value, 4))
        && (ChildText(e, "ipaddrv6").Some? ==>
              r.addresses[|r.addresses| - 1] == IpAddress(ChildText(e, "ipaddrv6").value, 6))
  {
    var snapshot := FindSnapshot(os, Device(e));
    var fromOs := if snapshot.Some? then SnapshotAddresses(snapshot.value.ipAddresses) else [];
    NetworkInterface(e.name, Device(e), if fromOs != [] then fromOs else ConfigAddresses(e))
  }

  /** The body of the loop for one interface: the operating system's
      addresses replace the configured ones when there are any. */
  method ParseInterface(e: Element, os: seq<InterfaceSnapshot>) returns (r: NetworkInterface)
    ensures r == InterfaceOf(e, os)
  {
    var device := ChildText(e, "if").GetOr("none");
    var addresses: seq<IpAddress> := [];
    var snapshot := FindSnapshot(os, device);
    if snapshot.Some? {
      addresses := SnapshotAddresses(snapshot.value.ipAddresses);
    }
    if addresses == [] {
      var ipv4 := ChildText(e, "ipaddr");
      if ipv4.Some? {
        addresses := addresses + [IpAddress(ipv4.value, 4)];
      }
      var ipv6 := ChildText(e, "ipaddrv6");
      if ipv6.Some? {
        addresses := addresses + [IpAddress(ipv6.value, 6)];
      }
    }
    r := NetworkInterface(e.name, device, addresses);
  }

  /** `PfSenseInterfacesParser::parse`: one interface per element child of
      `<interfaces>`, in document order; none without `<interfaces>`. */
  method Parse(document: Element, os: seq<InterfaceSnapshot>) returns (interfaces: seq<NetworkInterface>)
    ensures GetChild(document, "interfaces").None? ==> interfaces == []
    ensures GetChild(document, "interfaces").Some? ==>
      var elems := ChildElements(GetChild(document, "interfaces").value.children);
      |interfaces| == |elems| && forall k :: 0 <= k < |elems| ==> interfaces[k] == InterfaceOf(elems[k], os)
  {
    interfaces := [];
    var node := GetChild(document, "interfaces");
    if node.Some? {
      var children := node.value.children;
      var i := 0;
      while i < |children|
        invariant 0 <= i <= |children|
        invariant |interfaces| == |ChildElements(children[..i])|
        invariant forall k :: 0 <= k < |interfaces| ==> interfaces[k] == InterfaceOf(ChildElements(children[..i])[k], os)
      {
        ChildElementsNext(children, i);
        if children[i].ElementNode? {
          var iface := ParseInterface(children[i].elem, os);
          interfaces := interfaces + [iface];
        }
        i := i + 1;
      }
      assert children[..i] == children;
    }
  }
}
