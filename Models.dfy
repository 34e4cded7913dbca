/** The firewall rule records shared by the agent and the server
    (`wallguard_models`): filter rules and NAT rules, each with an optional
    port and address per endpoint. Integers keep the width of the protobuf
    fields: `id`, `order` and `redirectPort` are u32 and an address `version`
    is i32; `ValidFilterRule` and `ValidNatRule` state those bounds. */
module Models {
  import opened Common

  datatype PortInfo = PortInfo(value: string, operator: string)

  datatype AddrInfo = AddrInfo(value: string, operator: string, version: int)

  datatype FilterRule = FilterRule(
    disabled: bool,
    policy: string,
    protocol: string,
    sourceInversed: bool,
    sourcePort: Option<PortInfo>,
    sourceAddr: Option<AddrInfo>,
    sourceType: string,
    destinationInversed: bool,
    destinationPort: Option<PortInfo>,
    destinationAddr: Option<AddrInfo>,
    destinationType: string,
    description: string,
    interface: string,
    id: nat,
    order: nat,
    associatedRuleId: string,
    table: string,
    chain: string,
    family: string)

  datatype NatRule = NatRule(
    disabled: bool,
    protocol: string,
    sourceInversed: bool,
    sourcePort: Option<PortInfo>,
    sourceAddr: Option<AddrInfo>,
    sourceType: string,
    destinationInversed: bool,
    destinationPort: Option<PortInfo>,
    destinationAddr: Option<AddrInfo>,
    destinationType: string,
    description: string,
    interface: string,
    redirectIp: string,
    redirectPort: nat,
    order: nat,
    associatedRuleId: string,
    table: string,
    chain: string,
    family: string)

  /** An alias: a named list of addresses, networks or ports, with the
      nftables family and table it belongs to (empty for pfSense aliases).
      The record's remaining fields keep their defaults in the parsers
      modelled here. */
  datatype Alias = Alias(kind: string, name: string, value: string, description: string, family: string, table: string)

  predicate ValidAddr(a: Option<AddrInfo>) {
    a.Some? ==> IsI32(a.value.version)
  }

  predicate ValidFilterRule(r: FilterRule) {
    IsU32(r.id) && IsU32(r.order) && ValidAddr(r.sourceAddr) && ValidAddr(r.destinationAddr)
  }

  predicate ValidNatRule(r: NatRule) {
    IsU32(r.redirectPort) && IsU32(r.order) && ValidAddr(r.sourceAddr) && ValidAddr(r.destinationAddr)
  }
}
