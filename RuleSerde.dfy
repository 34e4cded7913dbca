/** The flattened serde form of `FilterRule` and `NatRule`: every field of
    the rule becomes one named field of a flat record, a present port adds a
    value and an operator field, a present address adds a value, an operator
    and a version field, and an absent port or address adds nothing. Reading
    a record back goes through a raw record whose group fields are optional.
    The record is modelled as a map from field names to self-describing
    values, as a JSON object holds them. */
module RuleSerde {
  import opened Common
  import opened Models

  datatype Side = Source | Destination

  /** The serde field names; `KeyName` spells them as the wire does. */
  datatype Key =
    | Disabled | Policy | Protocol
    | Inversed(side: Side) | PortValue(side: Side) | PortOperator(side: Side)
    | IpValue(side: Side) | IpOperator(side: Side) | IpVersion(side: Side)
    | EndpointType(side: Side)
    | Description | Interface | Id | RedirectIp | RedirectPort | Order | AssociatedRuleId
    | Table | Chain | Family

  function SideName(side: Side): string {
    match side
    case Source => "source"
    case Destination => "destination"
  }

  function KeyName(k: Key): string {
    match k
    case Disabled => "disabled"
    case Policy => "policy"
    case Protocol => "protocol"
    case Inversed(s) => SideName(s) + "_inversed"
    case PortValue(s) => SideName(s) + "_port_value"
    case PortOperator(s) => SideName(s) + "_port_operator"
    case IpValue(s) => SideName(s) + "_ip_value"
    case IpOperator(s) => SideName(s) + "_ip_operator"
    case IpVersion(s) => SideName(s) + "_ip_version"
    case EndpointType(s) => SideName(s) + "_type"
    case Description => "description"
    case Interface => "interface"
    case Id => "id"
    case RedirectIp => "redirect_ip"
    case RedirectPort => "redirect_port"
    case Order => "order"
    case AssociatedRuleId => "associated_rule_id"
    case Table => "table"
    case Chain => "chain"
    case Family => "family"
  }

  /** A self-describing value: a boolean, a string, an integer or null. */
  datatype Value = VBool(b: bool) | VStr(s: string) | VInt(i: int) | VNull

  /** A record: the value under each field name, or nothing when the field
      is not there. */
  type Record = Key -> Option<Value>

  /** The fields one endpoint contributes to a rule. */
  datatype EndpointFields = EndpointFields(inversed: bool, port: Option<PortInfo>, addr: Option<AddrInfo>, kind: string)

  /** The fields both rule kinds carry, under the same names. */
  datatype CommonPart = CommonPart(
    disabled: bool, protocol: string, source: EndpointFields, destination: EndpointFields,
    description: string, interface: string, order: nat, associatedRuleId: string,
    table: string, chain: string, family: string)

  function Endpoint(c: CommonPart, side: Side): EndpointFields {
    match side
    case Source => c.source
    case Destination => c.destination
  }

  function FilterRuleCommon(r: FilterRule): CommonPart {
    CommonPart(r.disabled, r.protocol,
      EndpointFields(r.sourceInversed, r.sourcePort, r.sourceAddr, r.sourceType),
      EndpointFields(r.destinationInversed, r.destinationPort, r.destinationAddr, r.destinationType),
      r.description, r.interface, r.order, r.associatedRuleId, r.table, r.chain, r.family)
  }

  function NatRuleCommon(r: NatRule): CommonPart {
    CommonPart(r.disabled, r.protocol,
      EndpointFields(r.sourceInversed, r.sourcePort, r.sourceAddr, r.sourceType),
      EndpointFields(r.destinationInversed, r.destinationPort, r.destinationAddr, r.destinationType),
      r.description, r.interface, r.order, r.associatedRuleId, r.table, r.chain, r.family)
  }

  /** The bounds the wire types put on the common part. */
  predicate ValidCommon(c: CommonPart) {
    IsU32(c.order) && ValidAddr(c.source.addr) && ValidAddr(c.destination.addr)
  }

  // ---------------------------------------------------------------- writing

  /** A key that belongs to one endpoint. */
  predicate EndpointKey(k: Key) {
    k.Inversed? || k.PortValue? || k.PortOperator? || k.IpValue? || k.IpOperator? || k.IpVersion? || k.EndpointType?
  }

  /** What one endpoint writes under `k`: the inversion and the type always,
      the port and the address group only when present. */
  function EndpointField(e: EndpointFields, k: Key): Option<Value>
    requires EndpointKey(k)
  {
    match k
    case Inversed(_) => Some(VBool(e.inversed))
    case EndpointType(_) => Some(VStr(e.kind))
    case PortValue(_) => if e.port.Some? then Some(VStr(e.port.value.value)) else None
    case PortOperator(_) => if e.port.Some? then Some(VStr(e.port.value.operator)) else None
    case IpValue(_) => if e.addr.Some? then Some(VStr(e.addr.value.value)) else None
    case IpOperator(_) => if e.addr.Some? then Some(VStr(e.addr.value.operator)) else None
    case IpVersion(_) => if e.addr.Some? then Some(VInt(e.addr.value.version)) else None
  }

  /** What the common part writes under `k`, if anything. */
  function CommonField(c: CommonPart, k: Key): Option<Value> {
    if EndpointKey(k) then EndpointField(Endpoint(c, k.side), k)
    else match k
      case Disabled => Some(VBool(c.disabled))
      case Protocol => Some(VStr(c.protocol))
      case Description => Some(VStr(c.description))
      case Interface => Some(VStr(c.interface))
      case Order => Some(VInt(c.order))
      case AssociatedRuleId => Some(VStr(c.associatedRuleId))
      case Table => Some(VStr(c.table))
      case Chain => Some(VStr(c.chain))
      case Family => Some(VStr(c.family))
      case _ => None
  }

  /** `impl Serialize for FilterRule`: every field under its own name, with
      a port or address group only when it is present, and no NAT-only
      field. */
  function SerializeFilterRule(r: FilterRule): (m: Record)
    ensures m(RedirectIp).None? && m(RedirectPort).None?
  {
    k =>
      if k == Policy then Some(VStr(r.policy))
      else if k == Id then Some(VInt(r.id))
      else CommonField(FilterRuleCommon(r), k)
  }

  /** `impl Serialize for NatRule`: as for filter rules, with the redirect
      address and port in place of the policy and the id. */
  function SerializeNatRule(r: NatRule): (m: Record)
    ensures m(Policy).None? && m(Id).None?
  {
    k =>
      if k == RedirectIp then Some(VStr(r.redirectIp))
      else if k == RedirectPort then Some(VInt(r.redirectPort))
      else CommonField(NatRuleCommon(r), k)
  }

  // ---------------------------------------------------------------- reading

  /** A field that is there and not null. */
  predicate Given(m: Record, k: Key) {
    m(k).Some? && m(k).value != VNull
  }

  predicate BoolField(m: Record, k: Key) { m(k).Some? && m(k).value.VBool? }
  predicate StrField(m: Record, k: Key) { m(k).Some? && m(k).value.VStr? }
  predicate U32Field(m: Record, k: Key) { m(k).Some? && m(k).value.VInt? && IsU32(m(k).value.i) }
  /** An `Option<String>` field: missing, null or a string. */
  predicate OptStrField(m: Record, k: Key) { !Given(m, k) || m(k).value.VStr? }
  /** An `Option<i32>` field: missing, null or an integer within i32. */
  predicate OptI32Field(m: Record, k: Key) { !Given(m, k) || (m(k).value.VInt? && IsI32(m(k).value.i)) }

  function ReadBool(m: Record, k: Key): Result<bool> {
    if BoolField(m, k) then Ok(m(k).value.b) else Err("invalid type or missing field")
  }

  function ReadStr(m: Record, k: Key): Result<string> {
    if StrField(m, k) then Ok(m(k).value.s) else Err("invalid type or missing field")
  }

  function ReadU32(m: Record, k: Key): Result<nat> {
    if U32Field(m, k) then Ok(m(k).value.i as nat) else Err("invalid type, invalid value or missing field")
  }

  function ReadOptStr(m: Record, k: Key): Result<Option<string>> {
    if !Given(m, k) then Ok(None)
    else if m(k).value.VStr? then Ok(Some(m(k).value.s))
    else Err("invalid type")
  }

  function ReadOptI32(m: Record, k: Key): Result<Option<int>> {
    if !Given(m, k) then Ok(None)
    else if m(k).value.VInt? && IsI32(m(k).value.i) then Ok(Some(m(k).value.i))
    else Err("invalid type or invalid value")
  }

  /** The endpoint's fields are all of the type the raw record declares. */
  predicate EndpointTyped(m: Record, side: Side) {
    BoolField(m, Inversed(side)) && StrField(m, EndpointType(side))
    && OptStrField(m, PortValue(side)) && OptStrField(m, PortOperator(side))
    && OptStrField(m, IpValue(side)) && OptStrField(m, IpOperator(side)) && OptI32Field(m, IpVersion(side))
  }

  /** One endpoint of the raw record: a port only when both its value and its
      operator are given, an address only when its value, operator and
      version all are. */
  function ReadEndpoint(m: Record, side: Side): (r: Result<EndpointFields>)
    ensures r.Ok? <==> EndpointTyped(m, side)
    ensures r.Ok? ==> (r.value.port.Some? <==> Given(m, PortValue(side)) && Given(m, PortOperator(side)))
    ensures r.Ok? ==> (r.value.addr.Some? <==> Given(m, IpValue(side)) && Given(m, IpOperator(side)) && Given(m, IpVersion(side)))
    ensures r.Ok? ==> ValidAddr(r.value.addr)
  {
    var inversed := ReadBool(m, Inversed(side));
    var kind := ReadStr(m, EndpointType(side));
    var portValue := ReadOptStr(m, PortValue(side));
    var portOperator := ReadOptStr(m, PortOperator(side));
    var ipValue := ReadOptStr(m, IpValue(side));
    var ipOperator := ReadOptStr(m, IpOperator(side));
    var ipVersion := ReadOptI32(m, IpVersion(side));
    if inversed.Err? || kind.Err? || portValue.Err? || portOperator.Err?
      || ipValue.Err? || ipOperator.Err? || ipVersion.Err?
    then Err("invalid endpoint")
    else
      var port := if portValue.value.Some? && portOperator.value.Some?
        then Some(PortInfo(portValue.value.value, portOperator.value.value)) else None;
      var addr := if ipValue.value.Some? && ipOperator.value.Some? && ipVersion.value.Some?
        then Some(AddrInfo(ipValue.value.value, ipOperator.value.value, ipVersion.value.value)) else None;
      Ok(EndpointFields(inversed.value, port, addr, kind.value))
  }

  /** The fields both raw records share have their declared types. */
  predicate CommonTyped(m: Record) {
    BoolField(m, Disabled) && StrField(m, Protocol) && StrField(m, Description) && StrField(m, Interface)
    && U32Field(m, Order) && StrField(m, AssociatedRuleId)
    && OptStrField(m, Table) && OptStrField(m, Chain) && OptStrField(m, Family)
    && EndpointTyped(m, Source) && EndpointTyped(m, Destination)
  }

  /** The part of the raw record both rule kinds share; a missing table,
      chain or family reads as "". */
  function ReadCommon(m: Record): (r: Result<CommonPart>)
    ensures r.Ok? <==> CommonTyped(m)
    ensures r.Ok? ==> ValidCommon(r.value)
    ensures r.Ok? && !Given(m, Table) ==> r.value.table == ""
    ensures r.Ok? && !Given(m, Chain) ==> r.value.chain == ""
    ensures r.Ok? && !Given(m, Family) ==> r.value.family == ""
  {
    var disabled := ReadBool(m, Disabled);
    var protocol := ReadStr(m, Protocol);
    var source := ReadEndpoint(m, Source);
    var destination := ReadEndpoint(m, Destination);
    var description := ReadStr(m, Description);
    var interface := ReadStr(m, Interface);
    var order := ReadU32(m, Order);
    var associatedRuleId := ReadStr(m, AssociatedRuleId);
    var table := ReadOptStr(m, Table);
    var chain := ReadOptStr(m, Chain);
    var family := ReadOptStr(m, Family);
    if disabled.Err? || protocol.Err? || source.Err? || destination.Err? || description.Err?
      || interface.Err? || order.Err? || associatedRuleId.Err? || table.Err? || chain.Err? || family.Err?
    then Err("invalid rule")
    else Ok(CommonPart(disabled.value, protocol.value, source.value, destination.value,
      description.value, interface.value, order.value, associatedRuleId.value,
      table.value.GetOr(""), chain.value.GetOr(""), family.value.GetOr("")))
  }

  predicate FilterRuleTyped(m: Record) {
    CommonTyped(m) && StrField(m, Policy) && U32Field(m, Id)
  }

  predicate NatRuleTyped(m: Record) {
    CommonTyped(m) && StrField(m, RedirectIp) && U32Field(m, RedirectPort)
  }

  function FilterRuleOf(c: CommonPart, policy: string, id: nat): FilterRule {
    FilterRule(
      disabled := c.disabled, policy := policy, protocol := c.protocol,
      sourceInversed := c.source.inversed, sourcePort := c.source.port,
      sourceAddr := c.source.addr, sourceType := c.source.kind,
      destinationInversed := c.destination.inversed, destinationPort := c.destination.port,
      destinationAddr := c.destination.addr, destinationType := c.destination.kind,
      description := c.description, interface := c.interface, id := id, order := c.order,
      associatedRuleId := c.associatedRuleId, table := c.table, chain := c.chain, family := c.family)
  }

  function NatRuleOf(c: CommonPart, redirectIp: string, redirectPort: nat): NatRule {
    NatRule(
      disabled := c.disabled, protocol := c.protocol,
      sourceInversed := c.source.inversed, sourcePort := c.source.port,
      sourceAddr := c.source.addr, sourceType := c.source.kind,
      destinationInversed := c.destination.inversed, destinationPort := c.destination.port,
      destinationAddr := c.destination.addr, destinationType := c.destination.kind,
      description := c.description, interface := c.interface,
      redirectIp := redirectIp, redirectPort := redirectPort, order := c.order,
      associatedRuleId := c.associatedRuleId, table := c.table, chain := c.chain, family := c.family)
  }

  /** `impl Deserialize for FilterRule`: succeeds exactly when every field
      has the type the raw record declares (missing or null optional fields
      included), and then gives a rule within the wire bounds. */
  function DeserializeFilterRule(m: Record): (r: Result<FilterRule>)
    ensures r.Ok? <==> FilterRuleTyped(m)
    ensures r.Ok? ==> ValidFilterRule(r.value)
  {
    var common := ReadCommon(m);
    var policy := ReadStr(m, Policy);
    var id := ReadU32(m, Id);
    if common.Err? || policy.Err? || id.Err? then Err("invalid filter rule")
    else Ok(FilterRuleOf(common.value, policy.value, id.value))
  }

  /** `impl Deserialize for NatRule`, with the same rules as for filter
      rules. */
  function DeserializeNatRule(m: Record): (r: Result<NatRule>)
    ensures r.Ok? <==> NatRuleTyped(m)
    ensures r.Ok? ==> ValidNatRule(r.value)
  {
    var common := ReadCommon(m);
    var redirectIp := ReadStr(m, RedirectIp);
    var redirectPort := ReadU32(m, RedirectPort);
    if common.Err? || redirectIp.Err? || redirectPort.Err? then Err("invalid nat rule")
    else Ok(NatRuleOf(common.value, redirectIp.value, redirectPort.value))
  }

  // ---------------------------------------------------------------- round trips

  /** `m` holds exactly what endpoint `e` writes under `side`'s keys. */
  ghost predicate HoldsEndpoint(m: Record, side: Side, e: EndpointFields) {
    forall k :: EndpointKey(k) && k.side == side ==> m(k) == EndpointField(e, k)
  }


  /** `m` holds what the common part writes. */
  ghost predicate HoldsCommon(m: Record, c: CommonPart) {
    HoldsEndpoint(m, Source, c.source) && HoldsEndpoint(m, Destination, c.destination) && HoldsScalars(m, c)
  }

  /** `m` holds the common fields outside the endpoints. */
  predicate HoldsScalars(m: Record, c: CommonPart) {
    m(Disabled) == Some(VBool(c.disabled)) && m(Protocol) == Some(VStr(c.protocol))
    && m(Description) == Some(VStr(c.description)) && m(Interface) == Some(VStr(c.interface))
    && m(Order) == Some(VInt(c.order)) && m(AssociatedRuleId) == Some(VStr(c.associatedRuleId))
    && m(Table) == Some(VStr(c.table)) && m(Chain) == Some(VStr(c.chain)) && m(Family) == Some(VStr(c.family))
  }

  /** An endpoint's fields, as written, read back as that endpoint, given an
      i32 version. */
  lemma EndpointReadBack(m: Record, side: Side, e: EndpointFields)
    requires ValidAddr(e.addr)
    requires HoldsEndpoint(m, side, e)
    ensures ReadEndpoint(m, side) == Ok(e)
  {
    EndpointHeld(m, side, e);
  }

  /** The seven fields an endpoint writes, one by one. */
  lemma EndpointHeld(m: Record, side: Side, e: EndpointFields)
    requires HoldsEndpoint(m, side, e)
    ensures m(Inversed(side)) == Some(VBool(e.inversed)) && m(EndpointType(side)) == Some(VStr(e.kind))
    ensures m(PortValue(side)) == EndpointField(e, PortValue(side))
    ensures m(PortOperator(side)) == EndpointField(e, PortOperator(side))
    ensures m(IpValue(side)) == EndpointField(e, IpValue(side))
    ensures m(IpOperator(side)) == EndpointField(e, IpOperator(side))
    ensures m(IpVersion(side)) == EndpointField(e, IpVersion(side))
  {
    assert EndpointKey(Inversed(side)) && EndpointKey(EndpointType(side));
    assert EndpointKey(PortValue(side)) && EndpointKey(PortOperator(side));
    assert EndpointKey(IpValue(side)) && EndpointKey(IpOperator(side)) && EndpointKey(IpVersion(side));
  }


  /** The common fields, as written, read back as they were. */
  lemma CommonReadBack(m: Record, c: CommonPart)
    requires ValidCommon(c)
    requires HoldsCommon(m, c)
    ensures ReadCommon(m) == Ok(c)
  {
    EndpointReadBack(m, Source, c.source);
    EndpointReadBack(m, Destination, c.destination);
    ScalarsReadBack(m, c);
  }

  lemma ScalarsReadBack(m: Record, c: CommonPart)
    requires IsU32(c.order)
    requires HoldsScalars(m, c)
    ensures ReadBool(m, Disabled) == Ok(c.disabled)
    ensures ReadStr(m, Protocol) == Ok(c.protocol) && ReadStr(m, Description) == Ok(c.description)
    ensures ReadStr(m, Interface) == Ok(c.interface) && ReadStr(m, AssociatedRuleId) == Ok(c.associatedRuleId)
    ensures ReadU32(m, Order) == Ok(c.order)
    ensures ReadOptStr(m, Table) == Ok(Some(c.table)) && ReadOptStr(m, Chain) == Ok(Some(c.chain))
    ensures ReadOptStr(m, Family) == Ok(Some(c.family))
  {
  }

  /** A serialized filter rule holds what its common part writes. */
  lemma SerializedFilterRuleHolds(r: FilterRule)
    ensures HoldsCommon(SerializeFilterRule(r), FilterRuleCommon(r))
  {
    SerializedFilterRuleScalars(r);
    SerializedFilterRuleEndpoint(r, Source);
    SerializedFilterRuleEndpoint(r, Destination);
  }

  lemma SerializedFilterRuleScalars(r: FilterRule)
    ensures HoldsScalars(SerializeFilterRule(r), FilterRuleCommon(r))
  {
  }

  lemma SerializedFilterRuleEndpoint(r: FilterRule, side: Side)
    ensures HoldsEndpoint(SerializeFilterRule(r), side, Endpoint(FilterRuleCommon(r), side))
  {
    var m := SerializeFilterRule(r);
    var e := Endpoint(FilterRuleCommon(r), side);
    forall k | EndpointKey(k) && k.side == side
      ensures m(k) == EndpointField(e, k)
    {
    }
  }


  lemma SerializedNatRuleHolds(r: NatRule)
    ensures HoldsCommon(SerializeNatRule(r), NatRuleCommon(r))
  {
    SerializedNatRuleScalars(r);
    SerializedNatRuleEndpoint(r, Source);
    SerializedNatRuleEndpoint(r, Destination);
  }

  lemma SerializedNatRuleScalars(r: NatRule)
    ensures HoldsScalars(SerializeNatRule(r), NatRuleCommon(r))
  {
  }

  lemma SerializedNatRuleEndpoint(r: NatRule, side: Side)
    ensures HoldsEndpoint(SerializeNatRule(r), side, Endpoint(NatRuleCommon(r), side))
  {
    var m := SerializeNatRule(r);
    var e := Endpoint(NatRuleCommon(r), side);
    forall k | EndpointKey(k) && k.side == side
      ensures m(k) == EndpointField(e, k)
    {
    }
  }


  /** Where an endpoint's fields are held, its port group is there exactly
      when it has a port, and its address group exactly when it has an
      address. */
  lemma EndpointGroups(m: Record, side: Side, e: EndpointFields)
    requires HoldsEndpoint(m, side, e)
    ensures (m(PortValue(side)).Some? <==> e.port.Some?) && (m(PortOperator(side)).Some? <==> e.port.Some?)
      && (m(IpValue(side)).Some? <==> e.addr.Some?) && (m(IpOperator(side)).Some? <==> e.addr.Some?)
      && (m(IpVersion(side)).Some? <==> e.addr.Some?)
  {
    EndpointHeld(m, side, e);
  }

  /** A serialized filter rule has a port or address group on a side exactly
      when the rule has that port or address. */
  lemma FilterRuleGroups(r: FilterRule, side: Side)
    ensures var m := SerializeFilterRule(r); var e := Endpoint(FilterRuleCommon(r), side);
      (m(PortValue(side)).Some? <==> e.port.Some?) && (m(PortOperator(side)).Some? <==> e.port.Some?)
      && (m(IpValue(side)).Some? <==> e.addr.Some?) && (m(IpOperator(side)).Some? <==> e.addr.Some?)
      && (m(IpVersion(side)).Some? <==> e.addr.Some?)
  {
    SerializedFilterRuleEndpoint(r, side);
    EndpointGroups(SerializeFilterRule(r), side, Endpoint(FilterRuleCommon(r), side));
  }

  lemma NatRuleGroups(r: NatRule, side: Side)
    ensures var m := SerializeNatRule(r); var e := Endpoint(NatRuleCommon(r), side);
      (m(PortValue(side)).Some? <==> e.port.Some?) && (m(PortOperator(side)).Some? <==> e.port.Some?)
      && (m(IpValue(side)).Some? <==> e.addr.Some?) && (m(IpOperator(side)).Some? <==> e.addr.Some?)
      && (m(IpVersion(side)).Some? <==> e.addr.Some?)
  {
    SerializedNatRuleEndpoint(r, side);
    EndpointGroups(SerializeNatRule(r), side, Endpoint(NatRuleCommon(r), side));
  }

  /** `Deserialize(Serialize(r)) == r` for every filter rule whose integers
      fit their wire types. */
  lemma FilterRuleRoundTrip(r: FilterRule)
    requires ValidFilterRule(r)
    ensures DeserializeFilterRule(SerializeFilterRule(r)) == Ok(r)
  {
    var m := SerializeFilterRule(r);
    SerializedFilterRuleHolds(r);
    FilterRuleReadBack(m, r);
  }

  /** Any record holding what `r` writes reads back as `r`. */
  lemma FilterRuleReadBack(m: Record, r: FilterRule)
    requires ValidFilterRule(r)
    requires HoldsCommon(m, FilterRuleCommon(r)) && m(Policy) == Some(VStr(r.policy)) && m(Id) == Some(VInt(r.id))
    ensures DeserializeFilterRule(m) == Ok(r)
  {
    CommonReadBack(m, FilterRuleCommon(r));
  }


  /** `Deserialize(Serialize(r)) == r` for every NAT rule whose integers fit
      their wire types. */
  lemma NatRuleRoundTrip(r: NatRule)
    requires ValidNatRule(r)
    ensures DeserializeNatRule(SerializeNatRule(r)) == Ok(r)
  {
    var m := SerializeNatRule(r);
    SerializedNatRuleHolds(r);
    NatRuleReadBack(m, r);
  }

  /** Any record holding what `r` writes reads back as `r`. */
  lemma NatRuleReadBack(m: Record, r: NatRule)
    requires ValidNatRule(r)
    requires HoldsCommon(m, NatRuleCommon(r)) && m(RedirectIp) == Some(VStr(r.redirectIp)) && m(RedirectPort) == Some(VInt(r.redirectPort))
    ensures DeserializeNatRule(m) == Ok(r)
  {
    CommonReadBack(m, NatRuleCommon(r));
  }

}
