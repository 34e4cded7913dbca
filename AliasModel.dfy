/** The server's alias explosion (`AliasModel::extract_ip_aliases` and
    `extract_port_aliases`): an alias value is a ','-separated list, and
    each entry becomes one address row or one port-range row for the alias
    being stored. Which explosion applies is decided by the stored alias's
    type. */
module AliasModel {
  import opened Common

  datatype IpAliasModel = IpAliasModel(aliasId: string, ip: string, prefix: int)

  datatype PortAliasModel = PortAliasModel(aliasId: string, lowerPort: int, upperPort: int)

  /** One entry of a "network" alias: the text before the first '/' is the
      address and the i32 after it is the prefix, or 0 when it is missing or
      does not parse. */
  function NetworkEntry(value: string, aliasId: string): (r: IpAliasModel)
    ensures r.aliasId == aliasId && '/' !in r.ip && IsI32(r.prefix)
    ensures '/' !in value ==> r.ip == value && r.prefix == 0
  {
    var split := Split(value, '/');
    IpAliasModel(aliasId, split[0], if |split| > 1 then ParseI32(split[1]).GetOr(0) else 0)
  }

  /** One entry of a "port" alias: "a:b" is the range a..b and "a" the single
      port a; a lower bound that does not parse is 0 and an upper bound that
      does not parse is the lower bound. */
  function PortEntry(value: string, aliasId: string): (r: PortAliasModel)
    ensures r.aliasId == aliasId && IsI32(r.lowerPort) && IsI32(r.upperPort)
    ensures ':' !in value ==> r.upperPort == r.lowerPort
    ensures ParseI32(Split(value, ':')[0]).None? ==> r.lowerPort == 0
  {
    var split := Split(value, ':');
    var lower := ParseI32(split[0]).GetOr(0);
    var upper := if |split| > 1 then ParseI32(split[1]).GetOr(lower) else lower;
    PortAliasModel(aliasId, lower, upper)
  }

  /** `extract_ip_aliases`: for type "host" one row per ','-separated entry
      with prefix 32, for type "network" one row per entry split at '/', and
      nothing for any other type. */
  function ExtractIpAliases(modelType: string, value: string, aliasId: string): (r: seq<IpAliasModel>)
    ensures modelType != "host" && modelType != "network" ==> r == []
    ensures modelType == "host" || modelType == "network" ==> |r| == |Split(value, ',')|
    ensures forall k :: 0 <= k < |r| ==> r[k].aliasId == aliasId
    ensures modelType == "host" ==>
      forall k :: 0 <= k < |r| ==> r[k] == IpAliasModel(aliasId, Split(value, ',')[k], 32)
    ensures modelType == "network" ==>
      forall k :: 0 <= k < |r| ==> r[k] == NetworkEntry(Split(value, ',')[k], aliasId)
  {
    var values := Split(value, ',');
    if modelType == "host" then
      seq(|values|, k requires 0 <= k < |values| => IpAliasModel(aliasId, values[k], 32))
    else if modelType == "network" then
      seq(|values|, k requires 0 <= k < |values| => NetworkEntry(values[k], aliasId))
    else []
  }

  /** `extract_port_aliases`: for type "port" one row per ','-separated
      entry, and nothing for any other type. */
  function ExtractPortAliases(modelType: string, value: string, aliasId: string): (r: seq<PortAliasModel>)
    ensures modelType != "port" ==> r == []
    ensures modelType == "port" ==> |r| == |Split(value, ',')|
    ensures modelType == "port" ==>
      forall k :: 0 <= k < |r| ==> r[k] == PortEntry(Split(value, ',')[k], aliasId)
  {
    var values := Split(value, ',');
    if modelType == "port" then
      seq(|values|, k requires 0 <= k < |values| => PortEntry(values[k], aliasId))
    else []
  }

  // ---------------------------------------------------------------- entries read back

  lemma DigitsHaveNoSeparator(s: string, c: char)
    requires AllDigits(s) && !IsDigit(c)
    ensures c !in s
  {
    forall i | 0 <= i < |s|
      ensures s[i] != c
    {
      assert IsDigit(s[i]);
    }
  }

  lemma IntTextHasNoSeparator(n: int, c: char)
    requires !IsDigit(c) && c != '-'
    ensures c !in IntToString(n)
  {
    if n < 0 {
      DigitsHaveNoSeparator(NatToString(-n), c);
      assert IntToString(n) == "-" + NatToString(-n);
    } else {
      DigitsHaveNoSeparator(NatToString(n), c);
    }
  }

  /** A network written as "address/prefix" reads back as that address and
      prefix, for an address without '/' and an i32 prefix. */
  lemma NetworkEntryOf(addr: string, prefix: int, aliasId: string)
    requires '/' !in addr && IsI32(prefix)
    ensures NetworkEntry(addr + "/" + IntToString(prefix), aliasId) == IpAliasModel(aliasId, addr, prefix)
  {
    var p := IntToString(prefix);
    SplitPrefix(addr, '/', p);
    IntTextHasNoSeparator(prefix, '/');
    assert Split(p, '/') == [p];
    ParseI32OfIntToString(prefix);
  }

  /** A port range written as "lower:upper" reads back as that range. */
  lemma PortRangeOf(lower: nat, upper: nat, aliasId: string)
    requires IsI32(lower) && IsI32(upper)
    ensures PortEntry(NatToString(lower) + ":" + NatToString(upper), aliasId) == PortAliasModel(aliasId, lower, upper)
  {
    var lo := NatToString(lower);
    var hi := NatToString(upper);
    DigitsHaveNoSeparator(lo, ':');
    DigitsHaveNoSeparator(hi, ':');
    SplitPrefix(lo, ':', hi);
    assert Split(hi, ':') == [hi];
    ParseI32OfIntToString(lower);
    ParseI32OfIntToString(upper);
  }

  /** A single port reads back as the range from it to itself. */
  lemma SinglePortOf(port: nat, aliasId: string)
    requires IsI32(port)
    ensures PortEntry(NatToString(port), aliasId) == PortAliasModel(aliasId, port, port)
  {
    DigitsHaveNoSeparator(NatToString(port), ':');
    ParseI32OfIntToString(port);
  }

  /** The hosts of a "host" alias written as a ','-separated list come back
      one row each, in order, with prefix 32. */
  lemma HostAliasesOf(hosts: seq<string>, aliasId: string)
    requires |hosts| >= 1
    requires forall k :: 0 <= k < |hosts| ==> ',' !in hosts[k]
    ensures var r := ExtractIpAliases("host", Join(hosts, ","), aliasId);
      |r| == |hosts| && forall k :: 0 <= k < |r| ==> r[k] == IpAliasModel(aliasId, hosts[k], 32)
  {
    SplitJoin(hosts, ',');
  }
}
