/** nftables chain priorities (`chain_priority.rs`): the netfilter hook
    priorities with names, and any other 32-bit value. */
module ChainPriority {
  import opened Common

  datatype Priority =
    | ConntrackDefrag
    | Raw
    | SelinuxFirst
    | Conntrack
    | Mangle
    | NatDst
    | Filter
    | Security
    | NatSrc
    | SelinuxLast
    | ConntrackHelper
    | Other(value: int)

  /** `get_value`: the numeric priority. */
  function GetValue(p: Priority): int {
    match p
    case ConntrackDefrag => -400
    case Raw => -300
    case SelinuxFirst => -225
    case Conntrack => -200
    case Mangle => -150
    case NatDst => -100
    case Filter => 0
    case Security => 50
    case NatSrc => 100
    case SelinuxLast => 225
    case ConntrackHelper => 300
    case Other(v) => v
  }

  /** `From<i32>`: a value with a name becomes that priority, any other is
      kept as `Other`; either way the value is preserved. */
  function FromInt(v: int): (p: Priority)
    ensures GetValue(p) == v
    ensures p.Other? <==> v !in {-400, -300, -225, -200, -150, -100, 0, 50, 100, 225, 300}
  {
    match v
    case -400 => ConntrackDefrag
    case -300 => Raw
    case -225 => SelinuxFirst
    case -200 => Conntrack
    case -150 => Mangle
    case -100 => NatDst
    case 0 => Filter
    case 50 => Security
    case 100 => NatSrc
    case 225 => SelinuxLast
    case 300 => ConntrackHelper
    case _ => Other(v)
  }

  /** The priority names nft writes, with their values. */
  const Named: map<string, int> := map[
    "conntrack-defrag" := -400, "raw" := -300, "selinux-first" := -225,
    "conntrack" := -200, "mangle" := -150, "nat-dst" := -100, "filter" := 0,
    "security" := 50, "nat-src" := 100, "selinux-last" := 225,
    "conntrack-helper" := 300]

  /** `FromStr`: a name gives its priority; otherwise the text must parse as a
      32-bit integer and goes through `FromInt`. */
  function FromStr(s: string): Result<Priority> {
    match s
    case "conntrack-defrag" => Ok(ConntrackDefrag)
    case "raw" => Ok(Raw)
    case "selinux-first" => Ok(SelinuxFirst)
    case "conntrack" => Ok(Conntrack)
    case "mangle" => Ok(Mangle)
    case "nat-dst" => Ok(NatDst)
    case "filter" => Ok(Filter)
    case "security" => Ok(Security)
    case "nat-src" => Ok(NatSrc)
    case "selinux-last" => Ok(SelinuxLast)
    case "conntrack-helper" => Ok(ConntrackHelper)
    case _ =>
      match ParseI32(s)
      case Some(v) => Ok(FromInt(v))
      case None => Err("Invalid priority value: " + s)
  }

  /** A name gives its priority; any other text is accepted exactly when it
      is a 32-bit integer, and then means what `FromInt` makes of it. */
  lemma FromStrMeaning(s: string)
    ensures s in Named ==> FromStr(s).Ok? && GetValue(FromStr(s).value) == Named[s] && !FromStr(s).value.Other?
    ensures s !in Named ==> (FromStr(s).Ok? <==> ParseI32(s).Some?)
    ensures s !in Named && FromStr(s).Ok? ==> FromStr(s).value == FromInt(ParseI32(s).value)
  {
  }

  /** A priority as `FromInt` builds it: `Other` only for an unnamed 32-bit
      value. */
  predicate Canonical(p: Priority) {
    p.Other? ==> IsI32(p.value) && FromInt(p.value) == p
  }

  /** The text that names a priority: its name, or its decimal value. */
  function Keyword(p: Priority): string {
    match p
    case ConntrackDefrag => "conntrack-defrag"
    case Raw => "raw"
    case SelinuxFirst => "selinux-first"
    case Conntrack => "conntrack"
    case Mangle => "mangle"
    case NatDst => "nat-dst"
    case Filter => "filter"
    case Security => "security"
    case NatSrc => "nat-src"
    case SelinuxLast => "selinux-last"
    case ConntrackHelper => "conntrack-helper"
    case Other(v) => IntToString(v)
  }

  lemma NumberIsNoName(v: int)
    ensures IntToString(v) !in Named
  {
    var t := IntToString(v);
    assert t[0] == '-' || IsDigit(t[0]);
    forall k | k in Named
      ensures k != t
    {
      assert !IsDigit(k[0]) && k[0] != '-';
    }
  }

  /** Parsing the keyword of a canonical priority gives it back. */
  lemma FromStrKeyword(p: Priority)
    requires Canonical(p)
    ensures FromStr(Keyword(p)) == Ok(p)
  {
    if p.Other? {
      NumberIsNoName(p.value);
      ParseI32OfIntToString(p.value);
    }
  }

  /** A numeric string for a named value gives the named priority: "0" and
      "filter" are the same priority. */
  lemma NumericMatchesName(s: string, name: string)
    requires name in Named && s !in Named && ParseI32(s) == Some(Named[name])
    ensures FromStr(s) == FromStr(name)
  {
    FromStrMeaning(s);
    FromStrMeaning(name);
  }
}
