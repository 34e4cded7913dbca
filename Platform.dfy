/** The kind of host the agent runs on (`Platform`): its name, parsed without
    regard to ASCII case, and what the agent may monitor on it. */
module Platform {
  import opened Common

  datatype Platform = Generic | PfSense | OpnSense | NfTables | Desktop

  /** The system configuration files the agent watches. */
  datatype SysconfFile = ConfigXml | NftablesRuleset

  /** `Display`: the platform's lower-case name. */
  function Name(p: Platform): string {
    match p
    case PfSense => "pfsense"
    case OpnSense => "opnsense"
    case Generic => "generic"
    case NfTables => "nftables"
    case Desktop => "desktop"
  }

  /** The platform a lower-case name stands for. */
  function OfName(name: string): Option<Platform> {
    match name
    case "generic" => Some(Generic)
    case "pfsense" => Some(PfSense)
    case "opnsense" => Some(OpnSense)
    case "nftables" => Some(NfTables)
    case "desktop" => Some(Desktop)
    case _ => None
  }

  /** `TryFrom<&str>`: the platform whose name is the lower-cased value, or
      an error naming the value as given. */
  function Parse(value: string): (r: Result<Platform>)
    ensures r.Ok? ==> Name(r.value) == LowerAscii(value)
    ensures r.Err? ==> r.msg == "Unsupported platform " + value
  {
    match OfName(LowerAscii(value))
    case Some(p) => Ok(p)
    case None => Err("Unsupported platform " + value)
  }

  predicate NoUpper(s: string) {
    forall i :: 0 <= i < |s| ==> !('A' <= s[i] <= 'Z')
  }

  lemma LowerOfNoUpper(s: string)
    requires NoUpper(s)
    ensures LowerAscii(s) == s
  {
  }

  lemma LowerIsNoUpper(s: string)
    ensures NoUpper(LowerAscii(s))
  {
  }

  lemma NameIsLower(p: Platform)
    ensures LowerAscii(Name(p)) == Name(p)
  {
    var name := Name(p);
    assert NoUpper(name) by {
      forall i | 0 <= i < |name|
        ensures !('A' <= name[i] <= 'Z')
      {
        assert 'a' <= name[i] <= 'z';
      }
    }
    LowerOfNoUpper(name);
  }

  /** Every platform's name parses back to it. */
  lemma ParseName(p: Platform)
    ensures Parse(Name(p)) == Ok(p)
  {
    NameIsLower(p);
    OfNameOfName(p);
  }

  lemma OfNameOfName(p: Platform)
    ensures OfName(Name(p)) == Some(p)
  {
  }

  /** Parsing ignores ASCII case: a value and its lower-cased form are
      accepted alike, as the same platform. */
  lemma ParseIgnoresCase(value: string)
    ensures Parse(value).Ok? <==> Parse(LowerAscii(value)).Ok?
    ensures Parse(value).Ok? ==> Parse(value).value == Parse(LowerAscii(value)).value
  {
    LowerIsNoUpper(value);
    LowerOfNoUpper(LowerAscii(value));
  }

  /** A value is accepted exactly when its lower-cased form is one of the
      five names; anything else is an error. */
  lemma ParseAcceptsNames(value: string)
    ensures Parse(value).Ok? <==> exists p: Platform :: Name(p) == LowerAscii(value)
  {
    if Parse(value).Err? {
      forall p: Platform
        ensures Name(p) != LowerAscii(value)
      {
        ParseName(p);
        if Name(p) == LowerAscii(value) {
          LowerIsNoUpper(value);
          LowerOfNoUpper(LowerAscii(value));
        }
      }
    }
  }

  /** `can_monitor_config`: false only on hosts without a firewall
      configuration. */
  function CanMonitorConfig(p: Platform): (r: bool)
    ensures !r <==> p == Generic || p == Desktop
  {
    !(p == Generic || p == Desktop)
  }

  /** `can_monitor_telemetry`. */
  function CanMonitorTelemetry(p: Platform): (r: bool)
    ensures r
  {
    true
  }

  /** `can_monitor_traffic`. */
  function CanMonitorTraffic(p: Platform): (r: bool)
    ensures r
  {
    true
  }

  /** `can_open_remote_desktop_session`, as built for hosts other than
      FreeBSD: a remote-desktop host has no configuration to monitor. */
  function CanOpenRemoteDesktopSession(p: Platform): (r: bool)
    ensures r <==> p == Desktop
    ensures r ==> !CanMonitorConfig(p)
  {
    p == Desktop
  }

  /** `get_sysconf_files`: `config.xml` on pfSense and OPNsense, the ruleset
      on nftables hosts, nothing elsewhere: the agent watches configuration
      files exactly where it may monitor the configuration. */
  function SysconfFiles(p: Platform): (r: seq<SysconfFile>)
    ensures r != [] <==> CanMonitorConfig(p)
    ensures r == [ConfigXml] <==> p == PfSense || p == OpnSense
    ensures r == [NftablesRuleset] <==> p == NfTables
  {
    match p
    case PfSense => [ConfigXml]
    case OpnSense => [ConfigXml]
    case NfTables => [NftablesRuleset]
    case Generic => []
    case Desktop => []
  }
}
