/** The agent's URL splitter (`parse_url` with `parse_protocol`, `parse_port`,
    `parse_hostname` and `parse_path`). The caller passes a buffer, or NULL, for
    each of hostname, path, port and tls; an output whose pointer is NULL is
    neither checked nor written. Here a NULL buffer is `None` and a buffer of
    n bytes is `Some(n)`; the parsed outputs come back in a `Url`. */
module Net {
  import opened Common

  predicate StartsWith(s: string, prefix: string) {
    |prefix| <= |s| && s[..|prefix|] == prefix
  }

  /** `parse_protocol`: the text after the scheme, and whether the scheme is TLS. */
  function ParseProtocol(url: string): (r: Option<(string, bool)>)
    ensures r.Some? ==> (r.value.1 <==> StartsWith(url, "https://"))
    ensures r.None? <==> !(StartsWith(url, "https://") || StartsWith(url, "http://") || StartsWith(url, "tcp://") || StartsWith(url, "udp://"))
  {
    if StartsWith(url, "https://") then Some((url[8..], true))
    else if StartsWith(url, "http://") then Some((url[7..], false))
    else if StartsWith(url, "tcp://") then Some((url[6..], false))
    else if StartsWith(url, "udp://") then Some((url[6..], false))
    else None
  }

  /** C's `atoi`: leading white space, an optional sign, then as many decimal
      digits as follow (0 when there are none). */
  function Atoi(s: string): int {
    var t := TrimStart(s);
    var neg := |t| > 0 && t[0] == '-';
    var body := if |t| > 0 && (t[0] == '-' || t[0] == '+') then t[1..] else t;
    var n := DigitRun(body);
    assert AllDigits(body[..n]);
    if neg then -(DigitsValue(body[..n]) as int) else DigitsValue(body[..n])
  }

  /** Length of the run of digits at the head of `s`. */
  function DigitRun(s: string): (n: nat)
    ensures n <= |s| && AllDigits(s[..n]) && (n == |s| || !IsDigit(s[n]))
  {
    if s == [] || !IsDigit(s[0]) then 0
    else
      var k := DigitRun(s[1..]);
      assert s[..k + 1] == [s[0]] + s[1..][..k];
      k + 1
  }

  lemma AtoiOfDigits(s: string)
    requires s != [] && AllDigits(s)
    ensures Atoi(s) == DigitsValue(s)
  {
    DigitsUntrimmed(s);
    var t := s[..DigitRun(s)];
    assert t == s;
  }

  lemma DigitsUntrimmed(s: string)
    requires s != [] && AllDigits(s)
    ensures TrimStart(s) == s && s[0] != '-' && s[0] != '+' && DigitRun(s) == |s|
  {
    var d := s[0];
    assert IsDigit(d) && !IsWhitespace(d);
    DigitRunAll(s);
  }

  lemma DigitRunAll(s: string)
    requires AllDigits(s)
    ensures DigitRun(s) == |s|
  {
  }

  /** What the caller asks for: a hostname buffer of the given size (None: NULL),
      a path buffer of the given size (None: NULL), and whether a port pointer
      is passed. */
  datatype Request = Request(hostnameMax: Option<nat>, pathMax: Option<nat>, wantPort: bool)

  /** What `parse_url` writes: the outputs that were asked for, and tls. */
  datatype Url = Url(hostname: Option<string>, path: Option<string>, port: Option<int>, tls: bool)

  /** Where the hostname ends (`parse_port`'s return value): at the first ':'
      anywhere after the scheme, or else at the first '/', or else at the end. */
  function HostnameEnd(rest: string): (n: nat)
    ensures n <= |rest|
  {
    match IndexOf(rest, ':')
    case Some(i) => i
    case None =>
      match IndexOf(rest, '/')
      case Some(j) => j
      case None => |rest|
  }

  /** The characters between the first ':' and the next '/'. */
  function PortText(rest: string): string
    requires ':' in rest
  {
    var after := rest[IndexOf(rest, ':').value + 1..];
    match IndexOf(after, '/')
    case Some(j) => after[..j]
    case None => after
  }

  /** `parse_port`'s value: the scheme's default without a ':', else `atoi` of
      the port text. */
  function PortValue(rest: string, tls: bool): int {
    if ':' in rest then Atoi(PortText(rest)) else if tls then 443 else 80
  }

  /** `parse_hostname`: no checks without a buffer; otherwise an empty hostname,
      or one that leaves no room for the terminating NUL, is rejected. */
  function HostnameOf(rest: string, max: Option<nat>): (r: Option<Option<string>>)
    ensures r.Some? ==> (r.value.Some? <==> max.Some?)
    ensures r.Some? && r.value.Some? ==> 0 < |r.value.value| < max.value
  {
    match max
    case None => Some(None)
    case Some(m) =>
      var n := HostnameEnd(rest);
      if n >= m || n == 0 then None else Some(Some(rest[..n]))
  }

  /** `parse_path`: the text from the first '/' on, or "/" when there is none;
      a zero-sized buffer, or a path that leaves no room for the NUL, is
      rejected. */
  function PathOf(rest: string, max: Option<nat>): (r: Option<Option<string>>)
    ensures r.Some? ==> (r.value.Some? <==> max.Some?)
    ensures r.Some? && r.value.Some? ==> 0 < |r.value.value| < max.value && r.value.value[0] == '/'
  {
    match max
    case None => Some(None)
    case Some(m) =>
      if m == 0 then None
      else match IndexOf(rest, '/')
        case None => if m == 1 then None else Some(Some("/"))
        case Some(j) => if |rest| - j >= m then None else Some(Some(rest[j..]))
  }

  /** The port text is copied into a local `char port_str[6]`: more than five
      characters write past its end. */
  predicate PortOverruns(rest: string, req: Request) {
    req.wantPort && ':' in rest && |PortText(rest)| > 5
  }

  /** `strcpy(path, "/")` into a one-byte path buffer writes past its end. */
  predicate PathOverruns(rest: string, req: Request) {
    req.pathMax == Some(1) && '/' !in rest
  }

  datatype Outcome = Parsed(url: Url) | Rejected | PortOverrun | PathOverrun

  /** `parse_url` as written, with the out-of-bounds write of `parse_port`
      made visible as its own outcome. */
  function ParseUrlAsWritten(url: string, req: Request): Outcome {
    match ParseProtocol(url)
    case None => Rejected
    case Some((rest, tls)) =>
      if PortOverruns(rest, req) then PortOverrun
      else Assemble(rest, tls, req)
  }

  function Assemble(rest: string, tls: bool, req: Request): Outcome {
    match HostnameOf(rest, req.hostnameMax)
    case None => Rejected
    case Some(hostname) =>
      if PathOverruns(rest, req) then PathOverrun
      else match PathOf(rest, req.pathMax)
      case None => Rejected
      case Some(path) =>
        Parsed(Url(hostname, path, if req.wantPort then Some(PortValue(rest, tls)) else None, tls))
  }

  /** Port text longer than five characters overruns `port_str`, for any
      hostname (`http://example.com:123456` is one such URL). */
  lemma LongPortOverruns(host: string, digits: string)
    requires ':' !in host && '/' !in digits && |digits| > 5
    ensures ParseUrlAsWritten(SchemePrefix(false, 0) + (host + ":" + digits), Request(Some(256), None, true)) == PortOverrun
  {
    var rest := host + ":" + digits;
    ProtocolOfCompose(false, 0, rest);
    PortTextOf(host, digits, "");
    assert rest + "" == rest;
  }

  /** `parse_url` with its two copies bounded by their buffers: a port text
      longer than five characters, and a missing path with a one-byte path
      buffer, are rejected instead of overrunning. */
  function ParseUrl(url: string, req: Request): (r: Option<Url>)
    ensures r.Some? <==> ParseUrlAsWritten(url, req).Parsed?
    ensures r.Some? ==> ParseProtocol(url).Some? && r.value.tls == ParseProtocol(url).value.1
    ensures r.Some? ==> (r.value.hostname.Some? <==> req.hostnameMax.Some?)
    ensures r.Some? && r.value.hostname.Some? ==> 0 < |r.value.hostname.value| < req.hostnameMax.value
    ensures r.Some? ==> (r.value.path.Some? <==> req.pathMax.Some?)
    ensures r.Some? && r.value.path.Some? ==> 0 < |r.value.path.value| < req.pathMax.value && r.value.path.value[0] == '/'
    ensures r.Some? ==> (r.value.port.Some? <==> req.wantPort)
  {
    match ParseUrlAsWritten(url, req)
    case Parsed(u) => Some(u)
    case _ => None
  }

  /** A one-byte path buffer and a URL without a path overrun the path
      buffer (`http://example.com` is one such URL). */
  lemma NoPathOverruns(host: string)
    requires host != [] && ':' !in host && '/' !in host && |host| < 256
    ensures ParseUrlAsWritten(SchemePrefix(false, 0) + host, Request(Some(256), Some(1), false)) == PathOverrun
  {
    ProtocolOfCompose(false, 0, host);
    assert IndexOf(host, ':') == None && IndexOf(host, '/') == None;
  }

  /** The four schemes, in the order they are tried. */
  function SchemePrefix(tls: bool, k: nat): string
    requires k < 3
  {
    if tls then "https://" else ["http://", "tcp://", "udp://"][k]
  }

  /** A URL built from its parts. */
  function Compose(tls: bool, k: nat, host: string, port: Option<nat>, path: string): string
    requires k < 3
  {
    SchemePrefix(tls, k) + host + (if port.Some? then ":" + NatToString(port.value) else "") + path
  }

  /** A hostname free of ':' and '/', a port of at most five digits, and a path
      that is empty or starts with '/' and holds no ':'. */
  predicate WellFormedParts(host: string, port: Option<nat>, path: string) {
    host != [] && ':' !in host && '/' !in host &&
    (port.Some? ==> |NatToString(port.value)| <= 5) &&
    (path == [] || (path[0] == '/' && ':' !in path))
  }

  lemma ProtocolOfCompose(tls: bool, k: nat, rest: string)
    requires k < 3
    ensures ParseProtocol(SchemePrefix(tls, k) + rest) == Some((rest, tls))
  {
    var p := SchemePrefix(tls, k);
    var u := p + rest;
    assert u[..|p|] == p && u[|p|..] == rest;
    if !tls {
      assert u[0] == p[0] && u[4] == p[4];
      if |u| >= 8 { assert u[..8][4] == u[4]; }
      if k > 0 && |u| >= 7 { assert u[..7][0] == u[0]; }
      if k == 2 { assert u[..6][0] == u[0]; }
    }
  }

  lemma NoSlashNoColon(s: string)
    requires forall i :: 0 <= i < |s| ==> s[i] != ':' && s[i] != '/'
    ensures ':' !in s && '/' !in s
  {
  }

  /** The first '/' of `p + t`, when `p` has none and `t` is empty or starts
      with '/'. */
  lemma SlashAfter(p: string, t: string)
    requires '/' !in p
    requires t == [] || t[0] == '/'
    ensures IndexOf(p + t, '/') == if t == [] then None else Some(|p|)
  {
    var s := p + t;
    if t == [] {
      assert s == p;
    } else {
      assert s[|p|] == '/' && s[..|p|] == p;
    }
  }

  /** The hostname ends at the first ':', and the port text starts after it. */
  lemma ColonAt(host: string, tail: string)
    requires ':' !in host
    ensures ':' in host + ":" + tail
    ensures IndexOf(host + ":" + tail, ':') == Some(|host|)
    ensures HostnameEnd(host + ":" + tail) == |host|
    ensures (host + ":" + tail)[|host| + 1..] == tail
  {
    assert host + ":" + tail == host + [':'] + tail;
    IndexOfAfterPrefix(host, ':', tail);
  }

  lemma PortTextOf(host: string, digits: string, path: string)
    requires ':' !in host && '/' !in digits
    requires path == [] || path[0] == '/'
    ensures ':' in host + ":" + digits + path
    ensures PortText(host + ":" + digits + path) == digits
  {
    ColonAt(host, digits + path);
    assert host + ":" + digits + path == host + ":" + (digits + path);
    SlashAfter(digits, path);
    assert (digits + path)[..|digits|] == digits;
    assert path == [] ==> digits + path == digits;
  }

  lemma NoSlashInHostPort(host: string, digits: string)
    requires '/' !in host && '/' !in digits
    ensures '/' !in host + ":" + digits
  {
    forall i | 0 <= i < |host + ":" + digits|
      ensures (host + ":" + digits)[i] != '/'
    {
      if i < |host| { assert (host + ":" + digits)[i] == host[i]; }
      else if i > |host| { assert (host + ":" + digits)[i] == digits[i - |host| - 1]; }
    }
  }

  /** With an explicit port: the hostname ends at the ':' and the port text
      is what lies between it and the path. */
  lemma RestWithPort(host: string, digits: string, path: string)
    requires ':' !in host && '/' !in digits
    requires path == [] || path[0] == '/'
    ensures var rest := host + ":" + digits + path;
      HostnameEnd(rest) == |host| && ':' in rest && PortText(rest) == digits
  {
    ColonAt(host, digits + path);
    assert host + ":" + digits + path == host + ":" + (digits + path);
    PortTextOf(host, digits, path);
  }

  /** With an explicit port, the path starts after the port text. */
  lemma SlashWithPort(host: string, digits: string, path: string)
    requires '/' !in host && '/' !in digits
    requires path == [] || path[0] == '/'
    ensures var rest := host + ":" + digits + path;
      IndexOf(rest, '/') == (if path == [] then None else Some(|host| + 1 + |digits|)) &&
      (path != [] ==> rest[|host| + 1 + |digits|..] == path)
  {
    NoSlashInHostPort(host, digits);
    SlashAfter(host + ":" + digits, path);
  }

  /** A rendered port reads back as itself. */
  lemma PortDigits(n: nat)
    ensures '/' !in NatToString(n) && Atoi(NatToString(n)) == n
  {
    AtoiOfDigits(NatToString(n));
    NatToStringValue(n);
  }

  /** Without a port: the hostname ends at the first '/' or at the end. */
  lemma RestWithoutPort(host: string, path: string)
    requires WellFormedParts(host, None, path)
    ensures var rest := host + path;
      HostnameEnd(rest) == |host| && ':' !in rest &&
      IndexOf(rest, '/') == (if path == [] then None else Some(|host|))
  {
    var rest := host + path;
    forall i | 0 <= i < |rest| ensures rest[i] != ':' {
      if i < |host| { assert rest[i] == host[i]; } else { assert rest[i] == path[i - |host|]; }
    }
    SlashAfter(host, path);
  }

  /** What a request with both buffers and a port pointer finds in `rest`,
      when `rest` is a hostname, an optional port and a path. */
  predicate ParsesAs(rest: string, tls: bool, hmax: nat, pmax: nat, host: string, path: string, port: int) {
    var req := Request(Some(hmax), Some(pmax), true);
    !PortOverruns(rest, req) && HostnameOf(rest, req.hostnameMax) == Some(Some(host)) &&
    !PathOverruns(rest, req) && PathOf(rest, req.pathMax) == Some(Some(path)) &&
    PortValue(rest, tls) == port
  }

  lemma ComposedWithPort(tls: bool, host: string, n: nat, path: string, hmax: nat, pmax: nat)
    requires WellFormedParts(host, Some(n), path)
    requires |host| < hmax && |path| < pmax && 1 < pmax
    ensures ParsesAs(host + ":" + NatToString(n) + path, tls, hmax, pmax, host, if path == [] then "/" else path, n)
  {
    var digits := NatToString(n);
    var rest := host + ":" + digits + path;
    PortDigits(n);
    RestWithPort(host, digits, path);
    SlashWithPort(host, digits, path);
    assert rest[..|host|] == host;
  }

  lemma ComposedWithoutPort(tls: bool, host: string, path: string, hmax: nat, pmax: nat)
    requires WellFormedParts(host, None, path)
    requires |host| < hmax && |path| < pmax && 1 < pmax
    ensures ParsesAs(host + path, tls, hmax, pmax, host, if path == [] then "/" else path, if tls then 443 else 80)
  {
    var rest := host + path;
    RestWithoutPort(host, path);
    assert path != [] ==> rest[|host|..] == path;
    assert rest[..|host|] == host;
  }

  lemma ParseUrlOfParts(url: string, rest: string, tls: bool, hmax: nat, pmax: nat, host: string, path: string, port: int)
    requires ParseProtocol(url) == Some((rest, tls))
    requires ParsesAs(rest, tls, hmax, pmax, host, path, port)
    ensures ParseUrl(url, Request(Some(hmax), Some(pmax), true)) == Some(Url(Some(host), Some(path), Some(port), tls))
  {
  }

  /** The text after the scheme of a composed URL. */
  function ComposedRest(host: string, port: Option<nat>, path: string): string {
    host + (if port.Some? then ":" + NatToString(port.value) else "") + path
  }

  lemma ComposedParses(tls: bool, host: string, port: Option<nat>, path: string, hmax: nat, pmax: nat)
    requires WellFormedParts(host, port, path)
    requires |host| < hmax && |path| < pmax && 1 < pmax
    ensures ParsesAs(ComposedRest(host, port, path), tls, hmax, pmax, host, if path == [] then "/" else path,
                     if port.Some? then port.value else if tls then 443 else 80)
  {
    var rest := ComposedRest(host, port, path);
    if port.Some? {
      assert rest == host + ":" + NatToString(port.value) + path;
      ComposedWithPort(tls, host, port.value, path, hmax, pmax);
    } else {
      assert rest == host + path;
      ComposedWithoutPort(tls, host, path, hmax, pmax);
    }
  }

  /** Parsing a composed URL gives back its hostname, port (or the scheme's
      default) and path (or "/"), when the buffers are large enough. */
  lemma ParseUrlCompose(tls: bool, k: nat, host: string, port: Option<nat>, path: string, hmax: nat, pmax: nat)
    requires k < 3
    requires WellFormedParts(host, port, path)
    requires |host| < hmax && |path| < pmax && 1 < pmax
    ensures ParseUrl(Compose(tls, k, host, port, path), Request(Some(hmax), Some(pmax), true)) ==
      Some(Url(Some(host), Some(if path == [] then "/" else path),
               Some(if port.Some? then port.value else if tls then 443 else 80), tls))
  {
    var rest := ComposedRest(host, port, path);
    var url := Compose(tls, k, host, port, path);
    assert url == SchemePrefix(tls, k) + rest;
    ProtocolOfCompose(tls, k, rest);
    ComposedParses(tls, host, port, path, hmax, pmax);
    ParseUrlOfParts(url, rest, tls, hmax, pmax, host, if path == [] then "/" else path,
                    if port.Some? then port.value else if tls then 443 else 80);
  }
}
