/** The capture exclusion filter (`generate_filter`, `format_filter`): the
    agent must not capture its own traffic to the server and the monitor, so
    each endpoint's hostname is resolved and the filter excludes the resolved
    addresses. Name resolution is a parameter (`resolve`), and a filter is
    built as a small expression that is then rendered as pcap filter text. */
module TrafficFilter {
  import opened Common
  import opened Net

  /** Size of the clause buffers (`filter_server`, `filter_monitor`) and of the
      hostname buffer of `generate_filter`. */
  const CLAUSE_BUFFER: nat := 256

  /** What resolution found for a hostname: an IPv4 address, an IPv6 address,
      both or neither, as text. */
  datatype Resolution = Resolution(v4: Option<string>, v6: Option<string>)

  /** The pcap filter expressions the agent writes. */
  datatype Expr = Host(addr: string) | Ip6Host(addr: string) | Or(left: Expr, right: Expr) | Not(inner: Expr)

  function Render(e: Expr): string {
    match e
    case Host(a) => "host " + a
    case Ip6Host(a) => "ip6 host " + a
    case Or(l, r) => Render(l) + " or " + Render(r)
    case Not(x) => "not (" + Render(x) + ")"
  }

  /** Whether a packet whose IPv4 and IPv6 addresses are `v4s` and `v6s`
      matches `e`. */
  predicate Eval(e: Expr, v4s: set<string>, v6s: set<string>) {
    match e
    case Host(a) => a in v4s
    case Ip6Host(a) => a in v6s
    case Or(l, r) => Eval(l, v4s, v6s) || Eval(r, v4s, v6s)
    case Not(x) => !Eval(x, v4s, v6s)
  }

  /** The clause for one endpoint: both families, one of them, or none. */
  function ClauseExpr(res: Resolution): (r: Option<Expr>)
    ensures r.None? <==> res.v4.None? && res.v6.None?
  {
    match (res.v4, res.v6)
    case (Some(a), Some(b)) => Some(Or(Host(a), Ip6Host(b)))
    case (Some(a), None) => Some(Host(a))
    case (None, Some(b)) => Some(Ip6Host(b))
    case (None, None) => None
  }

  /** The request `generate_filter` makes of `parse_url`: a 256-byte hostname
      buffer and no path, port or tls output. */
  const FilterRequest: Request := Request(Some(CLAUSE_BUFFER), None, false)

  /** `generate_filter`: the clause for the URL's resolved hostname, when the
      URL parses, some family resolves, and the text fits in `len` bytes with
      its terminating NUL. */
  function GenerateFilter(url: string, resolve: string -> Resolution, len: nat): (r: Option<string>)
    ensures r.Some? ==> |r.value| < len
    ensures r.Some? ==> ParseUrl(url, FilterRequest).Some?
  {
    match ParseUrl(url, FilterRequest)
    case None => None
    case Some(u) =>
      match ClauseExpr(resolve(u.hostname.value))
      case None => None
      case Some(e) => var text := Render(e); if |text| >= len then None else Some(text)
  }

  /** The expression for both endpoints: neither the server's nor the
      monitor's addresses. */
  function ExclusionExpr(server: Expr, monitor: Expr): Expr {
    Not(Or(server, monitor))
  }

  /** `format_filter`: "not (S or M)" over the two clauses, when both are
      generated into their 256-byte buffers and the whole fits in `len`. */
  function FormatFilter(serverUrl: string, monitorUrl: string, resolve: string -> Resolution, len: nat): (r: Option<string>)
    ensures r.Some? ==> |r.value| < len
    ensures r.Some? ==> GenerateFilter(serverUrl, resolve, CLAUSE_BUFFER).Some? &&
                        GenerateFilter(monitorUrl, resolve, CLAUSE_BUFFER).Some?
  {
    match (GenerateFilter(serverUrl, resolve, CLAUSE_BUFFER), GenerateFilter(monitorUrl, resolve, CLAUSE_BUFFER))
    case (Some(s), Some(m)) =>
      var text := "not (" + s + " or " + m + ")";
      if |text| >= len then None else Some(text)
    case _ => None
  }

  // ---------------------------------------------------------------------------
  // What the filter text says

  /** The clause text in each of the three cases. */
  lemma ClauseText(a: string, b: string)
    ensures Render(ClauseExpr(Resolution(Some(a), Some(b))).value) == "host " + a + " or ip6 host " + b
    ensures Render(ClauseExpr(Resolution(Some(a), None)).value) == "host " + a
    ensures Render(ClauseExpr(Resolution(None, Some(b))).value) == "ip6 host " + b
  {
  }

  /** A packet matches an endpoint's clause iff one of its addresses is one the
      endpoint resolved to. */
  lemma ClauseMatches(res: Resolution, v4s: set<string>, v6s: set<string>)
    requires ClauseExpr(res).Some?
    ensures Eval(ClauseExpr(res).value, v4s, v6s) <==>
      (res.v4.Some? && res.v4.value in v4s) || (res.v6.Some? && res.v6.value in v6s)
  {
  }

  /** The combined filter keeps exactly the packets that carry none of the
      addresses either endpoint resolved to. */
  lemma ExclusionMatches(rs: Resolution, rm: Resolution, v4s: set<string>, v6s: set<string>)
    requires ClauseExpr(rs).Some? && ClauseExpr(rm).Some?
    ensures Eval(ExclusionExpr(ClauseExpr(rs).value, ClauseExpr(rm).value), v4s, v6s) <==>
      !((rs.v4.Some? && rs.v4.value in v4s) || (rs.v6.Some? && rs.v6.value in v6s) ||
        (rm.v4.Some? && rm.v4.value in v4s) || (rm.v6.Some? && rm.v6.value in v6s))
  {
    ClauseMatches(rs, v4s, v6s);
    ClauseMatches(rm, v4s, v6s);
  }

  /** A formatted filter is the rendering of the exclusion of the two
      endpoints' clauses, so it means what `ExclusionMatches` says. */
  lemma FormatFilterRenders(serverUrl: string, monitorUrl: string, resolve: string -> Resolution, len: nat)
    requires FormatFilter(serverUrl, monitorUrl, resolve, len).Some?
    ensures var su := ParseUrl(serverUrl, FilterRequest).value;
      var mu := ParseUrl(monitorUrl, FilterRequest).value;
      var rs := resolve(su.hostname.value);
      var rm := resolve(mu.hostname.value);
      ClauseExpr(rs).Some? && ClauseExpr(rm).Some? &&
      FormatFilter(serverUrl, monitorUrl, resolve, len).value == Render(ExclusionExpr(ClauseExpr(rs).value, ClauseExpr(rm).value))
  {
  }

  /** Failure of either endpoint, or text that does not fit, fails the whole:
      the filter is never truncated. */
  lemma FormatFilterFails(serverUrl: string, monitorUrl: string, resolve: string -> Resolution, len: nat)
    ensures FormatFilter(serverUrl, monitorUrl, resolve, len).None? <==>
      GenerateFilter(serverUrl, resolve, CLAUSE_BUFFER).None? ||
      GenerateFilter(monitorUrl, resolve, CLAUSE_BUFFER).None? ||
      |GenerateFilter(serverUrl, resolve, CLAUSE_BUFFER).value| + |GenerateFilter(monitorUrl, resolve, CLAUSE_BUFFER).value| + 10 >= len
  {
  }

  /** An endpoint that resolves to nothing, or a URL that does not parse, gives
      no clause. */
  lemma GenerateFilterFails(url: string, resolve: string -> Resolution, len: nat)
    ensures ParseUrl(url, FilterRequest).None? ==> GenerateFilter(url, resolve, len).None?
    ensures ParseUrl(url, FilterRequest).Some? &&
            resolve(ParseUrl(url, FilterRequest).value.hostname.value) == Resolution(None, None) ==>
            GenerateFilter(url, resolve, len).None?
  {
  }

  /** The hostname-only request never reaches either overrun of `parse_url`. */
  lemma FilterRequestSafe(url: string)
    ensures ParseUrlAsWritten(url, FilterRequest).Parsed? || ParseUrlAsWritten(url, FilterRequest).Rejected?
  {
  }

  // ---------------------------------------------------------------------------
  // Reading a clause back

  /** Recovers the resolution from clause text by its words. */
  function ParseClause(s: string): Option<Resolution> {
    ClauseOfWords(SplitWhitespace(s))
  }

  function ClauseOfWords(w: seq<string>): Option<Resolution> {
    if |w| == 6 && w[0] == "host" && w[2] == "or" && w[3] == "ip6" && w[4] == "host" then
      Some(Resolution(Some(w[1]), Some(w[5])))
    else if |w| == 2 && w[0] == "host" then Some(Resolution(Some(w[1]), None))
    else if |w| == 3 && w[0] == "ip6" && w[1] == "host" then Some(Resolution(None, Some(w[2])))
    else None
  }

  predicate IsWord(s: string) { s != [] && NoWhitespace(s) }

  /** Address text is a single word (as numeric addresses are). */
  predicate WordAddresses(res: Resolution) {
    (res.v4.Some? ==> IsWord(res.v4.value)) && (res.v6.Some? ==> IsWord(res.v6.value))
  }

  /** The words a clause is made of. */
  function ClauseWords(res: Resolution): seq<string> {
    match (res.v4, res.v6)
    case (Some(a), Some(b)) => ["host", a, "or", "ip6", "host", b]
    case (Some(a), None) => ["host", a]
    case (None, Some(b)) => ["ip6", "host", b]
    case (None, None) => []
  }

  lemma JoinPrepend(w: string, rest: seq<string>, sep: string)
    requires rest != []
    ensures Join([w] + rest, sep) == w + sep + Join(rest, sep)
  {
    assert ([w] + rest)[1..] == rest;
  }

  lemma JoinBoth(a: string, b: string)
    ensures Join(["host", a, "or", "ip6", "host", b], " ") == "host " + a + " or ip6 host " + b
  {
    JoinPrepend("host", [b], " ");
    JoinPrepend("ip6", ["host", b], " ");
    JoinPrepend("or", ["ip6", "host", b], " ");
    JoinPrepend(a, ["or", "ip6", "host", b], " ");
    JoinPrepend("host", [a, "or", "ip6", "host", b], " ");
    assert ["host"] + [a, "or", "ip6", "host", b] == ["host", a, "or", "ip6", "host", b];
  }

  /** A clause is its words joined by single spaces. */
  lemma ClauseIsJoin(res: Resolution)
    requires ClauseExpr(res).Some?
    ensures Render(ClauseExpr(res).value) == Join(ClauseWords(res), " ")
  {
    match (res.v4, res.v6)
    case (Some(a), Some(b)) =>
      ClauseText(a, b);
      JoinBoth(a, b);
    case (Some(a), None) =>
      ClauseText(a, "");
      JoinPrepend("host", [a], " ");
      assert ["host"] + [a] == ["host", a];
    case (None, Some(b)) =>
      ClauseText("", b);
      JoinPrepend("host", [b], " ");
      JoinPrepend("ip6", ["host", b], " ");
      assert ["host"] + [b] == ["host", b];
      assert ["ip6"] + ["host", b] == ["ip6", "host", b];
  }

  /** A clause reads back as the resolution it was built from. */
  lemma ClauseRoundTrip(res: Resolution)
    requires ClauseExpr(res).Some? && WordAddresses(res)
    ensures ParseClause(Render(ClauseExpr(res).value)) == Some(res)
  {
    ClauseIsJoin(res);
    ClauseWordsAreWords(res);
    ParseOfJoin(Render(ClauseExpr(res).value), ClauseWords(res));
    ClauseWordsRoundTrip(res);
  }

  lemma ParseOfJoin(s: string, words: seq<string>)
    requires s == Join(words, " ") && Words(words)
    ensures ParseClause(s) == ClauseOfWords(words)
  {
    SplitWhitespaceJoin(words);
  }

  lemma ClauseWordsAreWords(res: Resolution)
    requires ClauseExpr(res).Some? && WordAddresses(res)
    ensures Words(ClauseWords(res))
  {
    assert IsWord("host") && IsWord("or") && IsWord("ip6");
  }

  lemma ClauseWordsRoundTrip(res: Resolution)
    requires ClauseExpr(res).Some?
    ensures ClauseOfWords(ClauseWords(res)) == Some(res)
  {
  }
}
