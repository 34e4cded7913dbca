/** The nftables chain header parser (`chain.rs`): `chain NAME {`, an
    optional `type T hook H [device D] priority P; [policy X;]` line, then the
    body, which is skipped up to the closing `}`. */
module NftChain {
  import opened Common
  import opened TokenStream
  import opened ChainPriority

  /** The names the chain type, hook, policy and family parsers accept; the
      enumerations behind them are kept as the names themselves. */
  datatype Vocabulary = Vocabulary(chainTypes: set<string>, hooks: set<string>, policies: set<string>, families: set<string>)

  datatype Chain = Chain(
    name: string,
    chainType: Option<string>,
    priority: Option<Priority>,
    policy: Option<string>,
    hook: Option<string>,
    device: Option<string>)

  /** `Chain::from(name)`: every other field unset. */
  function Named(name: string): Chain {
    Chain(name, None, None, None, None, None)
  }

  /** What the `type ...` line holds. */
  datatype Header = Header(chainType: string, hook: string, device: Option<string>, priority: Priority, policy: Option<string>)

  function WithHeader(name: string, h: Header): Chain {
    Chain(name, Some(h.chainType), Some(h.priority), h.policy, Some(h.hook), h.device)
  }

  // ---------------------------------------------------------------------------
  // The parser as a function of the tokens and the start position

  /** The identifier at `i`, if the token there is one. */
  function IdentAt(ts: seq<Token>, i: nat): Option<string> {
    if i < |ts| && ts[i].Ident? then Some(ts[i].name) else None
  }

  /** The optional `policy X;` after the priority, starting at `i`: the policy
      and the position after it. A newline means none; a symbol or the end
      of the tokens is an error. */
  function PolicyAt(ts: seq<Token>, i: nat, v: Vocabulary): (r: Option<(Option<string>, nat)>)
    requires i <= |ts|
    ensures r.Some? ==> i <= r.value.1 <= |ts|
  {
    match At(ts, i)
    case Some(Ident(_)) =>
      if At(ts, i) == Some(Ident("policy")) && IdentAt(ts, i + 1).Some? && At(ts, i + 2) == Some(Symbol(';'))
         && IdentAt(ts, i + 1).value in v.policies
      then Some((Some(IdentAt(ts, i + 1).value), i + 3))
      else None
    case Some(Newline) => Some((None, i))
    case Some(Symbol(_)) => None
    case None => None
  }

  /** `type T hook H` from position `i`: the chain type and the hook, both
      names the vocabulary accepts. */
  function TypeHookAt(ts: seq<Token>, i: nat, v: Vocabulary): (r: Option<(string, string)>)
    ensures r.Some? ==> i + 4 <= |ts|
  {
    if At(ts, i) != Some(Ident("type")) || IdentAt(ts, i + 1).None? || IdentAt(ts, i + 1).value !in v.chainTypes
       || At(ts, i + 2) != Some(Ident("hook")) || IdentAt(ts, i + 3).None? || IdentAt(ts, i + 3).value !in v.hooks then None
    else Some((IdentAt(ts, i + 1).value, IdentAt(ts, i + 3).value))
  }

  /** `device D`, present only when the literal `device` is at `i`: the device
      and the position after it. */
  function DeviceAt(ts: seq<Token>, i: nat): (r: Option<(Option<string>, nat)>)
    requires i <= |ts|
    ensures r.Some? ==> r.value.1 == (if r.value.0.Some? then i + 2 else i) <= |ts|
    ensures r.Some? ==> (r.value.0.Some? <==> At(ts, i) == Some(Ident("device")))
  {
    if At(ts, i) != Some(Ident("device")) then Some((None, i))
    else if IdentAt(ts, i + 1).None? then None
    else Some((IdentAt(ts, i + 1), i + 2))
  }

  /** `priority P;` from position `i`: the priority and the position after it. */
  function PriorityAt(ts: seq<Token>, i: nat): (r: Option<(Priority, nat)>)
    ensures r.Some? ==> r.value.1 == i + 3 <= |ts|
  {
    if At(ts, i) != Some(Ident("priority")) || IdentAt(ts, i + 1).None? || At(ts, i + 2) != Some(Symbol(';'))
       || FromStr(IdentAt(ts, i + 1).value).Err? then None
    else Some((FromStr(IdentAt(ts, i + 1).value).value, i + 3))
  }

  /** The `type` line from position `i`, which holds `type`: the header and
      the position after it. */
  function HeaderAt(ts: seq<Token>, i: nat, v: Vocabulary): (r: Option<(Header, nat)>)
    requires i <= |ts|
    ensures r.Some? ==> i + 7 <= r.value.1 <= |ts|
  {
    match TypeHookAt(ts, i, v)
    case None => None
    case Some((chainType, hook)) =>
      match DeviceAt(ts, i + 4)
      case None => None
      case Some((device, j)) =>
        match PriorityAt(ts, j)
        case None => None
        case Some((priority, k)) =>
          match PolicyAt(ts, k, v)
          case None => None
          case Some((policy, l)) => Some((Header(chainType, hook, device, priority, policy), l))
  }

  /** Where `skip_until('}')` followed by a step back leaves the cursor: on
      the first `}` at or after `i`, or on the last token when there is none. */
  function ClosingAt(ts: seq<Token>, i: nat): (e: nat)
    requires 0 < i <= |ts|
    ensures i - 1 <= e < |ts|
    decreases |ts| - i
  {
    if i == |ts| then |ts| - 1
    else if ts[i] == Symbol('}') then i
    else ClosingAt(ts, i + 1)
  }

  /** `ClosingAt` finds the first `}` from `i` on, if there is one. */
  lemma {:induction false} ClosingAtFirst(ts: seq<Token>, i: nat)
    requires 0 < i <= |ts|
    ensures Symbol('}') in ts[i..] ==> i <= ClosingAt(ts, i) && ts[ClosingAt(ts, i)] == Symbol('}') && Symbol('}') !in ts[i..ClosingAt(ts, i)]
    ensures Symbol('}') !in ts[i..] ==> ClosingAt(ts, i) == |ts| - 1
    decreases |ts| - i
  {
    if i < |ts| && ts[i] != Symbol('}') {
      assert ts[i..] == [ts[i]] + ts[i + 1..];
      ClosingAtFirst(ts, i + 1);
      var e := ClosingAt(ts, i + 1);
      assert Symbol('}') in ts[i + 1..] ==> ts[i..e] == [ts[i]] + ts[i + 1..e];
    }
  }

  /** The closing `}` and newline at `e`: the chain and the position after
      them. */
  function CloseAt(ts: seq<Token>, e: nat, c: Chain): (r: Option<(Chain, nat)>)
    ensures r.Some? ==> r.value.1 == e + 2 <= |ts| && ts[e] == Symbol('}') && ts[e + 1] == Newline && r.value.0 == c
  {
    if At(ts, e) == Some(Symbol('}')) && At(ts, e + 1) == Some(Newline) then Some((c, e + 2)) else None
  }

  /** `Chain::try_from`: the chain starting at position `p`, and the position
      just after its closing `}` and newline. */
  function ChainAt(ts: seq<Token>, p: nat, v: Vocabulary): (r: Option<(Chain, nat)>)
    requires p <= |ts|
    ensures r.Some? ==> p + 6 <= r.value.1 <= |ts|
    ensures r.Some? ==> ts[r.value.1 - 2] == Symbol('}') && ts[r.value.1 - 1] == Newline
  {
    if At(ts, p) != Some(Ident("chain")) || IdentAt(ts, p + 1).None? || At(ts, p + 2) != Some(Symbol('{'))
       || At(ts, p + 3) != Some(Newline) then None
    else
      var name := IdentAt(ts, p + 1).value;
      var q := p + 4;
      match At(ts, q)
      case None => None
      case Some(Ident(id)) =>
        if id == "type" then
          match HeaderAt(ts, q, v)
          case None => None
          case Some((h, k)) => CloseAt(ts, ClosingAt(ts, k), WithHeader(name, h))
        else CloseAt(ts, ClosingAt(ts, q), Named(name))
      case Some(_) => CloseAt(ts, q, Named(name))
  }

  // ---------------------------------------------------------------------------
  // The parser on the cursor

  /** `policy X;` or nothing, as the chain parser reads it. */
  method ParsePolicy(stream: TokenStream, v: Vocabulary) returns (r: Result<Option<string>>)
    requires stream.Valid()
    modifies stream`pos
    ensures stream.Valid()
    ensures r.Ok? <==> PolicyAt(stream.tokens, old(stream.pos), v).Some?
    ensures r.Ok? ==> (r.value, stream.pos) == PolicyAt(stream.tokens, old(stream.pos), v).value
  {
    var t := stream.Peek();
    match t
    case Some(Ident(_)) =>
      var e := stream.ExpectIdent("policy");
      if e.Err? { return Err(e.msg); }
      var value := stream.ExpectAnyIdent();
      if value.Err? { return Err(value.msg); }
      var semi := stream.ExpectSymbol(';');
      if semi.Err? { return Err(semi.msg); }
      if value.value !in v.policies { return Err("Invalid policy: " + value.value); }
      return Ok(Some(value.value));
    case Some(Newline) => return Ok(None);
    case Some(Symbol(symb)) => return Err("Unexpected token. Expected NewLine or policy, got symbol " + [symb]);
    case None => return Err("Unepected end of stream");
  }

  /** `type T hook H`. */
  method ParseTypeHook(stream: TokenStream, v: Vocabulary) returns (r: Result<(string, string)>)
    requires stream.Valid()
    modifies stream`pos
    ensures stream.Valid()
    ensures r.Ok? <==> TypeHookAt(stream.tokens, old(stream.pos), v).Some?
    ensures r.Ok? ==> r.value == TypeHookAt(stream.tokens, old(stream.pos), v).value && stream.pos == old(stream.pos) + 4
  {
    var e := stream.ExpectIdent("type");
    if e.Err? { return Err(e.msg); }
    var chainType := stream.ExpectAnyIdent();
    if chainType.Err? { return Err(chainType.msg); }
    if chainType.value !in v.chainTypes { return Err("Invalid chain type: " + chainType.value); }
    e := stream.ExpectIdent("hook");
    if e.Err? { return Err(e.msg); }
    var hook := stream.ExpectAnyIdent();
    if hook.Err? { return Err(hook.msg); }
    if hook.value !in v.hooks { return Err("Invalid hook: " + hook.value); }
    return Ok((chainType.value, hook.value));
  }

  /** `device D`, read only when `device` is next. */
  method ParseDevice(stream: TokenStream) returns (r: Result<Option<string>>)
    requires stream.Valid()
    modifies stream`pos
    ensures stream.Valid()
    ensures r.Ok? <==> DeviceAt(stream.tokens, old(stream.pos)).Some?
    ensures r.Ok? ==> (r.value, stream.pos) == DeviceAt(stream.tokens, old(stream.pos)).value
  {
    var t := stream.Peek();
    if t != Some(Ident("device")) {
      return Ok(None);
    }
    var e := stream.ExpectIdent("device");
    var d := stream.ExpectAnyIdent();
    if d.Err? { return Err(d.msg); }
    return Ok(Some(d.value));
  }

  /** `priority P;`. */
  method ParsePriority(stream: TokenStream) returns (r: Result<Priority>)
    requires stream.Valid()
    modifies stream`pos
    ensures stream.Valid()
    ensures r.Ok? <==> PriorityAt(stream.tokens, old(stream.pos)).Some?
    ensures r.Ok? ==> (r.value, stream.pos) == PriorityAt(stream.tokens, old(stream.pos)).value
  {
    ghost var ts, i := stream.tokens, stream.pos;
    var e := stream.ExpectIdent("priority");
    if e.Err? { return Err(e.msg); }
    assert At(ts, i) == Some(Ident("priority")) && stream.pos == i + 1;
    var value := stream.ExpectAnyIdent();
    if value.Err? { return Err(value.msg); }
    assert IdentAt(ts, i + 1) == Some(value.value) && stream.pos == i + 2;
    e := stream.ExpectSymbol(';');
    if e.Err? { return Err(e.msg); }
    assert At(ts, i + 2) == Some(Symbol(';')) && stream.pos == i + 3;
    var priority := FromStr(value.value);
    if priority.Err? { return Err(priority.msg); }
    return Ok(priority.value);
  }

  /** The `type` line, on a cursor at `type`. */
  method ParseHeader(stream: TokenStream, v: Vocabulary) returns (r: Result<Header>)
    requires stream.Valid()
    modifies stream`pos
    ensures stream.Valid()
    ensures r.Ok? <==> HeaderAt(stream.tokens, old(stream.pos), v).Some?
    ensures r.Ok? ==> (r.value, stream.pos) == HeaderAt(stream.tokens, old(stream.pos), v).value
  {
    var typeHook := ParseTypeHook(stream, v);
    if typeHook.Err? { return Err(typeHook.msg); }
    var device := ParseDevice(stream);
    if device.Err? { return Err(device.msg); }
    var priority := ParsePriority(stream);
    if priority.Err? { return Err(priority.msg); }
    var policy := ParsePolicy(stream, v);
    if policy.Err? { return Err(policy.msg); }
    return Ok(Header(typeHook.value.0, typeHook.value.1, device.value, priority.value, policy.value));
  }

  /** The closing `}` and its newline. */
  method ParseClose(stream: TokenStream, c: Chain) returns (r: Result<Chain>)
    requires stream.Valid()
    modifies stream`pos
    ensures stream.Valid()
    ensures r.Ok? <==> CloseAt(stream.tokens, old(stream.pos), c).Some?
    ensures r.Ok? ==> (r.value, stream.pos) == CloseAt(stream.tokens, old(stream.pos), c).value
  {
    var e := stream.ExpectSymbol('}');
    if e.Err? { return Err(e.msg); }
    e := stream.ExpectNewline();
    if e.Err? { return Err(e.msg); }
    return Ok(c);
  }

  /** Skips the body: the cursor ends on the closing `}`. */
  method SkipBody(stream: TokenStream)
    requires stream.Valid() && 0 < stream.pos
    modifies stream`pos
    ensures stream.Valid()
    ensures stream.pos == ClosingAt(stream.tokens, old(stream.pos))
  {
    ClosingAtFirst(stream.tokens, stream.pos);
    var found := stream.SkipUntil(Symbol('}'));
    stream.Rewind(stream.Position() - 1);
  }

  /** `Chain::try_from(&mut TokenStream)`. */
  method ParseChain(stream: TokenStream, v: Vocabulary) returns (r: Result<Chain>)
    requires stream.Valid()
    modifies stream`pos
    ensures stream.Valid()
    ensures r.Ok? <==> ChainAt(stream.tokens, old(stream.pos), v).Some?
    ensures r.Ok? ==> (r.value, stream.pos) == ChainAt(stream.tokens, old(stream.pos), v).value
  {
    var e := stream.ExpectIdent("chain");
    if e.Err? { return Err(e.msg); }
    var name := stream.ExpectAnyIdent();
    if name.Err? { return Err(name.msg); }
    e := stream.ExpectSymbol('{');
    if e.Err? { return Err(e.msg); }
    e := stream.ExpectNewline();
    if e.Err? { return Err(e.msg); }
    var chain := Named(name.value);
    var t := stream.Peek();
    match t {
      case Some(Ident(ident)) =>
        if ident == "type" {
          var h := ParseHeader(stream, v);
          if h.Err? { return Err(h.msg); }
          chain := WithHeader(name.value, h.value);
        }
        SkipBody(stream);
      case Some(_) =>
      case None => return Err("Unexpected end of stream");
    }
    r := ParseClose(stream, chain);
  }

  // ---------------------------------------------------------------------------
  // What a parsed chain looks like

  /** A parsed chain has all of type, hook and priority or none of them, and
      has them exactly when `type` opens its first line. */
  lemma HeaderAllOrNothing(ts: seq<Token>, p: nat, v: Vocabulary)
    requires p <= |ts| && ChainAt(ts, p, v).Some?
    ensures var c := ChainAt(ts, p, v).value.0;
      (c.chainType.Some? <==> c.hook.Some?) && (c.hook.Some? <==> c.priority.Some?) &&
      (c.chainType.Some? <==> ts[p + 4] == Ident("type")) &&
      (c.chainType.None? ==> c.device.None? && c.policy.None?)
  {
  }

  /** The device is set exactly when the literal `device` follows the hook
      name. */
  lemma DeviceOnlyAfterKeyword(ts: seq<Token>, p: nat, v: Vocabulary)
    requires p <= |ts| && ChainAt(ts, p, v).Some?
    requires ChainAt(ts, p, v).value.0.hook.Some?
    ensures ChainAt(ts, p, v).value.0.device.Some? <==> p + 8 < |ts| && ts[p + 8] == Ident("device")
    ensures ChainAt(ts, p, v).value.0.device.Some? ==> ts[p + 9] == Ident(ChainAt(ts, p, v).value.0.device.value)
  {
  }

  /** A symbol after the priority's `;` fails the chain. */
  lemma SymbolAfterPriorityFails(ts: seq<Token>, p: nat, v: Vocabulary, j: nat, c: char)
    requires p + 4 < |ts| && ts[p + 4] == Ident("type")
    requires j == (if p + 8 < |ts| && ts[p + 8] == Ident("device") then p + 10 else p + 8)
    requires j + 3 < |ts| && ts[j + 2] == Symbol(';') && ts[j + 3] == Symbol(c)
    ensures ChainAt(ts, p, v).None?
  {
    assert HeaderAt(ts, p + 4, v).None?;
  }

  // ---------------------------------------------------------------------------
  // Writing a chain's tokens, and reading them back

  /** A body line the parser skips: any tokens but a `}`, opening with an
      identifier other than `type` when the chain has no header. */
  predicate SkippableBody(c: Chain, body: seq<Token>) {
    Symbol('}') !in body &&
    (c.chainType.None? ==> body == [] || (body[0].Ident? && body[0] != Ident("type")))
  }

  /** Type, hook and priority are set together or not at all. */
  predicate Shaped(c: Chain) {
    (c.chainType.Some? <==> c.hook.Some?) && (c.hook.Some? <==> c.priority.Some?)
  }

  /** A chain the vocabulary accepts, written the way nft lists it. */
  predicate Listable(c: Chain, v: Vocabulary) {
    Shaped(c) &&
    (c.chainType.None? ==> c.device.None? && c.policy.None?) &&
    (c.chainType.Some? ==> c.chainType.value in v.chainTypes && c.hook.value in v.hooks && Canonical(c.priority.value)) &&
    (c.policy.Some? ==> c.policy.value in v.policies)
  }

  /** The `device D` tokens of the header line, if there is a device. */
  function DeviceTokens(c: Chain): seq<Token> {
    if c.device.Some? then [Ident("device"), Ident(c.device.value)] else []
  }

  /** The `priority P;` tokens, with the priority under its listed name. */
  function PriorityTokens(c: Chain): seq<Token>
    requires c.priority.Some?
  {
    [Ident("priority"), Ident(Keyword(c.priority.value)), Symbol(';')]
  }

  /** The `policy X;` tokens, if there is a policy. */
  function PolicyTokens(c: Chain): seq<Token> {
    if c.policy.Some? then [Ident("policy"), Ident(c.policy.value), Symbol(';')] else []
  }

  /** The header line's tokens, newline included. */
  function HeaderTokens(c: Chain): seq<Token>
    requires c.chainType.Some? && c.hook.Some? && c.priority.Some?
  {
    [Ident("type"), Ident(c.chainType.value), Ident("hook"), Ident(c.hook.value)] +
    DeviceTokens(c) + PriorityTokens(c) + PolicyTokens(c) + [Newline]
  }

  /** A chain's tokens with the given body between its header and its `}`. */
  function ChainTokens(c: Chain, body: seq<Token>): seq<Token>
    requires Shaped(c)
  {
    [Ident("chain"), Ident(c.name), Symbol('{'), Newline] +
    (if c.chainType.Some? then HeaderTokens(c) else []) +
    body + [Symbol('}'), Newline]
  }

  /** The tokens `xs` stand in `ts` from position `p` on. */
  predicate TokensAt(ts: seq<Token>, p: nat, xs: seq<Token>) {
    p + |xs| <= |ts| && forall i :: 0 <= i < |xs| ==> ts[p + i] == xs[i]
  }

  lemma TokensSplit(ts: seq<Token>, p: nat, first: seq<Token>, more: seq<Token>)
    requires TokensAt(ts, p, first + more)
    ensures TokensAt(ts, p, first) && TokensAt(ts, p + |first|, more)
  {
    forall i | 0 <= i < |first| ensures ts[p + i] == first[i] {
      assert ts[p + i] == (first + more)[i];
    }
    forall i | 0 <= i < |more| ensures ts[p + |first| + i] == more[i] {
      assert ts[p + (|first| + i)] == (first + more)[|first| + i];
    }
  }

  lemma TypeHookOfTokens(ts: seq<Token>, i: nat, c: Chain, v: Vocabulary)
    requires Listable(c, v) && c.chainType.Some?
    requires TokensAt(ts, i, [Ident("type"), Ident(c.chainType.value), Ident("hook"), Ident(c.hook.value)])
    ensures TypeHookAt(ts, i, v) == Some((c.chainType.value, c.hook.value))
  {
    var xs := [Ident("type"), Ident(c.chainType.value), Ident("hook"), Ident(c.hook.value)];
    assert ts[i] == xs[0] && ts[i + 1] == xs[1] && ts[i + 2] == xs[2] && ts[i + 3] == xs[3];
  }

  lemma DeviceOfTokens(ts: seq<Token>, i: nat, c: Chain)
    requires c.priority.Some? && i <= |ts|
    requires TokensAt(ts, i, DeviceTokens(c)) && TokensAt(ts, i + |DeviceTokens(c)|, PriorityTokens(c))
    ensures DeviceAt(ts, i) == Some((c.device, i + |DeviceTokens(c)|))
  {
    if c.device.Some? {
      assert ts[i] == DeviceTokens(c)[0] && ts[i + 1] == DeviceTokens(c)[1];
    } else {
      assert ts[i + 0] == PriorityTokens(c)[0];
    }
  }

  lemma PriorityOfTokens(ts: seq<Token>, i: nat, c: Chain)
    requires c.priority.Some? && Canonical(c.priority.value)
    requires TokensAt(ts, i, PriorityTokens(c))
    ensures PriorityAt(ts, i) == Some((c.priority.value, i + 3))
  {
    var xs := PriorityTokens(c);
    FromStrKeyword(c.priority.value);
    assert ts[i] == xs[0] && ts[i + 1] == xs[1] && ts[i + 2] == xs[2];
  }

  lemma PolicyOfTokens(ts: seq<Token>, i: nat, c: Chain, v: Vocabulary)
    requires c.policy.Some? ==> c.policy.value in v.policies
    requires TokensAt(ts, i, PolicyTokens(c) + [Newline])
    ensures PolicyAt(ts, i, v) == Some((c.policy, i + |PolicyTokens(c)|))
  {
    var xs := PolicyTokens(c) + [Newline];
    if c.policy.Some? {
      assert ts[i] == xs[0] && ts[i + 1] == xs[1] && ts[i + 2] == xs[2];
    } else {
      assert ts[i + 0] == xs[0];
    }
  }

  /** The header a chain with a type line carries. */
  function HeaderOf(c: Chain): Header
    requires c.chainType.Some? && c.hook.Some? && c.priority.Some?
  {
    Header(c.chainType.value, c.hook.value, c.device, c.priority.value, c.policy)
  }

  /** A listable chain's header line, wherever it stands, reads back as its
      header, and the parser stops on the line's newline. */
  lemma HeaderOfTokens(ts: seq<Token>, i: nat, c: Chain, v: Vocabulary)
    requires Listable(c, v) && c.chainType.Some?
    requires TokensAt(ts, i, HeaderTokens(c))
    ensures HeaderAt(ts, i, v) == Some((HeaderOf(c), i + |HeaderTokens(c)| - 1))
  {
    var dv := DeviceTokens(c);
    HeaderPieces(ts, i, c);
    TypeHookOfTokens(ts, i, c, v);
    DeviceOfTokens(ts, i + 4, c);
    PriorityOfTokens(ts, i + 4 + |dv|, c);
    PolicyOfTokens(ts, i + 4 + |dv| + 3, c, v);
  }

  /** The four pieces of a header line, each in its place. */
  lemma HeaderPieces(ts: seq<Token>, i: nat, c: Chain)
    requires c.chainType.Some? && c.hook.Some? && c.priority.Some?
    requires TokensAt(ts, i, HeaderTokens(c))
    ensures TokensAt(ts, i, [Ident("type"), Ident(c.chainType.value), Ident("hook"), Ident(c.hook.value)])
    ensures TokensAt(ts, i + 4, DeviceTokens(c))
    ensures TokensAt(ts, i + 4 + |DeviceTokens(c)|, PriorityTokens(c))
    ensures TokensAt(ts, i + 4 + |DeviceTokens(c)| + 3, PolicyTokens(c) + [Newline])
    ensures |HeaderTokens(c)| == 4 + |DeviceTokens(c)| + 3 + |PolicyTokens(c)| + 1
  {
    var th := [Ident("type"), Ident(c.chainType.value), Ident("hook"), Ident(c.hook.value)];
    var dv, pr, po := DeviceTokens(c), PriorityTokens(c), PolicyTokens(c);
    assert HeaderTokens(c) == th + (dv + (pr + (po + [Newline])));
    TokensSplit(ts, i, th, dv + (pr + (po + [Newline])));
    TokensSplit(ts, i + 4, dv, pr + (po + [Newline]));
    TokensSplit(ts, i + 4 + |dv|, pr, po + [Newline]);
  }

  /** `ClosingAt` from `i` stops on the first `}`, at `e`. */
  lemma {:induction false} ClosingAtSkip(ts: seq<Token>, i: nat, e: nat)
    requires 0 < i <= e < |ts| && ts[e] == Symbol('}')
    requires forall j :: i <= j < e ==> ts[j] != Symbol('}')
    ensures ClosingAt(ts, i) == e
    decreases e - i
  {
    if i < e {
      ClosingAtSkip(ts, i + 1, e);
    }
  }

  /** The opening `chain NAME {` and newline at position `p`. */
  predicate OpensChain(ts: seq<Token>, p: nat, name: string) {
    p + 4 < |ts| && ts[p] == Ident("chain") && ts[p + 1] == Ident(name) && ts[p + 2] == Symbol('{') && ts[p + 3] == Newline
  }

  lemma ChainAtTyped(ts: seq<Token>, p: nat, name: string, h: Header, k: nat, v: Vocabulary)
    requires OpensChain(ts, p, name) && ts[p + 4] == Ident("type")
    requires HeaderAt(ts, p + 4, v) == Some((h, k))
    ensures ChainAt(ts, p, v) == CloseAt(ts, ClosingAt(ts, k), WithHeader(name, h))
  {
  }

  lemma ChainAtUntyped(ts: seq<Token>, p: nat, name: string, v: Vocabulary)
    requires OpensChain(ts, p, name) && ts[p + 4] != Ident("type")
    ensures ChainAt(ts, p, v) ==
      if ts[p + 4].Ident? then CloseAt(ts, ClosingAt(ts, p + 4), Named(name)) else CloseAt(ts, p + 4, Named(name))
  {
  }

  /** What the chain parser needs to see for a chain with a header: the
      opening, the header ending at `k`, and the closing `}` and newline
      ending at `end`. */
  predicate TypedFacts(ts: seq<Token>, p: nat, name: string, h: Header, k: nat, end: nat, v: Vocabulary) {
    OpensChain(ts, p, name) && ts[p + 4] == Ident("type") && 0 < k <= |ts| &&
    HeaderAt(ts, p + 4, v) == Some((h, k)) && 2 <= end <= |ts| && ClosingAt(ts, k) == end - 2 &&
    ts[end - 2] == Symbol('}') && ts[end - 1] == Newline
  }

  lemma TypedAt(ts: seq<Token>, p: nat, c: Chain, h: Header, k: nat, end: nat, v: Vocabulary)
    requires TypedFacts(ts, p, c.name, h, k, end, v) && c == WithHeader(c.name, h)
    ensures ChainAt(ts, p, v) == Some((c, end))
  {
    ChainAtTyped(ts, p, c.name, h, k, v);
  }

  /** What the chain parser needs to see for a chain without a header: the
      opening, then the closing `}` and newline ending at `end`, found by
      skipping a body that opens with an identifier, or right away. */
  predicate UntypedFacts(ts: seq<Token>, p: nat, name: string, end: nat) {
    OpensChain(ts, p, name) && ts[p + 4] != Ident("type") && 2 <= end <= |ts| &&
    (if ts[p + 4].Ident? then ClosingAt(ts, p + 4) == end - 2 else end == p + 6) &&
    ts[end - 2] == Symbol('}') && ts[end - 1] == Newline
  }

  lemma UntypedAt(ts: seq<Token>, p: nat, c: Chain, end: nat, v: Vocabulary)
    requires UntypedFacts(ts, p, c.name, end) && c == Named(c.name)
    ensures ChainAt(ts, p, v) == Some((c, end))
  {
    ChainAtUntyped(ts, p, c.name, v);
  }

  /** The opening tokens at `p`. */
  lemma OpensOfTokens(ts: seq<Token>, p: nat, name: string)
    requires TokensAt(ts, p, [Ident("chain"), Ident(name), Symbol('{'), Newline]) && p + 4 < |ts|
    ensures OpensChain(ts, p, name)
  {
    var xs := [Ident("chain"), Ident(name), Symbol('{'), Newline];
    assert ts[p] == xs[0] && ts[p + 1] == xs[1] && ts[p + 2] == xs[2] && ts[p + 3] == xs[3];
  }

  /** The body and the closing `}` and newline from `i`: the search from `k`
      stops on that `}` when `ts[k]` is not one. */
  lemma ClosingOfTokens(ts: seq<Token>, k: nat, i: nat, body: seq<Token>)
    requires TokensAt(ts, i, body + [Symbol('}'), Newline])
    requires 0 < k <= i && Symbol('}') !in body && forall j :: k <= j < i ==> ts[j] != Symbol('}')
    ensures ClosingAt(ts, k) == i + |body|
    ensures ts[i + |body|] == Symbol('}') && ts[i + |body| + 1] == Newline
  {
    var xs := body + [Symbol('}'), Newline];
    assert ts[i + |body|] == xs[|body|] && ts[i + |body| + 1] == xs[|body| + 1];
    forall j | k <= j < i + |body| ensures ts[j] != Symbol('}') {
      if j >= i { assert ts[i + (j - i)] == xs[j - i]; }
    }
    ClosingAtSkip(ts, k, i + |body|);
  }

  /** The tokens of a chain with a header, wherever they stand, as the
      parser sees them. */
  lemma TypedFactsAt(ts: seq<Token>, p: nat, c: Chain, body: seq<Token>, v: Vocabulary)
    requires Listable(c, v) && SkippableBody(c, body) && c.chainType.Some?
    requires TokensAt(ts, p, ChainTokens(c, body))
    ensures TypedFacts(ts, p, c.name, HeaderOf(c), p + 3 + |HeaderTokens(c)|, p + |ChainTokens(c, body)|, v)
  {
    TypedPieces(ts, p, c, body);
    TypedFactsOfPieces(ts, p, c, body, v);
  }

  lemma TypedFactsOfPieces(ts: seq<Token>, p: nat, c: Chain, body: seq<Token>, v: Vocabulary)
    requires Listable(c, v) && SkippableBody(c, body) && c.chainType.Some?
    requires TokensAt(ts, p, [Ident("chain"), Ident(c.name), Symbol('{'), Newline])
    requires TokensAt(ts, p + 4, HeaderTokens(c))
    requires TokensAt(ts, p + 4 + |HeaderTokens(c)|, body + [Symbol('}'), Newline])
    requires ts[p + 4] == Ident("type") && ts[p + 3 + |HeaderTokens(c)|] == Newline
    ensures TypedFacts(ts, p, c.name, HeaderOf(c), p + 3 + |HeaderTokens(c)|, p + 4 + |HeaderTokens(c)| + |body| + 2, v)
  {
    var k := p + 3 + |HeaderTokens(c)|;
    OpensOfTokens(ts, p, c.name);
    HeaderOfTokens(ts, p + 4, c, v);
    ClosingOfTokens(ts, k, k + 1, body);
  }

  /** The three pieces of a chain with a header, each in its place. */
  lemma TypedPieces(ts: seq<Token>, p: nat, c: Chain, body: seq<Token>)
    requires Shaped(c) && c.chainType.Some?
    requires TokensAt(ts, p, ChainTokens(c, body))
    ensures TokensAt(ts, p, [Ident("chain"), Ident(c.name), Symbol('{'), Newline])
    ensures TokensAt(ts, p + 4, HeaderTokens(c))
    ensures TokensAt(ts, p + 4 + |HeaderTokens(c)|, body + [Symbol('}'), Newline])
    ensures ts[p + 4] == Ident("type") && ts[p + 3 + |HeaderTokens(c)|] == Newline
  {
    var open := [Ident("chain"), Ident(c.name), Symbol('{'), Newline];
    var h := HeaderTokens(c);
    var close := body + [Symbol('}'), Newline];
    assert ChainTokens(c, body) == open + (h + close);
    TokensSplit(ts, p, open, h + close);
    TokensSplit(ts, p + 4, h, close);
    assert ts[p + 4 + 0] == h[0] && ts[p + 4 + (|h| - 1)] == h[|h| - 1];
  }

  /** The tokens of a chain without a header, wherever they stand, as the
      parser sees them. */
  lemma UntypedFactsAt(ts: seq<Token>, p: nat, c: Chain, body: seq<Token>, v: Vocabulary)
    requires Listable(c, v) && SkippableBody(c, body) && c.chainType.None?
    requires TokensAt(ts, p, ChainTokens(c, body))
    ensures UntypedFacts(ts, p, c.name, p + |ChainTokens(c, body)|)
  {
    var open := [Ident("chain"), Ident(c.name), Symbol('{'), Newline];
    var close := body + [Symbol('}'), Newline];
    assert ChainTokens(c, body) == open + close;
    TokensSplit(ts, p, open, close);
    OpensOfTokens(ts, p, c.name);
    assert ts[p + 4 + 0] == close[0];
    if body == [] {
      assert ts[p + 4 + 1] == close[1];
    } else {
      ClosingOfTokens(ts, p + 4, p + 4, body);
    }
  }

  /** Parsing a listable chain's tokens, wherever they stand in the stream,
      gives the chain and stops just after its closing newline. */
  lemma ChainRoundTrip(ts: seq<Token>, p: nat, c: Chain, body: seq<Token>, v: Vocabulary)
    requires Listable(c, v) && SkippableBody(c, body)
    requires TokensAt(ts, p, ChainTokens(c, body))
    ensures ChainAt(ts, p, v) == Some((c, p + |ChainTokens(c, body)|))
  {
    if c.chainType.Some? {
      TypedRoundTrip(ts, p, c, body, v);
    } else {
      UntypedFactsAt(ts, p, c, body, v);
      assert c == Named(c.name);
      UntypedAt(ts, p, c, p + |ChainTokens(c, body)|, v);
    }
  }

  lemma TypedRoundTrip(ts: seq<Token>, p: nat, c: Chain, body: seq<Token>, v: Vocabulary)
    requires Listable(c, v) && SkippableBody(c, body) && c.chainType.Some?
    requires TokensAt(ts, p, ChainTokens(c, body))
    ensures ChainAt(ts, p, v) == Some((c, p + |ChainTokens(c, body)|))
  {
    TypedFactsAt(ts, p, c, body, v);
    assert c == WithHeader(c.name, HeaderOf(c));
    TypedAt(ts, p, c, HeaderOf(c), p + 3 + |HeaderTokens(c)|, p + |ChainTokens(c, body)|, v);
  }
}
