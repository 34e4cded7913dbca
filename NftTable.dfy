/** The nftables table parser (`table.rs`): `table FAMILY NAME {`, the
    chains, and the closing `}`. */
module NftTable {
  import opened Common
  import opened TokenStream
  import opened NftChain

  datatype Table = Table(name: string, family: string, chains: seq<Chain>)

  /** The chains from position `i` for as long as the next token is the
      identifier `chain`, and the position after the last of them. */
  function ChainsFrom(ts: seq<Token>, i: nat, v: Vocabulary): (r: Option<(seq<Chain>, nat)>)
    requires i <= |ts|
    ensures r.Some? ==> i <= r.value.1 <= |ts| && At(ts, r.value.1) != Some(Ident("chain"))
    ensures At(ts, i) != Some(Ident("chain")) ==> r == Some(([], i))
    decreases |ts| - i
  {
    if At(ts, i) != Some(Ident("chain")) then Some(([], i))
    else
      match ChainAt(ts, i, v)
      case None => None
      case Some((c, j)) =>
        match ChainsFrom(ts, j, v)
        case None => None
        case Some((cs, e)) => Some(([c] + cs, e))
  }

  /** The opening `table FAMILY NAME {` and newline at `p`, with a family
      the vocabulary accepts. */
  predicate TableOpens(ts: seq<Token>, p: nat, v: Vocabulary) {
    At(ts, p) == Some(Ident("table")) && IdentAt(ts, p + 1).Some? && IdentAt(ts, p + 1).value in v.families &&
    IdentAt(ts, p + 2).Some? && At(ts, p + 3) == Some(Symbol('{')) && At(ts, p + 4) == Some(Newline)
  }

  /** `Table::try_from`: the table starting at position `p`, and the position
      just after its closing `}`. */
  function TableAt(ts: seq<Token>, p: nat, v: Vocabulary): (r: Option<(Table, nat)>)
    requires p <= |ts|
    ensures r.Some? ==> p + 6 <= r.value.1 <= |ts| && ts[r.value.1 - 1] == Symbol('}')
    ensures r.Some? ==> ts[p + 1] == Ident(r.value.0.family) && ts[p + 2] == Ident(r.value.0.name)
    ensures r.Some? ==> r.value.0.family in v.families
  {
    if !TableOpens(ts, p, v) then None
    else
      match ChainsFrom(ts, p + 5, v)
      case None => None
      case Some((cs, e)) =>
        if At(ts, e) != Some(Symbol('}')) then None
        else Some((Table(IdentAt(ts, p + 2).value, IdentAt(ts, p + 1).value, cs), e + 1))
  }

  /** The chains collected so far in front of the ones still to come. */
  function Prepend(cs: seq<Chain>, r: Option<(seq<Chain>, nat)>): Option<(seq<Chain>, nat)> {
    match r
    case None => None
    case Some((more, e)) => Some((cs + more, e))
  }

  /** One chain, then the chains after it. */
  lemma ChainsFromStep(ts: seq<Token>, i: nat, v: Vocabulary)
    requires i <= |ts| && At(ts, i) == Some(Ident("chain")) && ChainAt(ts, i, v).Some?
    ensures ChainsFrom(ts, i, v) == Prepend([ChainAt(ts, i, v).value.0], ChainsFrom(ts, ChainAt(ts, i, v).value.1, v))
  {
  }

  lemma PrependAll(a: seq<Chain>, b: seq<Chain>, r: Option<(seq<Chain>, nat)>)
    ensures Prepend(a, Prepend(b, r)) == Prepend(a + b, r)
    ensures Prepend([], r) == r
  {
    match r
    case None =>
    case Some((more, e)) =>
      assert a + (b + more) == (a + b) + more;
      assert [] + more == more;
  }

  /** The chain loop: chains are parsed, in order, while `chain` is next. */
  method ParseChains(stream: TokenStream, v: Vocabulary) returns (r: Result<seq<Chain>>)
    requires stream.Valid()
    modifies stream`pos
    ensures stream.Valid()
    ensures r.Ok? <==> ChainsFrom(stream.tokens, old(stream.pos), v).Some?
    ensures r.Ok? ==> (r.value, stream.pos) == ChainsFrom(stream.tokens, old(stream.pos), v).value
  {
    var chains: seq<Chain> := [];
    PrependAll([], [], ChainsFrom(stream.tokens, stream.pos, v));
    while true
      invariant stream.Valid() && old(stream.pos) <= stream.pos
      invariant ChainsFrom(stream.tokens, old(stream.pos), v) == Prepend(chains, ChainsFrom(stream.tokens, stream.pos, v))
      decreases |stream.tokens| - stream.pos
    {
      var t := stream.Peek();
      if t != Some(Ident("chain")) {
        assert chains + [] == chains;
        return Ok(chains);
      }
      ghost var next := ChainsFrom(stream.tokens, stream.pos, v);
      ghost var here := stream.pos;
      var c := ParseChain(stream, v);
      if c.Err? {
        return Err(c.msg);
      }
      ChainsFromStep(stream.tokens, here, v);
      PrependAll(chains, [c.value], ChainsFrom(stream.tokens, stream.pos, v));
      chains := chains + [c.value];
    }
  }

  /** The table's opening line on the cursor: the family and the name. */
  method ParseTableOpen(stream: TokenStream, v: Vocabulary) returns (r: Result<(string, string)>)
    requires stream.Valid()
    modifies stream`pos
    ensures stream.Valid()
    ensures r.Ok? <==> TableOpens(stream.tokens, old(stream.pos), v)
    ensures r.Ok? ==> stream.pos == old(stream.pos) + 5
    ensures r.Ok? ==> r.value == (IdentAt(stream.tokens, old(stream.pos) + 1).value, IdentAt(stream.tokens, old(stream.pos) + 2).value)
  {
    var e := stream.ExpectIdent("table");
    if e.Err? { return Err(e.msg); }
    var family := stream.ExpectAnyIdent();
    if family.Err? { return Err(family.msg); }
    if family.value !in v.families { return Err("Invalid family: " + family.value); }
    var name := stream.ExpectAnyIdent();
    if name.Err? { return Err(name.msg); }
    e := stream.ExpectSymbol('{');
    if e.Err? { return Err(e.msg); }
    e := stream.ExpectNewline();
    if e.Err? { return Err(e.msg); }
    return Ok((family.value, name.value));
  }

  /** `Table::try_from(&mut TokenStream)`. */
  method ParseTable(stream: TokenStream, v: Vocabulary) returns (r: Result<Table>)
    requires stream.Valid()
    modifies stream`pos
    ensures stream.Valid()
    ensures r.Ok? <==> TableAt(stream.tokens, old(stream.pos), v).Some?
    ensures r.Ok? ==> (r.value, stream.pos) == TableAt(stream.tokens, old(stream.pos), v).value
  {
    ghost var ts, p := stream.tokens, stream.pos;
    var opening := ParseTableOpen(stream, v);
    if opening.Err? { return Err(opening.msg); }
    var chains := ParseChains(stream, v);
    if chains.Err? {
      TableAtSteps(ts, p, v);
      return Err(chains.msg);
    }
    var e := stream.ExpectSymbol('}');
    TableAtSteps(ts, p, v);
    if e.Err? { return Err(e.msg); }
    return Ok(Table(opening.value.1, opening.value.0, chains.value));
  }

  /** `TableAt` once the opening line is read: the chains, then `}`. */
  lemma TableAtSteps(ts: seq<Token>, p: nat, v: Vocabulary)
    requires p <= |ts| && TableOpens(ts, p, v)
    ensures ChainsFrom(ts, p + 5, v).None? ==> TableAt(ts, p, v).None?
    ensures ChainsFrom(ts, p + 5, v).Some? ==>
      var (cs, e) := ChainsFrom(ts, p + 5, v).value;
      TableAt(ts, p, v) == if At(ts, e) == Some(Symbol('}')) then Some((Table(IdentAt(ts, p + 2).value, IdentAt(ts, p + 1).value, cs), e + 1)) else None
  {
  }

  // ---------------------------------------------------------------------------
  // Writing a table's tokens, and reading them back

  /** The chains' tokens, each with its body, one after the other. */
  function AllChainTokens(cs: seq<Chain>, bodies: seq<seq<Token>>): seq<Token>
    requires |bodies| == |cs|
    requires forall k :: 0 <= k < |cs| ==> Shaped(cs[k])
  {
    if cs == [] then [] else ChainTokens(cs[0], bodies[0]) + AllChainTokens(cs[1..], bodies[1..])
  }

  /** The table's tokens, up to its closing `}`. */
  function TableTokens(t: Table, bodies: seq<seq<Token>>): seq<Token>
    requires |bodies| == |t.chains|
    requires forall k :: 0 <= k < |t.chains| ==> Shaped(t.chains[k])
  {
    [Ident("table"), Ident(t.family), Ident(t.name), Symbol('{'), Newline] + AllChainTokens(t.chains, bodies) + [Symbol('}')]
  }

  /** Chains the vocabulary accepts, each with a body the parser skips. */
  predicate ListableChains(cs: seq<Chain>, bodies: seq<seq<Token>>, v: Vocabulary) {
    |bodies| == |cs| &&
    (forall k :: 0 <= k < |cs| ==> Shaped(cs[k])) &&
    (forall k :: 0 <= k < |cs| ==> Listable(cs[k], v) && SkippableBody(cs[k], bodies[k]))
  }

  /** The chains' tokens one after the other from `p`, each in its place. */
  predicate Placed(ts: seq<Token>, p: nat, cs: seq<Chain>, bodies: seq<seq<Token>>)
    decreases |cs|
  {
    |bodies| == |cs| && (forall k :: 0 <= k < |cs| ==> Shaped(cs[k])) &&
    if cs == [] then p <= |ts|
    else
      var n := |ChainTokens(cs[0], bodies[0])|;
      TokensAt(ts, p, ChainTokens(cs[0], bodies[0])) && Placed(ts, p + n, cs[1..], bodies[1..])
  }

  /** The chains' tokens laid out from `p` are each in their place. */
  lemma {:induction false} PlacedOf(ts: seq<Token>, p: nat, cs: seq<Chain>, bodies: seq<seq<Token>>)
    requires |bodies| == |cs| && forall k :: 0 <= k < |cs| ==> Shaped(cs[k])
    requires TokensAt(ts, p, AllChainTokens(cs, bodies))
    ensures Placed(ts, p, cs, bodies)
    decreases |cs|
  {
    if cs != [] {
      var first := ChainTokens(cs[0], bodies[0]);
      var more := AllChainTokens(cs[1..], bodies[1..]);
      assert AllChainTokens(cs, bodies) == first + more;
      TokensSplit(ts, p, first, more);
      assert forall k :: 0 <= k < |cs[1..]| ==> Shaped(cs[1..][k]) by {
        forall k | 0 <= k < |cs[1..]| ensures Shaped(cs[1..][k]) {
          assert cs[1..][k] == cs[k + 1];
        }
      }
      PlacedOf(ts, p + |first|, cs[1..], bodies[1..]);
    }
  }

  /** What the chains after the first need: they are listable, in their
      places, and end where the whole list ends. */
  lemma ChainsTail(ts: seq<Token>, p: nat, cs: seq<Chain>, bodies: seq<seq<Token>>, v: Vocabulary)
    requires ListableChains(cs, bodies, v) && Placed(ts, p, cs, bodies) && cs != []
    requires p + |AllChainTokens(cs, bodies)| <= |ts|
    ensures ListableChains(cs[1..], bodies[1..], v)
    ensures Placed(ts, p + |ChainTokens(cs[0], bodies[0])|, cs[1..], bodies[1..])
    ensures p + |AllChainTokens(cs, bodies)| ==
      p + |ChainTokens(cs[0], bodies[0])| + |AllChainTokens(cs[1..], bodies[1..])|
  {
    assert forall k :: 0 <= k < |cs[1..]| ==> cs[1..][k] == cs[k + 1] && bodies[1..][k] == bodies[k + 1];
  }

  /** The first chain of a listable list, read at `p`. */
  lemma FirstChain(ts: seq<Token>, p: nat, cs: seq<Chain>, bodies: seq<seq<Token>>, q: nat, v: Vocabulary)
    requires ListableChains(cs, bodies, v) && Placed(ts, p, cs, bodies) && cs != []
    requires q == p + |ChainTokens(cs[0], bodies[0])|
    ensures At(ts, p) == Some(Ident("chain")) && p <= q <= |ts|
    ensures ChainAt(ts, p, v) == Some((cs[0], q))
  {
    var n := |ChainTokens(cs[0], bodies[0])|;
    assert Listable(cs[0], v) && SkippableBody(cs[0], bodies[0]);
    ChainRoundTrip(ts, p, cs[0], bodies[0], v);
    assert ts[p + 0] == ChainTokens(cs[0], bodies[0])[0];
  }

  /** A chain at `p` followed by the list of the others is the whole list. */
  lemma ChainsCons(ts: seq<Token>, p: nat, cs: seq<Chain>, q: nat, e: nat, v: Vocabulary)
    requires cs != [] && p <= q <= |ts| && At(ts, p) == Some(Ident("chain"))
    requires ChainAt(ts, p, v) == Some((cs[0], q)) && ChainsFrom(ts, q, v) == Some((cs[1..], e))
    ensures ChainsFrom(ts, p, v) == Some((cs, e))
  {
    assert [cs[0]] + cs[1..] == cs;
  }

  /** The tokens of listable chains, each in its place and followed by
      anything but `chain`, read back as those chains. */
  lemma {:induction false} ChainsOfTokens(ts: seq<Token>, p: nat, cs: seq<Chain>, bodies: seq<seq<Token>>, v: Vocabulary)
    requires ListableChains(cs, bodies, v) && Placed(ts, p, cs, bodies)
    requires p + |AllChainTokens(cs, bodies)| <= |ts| && At(ts, p + |AllChainTokens(cs, bodies)|) != Some(Ident("chain"))
    ensures ChainsFrom(ts, p, v) == Some((cs, p + |AllChainTokens(cs, bodies)|))
    decreases |cs|
  {
    if cs == [] {
      assert AllChainTokens(cs, bodies) == [];
    } else {
      ChainsTail(ts, p, cs, bodies, v);
      var q := p + |ChainTokens(cs[0], bodies[0])|;
      ChainsOfTokens(ts, q, cs[1..], bodies[1..], v);
      FirstChain(ts, p, cs, bodies, q, v);
      ChainsCons(ts, p, cs, q, q + |AllChainTokens(cs[1..], bodies[1..])|, v);
    }
  }

  /** What the table parser needs to see: the opening line, the chains from
      `p + 5`, and the closing `}` just before `end`. */
  predicate TableFacts(ts: seq<Token>, p: nat, t: Table, end: nat, v: Vocabulary) {
    p + 6 <= end <= |ts| && ts[p] == Ident("table") && ts[p + 1] == Ident(t.family) && t.family in v.families &&
    ts[p + 2] == Ident(t.name) && ts[p + 3] == Symbol('{') && ts[p + 4] == Newline &&
    ChainsFrom(ts, p + 5, v) == Some((t.chains, end - 1)) && ts[end - 1] == Symbol('}')
  }

  lemma TableAtFacts(ts: seq<Token>, p: nat, t: Table, end: nat, v: Vocabulary)
    requires TableFacts(ts, p, t, end, v)
    ensures TableAt(ts, p, v) == Some((t, end))
  {
  }

  /** Where the parts of a table's tokens stand. */
  lemma TableLayout(ts: seq<Token>, p: nat, t: Table, bodies: seq<seq<Token>>)
    requires |bodies| == |t.chains| && forall k :: 0 <= k < |t.chains| ==> Shaped(t.chains[k])
    requires TokensAt(ts, p, TableTokens(t, bodies))
    ensures |TableTokens(t, bodies)| == 5 + |AllChainTokens(t.chains, bodies)| + 1
    ensures ts[p] == Ident("table") && ts[p + 1] == Ident(t.family) && ts[p + 2] == Ident(t.name)
    ensures ts[p + 3] == Symbol('{') && ts[p + 4] == Newline
    ensures TokensAt(ts, p + 5, AllChainTokens(t.chains, bodies))
    ensures ts[p + 5 + |AllChainTokens(t.chains, bodies)|] == Symbol('}')
  {
    var tt := TableTokens(t, bodies);
    var all := AllChainTokens(t.chains, bodies);
    assert ts[p + 0] == tt[0] && ts[p + 1] == tt[1] && ts[p + 2] == tt[2] && ts[p + 3] == tt[3] && ts[p + 4] == tt[4];
    assert ts[p + (5 + |all|)] == tt[5 + |all|];
    forall i | 0 <= i < |all| ensures ts[p + 5 + i] == all[i] {
      assert ts[p + (5 + i)] == tt[5 + i];
    }
  }

  /** A table's tokens, wherever they stand, as the parser sees them. */
  lemma TableFactsOf(ts: seq<Token>, p: nat, t: Table, bodies: seq<seq<Token>>, v: Vocabulary)
    requires ListableChains(t.chains, bodies, v) && t.family in v.families
    requires TokensAt(ts, p, TableTokens(t, bodies))
    ensures TableFacts(ts, p, t, p + |TableTokens(t, bodies)|, v)
  {
    TableLayout(ts, p, t, bodies);
    PlacedOf(ts, p + 5, t.chains, bodies);
    ChainsOfTokens(ts, p + 5, t.chains, bodies, v);
  }

  /** Parsing a table's tokens, followed by anything, gives the table with its
      chains in order, and stops just after its `}`. */
  lemma TableRoundTrip(t: Table, bodies: seq<seq<Token>>, rest: seq<Token>, v: Vocabulary)
    requires ListableChains(t.chains, bodies, v) && t.family in v.families
    ensures TableAt(TableTokens(t, bodies) + rest, 0, v) == Some((t, |TableTokens(t, bodies)|))
  {
    var ts := TableTokens(t, bodies) + rest;
    assert TokensAt(ts, 0, TableTokens(t, bodies));
    TableFactsOf(ts, 0, t, bodies, v);
    TableAtFacts(ts, 0, t, |TableTokens(t, bodies)|, v);
  }

  /** A table whose chain list is not followed by `}` is an error. */
  lemma MissingCloseFails(ts: seq<Token>, p: nat, v: Vocabulary)
    requires p + 5 <= |ts|
    requires ChainsFrom(ts, p + 5, v).Some? && At(ts, ChainsFrom(ts, p + 5, v).value.1) != Some(Symbol('}'))
    ensures TableAt(ts, p, v).None?
  {
  }
}
