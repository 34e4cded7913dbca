/** The nftables ruleset tokenizer and the cursor the table and chain parsers
    read it with (`token_stream.rs`). */
module TokenStream {
  import opened Common

  datatype Token = Ident(name: string) | Symbol(sym: char) | Newline

  predicate IsSymbolChar(c: char) { c == '{' || c == '}' || c == ';' }

  predicate IsBlank(c: char) { c == ' ' || c == '\t' }

  /** The characters that end an identifier. */
  predicate IsSeparator(c: char) { IsSymbolChar(c) || IsBlank(c) }

  /** A token a line can hold: a symbol, or an identifier free of separators
      and line breaks. */
  predicate LineToken(t: Token) {
    match t
    case Ident(s) => s != [] && forall i :: 0 <= i < |s| ==> !IsSeparator(s[i]) && s[i] != '\n'
    case Symbol(c) => IsSymbolChar(c)
    case Newline => false
  }

  /** The token at index `i`, if there is one. */
  function At(ts: seq<Token>, i: nat): Option<Token> {
    if i < |ts| then Some(ts[i]) else None
  }

  // ---------------------------------------------------------------------------
  // The cursor

  /** `TokenStream`: the tokens and the position of the next one. */
  class TokenStream {
    const tokens: seq<Token>
    var pos: nat

    ghost predicate Valid()
      reads this
    {
      pos <= |tokens|
    }

    constructor (tokens: seq<Token>)
      ensures this.tokens == tokens && pos == 0 && Valid()
    {
      this.tokens := tokens;
      pos := 0;
    }

    /** `peek`: the token at the position, if any. */
    function Peek(): (r: Option<Token>)
      reads this
      ensures r.Some? <==> pos < |tokens|
      ensures r.Some? ==> r.value == tokens[pos]
      ensures r == At(tokens, pos)
    {
      if pos < |tokens| then Some(tokens[pos]) else None
    }

    /** `peek_n`: the token `n` places ahead, if any. */
    function PeekN(n: nat): (r: Option<Token>)
      reads this
      ensures r.Some? <==> pos + n < |tokens|
      ensures r.Some? ==> r.value == tokens[pos + n]
    {
      if pos + n < |tokens| then Some(tokens[pos + n]) else None
    }

    /** `is_eof`. */
    predicate IsEof()
      reads this
    {
      pos >= |tokens|
    }

    /** `next`: the token at the position, moving past it; at the end, None
        and the position stays. */
    method Next() returns (r: Option<Token>)
      requires Valid()
      modifies this`pos
      ensures Valid()
      ensures r == old(Peek())
      ensures pos == if r.Some? then old(pos) + 1 else old(pos)
    {
      if pos < |tokens| {
        r := Some(tokens[pos]);
        pos := pos + 1;
      } else {
        r := None;
      }
    }

    /** `expect_ident`: the next token must be that identifier; the token is
        consumed whether it matches or not. */
    method ExpectIdent(expected: string) returns (r: Result<()>)
      requires Valid()
      modifies this`pos
      ensures Valid()
      ensures r.Ok? <==> old(Peek()) == Some(Ident(expected))
      ensures pos == if old(pos) < |tokens| then old(pos) + 1 else old(pos)
    {
      var t := Next();
      match t
      case Some(Ident(s)) =>
        if s == expected { r := Ok(()); } else { r := Err("Expected ident `" + expected + "`, found " + s); }
      case Some(_) => r := Err("Expected ident `" + expected + "`");
      case None => r := Err("Expected ident `" + expected + "`, but reached EOF");
    }

    /** `expect_symbol`. */
    method ExpectSymbol(expected: char) returns (r: Result<()>)
      requires Valid()
      modifies this`pos
      ensures Valid()
      ensures r.Ok? <==> old(Peek()) == Some(Symbol(expected))
      ensures pos == if old(pos) < |tokens| then old(pos) + 1 else old(pos)
    {
      var t := Next();
      match t
      case Some(Symbol(c)) =>
        if c == expected { r := Ok(()); } else { r := Err("Expected symbol `" + [expected] + "`, found " + [c]); }
      case Some(_) => r := Err("Expected symbol `" + [expected] + "`");
      case None => r := Err("Expected symbol `" + [expected] + "`, but reached EOF");
    }

    /** `expect_any_ident`: the name of the next token, which must be an
        identifier. */
    method ExpectAnyIdent() returns (r: Result<string>)
      requires Valid()
      modifies this`pos
      ensures Valid()
      ensures r.Ok? <==> old(Peek()).Some? && old(Peek()).value.Ident?
      ensures r.Ok? ==> r.value == old(Peek()).value.name
      ensures pos == if old(pos) < |tokens| then old(pos) + 1 else old(pos)
    {
      var t := Next();
      match t
      case Some(Ident(s)) => r := Ok(s);
      case Some(_) => r := Err("Expected any ident");
      case None => r := Err("Expected any ident, but reached EOF");
    }

    /** `expect_newline`. */
    method ExpectNewline() returns (r: Result<()>)
      requires Valid()
      modifies this`pos
      ensures Valid()
      ensures r.Ok? <==> old(Peek()) == Some(Newline)
      ensures pos == if old(pos) < |tokens| then old(pos) + 1 else old(pos)
    {
      var t := Next();
      match t
      case Some(Newline) => r := Ok(());
      case Some(_) => r := Err("Expected newline");
      case None => r := Err("Expected newline, but reached EOF");
    }

    /** `expect_any_symbol`. */
    method ExpectAnySymbol() returns (r: Result<char>)
      requires Valid()
      modifies this`pos
      ensures Valid()
      ensures r.Ok? <==> old(Peek()).Some? && old(Peek()).value.Symbol?
      ensures r.Ok? ==> r.value == old(Peek()).value.sym
      ensures pos == if old(pos) < |tokens| then old(pos) + 1 else old(pos)
    {
      var t := Next();
      match t
      case Some(Symbol(c)) => r := Ok(c);
      case Some(_) => r := Err("Expected any symbol");
      case None => r := Err("Expected any symbol, but reached EOF");
    }

    /** `position`. */
    function Position(): nat
      reads this
    {
      pos
    }

    /** `rewind`: back (or forward) to `to`, but never past the end. */
    method Rewind(to: nat)
      modifies this`pos
      ensures Valid()
      ensures pos == if to < |tokens| then to else |tokens|
    {
      pos := if to < |tokens| then to else |tokens|;
    }

    /** `skip_until`: consumes tokens up to and including the first one equal
        to `target` and reports true; without one, consumes everything and
        reports false. */
    method SkipUntil(target: Token) returns (found: bool)
      requires Valid()
      modifies this`pos
      ensures Valid()
      ensures found <==> target in tokens[old(pos)..]
      ensures found ==> old(pos) < pos && tokens[pos - 1] == target && target !in tokens[old(pos)..pos - 1]
      ensures !found ==> pos == |tokens|
    {
      while true
        invariant Valid() && old(pos) <= pos
        invariant target !in tokens[old(pos)..pos]
        decreases |tokens| - pos
      {
        var t := Next();
        if t.None? {
          assert tokens[old(pos)..] == tokens[old(pos)..pos];
          return false;
        }
        if t.value == target {
          assert tokens[old(pos)..pos - 1] == tokens[old(pos)..old(pos) + (pos - 1 - old(pos))];
          assert tokens[pos - 1] in tokens[old(pos)..];
          return true;
        }
        assert tokens[old(pos)..pos] == tokens[old(pos)..pos - 1] + [tokens[pos - 1]];
      }
    }
  }

  // ---------------------------------------------------------------------------
  // The tokenizer

  /** The identifier collected so far, as a token list: none when empty. */
  function Flush(current: string): seq<Token> {
    if current == [] then [] else [Ident(current)]
  }

  /** The tokens of the characters `chars` of a line, with `current` the
      identifier collected before them. */
  function Scan(chars: string, current: string): seq<Token>
    decreases |chars|
  {
    if chars == [] then Flush(current)
    else if IsSymbolChar(chars[0]) then Flush(current) + [Symbol(chars[0])] + Scan(chars[1..], "")
    else if IsBlank(chars[0]) then Flush(current) + Scan(chars[1..], "")
    else Scan(chars[1..], current + [chars[0]])
  }

  /** Lines holding nothing but white space, and comment lines, give nothing. */
  predicate Skipped(line: string) {
    var t := Trim(line);
    t == [] || t[0] == '#'
  }

  /** The tokens of one line: its trimmed text scanned, then a Newline. */
  function LineTokens(line: string): seq<Token> {
    if Skipped(line) then [] else Scan(Trim(line), "") + [Newline]
  }

  function TokensOfLines(lines: seq<string>): seq<Token> {
    if lines == [] then [] else TokensOfLines(lines[..|lines| - 1]) + LineTokens(lines[|lines| - 1])
  }

  /** `From<&str>`: the tokens of every line. */
  function Tokenize(input: string): seq<Token> {
    TokensOfLines(Split(input, '\n'))
  }

  /** The tokens of one line, collected character by character. */
  method ScanLine(line: string) returns (tokens: seq<Token>)
    ensures tokens == Scan(line, "")
  {
    tokens := [];
    var current := "";
    var i := 0;
    while i < |line|
      invariant 0 <= i <= |line|
      invariant tokens + Scan(line[i..], current) == Scan(line, "")
    {
      var ch := line[i];
      assert line[i..][1..] == line[i + 1..];
      if IsSymbolChar(ch) {
        if current != [] {
          tokens := tokens + [Ident(current)];
          current := "";
        }
        tokens := tokens + [Symbol(ch)];
      } else if IsBlank(ch) {
        if current != [] {
          tokens := tokens + [Ident(current)];
          current := "";
        }
      } else {
        current := current + [ch];
      }
      i := i + 1;
    }
    if current != [] {
      tokens := tokens + [Ident(current)];
    }
  }

  /** The tokens of one line: nothing for a blank or comment line, else its
      trimmed text scanned and a Newline. */
  method TokenizeLine(line: string) returns (tokens: seq<Token>)
    ensures tokens == LineTokens(line)
  {
    var trimmed := Trim(line);
    if trimmed == [] || trimmed[0] == '#' {
      return [];
    }
    tokens := ScanLine(trimmed);
    tokens := tokens + [Newline];
  }

  lemma TokensOfLinesSnoc(lines: seq<string>, k: nat)
    requires k < |lines|
    ensures TokensOfLines(lines[..k + 1]) == TokensOfLines(lines[..k]) + LineTokens(lines[k])
  {
    assert lines[..k + 1][..k] == lines[..k];
  }

  /** `TokenStream::from`: a stream over the input's tokens, at position 0. */
  method FromText(input: string) returns (ts: TokenStream)
    ensures fresh(ts) && ts.Valid()
    ensures ts.tokens == Tokenize(input) && ts.pos == 0
  {
    var lines := Split(input, '\n');
    var tokens: seq<Token> := [];
    var k := 0;
    while k < |lines|
      invariant 0 <= k <= |lines|
      invariant tokens == TokensOfLines(lines[..k])
    {
      var lineTokens := TokenizeLine(lines[k]);
      TokensOfLinesSnoc(lines, k);
      tokens := tokens + lineTokens;
      k := k + 1;
    }
    assert lines[..k] == lines;
    ts := new TokenStream(tokens);
  }

  // ---------------------------------------------------------------------------
  // What the tokens look like

  /** Scanning gives only line tokens: no empty identifier, no Newline. */
  lemma {:induction false} ScanTokens(chars: string, current: string)
    requires forall i :: 0 <= i < |current| ==> !IsSeparator(current[i]) && current[i] != '\n'
    requires forall i :: 0 <= i < |chars| ==> chars[i] != '\n'
    ensures forall k :: 0 <= k < |Scan(chars, current)| ==> LineToken(Scan(chars, current)[k])
    decreases |chars|
  {
    if chars != [] {
      var c := chars[0];
      assert forall i :: 0 <= i < |chars[1..]| ==> chars[1..][i] == chars[i + 1];
      if IsSymbolChar(c) || IsBlank(c) {
        ScanTokens(chars[1..], "");
      } else {
        var cur := current + [c];
        assert forall i :: 0 <= i < |cur| ==> cur[i] == (if i < |current| then current[i] else c);
        ScanTokens(chars[1..], cur);
      }
    }
  }

  /** Every line that is not blank or a comment ends with exactly one Newline,
      and holds no other. */
  lemma LineEndsOnce(line: string)
    requires '\n' !in line
    ensures LineTokens(line) == [] <==> Skipped(line)
    ensures LineTokens(line) != [] ==>
      LineTokens(line)[|LineTokens(line)| - 1] == Newline &&
      forall k :: 0 <= k < |LineTokens(line)| - 1 ==> LineToken(LineTokens(line)[k])
  {
    if !Skipped(line) {
      var t := Trim(line);
      assert forall i :: 0 <= i < |t| ==> t[i] in line by {
        TrimInside(line);
      }
      ScanTokens(t, "");
    }
  }

  lemma TrimInside(s: string)
    ensures forall i :: 0 <= i < |Trim(s)| ==> Trim(s)[i] in s
  {
    var a := TrimStart(s);
    var b := TrimEnd(a);
    assert forall i :: 0 <= i < |b| ==> b[i] == a[i] && a[i] == s[|s| - |a| + i];
  }

  /** The number of Newlines is the number of lines that are neither blank
      nor comments. */
  function Count(tokens: seq<Token>, t: Token): nat {
    if tokens == [] then 0 else Count(tokens[..|tokens| - 1], t) + (if tokens[|tokens| - 1] == t then 1 else 0)
  }

  lemma {:induction false} CountAppend(a: seq<Token>, b: seq<Token>, t: Token)
    ensures Count(a + b, t) == Count(a, t) + Count(b, t)
    decreases |b|
  {
    if b == [] {
      assert a + b == a;
    } else {
      assert (a + b)[..|a + b| - 1] == a + b[..|b| - 1];
      CountAppend(a, b[..|b| - 1], t);
    }
  }

  function CountKept(lines: seq<string>): nat {
    if lines == [] then 0 else CountKept(lines[..|lines| - 1]) + (if Skipped(lines[|lines| - 1]) then 0 else 1)
  }

  lemma {:induction false} LineNewlines(line: string)
    requires '\n' !in line
    ensures Count(LineTokens(line), Newline) == if Skipped(line) then 0 else 1
  {
    LineEndsOnce(line);
    var ts := LineTokens(line);
    if !Skipped(line) {
      var body := ts[..|ts| - 1];
      assert ts == body + [Newline];
      NoNewlineCount(body);
      CountAppend(body, [Newline], Newline);
      assert [Newline][..0] == [];
    }
  }

  lemma {:induction false} NoNewlineCount(ts: seq<Token>)
    requires forall k :: 0 <= k < |ts| ==> LineToken(ts[k])
    ensures Count(ts, Newline) == 0
    decreases |ts|
  {
    if ts != [] {
      NoNewlineCount(ts[..|ts| - 1]);
    }
  }

  lemma {:induction false} NewlinesPerLine(lines: seq<string>)
    requires forall k :: 0 <= k < |lines| ==> '\n' !in lines[k]
    ensures Count(TokensOfLines(lines), Newline) == CountKept(lines)
    decreases |lines|
  {
    if lines != [] {
      var init := lines[..|lines| - 1];
      NewlinesPerLine(init);
      CountAppend(TokensOfLines(init), LineTokens(lines[|lines| - 1]), Newline);
      LineNewlines(lines[|lines| - 1]);
    }
  }

  /** Over a whole input: one Newline per kept line. */
  lemma TokenizeNewlines(input: string)
    ensures Count(Tokenize(input), Newline) == CountKept(Split(input, '\n'))
  {
    NewlinesPerLine(Split(input, '\n'));
  }

  // ---------------------------------------------------------------------------
  // Reading tokens back

  /** A token's text. */
  function TokenText(t: Token): string {
    match t
    case Ident(s) => s
    case Symbol(c) => [c]
    case Newline => "\n"
  }

  /** Line tokens written out, separated by single spaces. */
  function Spaced(ts: seq<Token>): string {
    if ts == [] then "" else if |ts| == 1 then TokenText(ts[0]) else TokenText(ts[0]) + " " + Spaced(ts[1..])
  }

  lemma {:induction false} ScanWord(s: string, rest: string, current: string)
    requires forall i :: 0 <= i < |s| ==> !IsSeparator(s[i])
    ensures Scan(s + rest, current) == Scan(rest, current + s)
    decreases |s|
  {
    if s == [] {
      assert s + rest == rest && current + s == current;
    } else {
      assert (s + rest)[0] == s[0] && (s + rest)[1..] == s[1..] + rest;
      ScanWord(s[1..], rest, current + [s[0]]);
      assert current + [s[0]] + s[1..] == current + s;
    }
  }

  /** One token then a space then more: the token comes out, then the rest. */
  lemma ScanTokenThen(t: Token, rest: string)
    requires LineToken(t)
    ensures rest == [] || IsBlank(rest[0]) ==> Scan(TokenText(t) + rest, "") == [t] + Scan(rest, "")
  {
    if rest == [] || IsBlank(rest[0]) {
      match t
      case Ident(s) =>
        ScanWord(s, rest, "");
        assert "" + s == s;
        if rest != [] {
          assert Scan(rest, s) == [Ident(s)] + Scan(rest[1..], "");
          assert Scan(rest, "") == Scan(rest[1..], "");
        }
      case Symbol(c) =>
        assert ([c] + rest)[1..] == rest;
    }
  }

  /** Writing line tokens out with single spaces and scanning the text gives
      the tokens back. */
  lemma {:induction false} ScanSpaced(ts: seq<Token>)
    requires forall k :: 0 <= k < |ts| ==> LineToken(ts[k])
    ensures Scan(Spaced(ts), "") == ts
    decreases |ts|
  {
    if |ts| == 1 {
      ScanTokenThen(ts[0], "");
      assert TokenText(ts[0]) + "" == TokenText(ts[0]);
    } else if |ts| > 1 {
      var rest := Spaced(ts[1..]);
      ScanSpaced(ts[1..]);
      ScanTokenThen(ts[0], " " + rest);
      assert TokenText(ts[0]) + " " + rest == TokenText(ts[0]) + (" " + rest);
      assert Scan(" " + rest, "") == Scan(rest, "") by {
        assert (" " + rest)[1..] == rest;
      }
      assert ts == [ts[0]] + ts[1..];
    }
  }

  /** A token that writes out as text free of white space. */
  predicate Printable(t: Token) {
    LineToken(t) && TokenText(t) != [] && NoWhitespace(TokenText(t))
  }

  lemma {:induction false} SpacedEnds(ts: seq<Token>)
    requires |ts| > 0 && forall k :: 0 <= k < |ts| ==> Printable(ts[k])
    requires Printable(ts[0]) && Printable(ts[|ts| - 1])
    ensures |Spaced(ts)| > 0
    ensures Spaced(ts)[0] == TokenText(ts[0])[0]
    ensures Spaced(ts)[|Spaced(ts)| - 1] == TokenText(ts[|ts| - 1])[|TokenText(ts[|ts| - 1])| - 1]
    decreases |ts|
  {
    if |ts| > 1 {
      SpacedEnds(ts[1..]);
      assert ts[1..][|ts[1..]| - 1] == ts[|ts| - 1];
    }
  }

  /** A line written from printable tokens, not opening with a '#', reads back
      as those tokens and a Newline. */
  lemma LineRoundTrip(ts: seq<Token>)
    requires |ts| > 0 && forall k :: 0 <= k < |ts| ==> Printable(ts[k])
    requires Printable(ts[0]) && TokenText(ts[0])[0] != '#'
    ensures LineTokens(Spaced(ts)) == ts + [Newline]
  {
    var line := Spaced(ts);
    SpacedEnds(ts);
    assert !IsWhitespace(line[0]);
    assert !IsWhitespace(line[|line| - 1]);
    assert TrimStart(line) == line;
    assert Trim(line) == line;
    ScanSpaced(ts);
  }
}
