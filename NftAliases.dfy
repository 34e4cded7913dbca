/** The agent's nftables alias parser and writer (`NftablesAliasesParser`):
    a named set of the ruleset becomes an alias whose value lists the set's
    elements separated by ',', and an alias becomes a set again. Set-type
    and family names are the nftables JSON names; the lookups that turn
    them into the nftables crate's enums are given as parameters. */
module NftAliases {
  import opened Common
  import opened Models

  /** A set element: a string, a u32, a range between two elements, or any
      other expression kind (`Other`). */
  datatype Expression = Str(s: string) | Number(n: nat) | Range(from: Expression, to: Expression) | Other

  datatype SetTypeValue = Single(name: string) | Concatenated(names: seq<string>)

  datatype NftSet = NftSet(
    name: string,
    setType: SetTypeValue,
    elem: Option<seq<Expression>>,
    family: string,
    table: string)

  /** A ruleset object: a set, or anything else. */
  datatype NfObject = SetObject(nftSet: NftSet) | OtherObject

  /** The set type and family `convert_alias` falls back to. */
  const DEFAULT_SET_TYPE := "ipv4_addr"
  const DEFAULT_FAMILY := "ip"

  // ---------------------------------------------------------------- expressions_to_csv

  /** The decimal texts of the `count` numbers from `f` upwards. */
  function NumbersFrom(f: nat, count: nat): seq<string> {
    seq(count, k requires 0 <= k < count => NatToString(f + k))
  }

  /** The one-character texts of the `count` ASCII bytes from `f` upwards. */
  function BytesFrom(f: nat, count: nat): seq<string>
    requires f + count <= 128
  {
    seq(count, k requires 0 <= k < count => [(f + k) as char])
  }

  /** A string whose UTF-8 encoding is one byte: a single ASCII character. */
  predicate IsByteString(s: string) {
    |s| == 1 && s[0] as int < 128
  }

  /** The texts one element contributes, or None when it is not supported:
      strings and numbers as themselves, a rising range of numbers or of
      single bytes as every value in it. */
  function Items(e: Expression): Option<seq<string>> {
    match e
    case Str(s) => Some([s])
    case Number(n) => Some([NatToString(n)])
    case Range(Number(f), Number(t)) =>
      if f <= t then Some(NumbersFrom(f, t - f + 1)) else None
    case Range(Str(f), Str(t)) =>
      if IsByteString(f) && IsByteString(t) && f[0] <= t[0]
      then Some(BytesFrom(f[0] as int, t[0] as int - f[0] as int + 1))
      else None
    case _ => None
  }

  /** The texts of all elements in order, or None if any is unsupported. */
  function AllItems(es: seq<Expression>): Option<seq<string>> {
    if es == [] then Some([])
    else
      match (AllItems(es[..|es| - 1]), Items(es[|es| - 1]))
      case (Some(a), Some(b)) => Some(a + b)
      case _ => None
  }

  /** The value `expressions_to_csv` produces: None without elements or when
      an element is unsupported, else the texts joined by ','. */
  function CsvOf(elem: Option<seq<Expression>>): Option<string> {
    match elem
    case None => None
    case Some(es) =>
      match AllItems(es)
      case None => None
      case Some(items) => Some(Join(items, ","))
  }

  /** A single unsupported element makes the whole list unsupported, and
      only that does. */
  lemma {:induction false} AllItemsNone(es: seq<Expression>)
    ensures AllItems(es).None? <==> exists k :: 0 <= k < |es| && Items(es[k]).None?
  {
    if es != [] {
      var init := es[..|es| - 1];
      AllItemsNone(init);
      assert forall k :: 0 <= k < |init| ==> init[k] == es[k];
    }
  }

  /** A rising numeric range [f, t] of u32s expands to t - f + 1 texts that
      read back as f, f + 1, ..., t. */
  lemma NumberRangeValues(f: nat, t: nat)
    requires f <= t && IsU32(t)
    ensures Items(Range(Number(f), Number(t))).Some?
    ensures var r := Items(Range(Number(f), Number(t))).value;
      |r| == t - f + 1 && forall k :: 0 <= k < |r| ==> ParseU32(r[k]) == Some(f + k)
  {
    var r := NumbersFrom(f, t - f + 1);
    forall k | 0 <= k < |r|
      ensures ParseU32(r[k]) == Some(f + k)
    {
      ParseU32OfNatToString(f + k);
    }
  }

  /** A range whose ends are not both numbers, nor both single bytes, or
      whose ends are reversed, anywhere in the list makes the whole value
      None. */
  lemma RejectedRange(es: seq<Expression>, k: nat)
    requires k < |es| && es[k].Range?
    requires var from := es[k].from; var to := es[k].to;
      !(from.Number? && to.Number? && from.n <= to.n)
      && !(from.Str? && to.Str? && IsByteString(from.s) && IsByteString(to.s) && from.s[0] <= to.s[0])
    ensures CsvOf(Some(es)) == None
  {
    AllItemsNone(es);
  }

  method PushNumbers(result: seq<string>, f: nat, t: nat) returns (r: seq<string>)
    requires f <= t
    ensures r == result + NumbersFrom(f, t - f + 1)
  {
    r := result;
    var v := f;
    while v <= t
      invariant f <= v <= t + 1
      invariant r == result + NumbersFrom(f, v - f)
    {
      assert NumbersFrom(f, v - f + 1) == NumbersFrom(f, v - f) + [NatToString(v)];
      r := r + [NatToString(v)];
      v := v + 1;
    }
  }

  method PushBytes(result: seq<string>, f: nat, t: nat) returns (r: seq<string>)
    requires f <= t < 128
    ensures r == result + BytesFrom(f, t - f + 1)
  {
    r := result;
    var b := f;
    while b <= t
      invariant f <= b <= t + 1
      invariant r == result + BytesFrom(f, b - f)
    {
      assert BytesFrom(f, b - f + 1) == BytesFrom(f, b - f) + [[b as char]];
      r := r + [[b as char]];
      b := b + 1;
    }
  }

  /** `expressions_to_csv`: walks the elements, pushing each one's texts and
      returning None at the first unsupported one. */
  method ExpressionsToCsv(elem: Option<seq<Expression>>) returns (r: Option<string>)
    ensures r == CsvOf(elem)
  {
    if elem.None? {
      return None;
    }
    var es := elem.value;
    var result: seq<string> := [];
    var i := 0;
    while i < |es|
      invariant 0 <= i <= |es|
      invariant AllItems(es[..i]) == Some(result)
    {
      assert es[..i + 1][..i] == es[..i];
      match es[i] {
        case Str(s) =>
          result := result + [s];
        case Number(n) =>
          result := result + [NatToString(n)];
        case Range(from, to) =>
          if from.Number? && to.Number? {
            if from.n <= to.n {
              result := PushNumbers(result, from.n, to.n);
            } else {
              AllItemsNone(es);
              return None;
            }
          } else if from.Str? && to.Str? {
            if IsByteString(from.s) && IsByteString(to.s) && from.s[0] <= to.s[0] {
              result := PushBytes(result, from.s[0] as int, to.s[0] as int);
            } else {
              AllItemsNone(es);
              return None;
            }
          } else {
            AllItemsNone(es);
            return None;
          }
        case Other =>
          AllItemsNone(es);
          return None;
      }
      i := i + 1;
    }
    assert es[..i] == es;
    r := Some(Join(result, ","));
  }

  // ---------------------------------------------------------------- parse

  /** The alias of a single-typed set; a set whose elements cannot be listed
      gets the empty value. */
  function AliasOfSet(nftSet: NftSet): Alias
    requires nftSet.setType.Single?
  {
    Alias(
      kind := nftSet.setType.name,
      name := nftSet.name,
      value := CsvOf(nftSet.elem).GetOr(""),
      description := "",
      family := nftSet.family,
      table := nftSet.table)
  }

  predicate IsSingleSet(o: NfObject) {
    o.SetObject? && o.nftSet.setType.Single?
  }

  /** The aliases of a ruleset: one per single-typed set, in order. */
  function AliasesOf(objects: seq<NfObject>): (r: seq<Alias>)
    ensures |r| <= |objects|
  {
    if objects == [] then []
    else
      var last := objects[|objects| - 1];
      AliasesOf(objects[..|objects| - 1]) + (if IsSingleSet(last) then [AliasOfSet(last.nftSet)] else [])
  }

  /** The aliases of two runs of objects are the aliases of each, in order:
      every object contributes on its own. */
  lemma {:induction false} AliasesOfAppend(a: seq<NfObject>, b: seq<NfObject>)
    ensures AliasesOf(a + b) == AliasesOf(a) + AliasesOf(b)
    decreases |b|
  {
    if b != [] {
      var init := b[..|b| - 1];
      assert (a + b)[..|a + b| - 1] == a + init;
      assert (a + b)[|a + b| - 1] == b[|b| - 1];
      AliasesOfAppend(a, init);
    } else {
      assert a + b == a;
    }
  }

  lemma AliasesOfSingleSet(nftSet: NftSet)
    requires nftSet.setType.Single?
    ensures AliasesOf([SetObject(nftSet)]) == [AliasOfSet(nftSet)]
  {
    assert [SetObject(nftSet)][..0] == [];
  }

  /** `NftablesAliasesParser::parse`: every set object whose type is a single
      type becomes an alias; other objects are skipped. */
  method Parse(objects: seq<NfObject>) returns (aliases: seq<Alias>)
    ensures aliases == AliasesOf(objects)
  {
    aliases := [];
    var i := 0;
    while i < |objects|
      invariant 0 <= i <= |objects|
      invariant aliases == AliasesOf(objects[..i])
    {
      assert objects[..i + 1][..i] == objects[..i];
      var obj := objects[i];
      if obj.SetObject? && obj.nftSet.setType.Single? {
        var nftSet := obj.nftSet;
        var csv := ExpressionsToCsv(nftSet.elem);
        aliases := aliases + [Alias(
          kind := nftSet.setType.name,
          name := nftSet.name,
          value := csv.GetOr(""),
          description := "",
          family := nftSet.family,
          table := nftSet.table)];
      }
      i := i + 1;
    }
    assert objects[..i] == objects;
  }

  // ---------------------------------------------------------------- convert_alias

  /** Text with no whitespace at either end, and not empty. */
  predicate CleanText(s: string) {
    s != [] && !IsWhitespace(s[0]) && !IsWhitespace(s[|s| - 1])
  }

  /** What one trimmed, non-empty entry becomes: a u32 if it parses as one,
      else a string. */
  function ItemExpression(item: string): Expression {
    match ParseU32(item)
    case Some(n) => Number(n)
    case None => Str(item)
  }

  /** An element `convert_alias` can produce. */
  predicate Converted(e: Expression) {
    (e.Number? && IsU32(e.n)) || (e.Str? && CleanText(e.s) && ParseU32(e.s).None?)
  }

  lemma TrimmedClean(s: string)
    requires Trim(s) != []
    ensures CleanText(Trim(s))
  {
    var x := TrimStart(s);
    var r := TrimEnd(x);
    assert r[0] == x[0];
  }

  /** The elements of the ','-separated parts: each part trimmed, empty ones
      dropped, the rest converted in order. */
  function ConvertedItems(parts: seq<string>): seq<Expression> {
    if parts == [] then []
    else
      var item := Trim(parts[|parts| - 1]);
      ConvertedItems(parts[..|parts| - 1]) + (if item == [] then [] else [ItemExpression(item)])
  }

  /** Every element `convert_alias` produces is a u32 or a clean string that
      is not one, and there is at most one per part. */
  lemma {:induction false} ConvertedItemsForm(parts: seq<string>)
    ensures |ConvertedItems(parts)| <= |parts|
    ensures forall k :: 0 <= k < |ConvertedItems(parts)| ==> Converted(ConvertedItems(parts)[k])
  {
    if parts != [] {
      var init := parts[..|parts| - 1];
      ConvertedItemsForm(init);
      var item := Trim(parts[|parts| - 1]);
      if item != [] {
        TrimmedClean(parts[|parts| - 1]);
        assert Converted(ItemExpression(item));
      }
    }
  }

  lemma ConvertedItemsNext(parts: seq<string>, i: nat)
    requires i < |parts|
    ensures ConvertedItems(parts[..i + 1]) ==
      ConvertedItems(parts[..i]) + (if Trim(parts[i]) == [] then [] else [ItemExpression(Trim(parts[i]))])
  {
    assert parts[..i + 1][..i] == parts[..i];
  }

  /** The set `convert_alias` builds; a type or family the lookups do not
      recognise falls back to the defaults. */
  function SetOf(alias: Alias, isSetType: string -> bool, isFamily: string -> bool): NftSet {
    NftSet(
      name := alias.name,
      setType := Single(if isSetType(alias.kind) then alias.kind else DEFAULT_SET_TYPE),
      elem := Some(ConvertedItems(Split(alias.value, ','))),
      family := if isFamily(alias.family) then alias.family else DEFAULT_FAMILY,
      table := alias.table)
  }

  /** `convert_alias`: splits the value at ',', trims each entry, skips empty
      ones and pushes a number or a string for each of the others. */
  method ConvertAlias(alias: Alias, isSetType: string -> bool, isFamily: string -> bool) returns (nftSet: NftSet)
    ensures nftSet == SetOf(alias, isSetType, isFamily)
  {
    var setType := if isSetType(alias.kind) then alias.kind else DEFAULT_SET_TYPE;
    var parts := Split(alias.value, ',');
    var expressions: seq<Expression> := [];
    var i := 0;
    while i < |parts|
      invariant 0 <= i <= |parts|
      invariant expressions == ConvertedItems(parts[..i])
    {
      ConvertedItemsNext(parts, i);
      var item := Trim(parts[i]);
      if item != [] {
        expressions := expressions + [ItemExpression(item)];
      }
      i := i + 1;
    }
    assert parts[..i] == parts;
    nftSet := NftSet(
      name := alias.name,
      setType := Single(setType),
      elem := Some(expressions),
      family := if isFamily(alias.family) then alias.family else DEFAULT_FAMILY,
      table := alias.table);
  }

  // ---------------------------------------------------------------- round trip

  /** An entry that comes back as itself: clean, and if it is a u32 then in
      its canonical decimal form. */
  predicate PlainText(s: string) {
    CleanText(s) && (ParseU32(s).Some? ==> s == NatToString(ParseU32(s).value))
  }

  /** An alias value made only of such entries, or empty. */
  predicate PlainList(value: string) {
    value == [] || forall k :: 0 <= k < |Split(value, ',')| ==> PlainText(Split(value, ',')[k])
  }

  lemma TrimOfClean(s: string)
    requires CleanText(s)
    ensures Trim(s) == s
  {
  }

  lemma PlainItemReadBack(s: string)
    requires PlainText(s)
    ensures Items(ItemExpression(s)) == Some([s])
  {
  }

  /** Plain entries, converted and listed again, are the same entries. */
  lemma {:induction false} PlainPartsReadBack(parts: seq<string>)
    requires forall k :: 0 <= k < |parts| ==> PlainText(parts[k])
    ensures AllItems(ConvertedItems(parts)) == Some(parts)
  {
    if parts != [] {
      var init := parts[..|parts| - 1];
      var last := parts[|parts| - 1];
      assert forall k :: 0 <= k < |init| ==> init[k] == parts[k];
      PlainPartsReadBack(init);
      var prev := ConvertedItems(init);
      var e := ItemExpression(last);
      assert ConvertedItems(parts) == prev + [e] by {
        TrimOfClean(last);
      }
      assert Items(e) == Some([last]) by {
        PlainItemReadBack(last);
      }
      assert (prev + [e])[..|prev|] == prev;
      InitLast(parts);
    }
  }

  /** A plain value, converted and listed again, is the same value. */
  lemma PlainValueReadBack(value: string)
    requires PlainList(value)
    ensures CsvOf(Some(ConvertedItems(Split(value, ',')))) == Some(value)
  {
    var parts := Split(value, ',');
    if value == [] {
      assert IndexOf(value, ',').None?;
      assert parts == [""];
      assert ConvertedItems(parts) == [];
    } else {
      PlainPartsReadBack(parts);
      JoinSplit(value, ',');
    }
  }

  /** An alias with a plain value, a known type and family and no
      description, converted to a set and parsed back, is the same alias. */
  lemma AliasRoundTrip(a: Alias, isSetType: string -> bool, isFamily: string -> bool)
    requires PlainList(a.value) && isSetType(a.kind) && isFamily(a.family) && a.description == ""
    ensures AliasesOf([SetObject(SetOf(a, isSetType, isFamily))]) == [a]
  {
    var converted := SetOf(a, isSetType, isFamily);
    assert AliasOfSet(converted) == a by {
      PlainValueReadBack(a.value);
    }
    AliasesOfSingleSet(converted);
  }
}
