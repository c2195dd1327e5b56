/** The argument grammars of the serde attributes the macro reads:
    `#[serde(default)]`, the enum tagging convention (`untagged`, `tag`,
    `content`), `#[serde(rename = "...")]` and `#[serde(rename_all = "...")]`. */
module SerdeAttributes {
  import opened Wrappers
  import opened Syntax
  import opened Heck
  import opened AttrExt

  // ---------------------------------------------------------------------------
  // `default` and `default = "path"`

  datatype DefaultAttrParams = DefaultAttrParams

  /** `SerdeDefaultAttrParams::parse`. */
  function ParseDefaultParams(ts: seq<Token>): Result<Parsed<DefaultAttrParams>> {
    match ParseIdent(ts)
    case Err(e) => Err(e)
    case Ok(Parsed(word, rest)) =>
      if word != "default" then Err("Expected 'default' token")
      else if rest == [] then Ok(Parsed(DefaultAttrParams, []))
      else
        match ParseEq(rest)
        case Err(e) => Err(e)
        case Ok(Parsed(_, rest')) =>
          match ParseLitStr(rest')
          case Err(e) => Err(e)
          case Ok(Parsed(_, rest'')) => Ok(Parsed(DefaultAttrParams, rest''))
  }

  /** As an argument list, the grammar accepts exactly `default` and
      `default = "<lit>"`; any other leading identifier is rejected with its
      own message. */
  lemma DefaultArgsGrammar(ts: seq<Token>)
    ensures ParseArgs(ParseDefaultParams(ts)).Ok? <==>
      ts == [Ident("default")] || (|ts| == 3 && ts[0] == Ident("default") && ts[1] == Eq && ts[2].LitStr?)
    ensures ts != [] && ts[0].Ident? && ts[0].name != "default" ==>
      ParseArgs(ParseDefaultParams(ts)) == Err("Expected 'default' token")
  {
    if ts != [] && ts[0] == Ident("default") && |ts| > 1 {
      assert ts[1..][0] == ts[1];
      if ts[1] == Eq && |ts| > 2 {
        assert ts[1..][1..][0] == ts[2];
        assert ts[1..][1..][1..] == ts[3..];
      }
    }
  }

  // ---------------------------------------------------------------------------
  // Enum tagging convention

  datatype TagParams =
    | Untagged
    | InternallyTagged(tagKey: string)
    | AdjacentlyTagged(tagKey: string, contentKey: string)
    | ExternallyTagged

  /** Rust's `String < String`: lexicographic order (on code points, which is
      the order of their UTF-8 bytes). */
  predicate StrLess(a: string, b: string) {
    if a == [] then b != []
    else if b == [] then false
    else a[0] < b[0] || (a[0] == b[0] && StrLess(a[1..], b[1..]))
  }

  /** `StrLess` is a strict total order. */
  lemma {:induction false} StrLessTrichotomy(a: string, b: string)
    ensures !StrLess(a, a)
    ensures a != b ==> (StrLess(a, b) <==> !StrLess(b, a))
  {
    if a != [] {
      StrLessTrichotomy(a[1..], a[1..]);
    }
    if a != [] && b != [] && a[0] == b[0] {
      StrLessTrichotomy(a[1..], b[1..]);
      if a != b {
        assert a == [a[0]] + a[1..] && b == [b[0]] + b[1..];
      }
    }
  }

  /** The comma-separated tokens of a list of `key = "value"` pairs. */
  function KeyValList(kvs: seq<KeyEqualsLitStr>): seq<Token> {
    if kvs == [] then []
    else if |kvs| == 1 then KeyValTokens(kvs[0])
    else KeyValTokens(kvs[0]) + [Comma] + KeyValList(kvs[1..])
  }

  /** `parse_terminated(KeyEqualsLitStr::parse, Token![,])`: pairs separated by
      commas, a trailing comma allowed, the whole input consumed. */
  function ParseTerminatedKeyVals(ts: seq<Token>): (r: Result<Parsed<seq<KeyEqualsLitStr>>>)
    ensures r.Ok? ==> r.value.rest == []
    ensures r.Ok? ==> ts == KeyValList(r.value.value) || (r.value.value != [] && ts == KeyValList(r.value.value) + [Comma])
    decreases |ts|
  {
    if ts == [] then Ok(Parsed([], []))
    else
      match ParseKeyEqualsLitStr(ts)
      case Err(e) => Err(e)
      case Ok(Parsed(kv, rest)) =>
        assert ts == KeyValTokens(kv) + rest;
        if rest == [] then Ok(Parsed([kv], []))
        else if rest[0] != Comma then Err("expected `,`")
        else
          match ParseTerminatedKeyVals(rest[1..])
          case Err(e) => Err(e)
          case Ok(Parsed(kvs, rest')) =>
            assert rest == [Comma] + rest[1..];
            KeyValListStep(kv, kvs, rest[1..]);
            Ok(Parsed([kv] + kvs, rest'))
  }

  /** One pair, a comma, then a list (with or without a trailing comma) is the
      longer list (with or without a trailing comma). */
  lemma KeyValListStep(kv: KeyEqualsLitStr, kvs: seq<KeyEqualsLitStr>, tail: seq<Token>)
    requires tail == KeyValList(kvs) || (kvs != [] && tail == KeyValList(kvs) + [Comma])
    ensures var ts := KeyValTokens(kv) + ([Comma] + tail);
      ts == KeyValList([kv] + kvs) || ts == KeyValList([kv] + kvs) + [Comma]
  {
    KeyValListCons(kv, kvs);
    var pair, list := KeyValTokens(kv), KeyValList(kvs);
    if kvs == [] {
      assert tail == [];
    } else if tail == list {
      ConcatAssoc(pair, [Comma], list);
    } else {
      ConcatAssoc(pair, [Comma], list);
      ConcatAssoc(pair, [Comma], list + [Comma]);
      ConcatAssoc(pair + [Comma], list, [Comma]);
    }
  }

  /** The tokens of a list that starts with `kv`. */
  lemma KeyValListCons(kv: KeyEqualsLitStr, kvs: seq<KeyEqualsLitStr>)
    ensures kvs == [] ==> KeyValList([kv] + kvs) == KeyValTokens(kv)
    ensures kvs != [] ==> KeyValList([kv] + kvs) == KeyValTokens(kv) + [Comma] + KeyValList(kvs)
  {
    assert ([kv] + kvs)[1..] == kvs;
  }

  /** Printing pairs and parsing them back gives the same pairs. */
  lemma {:induction false} KeyValListRoundTrip(kvs: seq<KeyEqualsLitStr>)
    ensures ParseTerminatedKeyVals(KeyValList(kvs)) == Ok(Parsed(kvs, []))
  {
    var ts := KeyValList(kvs);
    if |kvs| == 1 {
      assert ts[3..] == [];
      assert ParseKeyEqualsLitStr(ts) == Ok(Parsed(kvs[0], []));
      assert [kvs[0]] == kvs;
    } else if |kvs| > 1 {
      var tail := KeyValList(kvs[1..]);
      assert ts == KeyValTokens(kvs[0]) + [Comma] + tail;
      assert ts[3..] == [Comma] + tail;
      assert ParseKeyEqualsLitStr(ts) == Ok(Parsed(kvs[0], [Comma] + tail));
      assert ([Comma] + tail)[1..] == tail;
      KeyValListRoundTrip(kvs[1..]);
      assert [kvs[0]] + kvs[1..] == kvs;
    }
  }

  /** After a pair and a comma, `parse_terminated` goes on with the tokens
      that follow and puts the pair in front of what they give. */
  lemma KeyValCommaStep(kv: KeyEqualsLitStr, tail: seq<Token>)
    ensures ParseTerminatedKeyVals(KeyValTokens(kv) + ([Comma] + tail)) ==
      match ParseTerminatedKeyVals(tail)
      case Err(e) => Err(e)
      case Ok(Parsed(kvs, rest)) => Ok(Parsed([kv] + kvs, rest))
  {
    var ts := KeyValTokens(kv) + ([Comma] + tail);
    assert ParseKeyEqualsLitStr(ts) == Ok(Parsed(kv, [Comma] + tail));
    assert ([Comma] + tail)[1..] == tail;
  }

  /** A non-empty list printed with a trailing comma parses back to the same
      pairs too: `parse_terminated` accepts the comma at the end. */
  lemma {:induction false} KeyValListTrailingRoundTrip(kvs: seq<KeyEqualsLitStr>)
    requires kvs != []
    ensures ParseTerminatedKeyVals(KeyValList(kvs) + [Comma]) == Ok(Parsed(kvs, []))
  {
    var pair := KeyValTokens(kvs[0]);
    if |kvs| == 1 {
      assert KeyValList(kvs) + [Comma] == pair + ([Comma] + []);
      KeyValCommaStep(kvs[0], []);
      assert [kvs[0]] + [] == kvs;
    } else {
      var tail := KeyValList(kvs[1..]);
      assert KeyValList(kvs) == pair + [Comma] + tail;
      ConcatAssoc(pair + [Comma], tail, [Comma]);
      ConcatAssoc(pair, [Comma], tail + [Comma]);
      KeyValCommaStep(kvs[0], tail + [Comma]);
      KeyValListTrailingRoundTrip(kvs[1..]);
      assert [kvs[0]] + kvs[1..] == kvs;
    }
  }

  /** Lines 60-86 of `SerdeEnumTagParams::parse`: resolving the parsed pairs.
      Two pairs are first sorted by key, so their order does not matter. */
  function TagParamsFromPairs(kvs: seq<KeyEqualsLitStr>): (r: Result<TagParams>)
    ensures r.Ok? ==> r.value.InternallyTagged? || r.value.AdjacentlyTagged?
    ensures r.Ok? && r.value.InternallyTagged? <==> |kvs| == 1 && kvs[0].key == "tag"
    ensures r.Ok? && r.value.InternallyTagged? ==> r.value.tagKey == kvs[0].value
    ensures r.Ok? && r.value.AdjacentlyTagged? <==>
      |kvs| == 2 && ((kvs[0].key == "tag" && kvs[1].key == "content") || (kvs[0].key == "content" && kvs[1].key == "tag"))
    ensures r.Ok? && r.value.AdjacentlyTagged? ==>
      r.value == (if kvs[0].key == "tag" then AdjacentlyTagged(kvs[0].value, kvs[1].value)
                  else AdjacentlyTagged(kvs[1].value, kvs[0].value))
    // the errors, by count and then by key
    ensures |kvs| == 0 ==> r == Err("Expected at least one param")
    ensures |kvs| == 1 && kvs[0].key != "tag" ==> r == Err("expected key to be 'tag'")
    ensures |kvs| > 2 ==> r == Err("Expected at most one param")
    ensures |kvs| == 2 && kvs[0].key != "content" && kvs[1].key != "content" ==> r == Err("expected key to be 'content'")
    ensures |kvs| == 2 && kvs[0].key == "content" && kvs[1].key == "content" ==> r == Err("expected key to be 'tag'")
    // one `content` and one other key: the keys are compared after sorting,
    // so the error names whichever of the two sorts first
    ensures |kvs| == 2 && kvs[0].key == "content" && kvs[1].key != "content" && kvs[1].key != "tag" ==>
      r == Err(if StrLess(kvs[1].key, "content") then "expected key to be 'content'" else "expected key to be 'tag'")
    ensures |kvs| == 2 && kvs[1].key == "content" && kvs[0].key != "content" && kvs[0].key != "tag" ==>
      r == Err(if StrLess(kvs[0].key, "content") then "expected key to be 'content'" else "expected key to be 'tag'")
  {
    if |kvs| == 0 then Err("Expected at least one param")
    else if |kvs| == 1 then
      if kvs[0].key != "tag" then Err("expected key to be 'tag'") else Ok(InternallyTagged(kvs[0].value))
    else if |kvs| > 2 then Err("Expected at most one param")
    else
      var sorted := if StrLess(kvs[0].key, kvs[1].key) then [kvs[0], kvs[1]] else [kvs[1], kvs[0]];
      var content, tag := sorted[0], sorted[1];
      assert StrLess("content", "tag") && !StrLess("tag", "content");
      StrLessTrichotomy(kvs[0].key, kvs[1].key);
      if content.key != "content" then Err("expected key to be 'content'")
      else if tag.key != "tag" then Err("expected key to be 'tag'")
      else Ok(AdjacentlyTagged(tag.value, content.value))
  }

  /** Swapping the two pairs never changes the outcome, errors included. */
  lemma TagPairsOrderInsensitive(kv1: KeyEqualsLitStr, kv2: KeyEqualsLitStr)
    ensures TagParamsFromPairs([kv1, kv2]) == TagParamsFromPairs([kv2, kv1])
  {
    StrLessTrichotomy(kv1.key, kv2.key);
  }

  /** `SerdeEnumTagParams::parse`: a leading `untagged`, or a list of pairs.
      The source looks at `untagged` through a fork of the stream and never
      consumes it; here it is consumed, and `ParseTagParamsAsWritten` below
      keeps the source's reading. */
  function ParseTagParams(ts: seq<Token>): (r: Result<Parsed<TagParams>>)
    ensures r.Ok? && r.value.value.Untagged? <==> ts != [] && ts[0] == Ident("untagged")
    ensures r.Ok? && r.value.value.Untagged? ==> r.value.rest == ts[1..]
  {
    if ts != [] && ts[0] == Ident("untagged") then Ok(Parsed(Untagged, ts[1..]))
    else
      match ParseTerminatedKeyVals(ts)
      case Err(e) => Err(e)
      case Ok(Parsed(kvs, rest)) =>
        match TagParamsFromPairs(kvs)
        case Err(e) => Err(e)
        case Ok(p) => Ok(Parsed(p, rest))
  }

  /** As an argument list, a list of pairs resolves exactly as
      `TagParamsFromPairs` says, unless its first key is `untagged`. */
  lemma TagArgsFromPairs(kvs: seq<KeyEqualsLitStr>)
    requires kvs == [] || kvs[0].key != "untagged"
    ensures ParseArgs(ParseTagParams(KeyValList(kvs))) == TagParamsFromPairs(kvs)
  {
    KeyValListRoundTrip(kvs);
  }

  /** `untagged` alone, and only that, resolves to `Untagged`. */
  lemma UntaggedArgsGrammar(ts: seq<Token>)
    ensures ParseArgs(ParseTagParams(ts)) == Ok(Untagged) <==> ts == [Ident("untagged")]
  {
    if ts == [Ident("untagged")] {
      assert ts[1..] == [];
    }
    if ParseArgs(ParseTagParams(ts)) == Ok(Untagged) {
      assert ts[1..] == [];
      assert ts == [ts[0]];
    }
  }

  /** `SerdeEnumTagParams::parse` as the source writes it: `untagged` is
      recognised but left in the stream. */
  function ParseTagParamsAsWritten(ts: seq<Token>): Result<Parsed<TagParams>> {
    if ts != [] && ts[0] == Ident("untagged") then Ok(Parsed(Untagged, ts))
    else ParseTagParams(ts)
  }

  /** As written, the arguments never parse to `Untagged`: the unconsumed
      `untagged` is left over, and `untagged` alone is "unexpected token". */
  lemma UntaggedNeverParses(ts: seq<Token>)
    ensures ParseArgs(ParseTagParamsAsWritten(ts)) != Ok(Untagged)
    ensures ts == [Ident("untagged")] ==> ParseArgs(ParseTagParamsAsWritten(ts)) == Err("unexpected token")
  {
  }

  /** `SerdeEnumTagParams::try_from_attr`: only a list-form serde attribute whose
      arguments parse completely. */
  function TagParamsTryFromAttr(a: Attribute): (r: Option<TagParams>)
    ensures r.Some? <==> IsSerdeAttr(a) && a.meta.MetaList? && ParseArgs(ParseTagParams(a.meta.tokens)).Ok?
    ensures r.Some? ==> ParseArgs(ParseTagParams(a.meta.tokens)) == Ok(r.value)
  {
    if !IsSerdeAttr(a) then None
    else if !a.meta.MetaList? then None
    else
      match ParseArgs(ParseTagParams(a.meta.tokens))
      case Ok(p) => Some(p)
      case Err(_) => None
  }

  /** `SerdeEnumTagParams::from_attributes`, as a specification: the result of
      the first attribute that parses, or `ExternallyTagged` when none does. */
  function TagParamsFromAttributes(attrs: seq<Attribute>): (r: TagParams)
    ensures (exists i :: 0 <= i < |attrs| && TagParamsTryFromAttr(attrs[i]) == Some(r)
               && forall j :: 0 <= j < i ==> TagParamsTryFromAttr(attrs[j]).None?)
         || (r == ExternallyTagged && forall i :: 0 <= i < |attrs| ==> TagParamsTryFromAttr(attrs[i]).None?)
  {
    FindMap(attrs, TagParamsTryFromAttr).UnwrapOr(ExternallyTagged)
  }

  /** `SerdeEnumTagParams::from_attributes`: a scan with an early return. */
  method FromAttributes(attrs: seq<Attribute>) returns (r: TagParams)
    ensures r == TagParamsFromAttributes(attrs)
  {
    for i := 0 to |attrs|
      invariant FindMap(attrs[..i], TagParamsTryFromAttr).None?
    {
      var p := TagParamsTryFromAttr(attrs[i]);
      if p.Some? {
        FindMapFirstHit(attrs, i, TagParamsTryFromAttr);
        return p.value;
      }
      FindMapExtend(attrs, i, TagParamsTryFromAttr);
    }
    assert attrs[..|attrs|] == attrs;
    return ExternallyTagged;
  }

  lemma {:induction false} FindMapExtend<A, B>(s: seq<A>, i: nat, f: A -> Option<B>)
    requires i < |s| && FindMap(s[..i], f).None? && f(s[i]).None?
    ensures FindMap(s[..i + 1], f).None?
  {
    assert forall j :: 0 <= j < i ==> s[..i + 1][j] == s[..i][j];
  }

  lemma {:induction false} FindMapFirstHit<A, B>(s: seq<A>, i: nat, f: A -> Option<B>)
    requires i < |s| && FindMap(s[..i], f).None? && f(s[i]).Some?
    ensures FindMap(s, f) == f(s[i])
  {
    var r := FindMap(s, f);
    assert forall j :: 0 <= j < i ==> s[..i][j] == s[j];
    var k :| 0 <= k < |s| && f(s[k]) == r && forall j :: 0 <= j < k ==> f(s[j]).None?;
    assert k == i;
  }

  /** `SerdeEnumTagParams::try_from_attr` over the parse as written. */
  function TagParamsTryFromAttrAsWritten(a: Attribute): Option<TagParams> {
    if !IsSerdeAttr(a) || !a.meta.MetaList? then None
    else
      match ParseArgs(ParseTagParamsAsWritten(a.meta.tokens))
      case Ok(p) => Some(p)
      case Err(_) => None
  }

  /** As written, `#[serde(untagged)]` is skipped and the enum is treated as
      externally tagged. */
  lemma UntaggedAttributeIgnored()
    ensures FindMap([ListAttr("serde", [Ident("untagged")])], TagParamsTryFromAttrAsWritten).UnwrapOr(ExternallyTagged)
         == ExternallyTagged
  {
    UntaggedNeverParses([Ident("untagged")]);
    assert IsSerdeAttr(ListAttr("serde", [Ident("untagged")]));
  }

  /** `#[serde(untagged)]` makes the enum untagged. */
  lemma UntaggedAttributeHonoured()
    ensures TagParamsFromAttributes([ListAttr("serde", [Ident("untagged")])]) == Untagged
  {
    UntaggedArgsGrammar([Ident("untagged")]);
    assert IsSerdeAttr(ListAttr("serde", [Ident("untagged")]));
  }

  // ---------------------------------------------------------------------------
  // rename_all styles

  datatype RenameStyle =
    | Lowercase | Uppercase | PascalCase | CamelCase
    | SnakeCase | ScreamingSnakeCase | KebabCase | ScreamingKebabCase

  /** The spelling serde uses for each style. */
  function Spelling(style: RenameStyle): string {
    match style
    case Lowercase => "lowercase"
    case Uppercase => "UPPERCASE"
    case PascalCase => "PascalCase"
    case CamelCase => "camelCase"
    case SnakeCase => "snake_case"
    case ScreamingSnakeCase => "SCREAMING_SNAKE_CASE"
    case KebabCase => "kebab-case"
    case ScreamingKebabCase => "SCREAMING-KEBAB-CASE"
  }

  /** `RenameStyle::try_from(&LitStr)`: accepts exactly the eight spellings. */
  function RenameStyleTryFrom(raw: string): (r: Result<RenameStyle>)
    ensures r.Ok? ==> Spelling(r.value) == raw
    ensures r.Err? ==> r.error == "Invalid rename style" && forall st: RenameStyle :: Spelling(st) != raw
  {
    match raw
    case "lowercase" => Ok(Lowercase)
    case "UPPERCASE" => Ok(Uppercase)
    case "PascalCase" => Ok(PascalCase)
    case "camelCase" => Ok(CamelCase)
    case "snake_case" => Ok(SnakeCase)
    case "SCREAMING_SNAKE_CASE" => Ok(ScreamingSnakeCase)
    case "kebab-case" => Ok(KebabCase)
    case "SCREAMING-KEBAB-CASE" => Ok(ScreamingKebabCase)
    case _ => Err("Invalid rename style")
  }

  /** Every style's spelling is read back as that style. */
  lemma RenameStyleRoundTrip(style: RenameStyle)
    ensures RenameStyleTryFrom(Spelling(style)) == Ok(style)
  {
  }

  predicate IsAsciiUpper(c: char) { 'A' <= c <= 'Z' }
  predicate IsAsciiLower(c: char) { 'a' <= c <= 'z' }

  /** `str::to_lowercase`, restricted to ASCII letters. */
  function AsciiLowercase(s: string): (r: string)
    ensures |r| == |s|
    ensures forall i :: 0 <= i < |r| ==> !IsAsciiUpper(r[i])
    ensures forall i :: 0 <= i < |s| && !IsAsciiUpper(s[i]) ==> r[i] == s[i]
    ensures forall i :: 0 <= i < |s| && IsAsciiUpper(s[i]) ==>
      IsAsciiLower(r[i]) && r[i] as int - 'a' as int == s[i] as int - 'A' as int
  {
    seq(|s|, i requires 0 <= i < |s| => if IsAsciiUpper(s[i]) then (s[i] as int + 32) as char else s[i])
  }

  /** `str::to_uppercase`, restricted to ASCII letters. */
  function AsciiUppercase(s: string): (r: string)
    ensures |r| == |s|
    ensures forall i :: 0 <= i < |r| ==> !IsAsciiLower(r[i])
    ensures forall i :: 0 <= i < |s| && !IsAsciiLower(s[i]) ==> r[i] == s[i]
    ensures forall i :: 0 <= i < |s| && IsAsciiLower(s[i]) ==>
      IsAsciiUpper(r[i]) && r[i] as int - 'A' as int == s[i] as int - 'a' as int
  {
    seq(|s|, i requires 0 <= i < |s| => if IsAsciiLower(s[i]) then (s[i] as int - 32) as char else s[i])
  }

  /** Lowercasing a string with no lower-case letter and uppercasing the result
      gives the string back, and the other way round. */
  lemma AsciiCaseRoundTrip(s: string)
    ensures (forall i :: 0 <= i < |s| ==> !IsAsciiLower(s[i])) ==> AsciiUppercase(AsciiLowercase(s)) == s
    ensures (forall i :: 0 <= i < |s| ==> !IsAsciiUpper(s[i])) ==> AsciiLowercase(AsciiUppercase(s)) == s
  {
  }

  /** `RenameStyle::transform`. */
  function Transform(style: RenameStyle, raw: string, heck: CaseConversions): string {
    match style
    case Lowercase => AsciiLowercase(raw)
    case Uppercase => AsciiUppercase(raw)
    case PascalCase => heck.pascal(raw)
    case CamelCase => heck.lowerCamel(raw)
    case SnakeCase => heck.snake(raw)
    case ScreamingSnakeCase => heck.shoutySnake(raw)
    case KebabCase => heck.kebab(raw)
    case ScreamingKebabCase => heck.shoutyKebab(raw)
  }

  /** The two styles the model computes are idempotent. */
  lemma CaseStylesIdempotent(raw: string, heck: CaseConversions)
    ensures Transform(Lowercase, Transform(Lowercase, raw, heck), heck) == Transform(Lowercase, raw, heck)
    ensures Transform(Uppercase, Transform(Uppercase, raw, heck), heck) == Transform(Uppercase, raw, heck)
  {
  }

  // ---------------------------------------------------------------------------
  // rename and rename_all

  /** `SerdeInnerRenameParams::parse`: `rename = "<new name>"`, yielding the new name. */
  function ParseRename(ts: seq<Token>): Result<Parsed<string>> {
    match ParseKeyEqualsLitStr(ts)
    case Err(e) => Err(e)
    case Ok(Parsed(kv, rest)) =>
      if kv.key != "rename" then Err("Expected key 'rename'") else Ok(Parsed(kv.value, rest))
  }

  /** As an argument list, exactly `rename = "<lit>"` parses, to the literal unchanged. */
  lemma RenameArgsGrammar(ts: seq<Token>)
    ensures ParseArgs(ParseRename(ts)).Ok? <==>
      |ts| == 3 && ts[0] == Ident("rename") && ts[1] == Eq && ts[2].LitStr?
    ensures ParseArgs(ParseRename(ts)).Ok? ==> ParseArgs(ParseRename(ts)).value == ts[2].value
  {
  }

  /** `SerdeInnerRenameParams::try_from_attr`. */
  function InnerRenameTryFromAttr(a: Attribute): (r: Option<string>)
    ensures r.Some? <==> IsSerdeAttr(a) && a.meta.MetaList? && ParseArgs(ParseRename(a.meta.tokens)).Ok?
    ensures r.Some? ==> a.meta.tokens == [Ident("rename"), Eq, LitStr(r.value)]
  {
    if !IsSerdeAttr(a) then None
    else if !a.meta.MetaList? then None
    else
      RenameArgsGrammar(a.meta.tokens);
      match ParseArgs(ParseRename(a.meta.tokens))
      case Ok(name) => Some(name)
      case Err(_) => None
  }

  /** `SerdeOuterRenameParams::parse`: `rename_all = "<style>"`; the key is
      checked before the style. */
  function ParseRenameAll(ts: seq<Token>): Result<Parsed<RenameStyle>> {
    match ParseKeyEqualsLitStr(ts)
    case Err(e) => Err(e)
    case Ok(Parsed(kv, rest)) =>
      if kv.key != "rename_all" then Err("Expected key 'rename_all'")
      else
        match RenameStyleTryFrom(kv.value)
        case Err(e) => Err(e)
        case Ok(style) => Ok(Parsed(style, rest))
  }

  /** As an argument list, exactly `rename_all = "<spelling>"` parses, to the
      style with that spelling; a bad spelling is reported as such. */
  lemma RenameAllArgsGrammar(ts: seq<Token>)
    ensures ParseArgs(ParseRenameAll(ts)).Ok? <==>
      |ts| == 3 && ts[0] == Ident("rename_all") && ts[1] == Eq && ts[2].LitStr?
      && exists st: RenameStyle :: Spelling(st) == ts[2].value
    ensures ParseArgs(ParseRenameAll(ts)).Ok? ==> Spelling(ParseArgs(ParseRenameAll(ts)).value) == ts[2].value
    ensures (|ts| >= 3 && ts[0] == Ident("rename_all") && ts[1] == Eq && ts[2].LitStr?
      && forall st: RenameStyle :: Spelling(st) != ts[2].value) ==>
      ParseArgs(ParseRenameAll(ts)) == Err("Invalid rename style")
  {
    if |ts| == 3 && ts[0] == Ident("rename_all") && ts[1] == Eq && ts[2].LitStr? {
      if st: RenameStyle :| Spelling(st) == ts[2].value {
        RenameStyleRoundTrip(st);
      }
    }
  }

  /** `SerdeOuterRenameParams::try_from_attr`. */
  function OuterRenameTryFromAttr(a: Attribute): (r: Option<RenameStyle>)
    ensures r.Some? <==> IsSerdeAttr(a) && a.meta.MetaList? && ParseArgs(ParseRenameAll(a.meta.tokens)).Ok?
    ensures r.Some? ==> a.meta.tokens == [Ident("rename_all"), Eq, LitStr(Spelling(r.value))]
  {
    if !IsSerdeAttr(a) then None
    else if !a.meta.MetaList? then None
    else
      RenameAllArgsGrammar(a.meta.tokens);
      match ParseArgs(ParseRenameAll(a.meta.tokens))
      case Ok(style) => Some(style)
      case Err(_) => None
  }
}
