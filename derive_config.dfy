/** The `#[aspartial(...)]` configuration: exactly one `name = Ident` and any
    number of `attrs(#[...] ...)` lists. */
module DeriveConfig {
  import opened Wrappers
  import opened Syntax

  datatype Config = NameConfig(ident: string) | AttrsConfig(attrs: seq<Attribute>)

  datatype ConfigsForAsPartial = ConfigsForAsPartial(partialTypeIdent: string, attrs: seq<Attribute>)

  /** The tokens of a run of attributes. */
  function AttrToks(attrs: seq<Attribute>): (r: seq<Token>)
    ensures |r| == |attrs| && forall i :: 0 <= i < |r| ==> r[i] == AttrTok(attrs[i])
  {
    seq(|attrs|, i requires 0 <= i < |attrs| => AttrTok(attrs[i]))
  }

  lemma AttrToksCons(a: Attribute, attrs: seq<Attribute>)
    ensures AttrToks([a] + attrs) == [AttrTok(a)] + AttrToks(attrs)
  {
  }

  predicate IsOuterAttrTok(t: Token) { t.AttrTok? && t.attr.style == Outer }

  /** The longest run of leading outer attributes, and what follows it. */
  function OuterAttrRun(ts: seq<Token>): (r: Parsed<seq<Attribute>>)
    ensures ts == AttrToks(r.value) + r.rest
    ensures forall i :: 0 <= i < |r.value| ==> r.value[i].style == Outer
    ensures r.rest != [] ==> !IsOuterAttrTok(r.rest[0])
  {
    if ts != [] && IsOuterAttrTok(ts[0]) then
      var p := OuterAttrRun(ts[1..]);
      AttrToksCons(ts[0].attr, p.value);
      assert ts == [ts[0]] + ts[1..];
      Parsed([ts[0].attr] + p.value, p.rest)
    else Parsed([], ts)
  }

  /** A token that `parse_outer` takes for the start of another attribute: a
      `#`, or an inner attribute `#![..]`. */
  predicate StartsAttribute(t: Token) { t.Pound? || (t.AttrTok? && t.attr.style == Inner) }

  /** `Attribute::parse_outer`: it reads outer attributes while the next token
      is a `#`. A `#` that does not open `[..]` (a lone `#`, or the `!` of an
      inner attribute) is an error from `bracketed!`. */
  function ParseOuterAttrs(ts: seq<Token>): (r: Result<Parsed<seq<Attribute>>>)
    ensures r.Ok? <==> OuterAttrRun(ts).rest == [] || !StartsAttribute(OuterAttrRun(ts).rest[0])
    ensures r.Ok? ==> r.value == OuterAttrRun(ts)
    ensures r.Err? ==> r.error == (if OuterAttrRun(ts).rest[0].Pound? then CursorError(OuterAttrRun(ts).rest[1..], "expected square brackets")
                                   else "expected square brackets")
  {
    var run := OuterAttrRun(ts);
    if run.rest != [] && StartsAttribute(run.rest[0]) then
      if run.rest[0].Pound? then Err(CursorError(run.rest[1..], "expected square brackets"))
      else Err("expected square brackets")
    else Ok(run)
  }

  /** `Config::parse`. */
  function ParseConfig(ts: seq<Token>): Result<Parsed<Config>> {
    match ParseIdent(ts)
    case Err(e) => Err(e)
    case Ok(Parsed(word, rest)) =>
      if word == "name" then
        match ParseEq(rest)
        case Err(e) => Err(e)
        case Ok(Parsed(_, rest')) =>
          match ParseIdent(rest')
          case Err(e) => Err(e)
          case Ok(Parsed(ident, rest'')) => Ok(Parsed(NameConfig(ident), rest''))
      else if word == "attrs" then
        if rest != [] && rest[0].Paren? then
          match ParseOuterAttrs(rest[0].inner)
          case Err(e) => Err(e)
          case Ok(inner) =>
            if inner.rest != [] then Err("unexpected token")
            else Ok(Parsed(AttrsConfig(inner.value), rest[1..]))
        else Err(CursorError(rest, "expected parentheses"))
      else Err("Unrecognized AsPartial config. Expected 'name', 'attrs' or 'derive', found " + word)
  }

  /** As an argument list, `name = Ident` and nothing else gives that name. */
  lemma NameArgsGrammar(ts: seq<Token>, n: string)
    ensures ParseArgs(ParseConfig(ts)) == Ok(NameConfig(n)) <==> ts == [Ident("name"), Eq, Ident(n)]
  {
    if ts != [] && ts[0] == Ident("name") && |ts| >= 3 && ts[1] == Eq && ts[2].Ident? {
      assert ts[1..][0] == ts[1] && ts[1..][1..][0] == ts[2] && ts[1..][1..][1..] == ts[3..];
      if ts[3..] == [] {
        assert ts == [ts[0], ts[1], ts[2]];
      }
    }
  }

  /** As an argument list, `attrs(...)` holding only outer attributes gives
      those attributes, and nothing else does. */
  lemma AttrsArgsGrammar(ts: seq<Token>, attrs: seq<Attribute>)
    ensures ParseArgs(ParseConfig(ts)) == Ok(AttrsConfig(attrs)) <==>
      ts == [Ident("attrs"), Paren(AttrToks(attrs))] && forall i :: 0 <= i < |attrs| ==> attrs[i].style == Outer
  {
    if ts == [Ident("attrs"), Paren(AttrToks(attrs))] && forall i :: 0 <= i < |attrs| ==> attrs[i].style == Outer {
      OuterAttrsRoundTrip(attrs);
      assert ts[1..][0] == ts[1] && ts[1..][1..] == [];
    }
    if ParseArgs(ParseConfig(ts)) == Ok(AttrsConfig(attrs)) {
      assert ts[0] == Ident("attrs");
      assert ts[1..][0] == ts[1];
      var inner := OuterAttrRun(ts[1].inner);
      assert inner.rest == [] && inner.value == attrs;
      assert ts[1].inner == AttrToks(attrs);
      assert ts[1..][1..] == ts[2..] == [];
      assert ts == [ts[0], ts[1]];
    }
  }

  /** Any other leading identifier is refused, naming it. */
  lemma UnknownConfigRejected(ts: seq<Token>)
    requires ts != [] && ts[0].Ident? && ts[0].name != "name" && ts[0].name != "attrs"
    ensures ParseArgs(ParseConfig(ts)) ==
      Err("Unrecognized AsPartial config. Expected 'name', 'attrs' or 'derive', found " + ts[0].name)
  {
  }

  lemma {:induction false} OuterAttrsRoundTrip(attrs: seq<Attribute>)
    requires forall i :: 0 <= i < |attrs| ==> attrs[i].style == Outer
    ensures OuterAttrRun(AttrToks(attrs)) == Parsed(attrs, [])
  {
    if attrs != [] {
      assert AttrToks(attrs)[1..] == AttrToks(attrs[1..]);
      OuterAttrsRoundTrip(attrs[1..]);
      assert [attrs[0]] + attrs[1..] == attrs;
    }
  }

  // ---------------------------------------------------------------------------
  // ConfigsForAsPartial::from_attrs

  /** What `from_attrs` demands of its input: its `unwrap` needs every
      attribute path to have a last segment. */
  predicate PathsNonEmpty(attrs: seq<Attribute>) {
    forall i :: 0 <= i < |attrs| ==> attrs[i].Path() != []
  }

  /** An attribute `from_attrs` reads: last path segment `aspartial`, list form. */
  predicate IsAsPartialList(a: Attribute) {
    a.Path() != [] && a.Path()[|a.Path()| - 1].ident == "aspartial" && a.meta.MetaList?
  }

  function ConfigOf(a: Attribute): Result<Config>
    requires IsAsPartialList(a)
  {
    ParseArgs(ParseConfig(a.meta.tokens))
  }

  /** The accumulation `from_attrs` performs, over the attributes still to be
      read, from the name found so far and the attributes collected so far. */
  function Accumulate(attrs: seq<Attribute>, name: Option<string>, acc: seq<Attribute>)
    : Result<(Option<string>, seq<Attribute>)>
  {
    if attrs == [] then Ok((name, acc))
    else if !IsAsPartialList(attrs[0]) then Accumulate(attrs[1..], name, acc)
    else
      match ConfigOf(attrs[0])
      case Err(e) => Err(e)
      case Ok(NameConfig(n)) =>
        if name.Some? then Err("Setting partial name again") else Accumulate(attrs[1..], Some(n), acc)
      case Ok(AttrsConfig(more)) => Accumulate(attrs[1..], name, acc + more)
  }

  /** The specification of `from_attrs`. */
  function ConfigsFromAttrs(attrs: seq<Attribute>): Result<ConfigsForAsPartial> {
    match Accumulate(attrs, None, [])
    case Err(e) => Err(e)
    case Ok((None, _)) => Err("no partial name set")
    case Ok((Some(n), acc)) => Ok(ConfigsForAsPartial(n, acc))
  }

  /** `ConfigsForAsPartial::from_attrs`. */
  method FromAttrs(attrs: seq<Attribute>) returns (r: Result<ConfigsForAsPartial>)
    requires PathsNonEmpty(attrs)
    ensures r == ConfigsFromAttrs(attrs)
  {
    var name: Option<string> := None;
    var collected: seq<Attribute> := [];
    for i := 0 to |attrs|
      invariant Accumulate(attrs, None, []) == Accumulate(attrs[i..], name, collected)
    {
      assert attrs[i..][1..] == attrs[i + 1..];
      var attr := attrs[i];
      if attr.Path()[|attr.Path()| - 1].ident != "aspartial" {
        continue;
      }
      if !attr.meta.MetaList? {
        continue;
      }
      var config := ParseArgs(ParseConfig(attr.meta.tokens));
      if config.Err? {
        return Err(config.error);
      }
      match config.value
      case NameConfig(n) =>
        if name.Some? {
          return Err("Setting partial name again");
        }
        name := Some(n);
      case AttrsConfig(more) =>
        collected := collected + more;
    }
    assert attrs[|attrs|..] == [];
    if name.None? {
      return Err("no partial name set");
    }
    return Ok(ConfigsForAsPartial(name.value, collected));
  }

  // ---------------------------------------------------------------------------
  // What the accumulation amounts to

  /** How many `name` configurations the attributes hold. */
  function NameCount(attrs: seq<Attribute>): nat {
    if attrs == [] then 0
    else (if IsAsPartialList(attrs[0]) && ConfigOf(attrs[0]).Ok? && ConfigOf(attrs[0]).value.NameConfig? then 1 else 0)
         + NameCount(attrs[1..])
  }

  /** The name given by the attributes' first `name` configuration. */
  function NameOf(a: Attribute): Option<string> {
    if IsAsPartialList(a) && ConfigOf(a).Ok? && ConfigOf(a).value.NameConfig? then Some(ConfigOf(a).value.ident) else None
  }

  /** All attributes listed by `attrs(...)` configurations, in order. */
  function ConcatAttrs(attrs: seq<Attribute>): seq<Attribute> {
    if attrs == [] then []
    else (if IsAsPartialList(attrs[0]) && ConfigOf(attrs[0]).Ok? && ConfigOf(attrs[0]).value.AttrsConfig?
          then ConfigOf(attrs[0]).value.attrs else [])
         + ConcatAttrs(attrs[1..])
  }

  predicate AllParse(attrs: seq<Attribute>) {
    forall i :: 0 <= i < |attrs| && IsAsPartialList(attrs[i]) ==> ConfigOf(attrs[i]).Ok?
  }

  lemma AllParseCons(attrs: seq<Attribute>)
    requires attrs != []
    ensures AllParse(attrs) <==> (IsAsPartialList(attrs[0]) ==> ConfigOf(attrs[0]).Ok?) && AllParse(attrs[1..])
  {
    assert forall i :: 1 <= i < |attrs| ==> attrs[i] == attrs[1..][i - 1];
  }

  /** The accumulation succeeds exactly when every `aspartial` list parses and
      at most one name is set in all; it then holds that name and every
      collected attribute in order. */
  lemma {:induction false} AccumulateOutcome(attrs: seq<Attribute>, name: Option<string>, acc: seq<Attribute>)
    ensures Accumulate(attrs, name, acc).Ok? <==> AllParse(attrs) && NameCount(attrs) + (if name.Some? then 1 else 0) <= 1
    ensures Accumulate(attrs, name, acc).Ok? ==>
      Accumulate(attrs, name, acc).value == (if name.Some? then name else FindMap(attrs, NameOf), acc + ConcatAttrs(attrs))
  {
    if attrs == [] {
      assert acc + [] == acc;
    } else {
      var tail := attrs[1..];
      AllParseCons(attrs);
      assert FindMap(attrs, NameOf) == if NameOf(attrs[0]).Some? then NameOf(attrs[0]) else FindMap(tail, NameOf);
      if !IsAsPartialList(attrs[0]) {
        AccumulateOutcome(tail, name, acc);
        assert ConcatAttrs(attrs) == ConcatAttrs(tail);
      } else {
        match ConfigOf(attrs[0])
        case Err(_) =>
        case Ok(NameConfig(n)) =>
          AccumulateOutcome(tail, Some(n), acc);
          assert ConcatAttrs(attrs) == ConcatAttrs(tail);
        case Ok(AttrsConfig(more)) =>
          AccumulateOutcome(tail, name, acc + more);
          assert acc + more + ConcatAttrs(tail) == acc + ConcatAttrs(attrs);
      }
    }
  }

  /** `from_attrs` succeeds exactly when every `aspartial` list parses and
      exactly one sets the name; the result then carries that name and the
      in-order concatenation of every `attrs(...)` list. */
  lemma ConfigsOutcome(attrs: seq<Attribute>)
    ensures ConfigsFromAttrs(attrs).Ok? <==> AllParse(attrs) && NameCount(attrs) == 1
    ensures ConfigsFromAttrs(attrs).Ok? ==>
      Some(ConfigsFromAttrs(attrs).value.partialTypeIdent) == FindMap(attrs, NameOf)
      && ConfigsFromAttrs(attrs).value.attrs == ConcatAttrs(attrs)
    ensures AllParse(attrs) && NameCount(attrs) == 0 ==> ConfigsFromAttrs(attrs) == Err("no partial name set")
  {
    AccumulateOutcome(attrs, None, []);
    if Accumulate(attrs, None, []).Ok? {
      NameCountFindsName(attrs);
    }
  }

  lemma {:induction false} NameCountFindsName(attrs: seq<Attribute>)
    ensures FindMap(attrs, NameOf).Some? <==> NameCount(attrs) > 0
  {
    if attrs != [] {
      NameCountFindsName(attrs[1..]);
      assert forall i :: 1 <= i < |attrs| ==> attrs[i] == attrs[1..][i - 1];
      if NameOf(attrs[0]).None? && FindMap(attrs[1..], NameOf).Some? {
        var i :| 0 <= i < |attrs[1..]| && NameOf(attrs[1..][i]).Some?;
        assert NameOf(attrs[i + 1]).Some?;
      }
    }
  }

  /** An attribute that is not an `aspartial` list is skipped. */
  lemma SkipsOtherAttributes(a: Attribute, attrs: seq<Attribute>)
    requires !IsAsPartialList(a)
    ensures ConfigsFromAttrs([a] + attrs) == ConfigsFromAttrs(attrs)
  {
    assert ([a] + attrs)[1..] == attrs;
  }

  /** A configuration that does not parse aborts the whole call with its own
      error, whatever follows, once the configurations before it were fine. */
  lemma ParseErrorAborts(prefix: seq<Attribute>, a: Attribute, suffix: seq<Attribute>)
    requires AllParse(prefix) && NameCount(prefix) <= 1
    requires IsAsPartialList(a) && ConfigOf(a).Err?
    ensures ConfigsFromAttrs(prefix + [a] + suffix) == Err(ConfigOf(a).error)
  {
    AccumulateOutcome(prefix, None, []);
    AccumulatePrefix(prefix, [a] + suffix, None, []);
    assert prefix + [a] + suffix == prefix + ([a] + suffix);
    assert ([a] + suffix)[0] == a;
  }

  /** A second `name` is an error, whatever follows. */
  lemma SecondNameRejected(prefix: seq<Attribute>, a: Attribute, suffix: seq<Attribute>)
    requires AllParse(prefix) && NameCount(prefix) == 1
    requires IsAsPartialList(a) && ConfigOf(a).Ok? && ConfigOf(a).value.NameConfig?
    ensures ConfigsFromAttrs(prefix + [a] + suffix) == Err("Setting partial name again")
  {
    AccumulateOutcome(prefix, None, []);
    AccumulatePrefix(prefix, [a] + suffix, None, []);
    assert prefix + [a] + suffix == prefix + ([a] + suffix);
    assert ([a] + suffix)[0] == a;
    NameCountFindsName(prefix);
  }

  /** Reading a prefix that raises no error, then the rest, is reading the
      rest from the state the prefix leaves. */
  lemma {:induction false} AccumulatePrefix(prefix: seq<Attribute>, rest: seq<Attribute>, name: Option<string>, acc: seq<Attribute>)
    requires Accumulate(prefix, name, acc).Ok?
    ensures Accumulate(prefix + rest, name, acc)
         == Accumulate(rest, Accumulate(prefix, name, acc).value.0, Accumulate(prefix, name, acc).value.1)
  {
    if prefix == [] {
      assert prefix + rest == rest;
    } else {
      var tail := prefix[1..];
      assert (prefix + rest)[1..] == tail + rest;
      assert (prefix + rest)[0] == prefix[0];
      if !IsAsPartialList(prefix[0]) {
        AccumulatePrefix(tail, rest, name, acc);
      } else {
        match ConfigOf(prefix[0])
        case Ok(NameConfig(n)) =>
          AccumulatePrefix(tail, rest, Some(n), acc);
        case Ok(AttrsConfig(more)) =>
          AccumulatePrefix(tail, rest, name, acc + more);
      }
    }
  }
}
