/** The slice of `syn`'s syntax tree that the macro inspects, and the token-level
    parse primitives its `Parse` impls are built from.

    An attribute argument list is a sequence of tokens. A complete `#[...]`
    attribute nested inside an argument list (as in `aspartial(attrs(#[derive(Debug)]))`)
    is one already-parsed `AttrTok`. */
module Syntax {
  import opened Wrappers

  datatype Token =
    | Ident(name: string)        // an identifier (keywords are not modelled)
    | Eq                         // `=`
    | Comma                      // `,`
    | LitStr(value: string)      // a string literal, by its value
    | Paren(inner: seq<Token>)   // a parenthesised group
    | AttrTok(attr: Attribute)   // a whole `#[...]` or `#![...]` attribute
    | Pound                      // a `#` that does not begin a whole attribute
    | Other(text: string)        // any other token: `::`, a number, a bracket group, ...

  datatype AttrStyle = Outer | Inner

  /** A path segment; `hasArguments` is true for `seg<...>` or `seg(...)`. */
  datatype PathSegment = PathSegment(ident: string, hasArguments: bool)

  datatype Meta =
    | MetaPath(path: seq<PathSegment>)                      // `#[path]`
    | MetaList(path: seq<PathSegment>, tokens: seq<Token>)  // `#[path(tokens)]`
    | MetaNameValue(path: seq<PathSegment>)                 // `#[path = expr]`, the expression is never inspected

  datatype Attribute = Attribute(style: AttrStyle, meta: Meta) {
    /** `Attribute::path`. */
    function Path(): seq<PathSegment> { meta.path }
  }

  /** A type, as far as the macro builds new ones: a path with generic
      arguments, or the projection `<base as traitPath>::Partial`. */
  datatype Type =
    | TypePath(name: string, args: seq<Type>)
    | Projection(base: Type, traitPath: string)

  datatype Visibility = Public | Restricted(scope: string) | Inherited

  datatype Field = Field(attrs: seq<Attribute>, vis: Visibility, ident: Option<string>, ty: Type)

  /** A field list; a tuple list records whether it ends in a comma (`V(A,)`),
      which syn keeps in the `Punctuated`. */
  datatype Fields = Named(named: seq<Field>) | Unnamed(unnamed: seq<Field>, trailingComma: bool) | Unit {
    /** `Fields::iter`: the fields in declaration order. */
    function All(): seq<Field> {
      match this
      case Named(fs) => fs
      case Unnamed(fs, _) => fs
      case Unit => []
    }

    /** The same kind of field list holding `fs` instead (what `iter_mut` leaves behind). */
    function WithAll(fs: seq<Field>): (r: Fields)
      requires |fs| == |All()|
      ensures r.All() == fs
      ensures r.Named? == Named? && r.Unnamed? == Unnamed? && r.Unit? == Unit?
      ensures r.Unnamed? ==> r.trailingComma == trailingComma
    {
      match this
      case Named(_) => Named(fs)
      case Unnamed(_, t) => Unnamed(fs, t)
      case Unit => Unit
    }
  }

  datatype Variant = Variant(attrs: seq<Attribute>, ident: string, fields: Fields)

  /** The bound a where-predicate places on its type. */
  datatype Bound =
    | AsPartialBound(deserializablePartial: bool)  // `AsPartial` or `AsPartial<Partial: DeserializeOwned>`
    | DefaultBound                                 // `std::default::Default`
    | UserBound(text: string)                      // a bound the user wrote

  datatype WherePredicate = WherePredicate(bounded: Type, bound: Bound)

  /** A `where` clause: `syn::punctuated::Punctuated` of predicates and commas.
      `trailing` says whether the last thing pushed was a comma. */
  datatype WhereClause = WhereClause(predicates: seq<WherePredicate>, trailing: bool) {
    ghost predicate Valid() { predicates == [] ==> !trailing }

    /** `Punctuated::empty_or_trailing`. */
    predicate EmptyOrTrailing() { predicates == [] || trailing }

    /** `Punctuated::push_value`, which panics unless the list is empty or ends with a comma. */
    function PushValue(p: WherePredicate): (r: WhereClause)
      requires EmptyOrTrailing()
      ensures r.Valid() && !r.trailing && r.predicates == predicates + [p]
    {
      WhereClause(predicates + [p], false)
    }

    /** `Punctuated::push_punct`, which panics on an empty list or after a comma. */
    function PushPunct(): (r: WhereClause)
      requires predicates != [] && !trailing
      ensures r.Valid() && r.trailing && r.predicates == predicates
    {
      WhereClause(predicates, true)
    }
  }

  /** `parse_quote!(where)`. */
  const EmptyWhere: WhereClause := WhereClause([], false)

  datatype Generics = Generics(params: seq<string>, whereClause: Option<WhereClause>)

  datatype ItemStruct = ItemStruct(attrs: seq<Attribute>, vis: Visibility, ident: string, generics: Generics, fields: Fields)

  datatype ItemEnum = ItemEnum(attrs: seq<Attribute>, vis: Visibility, ident: string, generics: Generics, variants: seq<Variant>)

  datatype Item = StructItem(s: ItemStruct) | EnumItem(e: ItemEnum) | OtherItem

  // ---------------------------------------------------------------------------
  // Parsing: a parser takes the remaining tokens and yields a value and the
  // tokens it did not consume.

  datatype Parsed<+T> = Parsed(value: T, rest: seq<Token>)

  /** The message of syn's `Cursor::error`/`ParseBuffer::error`: at the end of
      the input it is prefixed with "unexpected end of input, ". */
  function CursorError(ts: seq<Token>, msg: string): string {
    if ts == [] then "unexpected end of input, " + msg else msg
  }

  /** `ParseStream::parse::<syn::Ident>()`. */
  function ParseIdent(ts: seq<Token>): (r: Result<Parsed<string>>)
    ensures r.Ok? <==> ts != [] && ts[0].Ident?
    ensures r.Ok? ==> r.value == Parsed(ts[0].name, ts[1..])
    ensures r.Err? ==> r.error == CursorError(ts, "expected identifier")
  {
    if ts != [] && ts[0].Ident? then Ok(Parsed(ts[0].name, ts[1..])) else Err(CursorError(ts, "expected identifier"))
  }

  /** `ParseStream::parse::<Token![=]>()`; syn builds this error with
      `Error::new`, so it carries no end-of-input prefix. */
  function ParseEq(ts: seq<Token>): (r: Result<Parsed<()>>)
    ensures r.Ok? <==> ts != [] && ts[0] == Eq
    ensures r.Ok? ==> r.value.rest == ts[1..]
  {
    if ts != [] && ts[0] == Eq then Ok(Parsed((), ts[1..])) else Err("expected `=`")
  }

  /** `ParseStream::parse::<syn::LitStr>()`. */
  function ParseLitStr(ts: seq<Token>): (r: Result<Parsed<string>>)
    ensures r.Ok? <==> ts != [] && ts[0].LitStr?
    ensures r.Ok? ==> r.value == Parsed(ts[0].value, ts[1..])
    ensures r.Err? ==> r.error == CursorError(ts, "expected string literal")
  {
    if ts != [] && ts[0].LitStr? then Ok(Parsed(ts[0].value, ts[1..])) else Err(CursorError(ts, "expected string literal"))
  }

  /** `MetaList::parse_args`: run a parser over the whole argument list; tokens
      it leaves unconsumed are an error. */
  function ParseArgs<T>(r: Result<Parsed<T>>): (a: Result<T>)
    ensures a.Ok? <==> r.Ok? && r.value.rest == []
    ensures a.Ok? ==> a.value == r.value.value
    ensures r.Err? ==> a == Err(r.error)
  {
    match r
    case Err(e) => Err(e)
    case Ok(Parsed(v, rest)) => if rest == [] then Ok(v) else Err("unexpected token")
  }

  /** `key = "value"`, the `util::KeyEqualsLitStr` helper (util.rs is not part of
      this model; it is read as an identifier, `=`, and a string literal in turn). */
  datatype KeyEqualsLitStr = KeyEqualsLitStr(key: string, value: string)

  function ParseKeyEqualsLitStr(ts: seq<Token>): (r: Result<Parsed<KeyEqualsLitStr>>)
    ensures r.Ok? <==> |ts| >= 3 && ts[0].Ident? && ts[1] == Eq && ts[2].LitStr?
    ensures r.Ok? ==> r.value == Parsed(KeyEqualsLitStr(ts[0].name, ts[2].value), ts[3..])
  {
    match ParseIdent(ts)
    case Err(e) => Err(e)
    case Ok(Parsed(key, rest)) =>
      match ParseEq(rest)
      case Err(e) => Err(e)
      case Ok(Parsed(_, rest')) =>
        match ParseLitStr(rest')
        case Err(e) => Err(e)
        case Ok(Parsed(value, rest'')) => Ok(Parsed(KeyEqualsLitStr(key, value), rest''))
  }

  /** The tokens of `key = "value"`. */
  function KeyValTokens(kv: KeyEqualsLitStr): seq<Token> {
    [Ident(kv.key), Eq, LitStr(kv.value)]
  }

  /** `#[path(tokens)]` with a one-segment path. */
  function ListAttr(name: string, tokens: seq<Token>): Attribute {
    Attribute(Outer, MetaList([PathSegment(name, false)], tokens))
  }
}
