/** Queries on attributes, variants and enums: which attributes are serde
    `default` markers, what wire tag a variant has, and what slot of the
    partial struct a variant becomes. */
module SynExtensions {
  import opened Wrappers
  import opened Syntax
  import opened Heck
  import opened AttrExt
  import opened SerdeAttributes

  /** `IAttrExt::is_serde_default`. */
  predicate IsSerdeDefault(a: Attribute) {
    IsSerdeAttr(a) && a.style != Inner && a.meta.MetaList? && ParseArgs(ParseDefaultParams(a.meta.tokens)).Ok?
  }

  /** Only an outer, list-form serde attribute reading `default` or
      `default = "<lit>"` is a default marker. */
  lemma IsSerdeDefaultExactly(a: Attribute)
    ensures IsSerdeDefault(a) <==>
      IsSerdeAttr(a) && a.style == Outer && a.meta.MetaList?
      && (a.meta.tokens == [Ident("default")]
          || (|a.meta.tokens| == 3 && a.meta.tokens[0] == Ident("default") && a.meta.tokens[1] == Eq && a.meta.tokens[2].LitStr?))
  {
    if a.meta.MetaList? {
      DefaultArgsGrammar(a.meta.tokens);
    }
  }

  /** `IVariantExt::partial_field_name`: the variant's name in snake case. */
  function PartialFieldName(v: Variant, heck: CaseConversions): string {
    heck.snake(v.ident)
  }

  /** The trait the generated slot type projects through, as the source spells it. */
  const SlotTraitPath := "::bioimg_spec::util::AsPartial"

  /** `Option<T>`. */
  function OptionOf(t: Type): Type { TypePath("Option", [t]) }

  /** What `as_partial_field` needs of a tuple variant for its `parse_quote!` to
      succeed: exactly one field, with no attributes and no visibility, and no
      trailing comma (`<A, as ..>` does not parse). */
  predicate QuotableVariant(v: Variant) {
    v.fields.Unnamed? ==>
      && |v.fields.unnamed| == 1 && v.fields.unnamed[0].attrs == [] && v.fields.unnamed[0].vis == Inherited
      && !v.fields.trailingComma
  }

  /** `IVariantExt::as_partial_field`: a tuple variant becomes a named,
      private slot `snake_name: Option<<Payload as AsPartial>::Partial>`; named
      and unit variants are rejected. */
  function AsPartialField(v: Variant, heck: CaseConversions): (r: Result<Field>)
    requires QuotableVariant(v)
    ensures r.Ok? <==> v.fields.Unnamed?
    ensures r.Err? ==> r.error == "Only unnamed fields supported for now"
    ensures r.Ok? ==> r.value.ident == Some(PartialFieldName(v, heck)) && r.value.attrs == [] && r.value.vis == Inherited
    ensures r.Ok? ==> r.value.ty == OptionOf(Projection(v.fields.unnamed[0].ty, SlotTraitPath))
  {
    match v.fields
    case Unnamed(unnamed, _) =>
      Ok(Field([], Inherited, Some(PartialFieldName(v, heck)), OptionOf(Projection(unnamed[0].ty, SlotTraitPath))))
    case _ => Err("Only unnamed fields supported for now")
  }

  /** `IVariantExt::tag`: the wire tag of a variant. The variant's first
      `rename` wins; otherwise the enum-wide `rename_all` style is applied to
      the identifier; otherwise the identifier is used as it is. */
  function Tag(v: Variant, outerRename: Option<RenameStyle>, heck: CaseConversions): (r: string)
    ensures (exists i :: 0 <= i < |v.attrs| && InnerRenameTryFromAttr(v.attrs[i]) == Some(r)
               && forall j :: 0 <= j < i ==> InnerRenameTryFromAttr(v.attrs[j]).None?)
         || ((forall i :: 0 <= i < |v.attrs| ==> InnerRenameTryFromAttr(v.attrs[i]).None?)
             && r == (if outerRename.Some? then Transform(outerRename.value, v.ident, heck) else v.ident))
  {
    match FindMap(v.attrs, InnerRenameTryFromAttr)
    case Some(newName) => newName
    case None =>
      match outerRename
      case Some(style) => Transform(style, v.ident, heck)
      case None => v.ident
  }

  /** `IVariantExt::field_types`: the field types in order, none for a unit variant. */
  function FieldTypes(v: Variant): (r: seq<Type>)
    ensures v.fields.Unit? ==> r == []
    ensures |r| == |v.fields.All()| && forall i :: 0 <= i < |r| ==> r[i] == v.fields.All()[i].ty
  {
    seq(|v.fields.All()|, i requires 0 <= i < |v.fields.All()| => v.fields.All()[i].ty)
  }

  /** The enum's `rename_all` style: that of its first attribute which parses as one. */
  function OuterRename(e: ItemEnum): (r: Option<RenameStyle>)
    ensures r.Some? ==> exists i :: 0 <= i < |e.attrs| && OuterRenameTryFromAttr(e.attrs[i]) == r
                          && forall j :: 0 <= j < i ==> OuterRenameTryFromAttr(e.attrs[j]).None?
    ensures r.None? ==> forall i :: 0 <= i < |e.attrs| ==> OuterRenameTryFromAttr(e.attrs[i]).None?
  {
    FindMap(e.attrs, OuterRenameTryFromAttr)
  }

  /** `IEnumExt::tagged_variants`: one (tag, variant) pair per variant, in
      declaration order, all tagged under the same `rename_all` style. */
  function TaggedVariants(e: ItemEnum, heck: CaseConversions): (r: seq<(string, Variant)>)
    ensures |r| == |e.variants|
    ensures forall i :: 0 <= i < |r| ==> r[i] == (Tag(e.variants[i], OuterRename(e), heck), e.variants[i])
  {
    var rename := OuterRename(e);
    seq(|e.variants|, i requires 0 <= i < |e.variants| => (Tag(e.variants[i], rename, heck), e.variants[i]))
  }

  /** A `rename` on the variant, wherever it stands among the variant's
      attributes, overrides the enum-wide style (or its absence), provided no
      earlier attribute is a `rename`. */
  lemma RenameOverridesStyle(v: Variant, name: string, i: nat, outerRename: Option<RenameStyle>, heck: CaseConversions)
    requires i < |v.attrs| && v.attrs[i] == ListAttr("serde", [Ident("rename"), Eq, LitStr(name)])
    requires forall j :: 0 <= j < i ==> InnerRenameTryFromAttr(v.attrs[j]).None?
    ensures Tag(v, outerRename, heck) == name
  {
    assert IsSerdeAttr(v.attrs[i]);
    RenameArgsGrammar(v.attrs[i].meta.tokens);
    assert InnerRenameTryFromAttr(v.attrs[i]) == Some(name);
  }
}
