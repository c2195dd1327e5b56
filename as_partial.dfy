/** What `#[derive(AsPartial)]` generates: the where-clause of the generated
    impls, the partial struct for a struct (fields rewritten one by one) and
    for an enum (one slot per variant plus the `TryFrom` decoder), and the
    dispatch between the two. `cfg!(feature = "serde")` is the `serde` flag. */
module AsPartialMacro {
  import opened Wrappers
  import opened Syntax
  import opened Heck
  import opened AttrExt
  import opened SerdeAttributes
  import opened SynExtensions
  import opened DeriveConfig
  import Json
  import PartialDecode

  /** `is_serde_regular_default` and `is_serde_any_default`, which the derive
      calls but whose definitions are not part of this model. */
  datatype DefaultMarkers = DefaultMarkers(regular: Attribute -> bool, any: Attribute -> bool)

  /** `attrs.iter().any(marker)`. */
  predicate HasMarker(attrs: seq<Attribute>, marker: Attribute -> bool) {
    attrs != [] && (marker(attrs[0]) || HasMarker(attrs[1..], marker))
  }

  const AsPartialTrait := "::aspartial::AsPartial"

  /** `#[serde(default)]`, `#[derive(::serde::Deserialize)]`, `#[serde(bound = "")]`
      and `#[serde(try_from = "::serde_json::Value")]`. */
  const SerdeDefaultAttr := ListAttr("serde", [Ident("default")])
  const DeriveDeserializeAttr := ListAttr("derive", [Other("::"), Ident("serde"), Other("::"), Ident("Deserialize")])
  const SerdeBoundAttr := ListAttr("serde", [Ident("bound"), Eq, LitStr("")])
  const SerdeTryFromValueAttr := ListAttr("serde", [Ident("try_from"), Eq, LitStr("::serde_json::Value")])

  // ---------------------------------------------------------------------------
  // where_clause_for_partial

  /** The predicates one field adds: its `AsPartial` bound, then a `Default`
      bound when it carries a regular default marker. */
  function FieldBound(f: Field, serde: bool, markers: DefaultMarkers): seq<WherePredicate> {
    [WherePredicate(f.ty, AsPartialBound(serde))]
    + (if HasMarker(f.attrs, markers.regular) then [WherePredicate(f.ty, DefaultBound)] else [])
  }

  /** The predicates all fields add, in field order. */
  function FieldBounds(fields: seq<Field>, serde: bool, markers: DefaultMarkers): seq<WherePredicate> {
    if fields == [] then []
    else FieldBounds(fields[..|fields| - 1], serde, markers) + FieldBound(fields[|fields| - 1], serde, markers)
  }

  function OriginalPredicates(original: Option<WhereClause>): seq<WherePredicate> {
    if original.Some? then original.value.predicates else []
  }

  /** `where_clause_for_partial`: the original predicates, then the field bounds,
      each followed by a comma. */
  method WhereClauseForPartial(original: Option<WhereClause>, fields: seq<Field>, serde: bool, markers: DefaultMarkers)
    returns (wc: WhereClause)
    requires original.Some? ==> original.value.Valid()
    ensures wc.Valid() && wc.EmptyOrTrailing()
    ensures wc.predicates == OriginalPredicates(original) + FieldBounds(fields, serde, markers)
  {
    wc := original.UnwrapOr(EmptyWhere);
    if !wc.EmptyOrTrailing() {
      wc := wc.PushPunct();
    }
    for i := 0 to |fields|
      invariant wc.Valid() && wc.EmptyOrTrailing()
      invariant wc.predicates == OriginalPredicates(original) + FieldBounds(fields[..i], serde, markers)
    {
      ghost var before := wc.predicates;
      var field := fields[i];
      wc := wc.PushValue(WherePredicate(field.ty, AsPartialBound(serde)));
      wc := wc.PushPunct();
      if HasMarker(field.attrs, markers.regular) {
        ghost var mid := wc.predicates;
        wc := wc.PushValue(WherePredicate(field.ty, DefaultBound));
        wc := wc.PushPunct();
        ConcatAssoc(before, [WherePredicate(field.ty, AsPartialBound(serde))], [WherePredicate(field.ty, DefaultBound)]);
      }
      FieldBoundsStep(fields, i, serde, markers);
      ConcatAssoc(OriginalPredicates(original), FieldBounds(fields[..i], serde, markers), FieldBound(field, serde, markers));
    }
    assert fields[..|fields|] == fields;
  }

  function RegularCount(fields: seq<Field>, markers: DefaultMarkers): nat {
    if fields == [] then 0
    else RegularCount(fields[..|fields| - 1], markers) + (if HasMarker(fields[|fields| - 1].attrs, markers.regular) then 1 else 0)
  }

  /** One `AsPartial` bound per field, and one `Default` bound per regular-default field. */
  lemma {:induction false} FieldBoundsLength(fields: seq<Field>, serde: bool, markers: DefaultMarkers)
    ensures |FieldBounds(fields, serde, markers)| == |fields| + RegularCount(fields, markers)
  {
    if fields != [] {
      FieldBoundsLength(fields[..|fields| - 1], serde, markers);
    }
  }

  /** The bounds of a prefix of the fields are a prefix of the bounds. */
  lemma {:induction false} FieldBoundsPrefix(fields: seq<Field>, k: nat, serde: bool, markers: DefaultMarkers)
    requires k <= |fields|
    ensures |FieldBounds(fields[..k], serde, markers)| <= |FieldBounds(fields, serde, markers)|
    ensures FieldBounds(fields, serde, markers)[..|FieldBounds(fields[..k], serde, markers)|] == FieldBounds(fields[..k], serde, markers)
    decreases |fields| - k
  {
    if k == |fields| {
      assert fields[..k] == fields;
    } else {
      var init := fields[..|fields| - 1];
      assert init[..k] == fields[..k];
      FieldBoundsPrefix(init, k, serde, markers);
    }
  }

  /** One more field appends its own group of predicates. */
  lemma FieldBoundsStep(fields: seq<Field>, k: nat, serde: bool, markers: DefaultMarkers)
    requires k < |fields|
    ensures FieldBounds(fields[..k + 1], serde, markers) == FieldBounds(fields[..k], serde, markers) + FieldBound(fields[k], serde, markers)
  {
    assert fields[..k + 1][..k] == fields[..k];
  }

  /** Field `k`'s group sits in the whole list right after the groups of the fields before it. */
  lemma FieldBoundsGroup(fields: seq<Field>, k: nat, serde: bool, markers: DefaultMarkers)
    requires k < |fields|
    ensures var o := |FieldBounds(fields[..k], serde, markers)|;
      var g := FieldBound(fields[k], serde, markers);
      o + |g| <= |FieldBounds(fields, serde, markers)|
      && forall j :: 0 <= j < |g| ==> FieldBounds(fields, serde, markers)[o + j] == g[j]
  {
    FieldBoundsStep(fields, k, serde, markers);
    FieldBoundsPrefix(fields, k + 1, serde, markers);
    InPrefix(FieldBounds(fields, serde, markers), FieldBounds(fields[..k], serde, markers), FieldBound(fields[k], serde, markers));
  }

  /** A block `g` that ends a prefix `head + g` of `b` sits in `b` right after `head`. */
  lemma InPrefix<T>(b: seq<T>, head: seq<T>, g: seq<T>)
    requires |head + g| <= |b| && b[..|head + g|] == head + g
    ensures forall j :: 0 <= j < |g| ==> b[|head| + j] == g[j]
  {
    forall j | 0 <= j < |g|
      ensures b[|head| + j] == g[j]
    {
      assert b[|head| + j] == b[..|head + g|][|head| + j];
    }
  }

  /** A field's group: its `AsPartial` bound, then a `Default` bound exactly
      when it is a regular-default field. */
  lemma FieldBoundShape(f: Field, serde: bool, markers: DefaultMarkers)
    ensures var g := FieldBound(f, serde, markers);
      1 <= |g| <= 2 && g[0] == WherePredicate(f.ty, AsPartialBound(serde))
      && (HasMarker(f.attrs, markers.regular) <==> |g| == 2)
      && (|g| == 2 ==> g[1] == WherePredicate(f.ty, DefaultBound))
  {
  }

  /** Where field `k`'s predicates start: its `AsPartial` bound, immediately
      followed by a `Default` bound exactly when it is a regular-default field. */
  lemma FieldBoundsAt(fields: seq<Field>, k: nat, serde: bool, markers: DefaultMarkers)
    requires k < |fields|
    ensures var o := |FieldBounds(fields[..k], serde, markers)|;
      var b := FieldBounds(fields, serde, markers);
      o < |b| && b[o] == WherePredicate(fields[k].ty, AsPartialBound(serde))
      && (HasMarker(fields[k].attrs, markers.regular) <==> o + 1 < |b| && b[o + 1] == WherePredicate(fields[k].ty, DefaultBound))
  {
    FieldBoundsGroup(fields, k, serde, markers);
    FieldBoundShape(fields[k], serde, markers);
    FieldBoundsStep(fields, k, serde, markers);
    if k + 1 < |fields| {
      // the group of field k + 1 follows
      FieldBoundsGroup(fields, k + 1, serde, markers);
      FieldBoundShape(fields[k + 1], serde, markers);
    } else {
      // field k is the last one
      assert fields[..k + 1] == fields;
    }
  }

  // ---------------------------------------------------------------------------
  // make_partial_struct

  /** `attrs.retain(|attr| attr.is_serde_attr())`. */
  function SerdeOnly(attrs: seq<Attribute>): (r: seq<Attribute>)
    ensures |r| <= |attrs|
    ensures forall a :: a in r <==> a in attrs && IsSerdeAttr(a)
  {
    if attrs == [] then []
    else
      var tail := SerdeOnly(attrs[1..]);
      assert forall a :: a in attrs <==> a == attrs[0] || a in attrs[1..];
      if IsSerdeAttr(attrs[0]) then [attrs[0]] + tail else tail
  }

  /** `retain` keeps order and multiplicity: filtering a concatenation is
      concatenating the filtered parts ... */
  lemma {:induction false} SerdeOnlyConcat(x: seq<Attribute>, y: seq<Attribute>)
    ensures SerdeOnly(x + y) == SerdeOnly(x) + SerdeOnly(y)
  {
    if x != [] {
      assert (x + y)[1..] == x[1..] + y;
      SerdeOnlyConcat(x[1..], y);
    } else {
      assert x + y == y;
    }
  }

  /** ... and a single attribute is kept exactly when it is a serde attribute. */
  lemma SerdeOnlySingle(a: Attribute)
    ensures SerdeOnly([a]) == (if IsSerdeAttr(a) then [a] else [])
  {
  }

  /** `Option<<ty as ::aspartial::AsPartial>::Partial>`. */
  function OptionalPartial(ty: Type): Type { OptionOf(Projection(ty, AsPartialTrait)) }

  /** The rewrite rule: `g` is the partial-struct field for the original field `f`.
      The field becomes `pub` and keeps its name. With serde, only serde
      attributes stay; a field with a default marker keeps its type, any other
      becomes optional and gains `#[serde(default)]`. Without serde, every field
      becomes optional and loses its attributes. */
  predicate IsPartialFieldOf(f: Field, g: Field, serde: bool, markers: DefaultMarkers) {
    g.ident == f.ident && g.vis == Public
    && if serde then
         var kept := SerdeOnly(f.attrs);
         if HasMarker(kept, markers.any) then g.attrs == kept && g.ty == f.ty
         else g.attrs == kept + [SerdeDefaultAttr] && g.ty == OptionalPartial(f.ty)
       else g.attrs == [] && g.ty == OptionalPartial(f.ty)
  }

  datatype AsPartialImpl = AsPartialImpl(forType: string, partialType: string, whereClause: WhereClause)

  /** The generated `TryFrom<serde_json::Value>`: its tagging convention, and
      each slot's field name with the wire tag of its variant. */
  datatype TryFromImpl = TryFromImpl(params: TagParams, slots: seq<(string, string)>)

  datatype Expansion = Expansion(impls: seq<AsPartialImpl>, partialStruct: ItemStruct, tryFrom: Option<TryFromImpl>)

  /** The `iter_mut` loop of `make_partial_struct`: each field rewritten in place. */
  method RewriteFields(original: seq<Field>, serde: bool, markers: DefaultMarkers) returns (fields: seq<Field>)
    ensures |fields| == |original|
    ensures forall i :: 0 <= i < |fields| ==> IsPartialFieldOf(original[i], fields[i], serde, markers)
  {
    fields := original;
    for i := 0 to |fields|
      invariant |fields| == |original|
      invariant forall j :: 0 <= j < i ==> IsPartialFieldOf(original[j], fields[j], serde, markers)
      invariant forall j :: i <= j < |fields| ==> fields[j] == original[j]
    {
      var field := fields[i];
      field := field.(vis := Public);
      if serde {
        field := field.(attrs := SerdeOnly(field.attrs));
        var isDefaultField := HasMarker(field.attrs, markers.any);
        if !isDefaultField {
          field := field.(attrs := field.attrs + [SerdeDefaultAttr]);
          field := field.(ty := OptionalPartial(field.ty));
        }
      } else {
        field := field.(attrs := []);
        field := field.(ty := OptionalPartial(field.ty));
      }
      fields := fields[i := field];
    }
  }

  /** `x` is the expansion of the struct `input` when its configuration
      parses: the partial struct has the configured name, then the config attrs
      and the serde derive attrs; it has the same field kind, count and order,
      each field rewritten by the rule, under the computed where-clause; and
      there are two `AsPartial` impls and no `TryFrom`. */
  predicate IsStructExpansion(input: ItemStruct, serde: bool, markers: DefaultMarkers, x: Expansion) {
    && ConfigsFromAttrs(input.attrs).Ok?
    && var confs := ConfigsFromAttrs(input.attrs).value;
       var p := x.partialStruct;
       && p.ident == confs.partialTypeIdent
       && p.attrs == confs.attrs + (if serde then [DeriveDeserializeAttr, SerdeBoundAttr] else [])
       && p.vis == input.vis
       && p.generics.params == input.generics.params
       && p.generics.whereClause.Some?
       && p.generics.whereClause.value.predicates
            == OriginalPredicates(input.generics.whereClause) + FieldBounds(input.fields.All(), serde, markers)
       && p.fields.Named? == input.fields.Named? && p.fields.Unnamed? == input.fields.Unnamed?
       && |p.fields.All()| == |input.fields.All()|
       && (forall i :: 0 <= i < |p.fields.All()| ==> IsPartialFieldOf(input.fields.All()[i], p.fields.All()[i], serde, markers))
       && x.impls == [AsPartialImpl(input.ident, p.ident, p.generics.whereClause.value),
                      AsPartialImpl(p.ident, p.ident, p.generics.whereClause.value)]
       && x.tryFrom.None?
  }

  /** `make_partial_struct`. */
  method MakePartialStruct(input: ItemStruct, serde: bool, markers: DefaultMarkers) returns (r: Result<Expansion>)
    requires PathsNonEmpty(input.attrs)
    requires input.generics.whereClause.Some? ==> input.generics.whereClause.value.Valid()
    ensures r.Err? <==> ConfigsFromAttrs(input.attrs).Err?
    ensures r.Err? ==> r.error == ConfigsFromAttrs(input.attrs).error
    ensures r.Ok? ==> IsStructExpansion(input, serde, markers, r.value)
  {
    var confs := FromAttrs(input.attrs);
    if confs.Err? {
      return Err(confs.error);
    }
    var wc := WhereClauseForPartial(input.generics.whereClause, input.fields.All(), serde, markers);
    var attrs := confs.value.attrs;
    if serde {
      attrs := attrs + [DeriveDeserializeAttr];
      attrs := attrs + [SerdeBoundAttr];
    }
    var fields := RewriteFields(input.fields.All(), serde, markers);
    var partial := ItemStruct(attrs, input.vis, confs.value.partialTypeIdent,
                              Generics(input.generics.params, Some(wc)), input.fields.WithAll(fields));
    r := Ok(Expansion([AsPartialImpl(input.ident, partial.ident, wc), AsPartialImpl(partial.ident, partial.ident, wc)],
                      partial, None));
  }

  /** The appended `#[serde(default)]` is itself a serde default marker, so
      with serde every field of the partial struct may be absent from the input. */
  lemma AppendedDefaultIsMarker()
    ensures IsSerdeAttr(SerdeDefaultAttr) && IsSerdeDefault(SerdeDefaultAttr)
  {
    IsSerdeDefaultExactly(SerdeDefaultAttr);
  }

  // ---------------------------------------------------------------------------
  // make_partial_enum

  /** All variants' fields, variant by variant (`variants.iter().map(|v| v.fields()).flatten()`). */
  function VariantFields(vs: seq<Variant>): seq<Field> {
    if vs == [] then [] else VariantFields(vs[..|vs| - 1]) + vs[|vs| - 1].fields.All()
  }

  /** `flatten` distributes over concatenation: the fields of two runs of
      variants are the first run's fields, then the second's. */
  lemma {:induction false} VariantFieldsConcat(a: seq<Variant>, b: seq<Variant>)
    ensures VariantFields(a + b) == VariantFields(a) + VariantFields(b)
    decreases |b|
  {
    if b == [] {
      assert a + b == a;
    } else {
      var init := b[..|b| - 1];
      assert (a + b)[..|a + b| - 1] == a + init;
      assert (a + b)[|a + b| - 1] == b[|b| - 1];
      VariantFieldsConcat(a, init);
      ConcatAssoc(VariantFields(a), VariantFields(init), b[|b| - 1].fields.All());
    }
  }

  /** The slots of the partial enum: each variant's field name and wire tag. */
  function Slots(e: ItemEnum, heck: CaseConversions): (r: seq<(string, string)>)
    ensures |r| == |e.variants|
    ensures forall i :: 0 <= i < |r| ==>
      r[i] == (PartialFieldName(e.variants[i], heck), Tag(e.variants[i], OuterRename(e), heck))
  {
    var tagged := TaggedVariants(e, heck);
    seq(|tagged|, i requires 0 <= i < |tagged| => (PartialFieldName(tagged[i].1, heck), tagged[i].0))
  }

  /** The variants `collect` reaches can be quoted: it stops at the first
      variant that is not a tuple variant, so only those before it (and that
      one, which `QuotableVariant` accepts) matter. */
  predicate AllQuotable(vs: seq<Variant>) {
    forall i :: 0 <= i < |vs| && (forall j :: 0 <= j < i ==> vs[j].fields.Unnamed?) ==> QuotableVariant(vs[i])
  }

  /** `variants.iter().map(|v| v.as_partial_field()).collect::<syn::Result<Vec<_>>>()`:
      every variant's slot, or the error of the first variant that has none. */
  method CollectPartialFields(vs: seq<Variant>, heck: CaseConversions) returns (r: Result<seq<Field>>)
    requires AllQuotable(vs)
    ensures r.Ok? <==> forall i :: 0 <= i < |vs| ==> vs[i].fields.Unnamed?
    ensures r.Err? ==> r.error == "Only unnamed fields supported for now"
    ensures r.Ok? ==> |r.value| == |vs| && forall i :: 0 <= i < |vs| ==> AsPartialField(vs[i], heck) == Ok(r.value[i])
  {
    var fields: seq<Field> := [];
    for i := 0 to |vs|
      invariant |fields| == i
      invariant forall j :: 0 <= j < i ==> vs[j].fields.Unnamed?
      invariant forall j :: 0 <= j < i ==> AsPartialField(vs[j], heck) == Ok(fields[j])
    {
      var field := AsPartialField(vs[i], heck);
      if field.Err? {
        return Err(field.error);
      }
      fields := fields + [field.value];
    }
    r := Ok(fields);
  }

  /** `x` is the expansion of the enum `input` when its configuration parses
      and every variant is a tuple variant: a `pub` struct with the serde attrs
      and then the config attrs, one slot per variant, a where-clause over all
      variants' fields, two `AsPartial` impls, and, with serde only, a `TryFrom`
      for the enum's tagging convention over the variants' wire tags. */
  predicate IsEnumExpansion(input: ItemEnum, serde: bool, markers: DefaultMarkers, heck: CaseConversions, x: Expansion)
    requires AllQuotable(input.variants)
  {
    && ConfigsFromAttrs(input.attrs).Ok?
    && var confs := ConfigsFromAttrs(input.attrs).value;
       var p := x.partialStruct;
       && p.ident == confs.partialTypeIdent
       && p.attrs == (if serde then [DeriveDeserializeAttr, SerdeBoundAttr, SerdeTryFromValueAttr] else []) + confs.attrs
       && p.vis == Public
       && p.generics.params == input.generics.params
       && p.generics.whereClause.Some?
       && p.generics.whereClause.value.predicates
            == OriginalPredicates(input.generics.whereClause) + FieldBounds(VariantFields(input.variants), serde, markers)
       && p.fields.Named? && |p.fields.named| == |input.variants|
       && (forall i :: 0 <= i < |input.variants| ==> input.variants[i].fields.Unnamed?)
       && (forall i :: 0 <= i < |input.variants| ==> AsPartialField(input.variants[i], heck) == Ok(p.fields.named[i]))
       && x.impls == [AsPartialImpl(input.ident, p.ident, p.generics.whereClause.value),
                      AsPartialImpl(p.ident, p.ident, p.generics.whereClause.value)]
       && x.tryFrom == (if serde then Some(TryFromImpl(TagParamsFromAttributes(input.attrs), Slots(input, heck))) else None)
  }

  /** `make_partial_enum`. */
  method MakePartialEnum(input: ItemEnum, serde: bool, markers: DefaultMarkers, heck: CaseConversions)
    returns (r: Result<Expansion>)
    requires PathsNonEmpty(input.attrs) && AllQuotable(input.variants)
    requires input.generics.whereClause.Some? ==> input.generics.whereClause.value.Valid()
    ensures ConfigsFromAttrs(input.attrs).Err? ==> r == Err(ConfigsFromAttrs(input.attrs).error)
    ensures ConfigsFromAttrs(input.attrs).Ok? ==>
      (r.Err? <==> exists i :: 0 <= i < |input.variants| && !input.variants[i].fields.Unnamed?)
    ensures ConfigsFromAttrs(input.attrs).Ok? && r.Err? ==> r.error == "Only unnamed fields supported for now"
    ensures r.Ok? ==> IsEnumExpansion(input, serde, markers, heck, r.value)
  {
    var confs := FromAttrs(input.attrs);
    if confs.Err? {
      return Err(confs.error);
    }
    var tagStyle := FromAttributes(input.attrs);
    var slots := Slots(input, heck);
    var collected := CollectPartialFields(input.variants, heck);
    if collected.Err? {
      return Err(collected.error);
    }
    var fields := collected.value;
    var wc := WhereClauseForPartial(input.generics.whereClause, VariantFields(input.variants), serde, markers);
    var attrs := (if serde then [DeriveDeserializeAttr, SerdeBoundAttr, SerdeTryFromValueAttr] else []) + confs.value.attrs;
    var partial := ItemStruct(attrs, Public, confs.value.partialTypeIdent,
                              Generics(input.generics.params, Some(wc)), Named(fields));
    var tryFrom := if serde then Some(TryFromImpl(tagStyle, slots)) else None;
    r := Ok(Expansion([AsPartialImpl(input.ident, partial.ident, wc), AsPartialImpl(partial.ident, partial.ident, wc)],
                      partial, tryFrom));
  }

  /** The variant decoders the generated `TryFrom` matches on: slot `i` is
      selected by its wire tag and filled by the payload decoder `payloads[i]`
      (`serde_json::from_value::<T_i>(..).ok()`). */
  function GeneratedDecoders<P>(t: TryFromImpl, payloads: seq<Json.Json -> Option<P>>): seq<PartialDecode.VariantDecoder<P>>
    requires |payloads| == |t.slots|
  {
    seq(|t.slots|, i requires 0 <= i < |t.slots| => PartialDecode.VariantDecoder(t.slots[i].1, payloads[i]))
  }

  /** The enum's variants as the decoder sees them: each with its wire tag. */
  function VariantDecoders<P>(e: ItemEnum, heck: CaseConversions, payloads: seq<Json.Json -> Option<P>>)
    : seq<PartialDecode.VariantDecoder<P>>
    requires |payloads| == |e.variants|
  {
    seq(|e.variants|, i requires 0 <= i < |e.variants| =>
      PartialDecode.VariantDecoder(Tag(e.variants[i], OuterRename(e), heck), payloads[i]))
  }

  /** The `TryFrom` that `MakePartialEnum` generates with serde,
      `TryFromImpl(TagParamsFromAttributes(e.attrs), Slots(e, heck))`, is the
      decoding procedure of the tagging convention the enum's `#[serde(..)]`
      attributes name, run over its variants, in declaration order, under
      their wire tags. */
  lemma GeneratedTryFromDecodesVariants<P>(e: ItemEnum, heck: CaseConversions, t: TryFromImpl,
                                           payloads: seq<Json.Json -> Option<P>>, value: Json.Json)
    requires t == TryFromImpl(TagParamsFromAttributes(e.attrs), Slots(e, heck))
    requires |payloads| == |e.variants|
    ensures |t.slots| == |e.variants|
    ensures PartialDecode.TryFrom(t.params, GeneratedDecoders(t, payloads), value)
         == PartialDecode.TryFrom(TagParamsFromAttributes(e.attrs), VariantDecoders(e, heck, payloads), value)
  {
    assert GeneratedDecoders(t, payloads) == VariantDecoders(e, heck, payloads);
  }

  // ---------------------------------------------------------------------------
  // do_derive_as_partial

  /** `do_derive_as_partial`: structs and enums are expanded, anything else is refused. */
  method DoDeriveAsPartial(input: Item, serde: bool, markers: DefaultMarkers, heck: CaseConversions)
    returns (r: Result<Expansion>)
    requires input.StructItem? ==> (PathsNonEmpty(input.s.attrs)
      && (input.s.generics.whereClause.Some? ==> input.s.generics.whereClause.value.Valid()))
    requires input.EnumItem? ==> (PathsNonEmpty(input.e.attrs) && AllQuotable(input.e.variants)
      && (input.e.generics.whereClause.Some? ==> input.e.generics.whereClause.value.Valid()))
    ensures input.OtherItem? ==> r == Err("Must apply to enum or struct")
    ensures input.StructItem? ==> (r.Ok? <==> ConfigsFromAttrs(input.s.attrs).Ok?)
    ensures input.StructItem? && r.Err? ==> r.error == ConfigsFromAttrs(input.s.attrs).error
    ensures input.StructItem? && r.Ok? ==> IsStructExpansion(input.s, serde, markers, r.value)
    ensures input.EnumItem? ==>
      (r.Ok? <==> ConfigsFromAttrs(input.e.attrs).Ok? && forall i :: 0 <= i < |input.e.variants| ==> input.e.variants[i].fields.Unnamed?)
    ensures input.EnumItem? && r.Err? ==>
      r.error == (if ConfigsFromAttrs(input.e.attrs).Err? then ConfigsFromAttrs(input.e.attrs).error
                  else "Only unnamed fields supported for now")
    ensures input.EnumItem? && r.Ok? ==> IsEnumExpansion(input.e, serde, markers, heck, r.value)
  {
    match input
    case StructItem(s) => r := MakePartialStruct(s, serde, markers);
    case EnumItem(e) => r := MakePartialEnum(e, serde, markers, heck);
    case OtherItem => r := Err("Must apply to enum or struct");
  }
}
