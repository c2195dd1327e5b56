/** The `TryFrom<serde_json::Value>` implementation generated for a partial
    enum, read as an interpreter. The partial enum is one optional slot per
    variant; the four tagging conventions differ only in which slots they fill.
    Each variant's payload decoder (`serde_json::from_value(..).ok()`) is given. */
module PartialDecode {
  import opened Wrappers
  import opened Json
  import opened SerdeAttributes

  /** A variant as the generated code sees it: its wire tag and its payload decoder. */
  datatype VariantDecoder<P> = VariantDecoder(tag: string, decode: Json -> Option<P>)

  /** `Self { slot: None, ... }`. */
  function EmptyPartial<P>(n: nat): (r: seq<Option<P>>)
    ensures |r| == n && forall i :: 0 <= i < n ==> r[i].None?
  {
    seq(n, i => None)
  }

  /** Every slot decoded from the same value (`partial_from_value`). */
  function PartialFromValue<P>(vs: seq<VariantDecoder<P>>, value: Json): (r: seq<Option<P>>)
    ensures |r| == |vs|
  {
    seq(|vs|, i requires 0 <= i < |vs| => vs[i].decode(value))
  }

  /** The first variant, in declaration order, whose wire tag is `tag`. */
  function TagIndex<P>(vs: seq<VariantDecoder<P>>, tag: string): (r: Option<nat>)
    ensures r.Some? ==> r.value < |vs| && vs[r.value].tag == tag && forall j :: 0 <= j < r.value ==> vs[j].tag != tag
    ensures r.None? ==> forall j :: 0 <= j < |vs| ==> vs[j].tag != tag
  {
    FirstIndex(vs, (v: VariantDecoder<P>) => v.tag == tag)
  }

  /** `partial_from_tag`: the match on the tag string, whose first matching arm fills its slot. */
  function PartialFromTag<P>(vs: seq<VariantDecoder<P>>, value: Json, tag: string): (r: seq<Option<P>>)
    ensures |r| == |vs|
  {
    match TagIndex(vs, tag)
    case None => EmptyPartial(|vs|)
    case Some(i) => EmptyPartial(|vs|)[i := vs[i].decode(value)]
  }

  /** The first variant whose wire tag is a key of the value. */
  function KeyIndex<P>(vs: seq<VariantDecoder<P>>, value: Json): (r: Option<nat>)
    ensures r.Some? ==> r.value < |vs| && Get(value, vs[r.value].tag).Some?
                        && forall j :: 0 <= j < r.value ==> Get(value, vs[j].tag).None?
    ensures r.None? ==> forall j :: 0 <= j < |vs| ==> Get(value, vs[j].tag).None?
  {
    FirstIndex(vs, (v: VariantDecoder<P>) => Get(value, v.tag).Some?)
  }

  /** `partial_from_outer_tagged`: the labelled block that breaks out at the
      first variant whose tag is a key, else decodes every slot from the value. */
  function PartialFromOuterTagged<P>(vs: seq<VariantDecoder<P>>, value: Json): (r: seq<Option<P>>)
    ensures |r| == |vs|
  {
    match KeyIndex(vs, value)
    case Some(i) => EmptyPartial(|vs|)[i := vs[i].decode(Get(value, vs[i].tag).value)]
    case None => PartialFromValue(vs, value)
  }

  /** The internally tagged body: a string under the tag key selects by tag;
      anything else decodes every slot from the value. */
  function DecodeInternallyTagged<P>(vs: seq<VariantDecoder<P>>, tagKey: string, value: Json): (r: seq<Option<P>>)
    ensures |r| == |vs|
  {
    match Get(value, tagKey)
    case Some(String(tag)) => PartialFromTag(vs, value, tag)
    case _ => PartialFromValue(vs, value)
  }

  /** The adjacently tagged body: the tag is read from the value, and the
      payload is decoded from the content member (or from the value itself when
      it has none). The generated code reads the tag from the content instead;
      `DecodeAdjacentlyTaggedAsWritten` below keeps that reading. */
  function DecodeAdjacentlyTagged<P>(vs: seq<VariantDecoder<P>>, tagKey: string, contentKey: string, value: Json)
    : (r: seq<Option<P>>)
    ensures |r| == |vs|
  {
    var content := Get(value, contentKey).UnwrapOr(value);
    match Get(value, tagKey)
    case Some(String(tag)) => PartialFromTag(vs, content, tag)
    case _ => PartialFromValue(vs, content)
  }

  /** `try_from` for each convention: it always returns `Ok`, with one slot per variant. */
  function TryFrom<P>(params: TagParams, vs: seq<VariantDecoder<P>>, value: Json): (r: Result<seq<Option<P>>>)
    ensures r.Ok? && |r.value| == |vs|
  {
    match params
    case Untagged => Ok(PartialFromValue(vs, value))
    case InternallyTagged(tagKey) => Ok(DecodeInternallyTagged(vs, tagKey, value))
    case AdjacentlyTagged(tagKey, contentKey) => Ok(DecodeAdjacentlyTagged(vs, tagKey, contentKey, value))
    case ExternallyTagged => Ok(PartialFromOuterTagged(vs, value))
  }

  // ---------------------------------------------------------------------------
  // The four procedures, stated independently of how they are written

  /** Untagged: each slot holds its own decoder's reading of the whole value,
      independently of the others, so several slots may be filled. */
  lemma UntaggedTriesEveryVariant<P>(vs: seq<VariantDecoder<P>>, value: Json, i: nat)
    requires i < |vs|
    ensures TryFrom(Untagged, vs, value).value[i] == vs[i].decode(value)
  {
  }

  /** Internally tagged, no string under the tag key: the same as untagged. */
  lemma InternallyTaggedWithoutStringTag<P>(vs: seq<VariantDecoder<P>>, tagKey: string, value: Json)
    requires !(Get(value, tagKey).Some? && Get(value, tagKey).value.String?)
    ensures TryFrom(InternallyTagged(tagKey), vs, value) == TryFrom(Untagged, vs, value)
  {
  }

  /** Internally tagged, a string tag: the first variant carrying that tag is
      decoded from the whole value and every other slot is empty. */
  lemma InternallyTaggedSelectsFirstMatch<P>(vs: seq<VariantDecoder<P>>, tagKey: string, value: Json, i: nat)
    requires Get(value, tagKey).Some? && Get(value, tagKey).value.String?
    requires i < |vs| && vs[i].tag == Get(value, tagKey).value.s
    requires forall j :: 0 <= j < i ==> vs[j].tag != vs[i].tag
    ensures TryFrom(InternallyTagged(tagKey), vs, value).value[i] == vs[i].decode(value)
    ensures forall j :: 0 <= j < |vs| && j != i ==> TryFrom(InternallyTagged(tagKey), vs, value).value[j].None?
  {
    assert TagIndex(vs, vs[i].tag) == Some(i);
  }

  /** Internally tagged, a string tag no variant carries: every slot is empty. */
  lemma InternallyTaggedUnknownTag<P>(vs: seq<VariantDecoder<P>>, tagKey: string, value: Json)
    requires Get(value, tagKey).Some? && Get(value, tagKey).value.String?
    requires forall j :: 0 <= j < |vs| ==> vs[j].tag != Get(value, tagKey).value.s
    ensures forall j :: 0 <= j < |vs| ==> TryFrom(InternallyTagged(tagKey), vs, value).value[j].None?
  {
  }

  /** Adjacently tagged, a string under the tag key: the first variant
      carrying that tag is decoded from the content member and every other
      slot is empty. */
  lemma AdjacentlyTaggedSelectsFirstMatch<P>(vs: seq<VariantDecoder<P>>, tagKey: string, contentKey: string, value: Json, i: nat)
    requires Get(value, tagKey).Some? && Get(value, tagKey).value.String?
    requires Get(value, contentKey).Some?
    requires i < |vs| && vs[i].tag == Get(value, tagKey).value.s
    requires forall j :: 0 <= j < i ==> vs[j].tag != vs[i].tag
    ensures TryFrom(AdjacentlyTagged(tagKey, contentKey), vs, value).value[i] == vs[i].decode(value.members[contentKey])
    ensures forall j :: 0 <= j < |vs| && j != i ==> TryFrom(AdjacentlyTagged(tagKey, contentKey), vs, value).value[j].None?
  {
    assert TagIndex(vs, vs[i].tag) == Some(i);
  }

  /** Adjacently tagged, a string tag no variant carries: every slot is empty. */
  lemma AdjacentlyTaggedUnknownTag<P>(vs: seq<VariantDecoder<P>>, tagKey: string, contentKey: string, value: Json)
    requires Get(value, tagKey).Some? && Get(value, tagKey).value.String?
    requires forall j :: 0 <= j < |vs| ==> vs[j].tag != Get(value, tagKey).value.s
    ensures forall j :: 0 <= j < |vs| ==> TryFrom(AdjacentlyTagged(tagKey, contentKey), vs, value).value[j].None?
  {
  }

  /** Adjacently tagged, a string tag but no content member: the selected
      variant is decoded from the whole value, and every other slot is empty. */
  lemma AdjacentlyTaggedWithoutContent<P>(vs: seq<VariantDecoder<P>>, tagKey: string, contentKey: string, value: Json, i: nat)
    requires Get(value, tagKey).Some? && Get(value, tagKey).value.String?
    requires Get(value, contentKey).None?
    requires i < |vs| && vs[i].tag == Get(value, tagKey).value.s
    requires forall j :: 0 <= j < i ==> vs[j].tag != vs[i].tag
    ensures TryFrom(AdjacentlyTagged(tagKey, contentKey), vs, value).value[i] == vs[i].decode(value)
    ensures forall j :: 0 <= j < |vs| && j != i ==> TryFrom(AdjacentlyTagged(tagKey, contentKey), vs, value).value[j].None?
  {
    assert TagIndex(vs, vs[i].tag) == Some(i);
  }

  /** Adjacently tagged, no string under the tag key: every slot is decoded
      from the content member (or the value when it has none), as untagged would. */
  lemma AdjacentlyTaggedWithoutStringTag<P>(vs: seq<VariantDecoder<P>>, tagKey: string, contentKey: string, value: Json)
    requires !(Get(value, tagKey).Some? && Get(value, tagKey).value.String?)
    ensures TryFrom(AdjacentlyTagged(tagKey, contentKey), vs, value)
         == TryFrom(Untagged, vs, if Get(value, contentKey).Some? then value.members[contentKey] else value)
  {
  }

  /** Externally tagged: the first variant whose tag is a key of the object is
      decoded from that member alone, and every other slot is empty. */
  lemma ExternallyTaggedSelectsFirstKey<P>(vs: seq<VariantDecoder<P>>, value: Json, i: nat)
    requires value.Object? && i < |vs| && vs[i].tag in value.members
    requires forall j :: 0 <= j < i ==> vs[j].tag !in value.members
    ensures TryFrom(ExternallyTagged, vs, value).value[i] == vs[i].decode(value.members[vs[i].tag])
    ensures forall j :: 0 <= j < |vs| && j != i ==> TryFrom(ExternallyTagged, vs, value).value[j].None?
  {
    assert Get(value, vs[i].tag).Some?;
    assert KeyIndex(vs, value) == Some(i);
  }

  /** Externally tagged, no tag is a key (or the value is no object): the same as untagged. */
  lemma ExternallyTaggedFallsBack<P>(vs: seq<VariantDecoder<P>>, value: Json)
    requires forall j :: 0 <= j < |vs| ==> !(value.Object? && vs[j].tag in value.members)
    ensures TryFrom(ExternallyTagged, vs, value) == TryFrom(Untagged, vs, value)
  {
    assert KeyIndex(vs, value).None?;
  }

  // ---------------------------------------------------------------------------
  // The adjacently tagged body against its evident purpose

  /** The payload decoder of a struct with fields `a: u32` and `b: String`. */
  function DecodeAB(v: Json): Option<Json> {
    if v.Object? && "a" in v.members && v.members["a"].Number? && v.members["a"].n >= 0
       && "b" in v.members && v.members["b"].String?
    then Some(v) else None
  }

  const TwoVariants: seq<VariantDecoder<Json>> :=
    [VariantDecoder("Variant1", DecodeAB), VariantDecoder("Variant2", DecodeAB)]

  const AbContent: Json := Object(map["a" := Number(1234), "b" := String("some string")])

  const AdjacentValue: Json :=
    Object(map["variant_tag" := String("Variant1"), "the_content" := AbContent])

  /** The adjacently tagged body as the generated code writes it: the value is
      first replaced by its content member, when it has one, and the tag is then
      read from that. */
  function DecodeAdjacentlyTaggedAsWritten<P>(vs: seq<VariantDecoder<P>>, tagKey: string, contentKey: string, value: Json)
    : (r: seq<Option<P>>)
    ensures |r| == |vs|
  {
    var value' := Get(value, contentKey).UnwrapOr(value);
    match Get(value', tagKey)
    case Some(String(tag)) => PartialFromTag(vs, value', tag)
    case _ => PartialFromValue(vs, value')
  }

  /** As written, adjacently tagged is the internally tagged procedure run on
      the content member, or on the value itself when it has none. */
  lemma AsWrittenIsInternalOnContent<P>(vs: seq<VariantDecoder<P>>, tagKey: string, contentKey: string, value: Json)
    ensures DecodeAdjacentlyTaggedAsWritten(vs, tagKey, contentKey, value)
         == DecodeInternallyTagged(vs, tagKey, if Get(value, contentKey).Some? then value.members[contentKey] else value)
  {
  }

  /** As written, the outer tag `Variant1` is never read: the content has no
      tag member, so both slots are filled, where only the first was meant to be. */
  lemma AdjacentTagReadFromContent()
    ensures DecodeAdjacentlyTaggedAsWritten(TwoVariants, "variant_tag", "the_content", AdjacentValue)
         == [Some(AbContent), Some(AbContent)]
  {
    assert Get(AdjacentValue, "the_content") == Some(AbContent);
    assert Get(AbContent, "variant_tag") == None;
    assert DecodeAB(AbContent) == Some(AbContent);
    var r := PartialFromValue(TwoVariants, AbContent);
    assert r[0] == Some(AbContent) && r[1] == Some(AbContent);
    assert r == [Some(AbContent), Some(AbContent)];
  }

  /** On the same value the generated partial enum fills only the tagged slot. */
  lemma OuterTagExample()
    ensures TryFrom(AdjacentlyTagged("variant_tag", "the_content"), TwoVariants, AdjacentValue)
         == Ok([Some(AbContent), None])
  {
    assert Get(AdjacentValue, "variant_tag") == Some(String("Variant1"));
    assert Get(AdjacentValue, "the_content") == Some(AbContent);
    AdjacentlyTaggedSelectsFirstMatch(TwoVariants, "variant_tag", "the_content", AdjacentValue, 0);
    assert DecodeAB(AbContent) == Some(AbContent);
    var r := TryFrom(AdjacentlyTagged("variant_tag", "the_content"), TwoVariants, AdjacentValue).value;
    assert r[0] == Some(AbContent) && r[1] == None;
    assert r == [Some(AbContent), None];
  }
}
