/** `IAttrExt::is_serde_attr`. It sits in a module of its own because the
    attribute parsers use it and `IAttrExt::is_serde_default` uses the parsers. */
module AttrExt {
  import opened Syntax

  const SerdeSegment := PathSegment("serde", false)

  /** True when the attribute's path ends in a plain `serde` segment. */
  predicate IsSerdeAttr(a: Attribute) {
    var path := a.Path();
    if path == [] then false else path[|path| - 1] == SerdeSegment
  }

  /** The path decides alone: any prefix followed by `serde` qualifies, whatever
      the style and arguments; an empty path, or one ending elsewhere, does not. */
  lemma SerdeAttrByLastSegment(a: Attribute)
    ensures a.Path() == [] ==> !IsSerdeAttr(a)
    ensures a.Path() != [] ==> (IsSerdeAttr(a) <==> a.Path()[|a.Path()| - 1] == SerdeSegment)
    ensures forall prefix: seq<PathSegment>, ts: seq<Token>, s: AttrStyle ::
      IsSerdeAttr(Attribute(s, MetaList(prefix + [SerdeSegment], ts)))
  {
    forall prefix: seq<PathSegment>, ts: seq<Token>, s: AttrStyle
      ensures IsSerdeAttr(Attribute(s, MetaList(prefix + [SerdeSegment], ts)))
    {
      assert (prefix + [SerdeSegment])[|prefix|] == SerdeSegment;
    }
  }
}
