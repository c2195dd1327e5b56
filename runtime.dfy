/** The runtime `AsPartial` trait: every implementing type names a partial
    type and converts its values into it. The implementing types form the
    universe `Ty`; their values the universe `Value`. */
module AsPartialRuntime {
  import opened Json

  datatype IntKind = Usize | U8 | I8 | U16 | I16 | U32 | I32 | U64 | I64 | U128 | I128

  /** The range of each integer type; `usize` is taken to be 64 bits wide. */
  predicate InRange(k: IntKind, n: int) {
    match k
    case Usize => 0 <= n < 0x1_0000_0000_0000_0000
    case U8 => 0 <= n < 0x100
    case I8 => -0x80 <= n < 0x80
    case U16 => 0 <= n < 0x1_0000
    case I16 => -0x8000 <= n < 0x8000
    case U32 => 0 <= n < 0x1_0000_0000
    case I32 => -0x8000_0000 <= n < 0x8000_0000
    case U64 => 0 <= n < 0x1_0000_0000_0000_0000
    case I64 => -0x8000_0000_0000_0000 <= n < 0x8000_0000_0000_0000
    case U128 => 0 <= n < 0x1_0000_0000_0000_0000_0000_0000_0000_0000
    case I128 => -0x8000_0000_0000_0000_0000_0000_0000_0000 <= n < 0x8000_0000_0000_0000_0000_0000_0000_0000
  }

  /** The types with an `AsPartial` impl (floating point left out). */
  datatype Ty =
    | StringT
    | BoolT
    | IntT(kind: IntKind)
    | NonZeroUsizeT
    | ArcStrT                    // Arc<str>
    | OptionT(inner: Ty)
    | VecT(elem: Ty)
    | JsonMapT                   // serde_json::Map<String, Value>

  datatype Value =
    | Str(s: string)
    | BoolV(b: bool)
    | IntV(kind: IntKind, n: int)
    | NonZeroUsizeV(nz: int)
    | ArcStr(text: string)
    | NoneV
    | SomeV(some: Value)
    | VecV(elems: seq<Value>)
    | JsonMapV(members: map<string, Json>)

  predicate HasType(v: Value, t: Ty) {
    match (v, t)
    case (Str(_), StringT) => true
    case (BoolV(_), BoolT) => true
    case (IntV(k, n), IntT(k')) => k == k' && InRange(k, n)
    case (NonZeroUsizeV(n), NonZeroUsizeT) => 1 <= n < 0x1_0000_0000_0000_0000
    case (ArcStr(_), ArcStrT) => true
    case (NoneV, OptionT(_)) => true
    case (SomeV(x), OptionT(i)) => HasType(x, i)
    case (VecV(es), VecT(e)) => forall k :: 0 <= k < |es| ==> HasType(es[k], e)
    case (JsonMapV(_), JsonMapT) => true
    case _ => false
  }

  /** `<T as AsPartial>::Partial`. */
  function PartialType(t: Ty): Ty {
    match t
    case ArcStrT => StringT
    case OptionT(i) => OptionT(PartialType(i))
    case VecT(e) => VecT(PartialType(e))
    case _ => t
  }

  /** `AsPartial::to_partial`. The scalar types and `serde_json::Map` are their
      own partial and convert to themselves; `Arc<str>` becomes a `String` with
      the same text; `Option` and `Vec` convert what they hold, keeping
      `None`, length and order. */
  function ToPartial(v: Value): (r: Value)
    ensures v.Str? || v.BoolV? || v.IntV? || v.NonZeroUsizeV? || v.JsonMapV? ==> r == v
    ensures v.ArcStr? ==> r.Str? && r.s == v.text
    ensures v.NoneV? <==> r.NoneV?
    ensures v.SomeV? <==> r.SomeV?
    ensures v.SomeV? ==> r.some == ToPartial(v.some)
    ensures v.VecV? <==> r.VecV?
    ensures v.VecV? ==> |r.elems| == |v.elems| && forall k :: 0 <= k < |v.elems| ==> r.elems[k] == ToPartial(v.elems[k])
  {
    match v
    case ArcStr(text) => Str(text)
    case SomeV(x) => SomeV(ToPartial(x))
    case VecV(es) => VecV(seq(|es|, k requires 0 <= k < |es| => ToPartial(es[k])))
    case _ => v
  }

  /** `to_partial` returns a value of the declared `Partial` type. */
  lemma {:induction false} ToPartialWellTyped(v: Value, t: Ty)
    requires HasType(v, t)
    ensures HasType(ToPartial(v), PartialType(t))
  {
    match v
    case SomeV(x) =>
      ToPartialWellTyped(x, t.inner);
    case VecV(es) =>
      forall k | 0 <= k < |es|
        ensures HasType(ToPartial(v).elems[k], PartialType(t).elem)
      {
        ToPartialWellTyped(es[k], t.elem);
      }
    case _ =>
  }

  /** The partial of a partial type is itself (`type Partial: AsPartial`, with
      every partial type its own partial). */
  lemma {:induction false} PartialTypeIdempotent(t: Ty)
    ensures PartialType(PartialType(t)) == PartialType(t)
  {
    match t
    case OptionT(i) => PartialTypeIdempotent(i);
    case VecT(e) => PartialTypeIdempotent(e);
    case _ =>
  }

  /** Converting twice is converting once. */
  lemma {:induction false} ToPartialIdempotent(v: Value)
    ensures ToPartial(ToPartial(v)) == ToPartial(v)
  {
    match v
    case SomeV(x) => ToPartialIdempotent(x);
    case VecV(es) =>
      forall k | 0 <= k < |es|
        ensures ToPartial(ToPartial(v)).elems[k] == ToPartial(v).elems[k]
      {
        ToPartialIdempotent(es[k]);
      }
    case _ =>
  }

  /** A type built from the `Partial = Self` types with `Option` and `Vec`. */
  predicate IsSelfPartial(t: Ty) {
    match t
    case ArcStrT => false
    case OptionT(i) => IsSelfPartial(i)
    case VecT(e) => IsSelfPartial(e)
    case _ => true
  }

  /** Exactly those types are their own partial type. */
  lemma {:induction false} SelfPartialTypes(t: Ty)
    ensures IsSelfPartial(t) <==> PartialType(t) == t
  {
    match t
    case OptionT(i) => SelfPartialTypes(i);
    case VecT(e) => SelfPartialTypes(e);
    case _ =>
  }

  /** On those types `to_partial` is the identity. */
  lemma {:induction false} SelfPartialIdentity(v: Value, t: Ty)
    requires IsSelfPartial(t) && HasType(v, t)
    ensures ToPartial(v) == v
  {
    match v
    case SomeV(x) => SelfPartialIdentity(x, t.inner);
    case VecV(es) =>
      forall k | 0 <= k < |es|
        ensures ToPartial(v).elems[k] == es[k]
      {
        SelfPartialIdentity(es[k], t.elem);
      }
    case _ =>
  }
}
