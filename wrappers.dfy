/** Option and Result, plus the two first-match scans the macro relies on
    (`Iterator::find_map` and a first-index search). */
module Wrappers {

  datatype Option<+T> = None | Some(value: T) {
    /** `Option::unwrap_or`. */
    function UnwrapOr(default: T): T {
      match this
      case Some(v) => v
      case None => default
    }
  }

  /** `Result<T, syn::Error>`; errors carry their message only (spans are not modelled). */
  datatype Result<+T> = Ok(value: T) | Err(error: string)

  /** `s.iter().find_map(f)`: the first `Some` that `f` produces, scanning in order. */
  function FindMap<A, B>(s: seq<A>, f: A -> Option<B>): (r: Option<B>)
    ensures r.Some? <==> exists i :: 0 <= i < |s| && f(s[i]).Some?
    ensures r.Some? ==> exists i :: 0 <= i < |s| && f(s[i]) == r && forall j :: 0 <= j < i ==> f(s[j]).None?
  {
    if s == [] then None
    else if f(s[0]).Some? then f(s[0])
    else
      var r := FindMap(s[1..], f);
      assert forall i :: 1 <= i < |s| ==> s[i] == s[1..][i - 1];
      if r.Some? then
        ghost var i :| 0 <= i < |s[1..]| && f(s[1..][i]) == r && forall j :: 0 <= j < i ==> f(s[1..][j]).None?;
        assert f(s[i + 1]) == r && forall j :: 0 <= j < i + 1 ==> f(s[j]).None?;
        r
      else r
  }

  /** `s.iter().position(p)`: the index of the first element satisfying `p`. */
  function FirstIndex<A>(s: seq<A>, p: A -> bool): (r: Option<nat>)
    ensures r.Some? ==> r.value < |s| && p(s[r.value]) && forall j :: 0 <= j < r.value ==> !p(s[j])
    ensures r.None? ==> forall j :: 0 <= j < |s| ==> !p(s[j])
  {
    if s == [] then None
    else if p(s[0]) then Some(0)
    else
      var r := FirstIndex(s[1..], p);
      assert forall i :: 1 <= i < |s| ==> s[i] == s[1..][i - 1];
      if r.Some? then Some(r.value + 1) else None
  }

  /** Concatenation is associative. */
  lemma ConcatAssoc<T>(a: seq<T>, b: seq<T>, c: seq<T>)
    ensures (a + b) + c == a + (b + c)
  {
  }
}
