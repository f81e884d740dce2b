/**
 * First-match search over a sequence: the `next(filter(p, xs))` idiom and
 * `list.index(x)` of the Python source.
 */
module Seqs {
  import opened Errors

  /** Index of the first element satisfying `p`, or None when there is none. */
  function FindFirst<T>(s: seq<T>, p: T -> bool): (r: Option<nat>)
    ensures r.Some? ==> r.value < |s| && p(s[r.value])
    ensures r.Some? ==> forall j :: 0 <= j < r.value ==> !p(s[j])
    ensures r.None? <==> forall j :: 0 <= j < |s| ==> !p(s[j])
  {
    if |s| == 0 then None
    else if p(s[0]) then Some(0)
    else match FindFirst(s[1..], p)
         case None => None
         case Some(k) => Some(k + 1)
  }

  /** Python's `xs.index(x)`: the position of the first occurrence of `x`. */
  function IndexOf<T(==)>(s: seq<T>, x: T): (r: Option<nat>)
    ensures r.Some? ==> r.value < |s| && s[r.value] == x
    ensures r.Some? ==> x !in s[..r.value]
    ensures r.None? <==> x !in s
  {
    FindFirst(s, y => y == x)
  }
}
