/** `Stream.of(values).filter(p).findFirst()`, the lookup every enum parser uses. */
module Streams {
  import opened Wrappers

  /** The first element of `vs` that satisfies `p`, or None. */
  function FindFirst<T>(vs: seq<T>, p: T -> bool): (r: Option<T>)
    ensures r.Some? ==> r.value in vs && p(r.value)
    ensures r.None? <==> forall k :: 0 <= k < |vs| ==> !p(vs[k])
  {
    if vs == [] then None
    else if p(vs[0]) then Some(vs[0])
    else FindFirst(vs[1..], p)
  }

  /** The element found is the first match: whatever precedes it fails `p`. */
  lemma {:induction false} FindFirstIsFirst<T>(vs: seq<T>, p: T -> bool, i: int)
    requires 0 <= i < |vs| && p(vs[i])
    requires forall k :: 0 <= k < i ==> !p(vs[k])
    ensures FindFirst(vs, p) == Some(vs[i])
  {
    if i > 0 {
      assert !p(vs[0]);
      FindFirstIsFirst(vs[1..], p, i - 1);
    }
  }

  /** When exactly one element satisfies `p`, that is the one found. */
  lemma FindFirstUnique<T>(vs: seq<T>, p: T -> bool, x: T)
    requires x in vs && p(x)
    requires forall y :: y in vs && p(y) ==> y == x
    ensures FindFirst(vs, p) == Some(x)
  {
  }
}
