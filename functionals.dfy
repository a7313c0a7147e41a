/** `Utils::FindIf` (src/utils/functionals.h): the first element of a range
    that satisfies a predicate, returned by value. */
module Functionals {
  import opened Wrappers

  /** Where `std::ranges::find_if` stops: the first position satisfying
      `p`, or the end. */
  function FirstIndex<T>(range: seq<T>, p: T -> bool): (r: nat)
    ensures r <= |range|
    ensures r < |range| ==> p(range[r])
    ensures forall j :: 0 <= j < r ==> !p(range[j])
  {
    if range == [] then 0
    else if p(range[0]) then 0
    else 1 + FirstIndex(range[1..], p)
  }

  /** The first element satisfying `p`, or nothing. The result is a value
      read from the range, so nothing done to it reaches the range. */
  function FindIf<T>(range: seq<T>, p: T -> bool): (r: Option<T>)
    ensures r.None? <==> forall i :: 0 <= i < |range| ==> !p(range[i])
    ensures r.Some? ==> exists i :: 0 <= i < |range| && range[i] == r.value && p(range[i])
                                    && forall j :: 0 <= j < i ==> !p(range[j])
  {
    var i := FirstIndex(range, p);
    if i < |range| then Some(range[i]) else None
  }
}
