/**
 * Descending order by an integer key, as a store's `sort({ key: -1 })` gives.
 * The store leaves the order of equal keys unspecified; the insertion sort here
 * keeps their input order, which is one of the orders the store may produce,
 * and every property proved about its results uses only sortedness and the
 * multiset of elements.
 */
module Sorting {

  predicate SortedDesc<T>(s: seq<T>, key: T -> int) {
    forall i, j | 0 <= i < j < |s| :: key(s[i]) >= key(s[j])
  }

  /** Places `x` in front of the first element whose key is not larger. */
  function Insert<T>(x: T, s: seq<T>, key: T -> int): (r: seq<T>)
    requires SortedDesc(s, key)
    ensures |r| == |s| + 1 && SortedDesc(r, key)
    ensures key(r[0]) == key(x) || (s != [] && key(r[0]) == key(s[0]))
    ensures multiset(r) == multiset(s) + multiset{x}
  {
    if s == [] || key(x) >= key(s[0]) then [x] + s
    else
      var tail := Insert(x, s[1..], key);
      assert key(s[0]) >= key(tail[0]);
      assert s == [s[0]] + s[1..];
      [s[0]] + tail
  }

  /** The elements of `s` in descending key order. */
  function SortDesc<T>(s: seq<T>, key: T -> int): (r: seq<T>)
    ensures SortedDesc(r, key)
    ensures multiset(r) == multiset(s)
  {
    if s == [] then []
    else
      assert s == [s[0]] + s[1..];
      Insert(s[0], SortDesc(s[1..], key), key)
  }
}
