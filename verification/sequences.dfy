/**
 * Removing repeated strings from a list the way
 * `list.filter((v, i, self) => self.indexOf(v) === i)` does: an element is
 * kept exactly when no equal element comes before it.
 */
module Sequences {

  /** The position of the first occurrence of `x` in `s`, or `|s|` when absent. */
  function FirstIndex(s: seq<string>, x: string): (i: nat)
    ensures i <= |s|
    ensures forall k | 0 <= k < i :: s[k] != x
    ensures i < |s| ==> s[i] == x
  {
    if s == [] then 0
    else if s[0] == x then 0
    else 1 + FirstIndex(s[1..], x)
  }

  /** The elements of `s` that are first occurrences, in order. */
  function Dedup(s: seq<string>): (r: seq<string>)
    ensures |r| <= |s|
    ensures forall i, j | 0 <= i < j < |r| :: r[i] != r[j]
    ensures forall x :: x in r <==> x in s
  {
    if s == [] then []
    else
      var init := s[..|s| - 1];
      var last := s[|s| - 1];
      var d := Dedup(init);
      assert forall x :: x in s <==> x in init || x == last;
      if last in init then d else d + [last]
  }

  lemma FirstIndexOfPrefix(s: seq<string>, n: nat, x: string)
    requires n <= |s| && x in s[..n]
    ensures FirstIndex(s[..n], x) == FirstIndex(s, x)
  {
    assert forall k | 0 <= k < n :: s[..n][k] == s[k];
  }

  /** Kept elements appear in the order of their first occurrences in `s`. */
  lemma {:induction false} DedupFirstOccurrenceOrder(s: seq<string>)
    ensures forall i, j | 0 <= i < j < |Dedup(s)| :: FirstIndex(s, Dedup(s)[i]) < FirstIndex(s, Dedup(s)[j])
  {
    if s != [] {
      var init := s[..|s| - 1];
      var last := s[|s| - 1];
      var d := Dedup(init);
      DedupFirstOccurrenceOrder(init);
      forall x | x in init ensures FirstIndex(init, x) == FirstIndex(s, x) {
        assert s[..|s| - 1] == init;
        FirstIndexOfPrefix(s, |s| - 1, x);
      }
      if last !in init {
        assert FirstIndex(s, last) == |s| - 1 by {
          assert forall k | 0 <= k < |init| :: init[k] == s[k];
        }
        forall i | 0 <= i < |d| ensures FirstIndex(s, d[i]) < |s| - 1 {
          assert d[i] in init;
          assert FirstIndex(init, d[i]) < |init|;
        }
      }
    }
  }
}
