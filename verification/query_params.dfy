/**
 * Reading optional query-string parameters the way the handlers do:
 * `searchParams.get(name) || fallback`, then `parseInt` when a number is
 * wanted. An absent parameter and an empty one both give the fallback.
 */
module QueryParams {
  import opened Wrappers
  import opened Text
  import opened Numbers

  /** `get(name) || fallback`. */
  function ParamOr(p: Option<string>, fallback: string): (r: string)
    ensures r == fallback <==> p.None? || p.value == [] || p.value == fallback
    ensures p.Some? && p.value != [] ==> r == p.value
  {
    if p.None? || p.value == [] then fallback else p.value
  }

  /** `parseInt(get(name) || fallback)`: an absent or empty parameter reads as
      the fallback number; `None` stands for NaN. */
  function IntParam(p: Option<string>, fallback: nat): Option<int> {
    ParseInt(ParamOr(p, NatToString(fallback)))
  }

  /** An absent or empty parameter gives the fallback, and a parameter written
      as a decimal integer gives that integer. */
  lemma IntParamValues(p: Option<string>, fallback: nat, i: int)
    ensures p.None? || p == Some([]) ==> IntParam(p, fallback) == Some(fallback)
    ensures p == Some(IntToString(i)) ==> IntParam(p, fallback) == Some(i)
  {
    IntRoundTrip(fallback, []);
    assert IntToString(fallback) + [] == NatToString(fallback);
    IntRoundTrip(i, []);
    assert IntToString(i) + [] == IntToString(i);
  }
}
