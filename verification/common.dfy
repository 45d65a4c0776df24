/** Small building blocks shared by every part of the shop model. */
module Common {

  /** A value that may be absent: a missing session key, a NULL column, a
      query that found no row. */
  datatype Option<+T> = None | Some(value: T) {

    /** The value, or `default` when there is none (Python's `dict.get(k, default)`). */
    function GetOr(default: T): T {
      match this
      case Some(v) => v
      case None => default
    }
  }

  /** Index of the first element of `s` that satisfies `matches`: what a scan
      that stops at its first hit finds, be it a Python `for … break` over a
      list or an SQL `fetchone()` over a table read in row order. */
  function FindFirst<T>(s: seq<T>, matches: T -> bool): (r: Option<nat>)
    ensures r.Some? ==> r.value < |s| && matches(s[r.value])
    ensures r.Some? ==> forall j :: 0 <= j < r.value ==> !matches(s[j])
    ensures r.None? <==> forall j :: 0 <= j < |s| ==> !matches(s[j])
    decreases |s|
  {
    if |s| == 0 then None
    else if matches(s[0]) then Some(0)
    else
      match FindFirst(s[1..], matches)
      case Some(k) => Some(k + 1)
      case None => None
  }

  /** The first-match index is determined by which elements match: two
      sequences of the same length that agree on `matches` everywhere have
      the same first match. */
  lemma {:induction false} FindFirstAgrees<T, U>(s: seq<T>, p: T -> bool, t: seq<U>, q: U -> bool)
    requires |s| == |t|
    requires forall j :: 0 <= j < |s| ==> (p(s[j]) <==> q(t[j]))
    ensures FindFirst(s, p) == FindFirst(t, q)
  {
    var a, b := FindFirst(s, p), FindFirst(t, q);
    if a.Some? {
      assert q(t[a.value]);
    }
    if b.Some? {
      assert p(s[b.value]);
    }
  }
}
