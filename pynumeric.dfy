/** Numeric Python idioms used by the controllers: `sorted([a, b, c])[1]` as a
    clamp, `sum`, and `np.mean` (sum divided by length, on `real`). */
module PyNumeric {
  import opened ClipTemplate

  /** `sorted([a, b, c])`: the same three values in non-decreasing order. */
  function Sorted3(a: real, b: real, c: real): (r: (real, real, real))
    ensures r.0 <= r.1 <= r.2
    ensures multiset{r.0, r.1, r.2} == multiset{a, b, c}
  {
    if a <= b then
      (if b <= c then (a, b, c) else if a <= c then (a, c, b) else (c, a, b))
    else
      (if a <= c then (b, a, c) else if b <= c then (b, c, a) else (c, b, a))
  }

  /** `sorted([a, b, c])[1]`. */
  function Median3(a: real, b: real, c: real): real
  {
    Sorted3(a, b, c).1
  }

  /** With the bounds in order, the middle of `[lower, x, upper]` is `x` clipped
      to `[lower, upper]`: the Python controllers clamp the way the C++ `clip` does. */
  lemma Median3IsClip(lower: real, x: real, upper: real)
    requires lower <= upper
    ensures Median3(lower, x, upper) == Clip(x, lower, upper)
  {
    var r := Sorted3(lower, x, upper);
    assert r.1 in multiset{lower, x, upper};
  }

  /** `sum(s)`, accumulated from the front. */
  function Sum(s: seq<real>): real
  {
    if |s| == 0 then 0.0 else Sum(s[..|s| - 1]) + s[|s| - 1]
  }

  /** `np.mean(s)` for a non-empty `s`. */
  function Mean(s: seq<real>): real
    requires |s| > 0
  {
    Sum(s) / |s| as real
  }

  /** A sum of values in `[lo, hi]` lies between `|s|` times each bound. */
  lemma {:induction false} SumBounds(s: seq<real>, lo: real, hi: real)
    requires forall i :: 0 <= i < |s| ==> lo <= s[i] <= hi
    ensures |s| as real * lo <= Sum(s) <= |s| as real * hi
  {
    if |s| > 0 {
      SumBounds(s[..|s| - 1], lo, hi);
    }
  }

  /** A sum of values strictly between two bounds lies strictly between them, scaled. */
  lemma {:induction false} SumStrictBounds(s: seq<real>, lo: real, hi: real)
    requires |s| > 0
    requires forall i :: 0 <= i < |s| ==> lo < s[i] < hi
    ensures |s| as real * lo < Sum(s) < |s| as real * hi
  {
    if |s| > 1 {
      SumStrictBounds(s[..|s| - 1], lo, hi);
    }
  }

  /** The mean of values strictly inside `(lo, hi)` is strictly inside it. */
  lemma MeanStrictBounds(s: seq<real>, lo: real, hi: real)
    requires |s| > 0
    requires forall i :: 0 <= i < |s| ==> lo < s[i] < hi
    ensures lo < Mean(s) < hi
  {
    SumStrictBounds(s, lo, hi);
    var n := |s| as real;
    assert Sum(s) / n > lo by {
      assert Sum(s) > n * lo;
    }
    assert Sum(s) / n < hi by {
      assert Sum(s) < n * hi;
    }
  }

  /** The mean of values in `[lo, hi]` is in `[lo, hi]`. */
  lemma MeanBounds(s: seq<real>, lo: real, hi: real)
    requires |s| > 0
    requires forall i :: 0 <= i < |s| ==> lo <= s[i] <= hi
    ensures lo <= Mean(s) <= hi
  {
    SumBounds(s, lo, hi);
    var n := |s| as real;
    assert Sum(s) / n >= lo by {
      assert Sum(s) >= n * lo;
    }
    assert Sum(s) / n <= hi by {
      assert Sum(s) <= n * hi;
    }
  }
}
