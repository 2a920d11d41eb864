/** The bee-density estimate shared by the fish-corridor controllers: the
    fraction of IR readings strictly above their per-sensor threshold, over the
    pairs that `zip(readings, thresholds)` forms. */
module BeeDensity {
  import opened Wrappers

  /** `len(zip(xs, ts))`. */
  function Pairs(xs: seq<real>, ts: seq<real>): nat
  {
    if |xs| <= |ts| then |xs| else |ts|
  }

  /** `[x > t for (x, t) in zip(xs, ts)]`. */
  function Detected(xs: seq<real>, ts: seq<real>): seq<bool>
  {
    seq(Pairs(xs, ts), i requires 0 <= i < Pairs(xs, ts) => xs[i] > ts[i])
  }

  /** `sum(bs)` of a list of booleans. */
  function CountTrue(bs: seq<bool>): nat
  {
    if |bs| == 0 then 0 else CountTrue(bs[..|bs| - 1]) + (if bs[|bs| - 1] then 1 else 0)
  }

  /** The indices among the first `k` pairs whose reading is strictly above its threshold. */
  ghost function AboveUpTo(xs: seq<real>, ts: seq<real>, k: nat): set<nat>
    requires k <= Pairs(xs, ts)
  {
    set i: nat | i < k && xs[i] > ts[i]
  }

  /** The indices of all pairs whose reading is strictly above its threshold. */
  ghost function Above(xs: seq<real>, ts: seq<real>): set<nat>
  {
    AboveUpTo(xs, ts, Pairs(xs, ts))
  }

  /** Extending the prefix by one pair adds that pair exactly when it is above. */
  lemma AboveUpToStep(xs: seq<real>, ts: seq<real>, k: nat)
    requires k < Pairs(xs, ts)
    ensures AboveUpTo(xs, ts, k + 1) ==
            AboveUpTo(xs, ts, k) + (if xs[k] > ts[k] then {k} else {})
  {
  }

  /** The running `sum` of the detections counts the indices above threshold. */
  lemma {:induction false} CountTruePrefix(xs: seq<real>, ts: seq<real>, k: nat)
    requires k <= Pairs(xs, ts)
    ensures CountTrue(Detected(xs, ts)[..k]) == |AboveUpTo(xs, ts, k)|
    ensures |AboveUpTo(xs, ts, k)| <= k
  {
    if k > 0 {
      CountTruePrefix(xs, ts, k - 1);
      var d := Detected(xs, ts);
      assert d[..k][..k - 1] == d[..k - 1];
      AboveUpToStep(xs, ts, k - 1);
    }
  }

  /** `float(sum(detected)) / float(len(detected))`: a fraction in `[0, 1]`;
      no pairs (an empty reading list) divides zero by zero. */
  function Estimate(xs: seq<real>, ts: seq<real>): (r: Result<real>)
    ensures r.Failure? <==> Pairs(xs, ts) == 0
    ensures r.Failure? ==> r.error == ZeroDivisionError
    ensures r.Success? ==> r.value == |Above(xs, ts)| as real / Pairs(xs, ts) as real
    ensures r.Success? ==> 0.0 <= r.value <= 1.0
  {
    var d := Detected(xs, ts);
    if |d| == 0 then Failure(ZeroDivisionError)
    else
      CountTruePrefix(xs, ts, |d|);
      assert d[..|d|] == d;
      Success(CountTrue(d) as real / |d| as real)
  }

  /** No reading above its threshold gives the estimate 0. */
  lemma NoneAboveGivesZero(xs: seq<real>, ts: seq<real>)
    requires Pairs(xs, ts) > 0
    requires forall i :: 0 <= i < Pairs(xs, ts) ==> xs[i] <= ts[i]
    ensures Estimate(xs, ts) == Success(0.0)
  {
    assert Above(xs, ts) == {};
  }

  /** Every reading above its threshold gives the estimate 1. */
  lemma AllAboveGivesOne(xs: seq<real>, ts: seq<real>)
    requires Pairs(xs, ts) > 0
    requires forall i :: 0 <= i < Pairs(xs, ts) ==> xs[i] > ts[i]
    ensures Estimate(xs, ts) == Success(1.0)
  {
    var d := Detected(xs, ts);
    CountTrueAllTrue(d);
    CountTruePrefix(xs, ts, |d|);
    assert d[..|d|] == d;
    var n := Pairs(xs, ts);
    assert |Above(xs, ts)| == n;
    var r := Estimate(xs, ts);
    var x := n as real;
    DivSelf(x);
    assert r.Success? && r.value == x / x;
  }

  /** A non-zero real divided by itself is one; it only serves the proof of `AllAboveGivesOne`. */
  lemma DivSelf(x: real)
    requires x != 0.0
    ensures x / x == 1.0
  {
  }

  lemma {:induction false} CountTrueAllTrue(bs: seq<bool>)
    requires forall i :: 0 <= i < |bs| ==> bs[i]
    ensures CountTrue(bs) == |bs|
  {
    if |bs| > 0 {
      CountTrueAllTrue(bs[..|bs| - 1]);
    }
  }

  /** A reading equal to its threshold is not counted: setting reading `k` to
      its threshold removes exactly `k` from the counted pairs. */
  lemma AtThresholdNotCounted(xs: seq<real>, ts: seq<real>, k: nat)
    requires k < Pairs(xs, ts)
    ensures Pairs(xs[k := ts[k]], ts) == Pairs(xs, ts)
    ensures Above(xs[k := ts[k]], ts) == Above(xs, ts) - {k}
  {
  }
}
