/** What the indicators share: exponentially weighted sums, and the true range of a candle. */
module Averages {
  import opened Prelude

  /**
   The values weighted by age, the last one `age` steps old: `alpha` for a value of age zero, `1 - alpha`
   times as much for each step of age, and what is left for the first.
   */
  function Weighted(alpha: real, xs: seq<real>, age: nat): real
    requires xs != []
  {
    var last := xs[|xs| - 1];
    if |xs| == 1 then Power(1.0 - alpha, age) * last
    else Weighted(alpha, xs[..|xs| - 1], age + 1) + alpha * Power(1.0 - alpha, age) * last
  }

  lemma {:induction false} OneAgeOlder(alpha: real, xs: seq<real>, age: nat)
    requires xs != []
    ensures Weighted(alpha, xs, age + 1) == (1.0 - alpha) * Weighted(alpha, xs, age)
  {
    var keep, last := 1.0 - alpha, xs[|xs| - 1];
    Regrouped(keep, Power(keep, age), last, alpha);
    if |xs| > 1 {
      OneAgeOlder(alpha, xs[..|xs| - 1], age + 1);
    }
  }

  lemma Regrouped(keep: real, power: real, last: real, alpha: real)
    ensures (keep * power) * last == keep * (power * last)
    ensures alpha * (keep * power) * last == keep * (alpha * power * last)
  {
  }

  /** From a value, `alpha` of the way to another. */
  function Moved(value: real, alpha: real, x: real): real {
    value + alpha * (x - value)
  }

  lemma Assembled(older: real, value: real, alpha: real, one: real, x: real)
    requires older == (1.0 - alpha) * value && one == 1.0
    ensures older + alpha * one * x == Moved(value, alpha, x)
  {
  }

  lemma FirstIsWhole(alpha: real, x: real)
    ensures Weighted(alpha, [x], 0) == x
  {
  }

  /** A running average that starts at the first value and moves `alpha` of the way to each next one is the weighted sum. */
  lemma OneMore(alpha: real, xs: seq<real>, x: real)
    requires xs != []
    ensures Weighted(alpha, xs + [x], 0) == Moved(Weighted(alpha, xs, 0), alpha, x)
  {
    var all := xs + [x];
    assert all[..|all| - 1] == xs && all[|all| - 1] == x;
    OneAgeOlder(alpha, xs, 0);
    Assembled(Weighted(alpha, xs, 1), Weighted(alpha, xs, 0), alpha, Power(1.0 - alpha, 0), x);
  }

  /** These values run along as such an average of the others. */
  ghost predicate Follows(alpha: real, xs: seq<real>, vs: seq<real>) {
    && |vs| == |xs| && (vs != [] ==> vs[0] == xs[0])
    && forall n {:trigger xs[n]} | 0 < n < |vs| :: vs[n] == Moved(vs[n - 1], alpha, xs[n])
  }

  lemma {:induction false} AveragesAreWeighted(alpha: real, xs: seq<real>, vs: seq<real>, n: nat)
    requires Follows(alpha, xs, vs) && n < |vs|
    ensures vs[n] == Weighted(alpha, xs[..n + 1], 0)
  {
    if n > 0 {
      AveragesAreWeighted(alpha, xs, vs, n - 1);
      assert xs[..n] + [xs[n]] == xs[..n + 1];
      OneMore(alpha, xs[..n], xs[n]);
    } else {
      assert xs[..n + 1] == [xs[0]];
      FirstIsWhole(alpha, xs[0]);
    }
  }

  /** The largest of the candle's own span and its distances from the close before it, if there is one. */
  ghost predicate IsTrueRange(high: real, low: real, previousClose: Option<real>, range: real) {
    if previousClose.None? then range == high - low
    else
      var p := previousClose.value;
      && range >= high - low && range >= high - p && range >= p - high && range >= low - p && range >= p - low
      && (range == high - low || range == high - p || range == p - high || range == low - p || range == p - low)
  }
}
