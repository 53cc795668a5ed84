/** The moving averages and the gate that turns their spread into confirmed crossovers. */
module Crossover {
  import opened Prelude
  import opened Averages

  // ------------------------------------------------------------------ the average

  /** One step of an exponential average; the first close seeds it. */
  function Smoothed(value: Option<real>, alpha: real, close: real): real {
    if value.None? then close else Moved(value.value, alpha, close)
  }

  function Average(alpha: real, closes: seq<real>): Option<real> {
    if closes == [] then None
    else Some(Smoothed(Average(alpha, closes[..|closes| - 1]), alpha, closes[|closes| - 1]))
  }

  class EMA {
    const period: nat
    const alpha: real
    var value: Option<real>
    var count: nat

    constructor (period: nat)
      requires period >= 1
      ensures this.period == period && alpha == 2.0 / (period as real + 1.0) && value == None && count == 0
    {
      this.period, alpha := period, 2.0 / (period as real + 1.0);
      value, count := None, 0;
    }

    method Update(close: real)
      modifies this
      ensures value == Some(Smoothed(old(value), alpha, close)) && count == old(count) + 1
    {
      value := Some(if value.None? then close else value.value + alpha * (close - value.value));
      count := count + 1;
    }
  }

  lemma Between(x: real, y: real, alpha: real, low: real, high: real)
    requires 0.0 <= alpha <= 1.0 && low <= x <= high && low <= y <= high
    ensures low <= x + alpha * (y - x) <= high
  {
    assert x + alpha * (y - x) == (1.0 - alpha) * x + alpha * y;
    assert (1.0 - alpha) * (x - low) >= 0.0 && alpha * (y - low) >= 0.0;
    assert (1.0 - alpha) * (high - x) >= 0.0 && alpha * (high - y) >= 0.0;
  }

  /** The average never leaves the range of the closes it was fed. */
  lemma {:induction false} AverageStaysInRange(period: nat, closes: seq<real>, low: real, high: real)
    requires period >= 1 && forall k | 0 <= k < |closes| :: low <= closes[k] <= high
    ensures var v := Average(2.0 / (period as real + 1.0), closes); v.Some? ==> low <= v.value <= high
  {
    if closes != [] {
      var alpha := 2.0 / (period as real + 1.0);
      AverageStaysInRange(period, closes[..|closes| - 1], low, high);
      var before := Average(alpha, closes[..|closes| - 1]);
      if before.Some? {
        Between(before.value, closes[|closes| - 1], alpha, low, high);
      }
    }
  }

  /** The average is the exponentially weighted sum of every close. */
  lemma {:induction false} AverageIsWeighted(alpha: real, closes: seq<real>)
    requires closes != []
    ensures Average(alpha, closes) == Some(Weighted(alpha, closes, 0))
  {
    var init, last := closes[..|closes| - 1], closes[|closes| - 1];
    assert init + [last] == closes;
    if init != [] {
      AverageIsWeighted(alpha, init);
      OneMore(alpha, init, last);
    } else {
      assert closes == [last] && Average(alpha, init) == None;
      FirstIsWhole(alpha, last);
    }
  }

  // ------------------------------------------------------------------ the gate

  datatype Side = Bullish | Bearish

  datatype Gate = Gate(confirmed: Option<Side>, candidate: Option<Side>, count: nat, initialized: bool)

  const RESET := Gate(None, None, 0, false)

  datatype Config = Config(separation: real, candles: nat) {
    predicate Valid() { separation >= 0.0 && candles >= 1 }

    /** The side a spread clears the separation on, if it does. */
    function Raw(spread: real): Option<Side> {
      if spread > separation then Some(Bullish) else if spread < -separation then Some(Bearish) else None
    }
  }

  function Counted(g: Gate, raw: Option<Side>): nat {
    if raw == g.candidate then g.count + 1 else 1
  }

  /** This spread confirms a new side. */
  predicate Confirms(g: Gate, c: Config, spread: real) {
    var raw := c.Raw(spread);
    g.initialized && raw.Some? && raw != g.confirmed && Counted(g, raw) >= c.candles
  }

  /** `update`: the gate afterwards. */
  function Updated(g: Gate, c: Config, spread: real): Gate {
    var raw := c.Raw(spread);
    if !g.initialized then g.(initialized := true, confirmed := raw)
    else if raw.None? || raw == g.confirmed then g.(candidate := None, count := 0)
    else if Confirms(g, c, spread) then g.(confirmed := raw, candidate := None, count := 0)
    else g.(candidate := raw, count := Counted(g, raw))
  }

  /** What `update` answers. */
  function Emission(g: Gate, c: Config, spread: real): Option<Side> {
    if Confirms(g, c, spread) then c.Raw(spread) else None
  }

  function Run(c: Config, h: seq<real>): Gate {
    if h == [] then RESET else Updated(Run(c, h[..|h| - 1]), c, h[|h| - 1])
  }

  // ------------------------------------------------------------------ the history alone

  /** The spread is beyond the separation on this side. */
  predicate Clears(c: Config, spread: real, side: Side) {
    match side
    case Bullish => c.separation < spread
    case Bearish => spread < -c.separation
  }

  lemma RawExactly(c: Config, spread: real, side: Side)
    requires c.Valid()
    ensures c.Raw(spread) == Some(side) <==> Clears(c, spread, side)
  {
  }

  /** The last `n` spreads, none of them the first observation, all clear the separation on one side. */
  predicate Holds(c: Config, h: seq<real>, n: nat, side: Side) {
    n < |h| && forall k | |h| - n <= k < |h| :: Clears(c, h[k], side)
  }

  /** The side of the latest full window of spreads; before any, the first observation's own side. */
  function Confirmed(c: Config, h: seq<real>): Option<Side> {
    if h == [] then None
    else if |h| == 1 then
      (if Clears(c, h[0], Bullish) then Some(Bullish) else if Clears(c, h[0], Bearish) then Some(Bearish) else None)
    else if Holds(c, h, c.candles, Bullish) then Some(Bullish)
    else if Holds(c, h, c.candles, Bearish) then Some(Bearish)
    else Confirmed(c, h[..|h| - 1])
  }

  lemma HoldsStep(c: Config, h: seq<real>, x: real, n: nat, side: Side)
    requires h != [] && n > 0
    ensures Holds(c, h + [x], n, side) <==> Clears(c, x, side) && (n == 1 || Holds(c, h, n - 1, side))
  {
    var all := h + [x];
    assert all[|h|] == x && forall k | 0 <= k < |h| :: all[k] == h[k];
  }

  lemma ConfirmedStep(c: Config, h: seq<real>, x: real)
    requires h != []
    ensures Confirmed(c, h + [x]) ==
            if Holds(c, h + [x], c.candles, Bullish) then Some(Bullish)
            else if Holds(c, h + [x], c.candles, Bearish) then Some(Bearish)
            else Confirmed(c, h)
  {
    assert (h + [x])[..|h|] == h;
  }

  /** The candidate is the unconfirmed side that spreads have held for exactly `count` observations. */
  ghost predicate Counting(g: Gate, c: Config, h: seq<real>) {
    && (g.candidate.None? <==> g.count == 0)
    && (forall side: Side, n: nat | n > 0 && Some(side) != g.confirmed ::
          Holds(c, h, n, side) <==> g.candidate == Some(side) && n <= g.count)
    && g.count < c.candles
  }

  lemma CountingStep(g: Gate, c: Config, h: seq<real>, x: real)
    requires c.Valid() && h != [] && g.initialized && Counting(g, c, h)
    ensures Counting(Updated(g, c, x), c, h + [x])
    ensures forall side: Side :: Confirms(g, c, x) && c.Raw(x) == Some(side) <==>
              Holds(c, h + [x], c.candles, side) && g.confirmed != Some(side)
  {
    var t := Updated(g, c, x);
    forall side: Side, n: nat | n > 0
      ensures Holds(c, h + [x], n, side) <==> c.Raw(x) == Some(side) && (n == 1 || Holds(c, h, n - 1, side))
    {
      HoldsStep(c, h, x, n, side);
      RawExactly(c, x, side);
    }
  }

  /** The gate follows its history. */
  lemma {:induction false} RunFollows(c: Config, h: seq<real>)
    requires c.Valid() && h != []
    ensures var g := Run(c, h); g.initialized && g.confirmed == Confirmed(c, h) && Counting(g, c, h)
  {
    var init, x := h[..|h| - 1], h[|h| - 1];
    assert init + [x] == h;
    if init == [] {
      assert Run(c, init) == RESET;
      assert forall side: Side, n: nat | n > 0 :: !Holds(c, h, n, side);
    } else {
      RunFollows(c, init);
      CountingStep(Run(c, init), c, init, x);
      ConfirmedStep(c, init, x);
    }
  }

  /**
   For every spread history: side `s` is emitted exactly when the last `candles` spreads, all after
   the first observation, clear the separation on side `s` and the confirmed side is another or none.
   */
  lemma EmitsExactly(c: Config, h: seq<real>, x: real, side: Side)
    requires c.Valid()
    ensures Emission(Run(c, h), c, x) == Some(side) <==>
            Holds(c, h + [x], c.candles, side) && Confirmed(c, h) != Some(side)
  {
    if h != [] {
      RunFollows(c, h);
      CountingStep(Run(c, h), c, h, x);
    }
  }

  function Emissions(c: Config, h: seq<real>): seq<Side> {
    if h == [] then []
    else
      var init := h[..|h| - 1];
      var e := Emission(Run(c, init), c, h[|h| - 1]);
      Emissions(c, init) + if e.Some? then [e.value] else []
  }

  /** Successive emissions alternate, and the last one is the confirmed side. */
  lemma {:induction false} EmissionsAlternate(c: Config, h: seq<real>)
    requires c.Valid()
    ensures var es := Emissions(c, h);
            && (forall k | 0 < k < |es| :: es[k] != es[k - 1])
            && (es != [] ==> Run(c, h).confirmed == Some(es[|es| - 1]) && !Clears(c, h[0], es[0]))
            && (es == [] && h != [] ==> Run(c, h).confirmed == Confirmed(c, h[..1]))
  {
    if h != [] {
      var init := h[..|h| - 1];
      EmissionsAlternate(c, init);
      if init != [] {
        RunFollows(c, init);
        assert init[0] == h[0];
      }
    }
  }

  class ConfirmedCrossover {
    const config: Config
    var confirmed: Option<Side>
    var candidate: Option<Side>
    var count: nat
    var initialized: bool

    function View(): Gate
      reads this
    {
      Gate(confirmed, candidate, count, initialized)
    }

    constructor (c: Config)
      requires c.Valid()
      ensures config == c && View() == RESET
    {
      config := c;
      confirmed, candidate, count, initialized := None, None, 0, false;
    }

    method Update(spread: real) returns (emitted: Option<Side>)
      modifies this
      ensures View() == Updated(old(View()), config, spread) && emitted == Emission(old(View()), config, spread)
    {
      var raw := config.Raw(spread);
      if !initialized {
        initialized := true;
        confirmed := raw;
        return None;
      }
      if raw.None? || raw == confirmed {
        candidate, count := None, 0;
        return None;
      }
      if raw != candidate {
        candidate, count := raw, 1;
      } else {
        count := count + 1;
      }
      if count < config.candles {
        return None;
      }
      confirmed, candidate, count := raw, None, 0;
      emitted := raw;
    }
  }
}
