/**
 SuperTrend twice: the batch form that fills arrays over a whole series, and the stateful form fed
 one closed candle at a time.
 */
module SuperTrend {
  import opened Prelude
  import opened Averages

  datatype Candle = Candle(high: real, low: real, close: real) {
    predicate WellFormed() { low <= close <= high }
  }

  datatype Trend = Up | Down

  // ------------------------------------------------------------------ the stateful form

  datatype State = Empty | Fed(previousClose: real, atr: real, upper: real, lower: real, trend: Trend) {
    /** The active band. */
    function Line(): real
      requires Fed?
    {
      if trend == Up then lower else upper
    }
  }

  function Range(previousClose: Option<real>, c: Candle): real {
    if previousClose.None? then c.high - c.low
    else Max(c.high - c.low, Max(Abs(c.high - previousClose.value), Abs(c.low - previousClose.value)))
  }

  /** The upper band only comes down, until a close has passed it; the lower one only goes up. */
  function FinalUpper(basic: real, before: real, previousClose: real): real {
    if basic < before || previousClose > before then basic else before
  }

  function FinalLower(basic: real, before: real, previousClose: real): real {
    if basic > before || previousClose < before then basic else before
  }

  function Turned(before: Trend, close: real, upper: real, lower: real): Trend {
    if before == Up then (if close < lower then Down else Up) else if close > upper then Up else Down
  }

  function UpperBasic(c: Candle, multiplier: real, atr: real): real {
    (c.high + c.low) / 2.0 + multiplier * atr
  }

  function LowerBasic(c: Candle, multiplier: real, atr: real): real {
    (c.high + c.low) / 2.0 - multiplier * atr
  }

  /** Wilder's running average, as the stateful form writes it. */
  function Smooth(atr: real, tr: real, period: nat): real
    requires period > 0
  {
    Moved(atr, 1.0 / period as real, tr)
  }

  function Previous(s: State): Option<real> {
    if s.Empty? then None else Some(s.previousClose)
  }

  function Atr(s: State, period: nat, c: Candle): real
    requires period > 0
  {
    var tr := Range(Previous(s), c);
    if s.Empty? then tr else Smooth(s.atr, tr, period)
  }

  /** The rest of one candle, once its average is known. */
  function Banded(s: State, multiplier: real, c: Candle, atr: real): (t: State)
    ensures t.Fed? && t.previousClose == c.close && t.atr == atr
  {
    var upper, lower := UpperBasic(c, multiplier, atr), LowerBasic(c, multiplier, atr);
    if s.Empty? then Fed(c.close, atr, upper, lower, if c.close >= lower then Up else Down)
    else
      var u, l := FinalUpper(upper, s.upper, s.previousClose), FinalLower(lower, s.lower, s.previousClose);
      Fed(c.close, atr, u, l, Turned(s.trend, c.close, u, l))
  }

  function Updated(s: State, period: nat, multiplier: real, c: Candle): State
    requires period > 0
  {
    Banded(s, multiplier, c, Atr(s, period, c))
  }

  function Run(period: nat, multiplier: real, candles: seq<Candle>): State
    requires period > 0
  {
    if candles == [] then Empty
    else Updated(Run(period, multiplier, candles[..|candles| - 1]), period, multiplier, candles[|candles| - 1])
  }

  class SuperTrend {
    const period: nat
    const multiplier: real
    var state: State
    var flipped: bool
    var count: nat

    constructor (period: nat, multiplier: real)
      requires period >= 1
      ensures this.period == period && this.multiplier == multiplier && state == Empty && count == 0
    {
      this.period, this.multiplier := period, multiplier;
      state, flipped, count := Empty, false, 0;
    }

    method Reset()
      modifies this
      ensures state == Empty && !flipped && count == 0
    {
      state, flipped, count := Empty, false, 0;
    }

    method Update(c: Candle)
      requires period > 0
      modifies this
      ensures state == Updated(old(state), period, multiplier, c) && count == old(count) + 1
      ensures flipped == (old(state).Fed? && old(state).trend != state.trend)
    {
      var atr := Atr(state, period, c);
      var upper, lower := UpperBasic(c, multiplier, atr), LowerBasic(c, multiplier, atr);
      var trend;
      if state.Empty? {
        trend := if c.close >= lower then Up else Down;
        flipped := false;
      } else {
        upper := FinalUpper(upper, state.upper, state.previousClose);
        lower := FinalLower(lower, state.lower, state.previousClose);
        trend := Turned(state.trend, c.close, upper, lower);
        flipped := trend != state.trend;
      }
      state := Fed(c.close, atr, upper, lower, trend);
      count := count + 1;
    }
  }

  // ------------------------------------------------------------------ the batch form

  /** An exponential mean, weighted (1 - alpha) and alpha. */
  function Mean(atr: real, tr: real, period: nat): real
    requires period > 0
  {
    (1.0 - 1.0 / period as real) * atr + 1.0 / period as real * tr
  }

  lemma SameMean(atr: real, tr: real, period: nat)
    requires period > 0
    ensures Mean(atr, tr, period) == Smooth(atr, tr, period)
  {
  }

  function PreviousClose(candles: seq<Candle>, i: nat): Option<real>
    requires i < |candles|
  {
    if i == 0 then None else Some(candles[i - 1].close)
  }

  /** `_wilder_atr`: the series' average at one candle. */
  function BatchAtr(candles: seq<Candle>, period: nat, i: nat): real
    requires period > 0 && i < |candles|
  {
    var tr := Range(PreviousClose(candles, i), candles[i]);
    if i == 0 then tr else Mean(BatchAtr(candles, period, i - 1), tr, period)
  }

  lemma RunStep(period: nat, multiplier: real, candles: seq<Candle>, i: nat)
    requires period > 0 && i < |candles|
    ensures Run(period, multiplier, candles[..i + 1]) ==
            Updated(Run(period, multiplier, candles[..i]), period, multiplier, candles[i])
    ensures Previous(Run(period, multiplier, candles[..i])) == PreviousClose(candles, i)
  {
    assert candles[..i + 1][..i] == candles[..i];
  }

  /** The two averages agree at every candle of every series. */
  lemma {:induction false} SameAtr(candles: seq<Candle>, period: nat, multiplier: real, i: nat)
    requires period > 0 && i < |candles|
    ensures Run(period, multiplier, candles[..i + 1]).Fed?
    ensures Run(period, multiplier, candles[..i + 1]).atr == BatchAtr(candles, period, i)
  {
    RunStep(period, multiplier, candles, i);
    if i > 0 {
      SameAtr(candles, period, multiplier, i - 1);
      SameMean(BatchAtr(candles, period, i - 1), Range(PreviousClose(candles, i), candles[i]), period);
    }
  }

  /** The candles' true ranges, in order. */
  ghost predicate AreRanges(candles: seq<Candle>, ranges: seq<real>) {
    && |ranges| == |candles|
    && forall i | 0 <= i < |candles| :: IsTrueRange(candles[i].high, candles[i].low, PreviousClose(candles, i), ranges[i])
  }

  lemma RangeExactly(c: Candle, previousClose: Option<real>, range: real)
    ensures IsTrueRange(c.high, c.low, previousClose, range) <==> range == Range(previousClose, c)
  {
  }

  lemma AtrMoves(candles: seq<Candle>, period: nat, alpha: real, n: nat, range: real)
    requires period > 0 && alpha == 1.0 / period as real && n < |candles|
    requires IsTrueRange(candles[n].high, candles[n].low, PreviousClose(candles, n), range)
    ensures BatchAtr(candles, period, n) == if n == 0 then range else Moved(BatchAtr(candles, period, n - 1), alpha, range)
  {
    RangeExactly(candles[n], PreviousClose(candles, n), range);
    if n > 0 {
      SameMean(BatchAtr(candles, period, n - 1), range, period);
    }
  }

  /** On every series the average is the weighted sum of all the true ranges, each candle's weight falling off by the period. */
  lemma AtrIsWeighted(candles: seq<Candle>, period: nat, ranges: seq<real>, n: nat)
    requires period > 0 && n < |candles| && AreRanges(candles, ranges)
    ensures BatchAtr(candles, period, n) == Weighted(1.0 / period as real, ranges[..n + 1], 0)
  {
    var alpha := 1.0 / period as real;
    var atrs := seq(|candles|, i requires 0 <= i < |candles| => BatchAtr(candles, period, i));
    AtrMoves(candles, period, alpha, 0, ranges[0]);
    forall i {:trigger ranges[i]} | 0 < i < |candles| ensures atrs[i] == Moved(atrs[i - 1], alpha, ranges[i]) {
      AtrMoves(candles, period, alpha, i, ranges[i]);
    }
    AveragesAreWeighted(alpha, ranges, atrs, n);
  }

  /** One candle of the stateful form, in the batch form's terms. */
  lemma BatchStep(candles: seq<Candle>, period: nat, multiplier: real, i: nat)
    requires period > 0 && i < |candles|
    ensures var s, t := Run(period, multiplier, candles[..i]), Run(period, multiplier, candles[..i + 1]);
            var ub, lb := UpperBasic(candles[i], multiplier, BatchAtr(candles, period, i)), LowerBasic(candles[i], multiplier, BatchAtr(candles, period, i));
            && (i == 0 ==> t == Fed(candles[0].close, t.atr, ub, lb, if candles[0].close >= lb then Up else Down))
            && (i > 0 ==> s.Fed? && t.Fed?
                          && t.upper == FinalUpper(ub, s.upper, candles[i - 1].close)
                          && t.lower == FinalLower(lb, s.lower, candles[i - 1].close)
                          && t.trend == Turned(s.trend, candles[i].close, t.upper, t.lower))
  {
    RunStep(period, multiplier, candles, i);
    SameAtr(candles, period, multiplier, i);
  }

  /** What the arrays hold of a candle is what the stateful form has after it. */
  ghost predicate Filled(candles: seq<Candle>, period: nat, multiplier: real, i: nat, upper: real, lower: real, trend: Trend)
    requires period > 0 && i < |candles|
  {
    var s := Run(period, multiplier, candles[..i + 1]);
    s.Fed? && upper == s.upper && lower == s.lower && trend == s.trend
  }

  /** The batch form's answer for a candle is the stateful form's. */
  ghost predicate Agrees(candles: seq<Candle>, period: nat, multiplier: real, i: nat, line: real, trend: Trend)
    requires period > 0 && i < |candles|
  {
    var s := Run(period, multiplier, candles[..i + 1]);
    s.Fed? && trend == s.trend && line == s.Line()
  }

  method FirstRow(candles: seq<Candle>, period: nat, multiplier: real, atr: real) returns (u: real, l: real, t: Trend)
    requires period > 0 && candles != [] && atr == BatchAtr(candles, period, 0)
    ensures Filled(candles, period, multiplier, 0, u, l, t) && Agrees(candles, period, multiplier, 0, if t == Up then l else u, t)
  {
    BatchStep(candles, period, multiplier, 0);
    u, l := UpperBasic(candles[0], multiplier, atr), LowerBasic(candles[0], multiplier, atr);
    t := if candles[0].close >= l then Up else Down;
  }

  method NextRow(candles: seq<Candle>, period: nat, multiplier: real, i: nat, atr: real, upper: real, lower: real, trend: Trend)
    returns (u: real, l: real, t: Trend)
    requires period > 0 && 0 < i < |candles| && atr == BatchAtr(candles, period, i)
    requires Filled(candles, period, multiplier, i - 1, upper, lower, trend)
    ensures Filled(candles, period, multiplier, i, u, l, t) && Agrees(candles, period, multiplier, i, if t == Up then l else u, t)
  {
    BatchStep(candles, period, multiplier, i);
    u := FinalUpper(UpperBasic(candles[i], multiplier, atr), upper, candles[i - 1].close);
    l := FinalLower(LowerBasic(candles[i], multiplier, atr), lower, candles[i - 1].close);
    t := Turned(trend, candles[i].close, u, l);
  }

  /** The series' averages, in one pass of their own. */
  method WilderAtr(candles: seq<Candle>, period: nat) returns (atr: array<real>)
    requires period > 0
    ensures fresh(atr) && atr.Length == |candles|
    ensures forall i | 0 <= i < |candles| :: atr[i] == BatchAtr(candles, period, i)
  {
    atr := new real[|candles|];
    var i := 0;
    while i < |candles|
      invariant 0 <= i <= |candles|
      invariant forall j | 0 <= j < i :: atr[j] == BatchAtr(candles, period, j)
    {
      var tr := Range(PreviousClose(candles, i), candles[i]);
      atr[i] := if i == 0 then tr else Mean(atr[i - 1], tr, period);
      i := i + 1;
    }
  }

  /** `supertrend`: on every series, the trend and the line the stateful form has after each candle. */
  method Batch(candles: seq<Candle>, period: nat, multiplier: real) returns (line: array<real>, trend: array<Trend>)
    requires period > 0
    ensures line.Length == trend.Length == |candles|
    ensures forall i | 0 <= i < |candles| :: Agrees(candles, period, multiplier, i, line[i], trend[i])
  {
    var n := |candles|;
    var atr := WilderAtr(candles, period);
    var upper, lower := new real[n], new real[n];
    line, trend := new real[n], new Trend[n](_ => Up);
    var i := 0;
    while i < n
      invariant 0 <= i <= n
      invariant forall j | 0 <= j < n :: atr[j] == BatchAtr(candles, period, j)
      invariant forall j | 0 <= j < i ::
                  && Filled(candles, period, multiplier, j, upper[j], lower[j], trend[j])
                  && Agrees(candles, period, multiplier, j, line[j], trend[j])
    {
      var u, l, t;
      if i == 0 {
        u, l, t := FirstRow(candles, period, multiplier, atr[0]);
      } else {
        u, l, t := NextRow(candles, period, multiplier, i, atr[i], upper[i - 1], lower[i - 1], trend[i - 1]);
      }
      upper[i], lower[i], trend[i], line[i] := u, l, t, if t == Up then l else u;
      i := i + 1;
    }
  }

  // ------------------------------------------------------------------ the bands

  predicate Contains(s: State, close: real) {
    s.Fed? && s.lower <= close <= s.upper
  }

  function Middle(c: Candle): real {
    (c.high + c.low) / 2.0
  }

  predicate Within(c: Candle, close: real, multiplier: real, atr: real) {
    Abs(Middle(c) - close) <= multiplier * atr
  }

  /** The candle's middle lies within the multiplied average of the previous close. */
  predicate Near(s: State, period: nat, multiplier: real, c: Candle)
    requires period > 0 && s.Fed?
  {
    Within(c, s.previousClose, multiplier, Atr(s, period, c))
  }

  lemma FinalBandsContainExactly(ub: real, lb: real, upper: real, lower: real, previousClose: real)
    ensures FinalUpper(ub, upper, previousClose) >= previousClose <==> ub >= previousClose
    ensures FinalLower(lb, lower, previousClose) <= previousClose <==> lb <= previousClose
  {
  }

  lemma BasicBandsContainExactly(c: Candle, previousClose: real, multiplier: real, atr: real)
    ensures LowerBasic(c, multiplier, atr) <= previousClose <= UpperBasic(c, multiplier, atr) <==>
            Within(c, previousClose, multiplier, atr)
  {
  }

  lemma BandedContainsExactly(s: State, multiplier: real, c: Candle, atr: real)
    requires s.Fed?
    ensures Contains(Banded(s, multiplier, c, atr), s.previousClose) <==> Within(c, s.previousClose, multiplier, atr)
  {
    BasicBandsContainExactly(c, s.previousClose, multiplier, atr);
    FinalBandsContainExactly(UpperBasic(c, multiplier, atr), LowerBasic(c, multiplier, atr), s.upper, s.lower, s.previousClose);
  }

  /** After any fed state, for any period, multiplier and candle: the final bands contain the previous close exactly when it is near. */
  lemma ContainsExactly(s: State, period: nat, multiplier: real, c: Candle)
    requires period > 0 && s.Fed?
    ensures Contains(Updated(s, period, multiplier, c), s.previousClose) <==> Near(s, period, multiplier, c)
  {
    var atr := Atr(s, period, c);
    BandedContainsExactly(s, multiplier, c, atr);
  }

  /** From the second candle on, the bands contain the close before. */
  ghost predicate AlwaysContains(period: nat, multiplier: real, candles: seq<Candle>)
    requires period > 0
  {
    |candles| > 1 ==>
      && Contains(Run(period, multiplier, candles), candles[|candles| - 2].close)
      && AlwaysContains(period, multiplier, candles[..|candles| - 1])
  }

  ghost predicate AlwaysNear(period: nat, multiplier: real, candles: seq<Candle>)
    requires period > 0
  {
    |candles| > 1 ==>
      var before := Run(period, multiplier, candles[..|candles| - 1]);
      && before.Fed? && Near(before, period, multiplier, candles[|candles| - 1])
      && AlwaysNear(period, multiplier, candles[..|candles| - 1])
  }

  /** On every series, the bands contain the close before each candle if and only if each close is near its next candle. */
  lemma {:induction false} BandsContainExactly(period: nat, multiplier: real, candles: seq<Candle>)
    requires period > 0
    ensures AlwaysContains(period, multiplier, candles) <==> AlwaysNear(period, multiplier, candles)
  {
    if |candles| > 1 {
      var init, n := candles[..|candles| - 1], |candles| - 1;
      BandsContainExactly(period, multiplier, init);
      RunStep(period, multiplier, candles, n);
      assert candles[..n + 1] == candles;
      ContainsExactly(Run(period, multiplier, init), period, multiplier, candles[n]);
    }
  }

  /** At multiplier zero both bands are the candle's middle, and a close of 1 before a candle at 3 is lost. */
  lemma NarrowBandsLoseTheClose()
    ensures var candles := [Candle(1.0, 1.0, 1.0), Candle(3.0, 3.0, 3.0)];
            !AlwaysContains(1, 0.0, candles) && Run(1, 0.0, candles).Fed? && Run(1, 0.0, candles).lower == 3.0
  {
    var one, both := [Candle(1.0, 1.0, 1.0)], [Candle(1.0, 1.0, 1.0), Candle(3.0, 3.0, 3.0)];
    assert both[..1] == one && one[..0] == [];
    assert Run(1, 0.0, one) == Fed(1.0, 0.0, 1.0, 1.0, Up);
  }

  // ------------------------------------------------------------------ the ratchet

  /** The line moved with the trend, or the trend flipped. */
  ghost predicate Ratchets(before: State, after: State)
    requires before.Fed? && after.Fed?
  {
    before.trend == after.trend ==> if after.trend == Up then before.Line() <= after.Line() else before.Line() >= after.Line()
  }

  /** The close is on the trend's own side of its line. */
  ghost predicate OnSide(s: State)
    requires s.Fed?
  {
    if s.trend == Up then s.previousClose >= s.Line() else s.previousClose <= s.Line()
  }

  /** The line may let go: the close had already left it without the trend turning, and the new basic band lies behind. */
  ghost predicate LetsGo(s: State, period: nat, multiplier: real, c: Candle)
    requires period > 0 && s.Fed?
  {
    !OnSide(s) &&
    if s.trend == Up then LowerBasic(c, multiplier, Atr(s, period, c)) < s.Line()
    else UpperBasic(c, multiplier, Atr(s, period, c)) > s.Line()
  }

  /** One candle: the line moves against an unchanged trend exactly when it lets go. */
  lemma RatchetsExactly(s: State, period: nat, multiplier: real, c: Candle)
    requires period > 0 && s.Fed?
    ensures var t := Updated(s, period, multiplier, c);
            Ratchets(s, t) <==> (t.trend == s.trend ==> !LetsGo(s, period, multiplier, c))
  {
  }

  /** With the bands in order the close never leaves its line without the trend turning. */
  lemma OrderedIsOnSide(s: State, period: nat, multiplier: real, c: Candle)
    requires period > 0
    ensures var t := Updated(s, period, multiplier, c);
            t.lower <= t.upper ==> OnSide(t)
  {
  }

  ghost predicate AlwaysOrdered(period: nat, multiplier: real, candles: seq<Candle>)
    requires period > 0
  {
    candles != [] ==>
      var s := Run(period, multiplier, candles);
      s.Fed? && s.lower <= s.upper && AlwaysOrdered(period, multiplier, candles[..|candles| - 1])
  }

  ghost predicate AlwaysRatchets(period: nat, multiplier: real, candles: seq<Candle>)
    requires period > 0
  {
    |candles| > 1 ==>
      var s, t := Run(period, multiplier, candles[..|candles| - 1]), Run(period, multiplier, candles);
      s.Fed? && t.Fed? && Ratchets(s, t) && AlwaysRatchets(period, multiplier, candles[..|candles| - 1])
  }

  /** What the ratchet needs is only that the bands stay in order: then the line moves with the trend until it flips. */
  lemma {:induction false} OrderedBandsRatchet(period: nat, multiplier: real, candles: seq<Candle>)
    requires period > 0 && AlwaysOrdered(period, multiplier, candles)
    ensures AlwaysRatchets(period, multiplier, candles)
    ensures candles != [] ==> OnSide(Run(period, multiplier, candles))
  {
    if candles != [] {
      var init, n := candles[..|candles| - 1], |candles| - 1;
      OrderedBandsRatchet(period, multiplier, init);
      RunStep(period, multiplier, candles, n);
      assert candles[..n + 1] == candles;
      OrderedIsOnSide(Run(period, multiplier, init), period, multiplier, candles[n]);
      if init != [] {
        RatchetsExactly(Run(period, multiplier, init), period, multiplier, candles[n]);
      }
    }
  }

  // ------------------------------------------------------------------ the trend

  /** One candle: the trend turns exactly when the close is beyond the final band that was its line. */
  lemma TurnsExactly(s: State, period: nat, multiplier: real, c: Candle)
    requires period > 0 && s.Fed?
    ensures var t := Updated(s, period, multiplier, c);
            t.trend != s.trend <==> if s.trend == Up then c.close < t.lower else t.upper < c.close
  {
  }

  /** The side on which the last close to leave its bands left them; before any, the first close's side of the lower one. */
  ghost function LastLeft(period: nat, multiplier: real, candles: seq<Candle>): Trend
    requires period > 0 && candles != []
  {
    var init, c := candles[..|candles| - 1], candles[|candles| - 1];
    var t := Run(period, multiplier, candles);
    if init == [] then (if t.Fed? && t.lower <= c.close then Up else Down)
    else if t.Fed? && t.upper < c.close then Up
    else if t.Fed? && c.close < t.lower then Down
    else LastLeft(period, multiplier, init)
  }

  /** On every series whose bands stay in order, the trend is the side of the last close that left them. */
  lemma {:induction false} TrendIsLastLeft(period: nat, multiplier: real, candles: seq<Candle>)
    requires period > 0 && candles != [] && AlwaysOrdered(period, multiplier, candles)
    ensures Run(period, multiplier, candles).trend == LastLeft(period, multiplier, candles)
  {
    var init, n := candles[..|candles| - 1], |candles| - 1;
    RunStep(period, multiplier, candles, n);
    assert candles[..n + 1] == candles;
    if init != [] {
      TrendIsLastLeft(period, multiplier, init);
      TurnsExactly(Run(period, multiplier, init), period, multiplier, candles[n]);
    } else {
      assert Run(period, multiplier, init) == Empty;
    }
  }

  /** Bands that contain a close are in order, so containment from the first candle on is more than enough. */
  lemma {:induction false} ContainingIsOrdered(period: nat, multiplier: real, candles: seq<Candle>)
    requires period > 0 && AlwaysContains(period, multiplier, candles)
    requires candles != [] ==> HalfWidth(multiplier, candles[0]) >= 0.0
    ensures AlwaysOrdered(period, multiplier, candles)
  {
    if |candles| > 1 {
      ContainingIsOrdered(period, multiplier, candles[..|candles| - 1]);
    } else if |candles| == 1 {
      assert candles[..0] == [];
      FirstBandsAreOrdered(period, multiplier, candles[0]);
    }
  }

  /** Half the width of the first candle's bands. */
  function HalfWidth(multiplier: real, c: Candle): real {
    multiplier * (c.high - c.low)
  }

  lemma FirstBandsAreOrdered(period: nat, multiplier: real, c: Candle)
    requires period > 0 && HalfWidth(multiplier, c) >= 0.0
    ensures Updated(Empty, period, multiplier, c).lower <= Updated(Empty, period, multiplier, c).upper
  {
  }

  lemma WideEnough(multiplier: real, c: Candle)
    requires multiplier >= 1.0 && c.WellFormed()
    ensures HalfWidth(multiplier, c) >= 0.0
  {
  }

  // ------------------------------------------------------------------ period one

  lemma PeriodOneIsTheRange(s: State, c: Candle)
    ensures Atr(s, 1, c) == Range(Previous(s), c)
  {
    assert 1.0 / 1 as real == 1.0;
  }

  lemma TimesAtLeast(multiplier: real, x: real)
    requires multiplier >= 1.0 && x >= 0.0
    ensures multiplier * x >= x
  {
  }

  /** The true range reaches from the middle of a candle to the close before it. */
  lemma RangeReaches(c: Candle, previousClose: real)
    requires c.WellFormed()
    ensures Abs(Middle(c) - previousClose) <= Range(Some(previousClose), c)
  {
  }

  lemma PeriodOneStepIsNear(s: State, multiplier: real, c: Candle)
    requires s.Fed? && multiplier >= 1.0 && c.WellFormed()
    ensures Near(s, 1, multiplier, c)
  {
    PeriodOneIsTheRange(s, c);
    RangeReaches(c, s.previousClose);
    TimesAtLeast(multiplier, Range(Previous(s), c));
  }

  /** With period one the average is the true range itself, so any multiplier from one up is enough. */
  lemma {:induction false} PeriodOneIsNear(multiplier: real, candles: seq<Candle>)
    requires multiplier >= 1.0 && forall i | 0 <= i < |candles| :: candles[i].WellFormed()
    ensures AlwaysNear(1, multiplier, candles)
  {
    if |candles| > 1 {
      var init, n := candles[..|candles| - 1], |candles| - 1;
      PeriodOneIsNear(multiplier, init);
      PeriodOneStepIsNear(Run(1, multiplier, init), multiplier, candles[n]);
    }
  }

  lemma PeriodOneContainsAndRatchets(multiplier: real, candles: seq<Candle>)
    requires multiplier >= 1.0 && forall i | 0 <= i < |candles| :: candles[i].WellFormed()
    ensures AlwaysContains(1, multiplier, candles) && AlwaysRatchets(1, multiplier, candles)
  {
    PeriodOneIsNear(multiplier, candles);
    BandsContainExactly(1, multiplier, candles);
    if candles != [] {
      WideEnough(multiplier, candles[0]);
    }
    ContainingIsOrdered(1, multiplier, candles);
    OrderedBandsRatchet(1, multiplier, candles);
  }
}
