/** `ADX`: Wilder's directional index, one closed candle at a time. */
module Adx {
  import opened Prelude
  import opened Averages

  datatype Candle = Candle(high: real, low: real, close: real) {
    predicate WellFormed() { low <= close <= high }
  }

  /** The smoothed figures and the last bar; nothing before the first candle. */
  datatype State =
    | Empty
    | Fed(previous: Candle, range: real, plus: real, minus: real, adx: real)

  datatype Reading = Reading(adx: real, plusDi: real, minusDi: real)

  // ------------------------------------------------------------------ one candle

  function TrueRange(s: State, c: Candle): real {
    if s.Empty? then c.high - c.low
    else Max(c.high - c.low, Max(Abs(c.high - s.previous.close), Abs(c.low - s.previous.close)))
  }

  function PlusMove(s: State, c: Candle): real {
    if s.Empty? then 0.0
    else
      var up, down := c.high - s.previous.high, s.previous.low - c.low;
      if up > down && up > 0.0 then up else 0.0
  }

  function MinusMove(s: State, c: Candle): real {
    if s.Empty? then 0.0
    else
      var up, down := c.high - s.previous.high, s.previous.low - c.low;
      if down > up && down > 0.0 then down else 0.0
  }

  /** `_wilder` after the first value. */
  function Wilder(previous: real, value: real, period: nat): real
    requires period > 0
  {
    Moved(previous, 1.0 / period as real, value)
  }

  function Di(move: real, range: real): real {
    if range != 0.0 then 100.0 * move / range else 0.0
  }

  function Dx(plusDi: real, minusDi: real): real {
    if plusDi + minusDi != 0.0 then 100.0 * Abs(plusDi - minusDi) / (plusDi + minusDi) else 0.0
  }

  /** `update`. */
  function Updated(s: State, period: nat, c: Candle): State
    requires period > 0
  {
    var tr, up, down := TrueRange(s, c), PlusMove(s, c), MinusMove(s, c);
    var range := if s.Empty? then tr else Wilder(s.range, tr, period);
    var plus := if s.Empty? then up else Wilder(s.plus, up, period);
    var minus := if s.Empty? then down else Wilder(s.minus, down, period);
    var dx := Dx(Di(plus, range), Di(minus, range));
    Fed(c, range, plus, minus, if s.Empty? then dx else Wilder(s.adx, dx, period))
  }

  function Read(s: State): Reading
    requires s.Fed?
  {
    Reading(s.adx, Di(s.plus, s.range), Di(s.minus, s.range))
  }

  function Run(period: nat, candles: seq<Candle>): State
    requires period > 0
  {
    if candles == [] then Empty else Updated(Run(period, candles[..|candles| - 1]), period, candles[|candles| - 1])
  }

  // ------------------------------------------------------------------ what the figures are

  function PreviousClose(candles: seq<Candle>, i: nat): Option<real>
    requires i < |candles|
  {
    if i == 0 then None else Some(candles[i - 1].close)
  }

  /** How far this candle's high went beyond the last one's, if it did, and further than its low did; else zero. */
  ghost predicate IsPlusMove(candles: seq<Candle>, i: nat, move: real)
    requires i < |candles|
  {
    if i > 0 && candles[i].high - candles[i - 1].high > Max(0.0, candles[i - 1].low - candles[i].low)
    then move == candles[i].high - candles[i - 1].high else move == 0.0
  }

  ghost predicate IsMinusMove(candles: seq<Candle>, i: nat, move: real)
    requires i < |candles|
  {
    if i > 0 && candles[i - 1].low - candles[i].low > Max(0.0, candles[i].high - candles[i - 1].high)
    then move == candles[i - 1].low - candles[i].low else move == 0.0
  }

  /** The move as a percentage of the range; zero without a range. */
  ghost predicate IsPercent(di: real, move: real, range: real) {
    if range == 0.0 then di == 0.0 else di * range == 100.0 * move
  }

  /** The indicators' difference as a percentage of their sum; zero without a sum. */
  ghost predicate IsIndex(dx: real, plusDi: real, minusDi: real) {
    if plusDi + minusDi == 0.0 then dx == 0.0
    else dx * (plusDi + minusDi) == 100.0 * (if plusDi >= minusDi then plusDi - minusDi else minusDi - plusDi)
  }

  /** The candles' true ranges and directional moves, in order. */
  ghost predicate AreMoves(candles: seq<Candle>, ranges: seq<real>, plus: seq<real>, minus: seq<real>) {
    && |ranges| == |plus| == |minus| == |candles|
    && forall i | 0 <= i < |candles| ::
         && IsTrueRange(candles[i].high, candles[i].low, PreviousClose(candles, i), ranges[i])
         && IsPlusMove(candles, i, plus[i]) && IsMinusMove(candles, i, minus[i])
  }

  lemma MovesExactly(s: State, candles: seq<Candle>, i: nat, range: real, plus: real, minus: real)
    requires i < |candles| && (s.Empty? <==> i == 0) && (s.Fed? ==> s.previous == candles[i - 1])
    requires IsTrueRange(candles[i].high, candles[i].low, PreviousClose(candles, i), range)
    requires IsPlusMove(candles, i, plus) && IsMinusMove(candles, i, minus)
    ensures TrueRange(s, candles[i]) == range && PlusMove(s, candles[i]) == plus && MinusMove(s, candles[i]) == minus
  {
  }

  lemma PercentExactly(move: real, range: real)
    ensures IsPercent(Di(move, range), move, range)
  {
  }

  lemma IndexExactly(plusDi: real, minusDi: real)
    ensures IsIndex(Dx(plusDi, minusDi), plusDi, minusDi)
  {
  }

  lemma RunStep(period: nat, candles: seq<Candle>, i: nat)
    requires period > 0 && i < |candles|
    ensures Run(period, candles[..i + 1]) == Updated(Run(period, candles[..i]), period, candles[i])
    ensures (Run(period, candles[..i]).Empty? <==> i == 0) && (i > 0 ==> Run(period, candles[..i]).previous == candles[i - 1])
  {
    assert candles[..i + 1][..i] == candles[..i];
    if i > 0 {
      assert candles[..i][..i - 1] == candles[..i - 1];
    }
  }

  /** The state after the `i`th candle. */
  function After(period: nat, candles: seq<Candle>, i: nat): (s: State)
    requires period > 0 && i < |candles|
    ensures s.Fed?
  {
    Run(period, candles[..i + 1])
  }

  /** The index it adds, from its indicators. */
  function IndexOf(s: State): real
    requires s.Fed?
  {
    Dx(Di(s.plus, s.range), Di(s.minus, s.range))
  }

  /** One candle's figures, from those before it. */
  lemma FigureStep(period: nat, candles: seq<Candle>, ranges: seq<real>, plus: seq<real>, minus: seq<real>, i: nat)
    requires period > 0 && i < |candles| && AreMoves(candles, ranges, plus, minus)
    ensures var t := After(period, candles, i);
            if i == 0 then t.range == ranges[0] && t.plus == plus[0] && t.minus == minus[0] && t.adx == IndexOf(t)
            else
              var s, alpha := After(period, candles, i - 1), 1.0 / period as real;
              && t.range == Moved(s.range, alpha, ranges[i]) && t.plus == Moved(s.plus, alpha, plus[i])
              && t.minus == Moved(s.minus, alpha, minus[i]) && t.adx == Moved(s.adx, alpha, IndexOf(t))
  {
    RunStep(period, candles, i);
    MovesExactly(Run(period, candles[..i]), candles, i, ranges[i], plus[i], minus[i]);
  }

  lemma RangeIsWeighted(period: nat, candles: seq<Candle>, ranges: seq<real>, plus: seq<real>, minus: seq<real>, n: nat)
    requires period > 0 && n < |candles| && AreMoves(candles, ranges, plus, minus)
    ensures After(period, candles, n).range == Weighted(1.0 / period as real, ranges[..n + 1], 0)
  {
    var alpha, m := 1.0 / period as real, |candles|;
    var vs := seq(m, i requires 0 <= i < m => After(period, candles, i).range);
    FigureStep(period, candles, ranges, plus, minus, 0);
    forall i {:trigger ranges[i]} | 0 < i < m ensures vs[i] == Moved(vs[i - 1], alpha, ranges[i]) {
      FigureStep(period, candles, ranges, plus, minus, i);
    }
    AveragesAreWeighted(alpha, ranges, vs, n);
  }

  lemma PlusIsWeighted(period: nat, candles: seq<Candle>, ranges: seq<real>, plus: seq<real>, minus: seq<real>, n: nat)
    requires period > 0 && n < |candles| && AreMoves(candles, ranges, plus, minus)
    ensures After(period, candles, n).plus == Weighted(1.0 / period as real, plus[..n + 1], 0)
  {
    var alpha, m := 1.0 / period as real, |candles|;
    var vs := seq(m, i requires 0 <= i < m => After(period, candles, i).plus);
    FigureStep(period, candles, ranges, plus, minus, 0);
    forall i {:trigger plus[i]} | 0 < i < m ensures vs[i] == Moved(vs[i - 1], alpha, plus[i]) {
      FigureStep(period, candles, ranges, plus, minus, i);
    }
    AveragesAreWeighted(alpha, plus, vs, n);
  }

  lemma MinusIsWeighted(period: nat, candles: seq<Candle>, ranges: seq<real>, plus: seq<real>, minus: seq<real>, n: nat)
    requires period > 0 && n < |candles| && AreMoves(candles, ranges, plus, minus)
    ensures After(period, candles, n).minus == Weighted(1.0 / period as real, minus[..n + 1], 0)
  {
    var alpha, m := 1.0 / period as real, |candles|;
    var vs := seq(m, i requires 0 <= i < m => After(period, candles, i).minus);
    FigureStep(period, candles, ranges, plus, minus, 0);
    forall i {:trigger minus[i]} | 0 < i < m ensures vs[i] == Moved(vs[i - 1], alpha, minus[i]) {
      FigureStep(period, candles, ranges, plus, minus, i);
    }
    AveragesAreWeighted(alpha, minus, vs, n);
  }

  lemma IndexIsWeighted(period: nat, candles: seq<Candle>, ranges: seq<real>, plus: seq<real>, minus: seq<real>, dxs: seq<real>, n: nat)
    requires period > 0 && n < |candles| && AreMoves(candles, ranges, plus, minus)
    requires |dxs| == |candles| && forall i | 0 <= i < |candles| :: dxs[i] == IndexOf(After(period, candles, i))
    ensures After(period, candles, n).adx == Weighted(1.0 / period as real, dxs[..n + 1], 0)
  {
    var alpha, m := 1.0 / period as real, |candles|;
    var xs := seq(m, i requires 0 <= i < m => After(period, candles, i).adx);
    FigureStep(period, candles, ranges, plus, minus, 0);
    forall i {:trigger dxs[i]} | 0 < i < m ensures xs[i] == Moved(xs[i - 1], alpha, dxs[i]) {
      FigureStep(period, candles, ranges, plus, minus, i);
    }
    AveragesAreWeighted(alpha, dxs, xs, n);
  }

  /**
   On every stream: the smoothed range and moves are the weighted sums of all the candles' true ranges
   and directional moves, the indicators are the moves as percentages of the range, and the index is
   the weighted sum of the indicators' differences as percentages of their sums.
   */
  lemma FiguresAreWeighted(period: nat, candles: seq<Candle>, ranges: seq<real>, plus: seq<real>, minus: seq<real>)
    returns (dxs: seq<real>)
    requires period > 0 && AreMoves(candles, ranges, plus, minus)
    ensures |dxs| == |candles|
    ensures forall n | 0 <= n < |candles| ::
              var alpha, s := 1.0 / period as real, After(period, candles, n);
              && s.range == Weighted(alpha, ranges[..n + 1], 0)
              && s.plus == Weighted(alpha, plus[..n + 1], 0) && s.minus == Weighted(alpha, minus[..n + 1], 0)
              && Read(s).adx == Weighted(alpha, dxs[..n + 1], 0)
              && IsPercent(Read(s).plusDi, s.plus, s.range) && IsPercent(Read(s).minusDi, s.minus, s.range)
              && IsIndex(dxs[n], Read(s).plusDi, Read(s).minusDi)
  {
    dxs := seq(|candles|, i requires 0 <= i < |candles| => IndexOf(After(period, candles, i)));
    forall n | 0 <= n < |candles|
      ensures var alpha, s := 1.0 / period as real, After(period, candles, n);
              && s.range == Weighted(alpha, ranges[..n + 1], 0)
              && s.plus == Weighted(alpha, plus[..n + 1], 0) && s.minus == Weighted(alpha, minus[..n + 1], 0)
              && Read(s).adx == Weighted(alpha, dxs[..n + 1], 0)
              && IsPercent(Read(s).plusDi, s.plus, s.range) && IsPercent(Read(s).minusDi, s.minus, s.range)
              && IsIndex(dxs[n], Read(s).plusDi, Read(s).minusDi)
    {
      var s := After(period, candles, n);
      RangeIsWeighted(period, candles, ranges, plus, minus, n);
      PlusIsWeighted(period, candles, ranges, plus, minus, n);
      MinusIsWeighted(period, candles, ranges, plus, minus, n);
      IndexIsWeighted(period, candles, ranges, plus, minus, dxs, n);
      PercentExactly(s.plus, s.range);
      PercentExactly(s.minus, s.range);
      IndexExactly(Read(s).plusDi, Read(s).minusDi);
    }
  }

  // ------------------------------------------------------------------ bounds

  /** The directional moves are non-negative and fit in the true range. */
  ghost predicate Fits(plus: real, minus: real, range: real) {
    plus >= 0.0 && minus >= 0.0 && plus + minus <= range
  }

  ghost predicate Percentage(x: real) {
    0.0 <= x <= 100.0
  }

  ghost predicate Bounded(s: State) {
    s.Fed? ==> s.previous.WellFormed() && Fits(s.plus, s.minus, s.range) && Percentage(s.adx)
  }

  lemma MovesFit(s: State, c: Candle)
    requires Bounded(s) && c.WellFormed()
    ensures Fits(PlusMove(s, c), MinusMove(s, c), TrueRange(s, c))
  {
  }

  lemma NonNegative(a: real, x: real)
    requires a >= 0.0 && x >= 0.0
    ensures a * x >= 0.0
  {
  }

  /** Wilder's step is a weighted mean. */
  lemma WilderMixes(x: real, y: real, period: nat, low: real)
    requires period > 0 && x >= low && y >= low
    ensures Wilder(x, y, period) >= low
  {
    var a := 1.0 / period as real;
    assert 0.0 <= a <= 1.0;
    NonNegative(1.0 - a, x - low);
    NonNegative(a, y - low);
    assert x + a * (y - x) - low == (1.0 - a) * (x - low) + a * (y - low);
  }

  lemma WilderIsLinear(x: real, y: real, u: real, v: real, period: nat)
    requires period > 0
    ensures Wilder(x + u, y + v, period) == Wilder(x, y, period) + Wilder(u, v, period)
    ensures Wilder(-x, -y, period) == -Wilder(x, y, period)
  {
  }

  lemma WilderFits(p: real, m: real, r: real, p': real, m': real, r': real, period: nat)
    requires period > 0 && Fits(p, m, r) && Fits(p', m', r')
    ensures Fits(Wilder(p, p', period), Wilder(m, m', period), Wilder(r, r', period))
  {
    WilderMixes(p, p', period, 0.0);
    WilderMixes(m, m', period, 0.0);
    WilderMixes(r - p - m, r' - p' - m', period, 0.0);
    WilderIsLinear(p + m, p' + m', r - p - m, r' - p' - m', period);
    WilderIsLinear(p, p', m, m', period);
  }

  lemma WilderIsPercentage(x: real, y: real, period: nat)
    requires period > 0 && Percentage(x) && Percentage(y)
    ensures Percentage(Wilder(x, y, period))
  {
    WilderMixes(x, y, period, 0.0);
    WilderMixes(-x, -y, period, -100.0);
    WilderIsLinear(x, y, 0.0, 0.0, period);
  }

  lemma Quotient(x: real, y: real)
    requires 0.0 <= x <= y && y > 0.0
    ensures Percentage(100.0 * x / y)
  {
    assert x / y * y == x;
    assert 0.0 <= x / y <= 1.0;
    assert 100.0 * x / y == 100.0 * (x / y);
  }

  lemma IndicatorsAreBounded(plus: real, minus: real, range: real)
    requires Fits(plus, minus, range)
    ensures Percentage(Di(plus, range)) && Percentage(Di(minus, range)) && Percentage(Di(plus, range) + Di(minus, range))
    ensures Percentage(Dx(Di(plus, range), Di(minus, range)))
  {
    if range != 0.0 {
      Quotient(plus, range);
      Quotient(minus, range);
      Quotient(plus + minus, range);
      assert 100.0 * plus / range + 100.0 * minus / range == 100.0 * (plus + minus) / range;
    }
    var p, m := Di(plus, range), Di(minus, range);
    if p + m != 0.0 {
      Quotient(Abs(p - m), p + m);
    }
  }

  lemma UpdateIsBounded(s: State, period: nat, c: Candle)
    requires period > 0 && Bounded(s) && c.WellFormed()
    ensures Bounded(Updated(s, period, c))
  {
    var tr, up, down := TrueRange(s, c), PlusMove(s, c), MinusMove(s, c);
    MovesFit(s, c);
    if s.Empty? {
      IndicatorsAreBounded(up, down, tr);
    } else {
      WilderFits(s.plus, s.minus, s.range, up, down, tr, period);
      var range, plus, minus := Wilder(s.range, tr, period), Wilder(s.plus, up, period), Wilder(s.minus, down, period);
      IndicatorsAreBounded(plus, minus, range);
      WilderIsPercentage(s.adx, Dx(Di(plus, range), Di(minus, range)), period);
    }
  }

  /**
   On every stream of candles with low <= close <= high: the smoothed moves stay non-negative and
   together within the smoothed range, so both indicators, their sum and the index are percentages.
   */
  lemma {:induction false} EveryReadingIsBounded(period: nat, candles: seq<Candle>)
    requires period > 0 && forall k | 0 <= k < |candles| :: candles[k].WellFormed()
    ensures var s := Run(period, candles);
            && Bounded(s)
            && (s.Fed? ==> Percentage(Read(s).adx) && Percentage(Read(s).plusDi) && Percentage(Read(s).minusDi)
                           && Percentage(Read(s).plusDi + Read(s).minusDi))
  {
    if candles != [] {
      EveryReadingIsBounded(period, candles[..|candles| - 1]);
      UpdateIsBounded(Run(period, candles[..|candles| - 1]), period, candles[|candles| - 1]);
      var s := Run(period, candles);
      IndicatorsAreBounded(s.plus, s.minus, s.range);
    }
  }

  /** The closes must lie within their candles: one above its high takes the next indicator past 1,000 percent. */
  lemma CloseAboveHighEscapes()
    ensures var s := Run(1, [Candle(10.0, 10.0, 20.0), Candle(21.0, 20.0, 20.0)]);
            s.Fed? && Read(s).plusDi == 1_100.0
  {
    var one := [Candle(10.0, 10.0, 20.0)];
    var both := [Candle(10.0, 10.0, 20.0), Candle(21.0, 20.0, 20.0)];
    assert both[..1] == one && one[..0] == [];
    assert Run(1, one) == Fed(one[0], 0.0, 0.0, 0.0, 0.0);
    assert 1.0 / 1 as real == 1.0;
  }

  class ADX {
    const period: nat
    var count: nat
    var state: State

    constructor (period: nat)
      requires period >= 1
      ensures this.period == period && state == Empty && count == 0
    {
      this.period, state, count := period, Empty, 0;
    }

    method Update(c: Candle) returns (r: Reading)
      requires period > 0
      modifies this
      ensures state == Updated(old(state), period, c) && r == Read(state) && count == old(count) + 1
      ensures Bounded(old(state)) && c.WellFormed() ==> Bounded(state)
    {
      if Bounded(state) && c.WellFormed() {
        UpdateIsBounded(state, period, c);
      }
      var tr, up, down := c.high - c.low, 0.0, 0.0;
      if state.Fed? {
        var upMove, downMove := c.high - state.previous.high, state.previous.low - c.low;
        if upMove > downMove && upMove > 0.0 {
          up := upMove;
        }
        if downMove > upMove && downMove > 0.0 {
          down := downMove;
        }
        tr := Max(tr, Max(Abs(c.high - state.previous.close), Abs(c.low - state.previous.close)));
      }
      var range := if state.Empty? then tr else Wilder(state.range, tr, period);
      var plus := if state.Empty? then up else Wilder(state.plus, up, period);
      var minus := if state.Empty? then down else Wilder(state.minus, down, period);
      var plusDi, minusDi := Di(plus, range), Di(minus, range);
      var dx := Dx(plusDi, minusDi);
      state := Fed(c, range, plus, minus, if state.Empty? then dx else Wilder(state.adx, dx, period));
      count := count + 1;
      r := Reading(state.adx, plusDi, minusDi);
    }
  }
}
