/** How the paper broker puts a market fill on the tick grid, always away from the trader. */
module TickPrices {
  import opened Prelude

  /** Tolerance of the grid, in ticks. */
  const EPSILON := 0.000000001

  function Ceiling(x: real): int {
    -((-x).Floor)
  }

  /** Python's `round(x, digits)` over reals, `scale` being the power of ten. */
  function RoundTo(x: real, scale: real): real
    requires scale > 0.0
  {
    Round(x * scale) as real / scale
  }

  /** Whole ticks, rounded against the trader: a buy up, a sell down. */
  function WholeTicks(price: real, tick: real, side: Side): int
    requires tick > 0.0
  {
    if side == Buy then Ceiling(price / tick - EPSILON) else (price / tick + EPSILON).Floor
  }

  function GridPoint(n: int, tick: real): real {
    n as real * tick
  }

  /** `_round_to_tick`. */
  function RoundToTick(price: real, tick: real, side: Side): real
    requires tick > 0.0
  {
    RoundTo(GridPoint(WholeTicks(price, tick, side), tick), 1_000_000.0)
  }

  /** The base price moved against the trader. */
  function Slipped(base: real, slippage: real, side: Side): real {
    if side == Buy then base + slippage else base - slippage
  }

  predicate Grid(tick: Option<real>) {
    tick.Some? ==> tick.value > 0.0
  }

  /** The price before the last rounding; the caller refuses it unless it is positive. */
  function OnGrid(price: real, tick: Option<real>, side: Side): real
    requires Grid(tick)
  {
    if tick.Some? then RoundToTick(price, tick.value, side) else price
  }

  function FillPrice(price: real, tick: Option<real>, side: Side): real
    requires Grid(tick)
  {
    RoundTo(OnGrid(price, tick, side), 10_000.0)
  }

  // ------------------------------------------------------------------ rounding

  predicate Whole(x: real) {
    x == x.Floor as real
  }

  lemma RoundIsNear(x: real)
    ensures -0.5 <= Round(x) as real - x <= 0.5
  {
  }

  lemma RoundToIsNear(x: real, scale: real)
    requires scale > 0.0
    ensures -0.5 <= RoundTo(x, scale) * scale - x * scale <= 0.5
  {
    var y := x * scale;
    RoundIsNear(y);
    DivTimes(Round(y) as real, scale);
  }

  lemma RoundToIsExact(x: real, scale: real, n: int)
    requires scale > 0.0 && x * scale == n as real
    ensures RoundTo(x, scale) == x
  {
    assert Round(x * scale) == n;
    Unscaled(x, n as real, scale);
  }

  lemma DivTimes(x: real, k: real)
    requires k != 0.0
    ensures x / k * k == x
  {
  }

  lemma Unscaled(x: real, y: real, k: real)
    requires k != 0.0 && y == x * k
    ensures y / k == x
  {
  }

  /** `r` whole ticks against `steps` ticks of a price, compared as prices. */
  lemma TicksToPrices(price: real, tick: real, steps: real, r: real, a: real)
    requires tick > 0.0 && steps * tick == price
    ensures r >= steps + a ==> r * tick >= price + a * tick
    ensures r > steps + a ==> r * tick > price + a * tick
    ensures r <= steps + a ==> r * tick <= price + a * tick
    ensures r < steps + a ==> r * tick < price + a * tick
  {
    var d := r - steps - a;
    assert d * tick == r * tick - price - a * tick;
    assert (d >= 0.0 ==> d * tick >= 0.0) && (d > 0.0 ==> d * tick > 0.0);
    assert (d <= 0.0 ==> d * tick <= 0.0) && (d < 0.0 ==> d * tick < 0.0);
  }

  /** The grid price is at most an epsilon of a tick better than asked, and less than a tick worse. */
  lemma WholeTicksAreAdverse(price: real, tick: real, side: Side)
    requires tick > 0.0
    ensures Adverse(GridPoint(WholeTicks(price, tick, side), tick), price, side, EPSILON * tick, tick)
  {
    var n, steps := WholeTicks(price, tick, side) as real, price / tick;
    DivTimes(price, tick);
    if side == Buy {
      assert steps - EPSILON <= n < steps + 1.0;
      TicksToPrices(price, tick, steps, n, -EPSILON);
      TicksToPrices(price, tick, steps, n, 1.0);
    } else {
      assert steps - 1.0 < n <= steps + EPSILON;
      TicksToPrices(price, tick, steps, n, EPSILON);
      TicksToPrices(price, tick, steps, n, -1.0);
    }
  }

  /** A price already on the grid stays where it is. */
  lemma GridPriceStays(n: int, tick: real, side: Side)
    requires tick > 0.0
    ensures WholeTicks(GridPoint(n, tick), tick, side) == n
  {
    Unscaled(n as real, GridPoint(n, tick), tick);
  }

  // ------------------------------------------------------------------ the bounds

  /** A tick that is a multiple of 0.0001, as every exchange tick is. */
  predicate TenThousandths(tick: real) {
    Whole(tick * 10_000.0)
  }

  lemma GridRounds(n: int, tick: real)
    requires TenThousandths(tick)
    ensures RoundTo(GridPoint(n, tick), 1_000_000.0) == GridPoint(n, tick)
    ensures RoundTo(GridPoint(n, tick), 10_000.0) == GridPoint(n, tick)
  {
    var p, k := GridPoint(n, tick), (tick * 10_000.0).Floor;
    Regroup(n as real, tick, 10_000.0);
    assert p * 10_000.0 == n as real * k as real == (n * k) as real;
    RoundToIsExact(p, 10_000.0, n * k);
    assert p * 1_000_000.0 == (p * 10_000.0) * 100.0 == (n * k * 100) as real;
    RoundToIsExact(p, 1_000_000.0, n * k * 100);
  }

  lemma Regroup(x: real, y: real, z: real)
    ensures x * y * z == x * (y * z)
  {
  }

  lemma ExactOnTheGrid(price: real, tick: real, side: Side)
    requires tick > 0.0 && TenThousandths(tick)
    ensures FillPrice(price, Some(tick), side) == GridPoint(WholeTicks(price, tick, side), tick)
  {
    GridRounds(WholeTicks(price, tick, side), tick);
  }

  /** How far a fill price may lie from the price asked, on the good side and on the bad. */
  ghost predicate Adverse(fill: real, price: real, side: Side, better: real, worse: real) {
    if side == Buy then price - better <= fill < price + worse else price - worse < fill <= price + better
  }

  /**
   On a grid of multiples of 0.0001 a fill is at most a billionth of a tick better than the slipped
   price, and less than a full tick worse.
   */
  lemma FillIsAdverse(base: real, slippage: real, tick: real, side: Side)
    requires tick > 0.0 && TenThousandths(tick) && slippage >= 0.0
    ensures var price := Slipped(base, slippage, side);
            && Adverse(FillPrice(price, Some(tick), side), price, side, EPSILON * tick, tick)
            && Adverse(FillPrice(price, Some(tick), side), base, side, EPSILON * tick, slippage + tick)
  {
    ExactOnTheGrid(Slipped(base, slippage, side), tick, side);
    WholeTicksAreAdverse(Slipped(base, slippage, side), tick, side);
  }

  /** On any other grid the two roundings add half a millionth and half a ten-thousandth. */
  lemma FillIsNearlyAdverse(price: real, tick: Option<real>, side: Side)
    requires Grid(tick)
    ensures var t := if tick.Some? then tick.value else 0.0;
            Adverse(FillPrice(price, tick, side), price, side, EPSILON * t + 0.000051, t + 0.000051)
  {
    RoundToIsNear(OnGrid(price, tick, side), 10_000.0);
    if tick.Some? {
      var p := GridPoint(WholeTicks(price, tick.value, side), tick.value);
      WholeTicksAreAdverse(price, tick.value, side);
      RoundToIsNear(p, 1_000_000.0);
      Drift(FillPrice(price, tick, side), OnGrid(price, tick, side), p, price, side, EPSILON * tick.value, tick.value);
    }
  }

  lemma Drift(fill: real, grid: real, p: real, price: real, side: Side, better: real, worse: real)
    requires Adverse(p, price, side, better, worse)
    requires -0.5 <= fill * 10_000.0 - grid * 10_000.0 <= 0.5 && -0.5 <= grid * 1_000_000.0 - p * 1_000_000.0 <= 0.5
    ensures Adverse(fill, price, side, better + 0.000051, worse + 0.000051)
  {
  }
}
