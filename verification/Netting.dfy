/**
 How one fill moves one position row: the arithmetic of `_upsert_position`.

 The documented meaning of a row is its cash: what was realised, plus what the open quantity cost,
 is what the fills paid out.  That holds for every fill history in which no fill is larger than the
 position it opposes; a larger one flips the sign of the row but leaves the old average price on
 it, and the row is then wrong by the flipped quantity times the price difference.
 */
module Netting {
  import opened Prelude

  /** A position row's numbers. */
  datatype Net = Net(quantity: int, average: real, realised: real)

  /** A fill as it reaches the row: a signed, non-zero quantity at a price. */
  datatype Leg = Leg(signed: int, price: real)

  function AbsInt(n: int): nat {
    if n >= 0 then n else -n
  }

  predicate Opposes(n: Net, l: Leg) {
    n.quantity != 0 && ((n.quantity > 0) != (l.signed > 0))
  }

  /** The fill is larger than the position it opposes. */
  predicate Crosses(n: Net, l: Leg) {
    Opposes(n, l) && AbsInt(l.signed) > AbsInt(n.quantity)
  }

  /** `_upsert_position` on an existing row; a new row starts from nothing held. */
  function Apply(row: Option<Net>, l: Leg): Net {
    match row
    case None => Net(l.signed, l.price, 0.0)
    case Some(n) =>
      var quantity := n.quantity + l.signed;
      if Opposes(n, l) then
        var closed := if AbsInt(l.signed) <= AbsInt(n.quantity) then AbsInt(l.signed) else AbsInt(n.quantity);
        var direction := if n.quantity > 0 then 1 else -1;
        Net(quantity, n.average, n.realised + (direction * closed) as real * (l.price - n.average))
      else if quantity != 0 then
        Net(quantity, WeightedMean(n.average, AbsInt(n.quantity), l.price, AbsInt(l.signed)), n.realised)
      else
        Net(quantity, n.average, n.realised)
  }

  function WeightedMean(p: real, m: nat, q: real, n: nat): real
    requires m + n > 0
  {
    (p * m as real + q * n as real) / (m + n) as real
  }

  // ------------------------------------------------------------------ histories

  /** The row after a history of fills, or None before the first. */
  function Position(h: seq<Leg>): Option<Net> {
    if h == [] then None else Some(Apply(Position(h[..|h| - 1]), h[|h| - 1]))
  }

  function Quantity(h: seq<Leg>): int {
    if h == [] then 0 else Quantity(h[..|h| - 1]) + h[|h| - 1].signed
  }

  /** What one fill pays: positive for buying, negative for selling. */
  function Paid(l: Leg): real {
    l.signed as real * l.price
  }

  function Cost(h: seq<Leg>): real {
    if h == [] then 0.0 else Cost(h[..|h| - 1]) + Paid(h[|h| - 1])
  }

  /** What a row says was paid in all: what its open quantity cost, less what was realised. */
  function Claimed(row: Option<Net>): real {
    if row.None? then 0.0 else row.value.quantity as real * row.value.average - row.value.realised
  }

  /** What a crossing fill puts the row wrong by: the flipped quantity, at the price difference. */
  function Excess(row: Option<Net>, l: Leg): real {
    if row.Some? && Crosses(row.value, l)
    then (row.value.quantity + l.signed) as real * (l.price - row.value.average) else 0.0
  }

  function Drift(h: seq<Leg>): real {
    if h == [] then 0.0 else Drift(h[..|h| - 1]) + Excess(Position(h[..|h| - 1]), h[|h| - 1])
  }

  predicate Legs(h: seq<Leg>) {
    forall l :: l in h ==> l.signed != 0
  }

  lemma SameDirection(n: Net, l: Leg)
    requires l.signed != 0 && !Opposes(n, l)
    ensures var a := WeightedMean(n.average, AbsInt(n.quantity), l.price, AbsInt(l.signed));
            (n.quantity + l.signed) as real * a == n.quantity as real * n.average + l.signed as real * l.price
  {
    var m, k := AbsInt(n.quantity), AbsInt(l.signed);
    var sum := n.average * m as real + l.price * k as real;
    assert (m + k) as real * (sum / (m + k) as real) == sum;
  }

  /** One fill: the row's claim follows the cash, up to the excess of a crossing fill. */
  lemma FillMovesCash(row: Option<Net>, l: Leg)
    requires l.signed != 0
    ensures Claimed(Some(Apply(row, l))) == Claimed(row) + Paid(l) - Excess(row, l)
  {
    if row.Some? && !Opposes(row.value, l) {
      SameDirection(row.value, l);
    } else if row.Some? {
      var n := row.value;
      var closed := if AbsInt(l.signed) <= AbsInt(n.quantity) then -l.signed else n.quantity;
      Opposed(n.quantity as real, l.signed as real, closed as real, n.average, l.price);
    }
  }

  /** Closing `closed` of `q` held at `p` with a fill of `s` at `x`. */
  lemma Opposed(q: real, s: real, closed: real, p: real, x: real)
    ensures (q + s) * p - closed * (x - p) == q * p + s * x - (s + closed) * (x - p)
  {
  }

  /** For every fill history: the row's quantity, and its claim up to the drift of crossing fills. */
  lemma {:induction false} RowClaimsItsCash(h: seq<Leg>)
    requires Legs(h)
    ensures Position(h).Some? ==> Position(h).value.quantity == Quantity(h)
    ensures Claimed(Position(h)) == Cost(h) - Drift(h)
  {
    if h != [] {
      var init, l := h[..|h| - 1], h[|h| - 1];
      assert l in h;
      RowClaimsItsCash(init);
      FillMovesCash(Position(init), l);
      FollowsSum(Claimed(Position(h)), Claimed(Position(init)), Paid(l), Excess(Position(init), l),
                 Cost(init), Drift(init));
    }
  }

  lemma FollowsSum(after: real, before: real, paid: real, excess: real, cost: real, drift: real)
    requires after == before + paid - excess && before == cost - drift
    ensures after == (cost + paid) - (drift + excess)
  {
  }

  // ------------------------------------------------------------------ when the claim is right

  /** What a caller can check before applying a fill. */
  predicate Clean(row: Option<Net>, l: Leg) {
    row.Some? && Crosses(row.value, l) ==> l.price == row.value.average
  }

  ghost predicate NeverCrosses(h: seq<Leg>) {
    forall k | 0 <= k < |h| :: Position(h[..k]).Some? ==> !Crosses(Position(h[..k]).value, h[k])
  }

  /** A row that claimed its cash still does after a fill, exactly when the fill is clean. */
  lemma CleanFillExactly(row: Option<Net>, l: Leg)
    requires l.signed != 0
    ensures Claimed(Some(Apply(row, l))) == Claimed(row) + Paid(l) <==> Clean(row, l)
  {
    FillMovesCash(row, l);
    if row.Some? && Crosses(row.value, l) {
      var flipped, d := (row.value.quantity + l.signed) as real, l.price - row.value.average;
      assert flipped != 0.0;
      assert flipped * d == 0.0 <==> d == 0.0;
    }
  }

  /** The row claims its cash after every fill of the history... */
  ghost predicate AlwaysClaims(h: seq<Leg>) {
    Claimed(Position(h)) == Cost(h) && (h != [] ==> AlwaysClaims(h[..|h| - 1]))
  }

  /** ...and every fill of it was clean when it came. */
  ghost predicate AlwaysClean(h: seq<Leg>) {
    h != [] ==> Clean(Position(h[..|h| - 1]), h[|h| - 1]) && AlwaysClean(h[..|h| - 1])
  }

  /** A row claims its cash after every fill of a history exactly when every fill of it is clean. */
  lemma {:induction false} CashThroughoutExactly(h: seq<Leg>)
    requires Legs(h)
    ensures AlwaysClaims(h) <==> AlwaysClean(h)
  {
    if h != [] {
      var init, l := h[..|h| - 1], h[|h| - 1];
      assert l in h;
      CashThroughoutExactly(init);
      CleanFillExactly(Position(init), l);
    }
  }

  /** The row's numbers are those of its fills' cash. */
  ghost predicate IsNetCash(r: Net, h: seq<Leg>) {
    && r.quantity == Quantity(h)
    && r.realised == r.quantity as real * r.average - Cost(h)
    && (r.quantity == 0 ==> r.realised == -Cost(h))
  }

  lemma {:induction false} NeverCrossingIsClean(h: seq<Leg>)
    requires NeverCrosses(h)
    ensures AlwaysClean(h)
  {
    if h != [] {
      var init := h[..|h| - 1];
      assert forall k | 0 <= k < |init| :: init[..k] == h[..k] && init[k] == h[k];
      NeverCrossingIsClean(init);
    }
  }

  lemma ClaimSolved(r: Net, cost: real)
    requires Claimed(Some(r)) == cost
    ensures r.realised == r.quantity as real * r.average - cost
    ensures r.quantity == 0 ==> r.realised == -cost
  {
  }

  /**
   With no fill larger than the position it opposes, including after a close and re-open on the
   same row: the quantity is the sum of the fills, realised P&L is the open quantity at its average
   less the cash paid, and so a closed row's realised P&L is its net cash.
   */
  lemma RealisedIsNetCash(h: seq<Leg>)
    requires Legs(h) && NeverCrosses(h)
    ensures Position(h).Some? ==> IsNetCash(Position(h).value, h)
  {
    RowClaimsItsCash(h);
    NeverCrossingIsClean(h);
    CashThroughoutExactly(h);
    if Position(h).Some? {
      ClaimSolved(Position(h).value, Cost(h));
    }
  }

  lemma PositionAfter(h: seq<Leg>, l: Leg)
    ensures Position(h + [l]) == Some(Apply(Position(h), l))
  {
    assert (h + [l])[..|h|] == h;
  }

  /** Buying 1 at 10, then selling 2 at 12: the flipped row still carries the old average. */
  lemma CrossingLosesCash()
    ensures var h := [Leg(1, 10.0), Leg(-2, 12.0)];
            Position(h) == Some(Net(-1, 10.0, 2.0)) && Claimed(Position(h)) == Cost(h) + 2.0
  {
    var h := [Leg(1, 10.0), Leg(-2, 12.0)];
    assert h[..1] == [Leg(1, 10.0)] && h[..1][..0] == [];
  }

  // ------------------------------------------------------------------ round trips

  /** A row exists and holds nothing. */
  predicate Flat(row: Option<Net>) {
    row.Some? && row.value.quantity == 0
  }

  /** The fill ends what was held: it takes the position back to flat, or past it to the other side. */
  predicate Ends(row: Option<Net>, l: Leg) {
    row.Some? && Opposes(row.value, l) && AbsInt(l.signed) >= AbsInt(row.value.quantity)
  }

  predicate CrossesRow(row: Option<Net>, l: Leg) {
    row.Some? && Crosses(row.value, l)
  }

  /** How often a position was ended, whether its last fill left nothing or opened the next one. */
  function RoundTrips(h: seq<Leg>): nat {
    if h == [] then 0 else RoundTrips(h[..|h| - 1]) + if Ends(Position(h[..|h| - 1]), h[|h| - 1]) then 1 else 0
  }

  /** How many closed rows a contract is: one if its row is flat now. */
  function ClosedRow(h: seq<Leg>): nat {
    if Flat(Position(h)) then 1 else 0
  }

  /** How many fills landed on an existing flat row. */
  function Reentries(h: seq<Leg>): nat {
    if h == [] then 0 else Reentries(h[..|h| - 1]) + if Flat(Position(h[..|h| - 1])) then 1 else 0
  }

  /** How many fills flipped the row. */
  function Crossings(h: seq<Leg>): nat {
    if h == [] then 0 else Crossings(h[..|h| - 1]) + if CrossesRow(Position(h[..|h| - 1]), h[|h| - 1]) then 1 else 0
  }

  /** A fill leaves the row flat exactly when it ends what was held without crossing. */
  lemma FlatAfterExactly(row: Option<Net>, l: Leg)
    requires l.signed != 0
    ensures Flat(Some(Apply(row, l))) <==> Ends(row, l) && !CrossesRow(row, l)
  {
  }

  /** Every round trip either is the closed row, or was re-entered later, or ended in a fill that crossed. */
  lemma {:induction false} RoundTripsSplit(h: seq<Leg>)
    requires Legs(h)
    ensures RoundTrips(h) == ClosedRow(h) + Reentries(h) + Crossings(h)
  {
    if h != [] {
      var init, l := h[..|h| - 1], h[|h| - 1];
      assert l in h;
      RoundTripsSplit(init);
      FlatAfterExactly(Position(init), l);
    }
  }

  /** What a caller can see of each fill before it is applied: no flat row waits for it, and it flips none. */
  predicate StaysOneTrip(row: Option<Net>, l: Leg) {
    !Flat(row) && !CrossesRow(row, l)
  }

  ghost predicate SingleTrip(h: seq<Leg>) {
    forall k | 0 <= k < |h| :: StaysOneTrip(Position(h[..k]), h[k])
  }

  lemma SingleTripStep(h: seq<Leg>)
    requires h != []
    ensures var init := h[..|h| - 1];
            SingleTrip(h) <==> SingleTrip(init) && StaysOneTrip(Position(init), h[|h| - 1])
  {
    var init := h[..|h| - 1];
    assert h[..|init|] == init;
    forall k | 0 <= k < |init|
      ensures init[..k] == h[..k] && init[k] == h[k]
    {
    }
    if SingleTrip(h) {
      assert StaysOneTrip(Position(h[..|init|]), h[|init|]);
      assert forall k | 0 <= k < |init| :: StaysOneTrip(Position(h[..k]), h[k]);
    }
  }

  lemma {:induction false} SingleTripExactly(h: seq<Leg>)
    ensures Reentries(h) + Crossings(h) == 0 <==> SingleTrip(h)
  {
    if h != [] {
      SingleTripExactly(h[..|h| - 1]);
      SingleTripStep(h);
    }
  }

  /**
   For every fill history of a contract, its closed rows never outnumber its round trips, and count
   them exactly if and only if no fill ever landed on its flat row or flipped it.
   */
  lemma ClosedRowsCountRoundTripsExactly(h: seq<Leg>)
    requires Legs(h)
    ensures ClosedRow(h) <= RoundTrips(h)
    ensures ClosedRow(h) == RoundTrips(h) <==> SingleTrip(h)
  {
    RoundTripsSplit(h);
    SingleTripExactly(h);
  }

  /** A contract traded twice is one closed row for two round trips. */
  lemma ReenteredContractIsOneRow(p: real, q: real)
    ensures var h := [Leg(1, p), Leg(-1, q), Leg(1, p), Leg(-1, q)];
            ClosedRow(h) == 1 && RoundTrips(h) == 2
  {
    var h1, h2, h3 := [] + [Leg(1, p)], [Leg(1, p), Leg(-1, q)], [Leg(1, p), Leg(-1, q), Leg(1, p)];
    RoundTripsAfter([], Leg(1, p));
    RoundTripsAfter(h1, Leg(-1, q));
    assert h1 + [Leg(-1, q)] == h2;
    RoundTripsAfter(h2, Leg(1, p));
    assert h2 + [Leg(1, p)] == h3;
    RoundTripsAfter(h3, Leg(-1, q));
    assert h3 + [Leg(-1, q)] == [Leg(1, p), Leg(-1, q), Leg(1, p), Leg(-1, q)];
  }

  /** So is one that reversed through flat: long 1, short 1, flat. */
  lemma ReversedContractIsOneRow(p: real, q: real, r: real)
    ensures var h := [Leg(1, p), Leg(-2, q), Leg(1, r)];
            ClosedRow(h) == 1 && RoundTrips(h) == 2
  {
    var h1, h2 := [] + [Leg(1, p)], [Leg(1, p), Leg(-2, q)];
    RoundTripsAfter([], Leg(1, p));
    RoundTripsAfter(h1, Leg(-2, q));
    assert h1 + [Leg(-2, q)] == h2;
    RoundTripsAfter(h2, Leg(1, r));
    assert h2 + [Leg(1, r)] == [Leg(1, p), Leg(-2, q), Leg(1, r)];
  }

  lemma RoundTripsAfter(h: seq<Leg>, l: Leg)
    ensures Position(h + [l]).Some?
    ensures Position(h + [l]).value.quantity == (if h == [] then 0 else Position(h).value.quantity) + l.signed
    ensures RoundTrips(h + [l]) == RoundTrips(h) + if Ends(Position(h), l) then 1 else 0
  {
    PositionAfter(h, l);
    assert (h + [l])[..|h|] == h;
  }
}
