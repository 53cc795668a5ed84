/** `DailyRiskGuard`: the day-level latch that stops a strategy from trading on. */
module DailyGuard {
  import opened Prelude

  /** Zero or less disables the loss cap and the trade limit; no target disables the profit stop. */
  datatype Limits = Limits(maxLoss: real, target: Option<real>, maxTrades: int, killSwitch: bool)

  datatype Halt = KillSwitch | MaxLoss | LiveLoss | ProfitTarget | TradeLimit

  datatype Guard = Guard(realised: real, count: int, halt: Option<Halt>) {
    predicate Halted() { halt.Some? }
  }

  function Fresh(c: Limits): Guard {
    Guard(0.0, 0, if c.killSwitch then Some(KillSwitch) else None)
  }

  function Evaluate(c: Limits, realised: real, count: int): Option<Halt> {
    if c.maxLoss > 0.0 && realised <= -c.maxLoss then Some(MaxLoss)
    else if c.target.Some? && realised >= c.target.value then Some(ProfitTarget)
    else if c.maxTrades > 0 && count >= c.maxTrades then Some(TradeLimit)
    else None
  }

  function Registered(g: Guard, c: Limits, net: real): Guard {
    if g.Halted() then g
    else Guard(g.realised + net, g.count + 1, Evaluate(c, g.realised + net, g.count + 1))
  }

  function Checked(g: Guard, c: Limits, open: real): Guard {
    if g.Halted() || c.maxLoss <= 0.0 then g
    else if g.realised + open <= -c.maxLoss then g.(halt := Some(LiveLoss)) else g
  }

  function Restored(g: Guard, c: Limits, realised: real, count: int): Guard {
    if g.Halted() then g else Guard(realised, count, Evaluate(c, realised, count))
  }

  // ------------------------------------------------------------------ what the latch means

  /** A trade booked at its net P&L, or a live check of an open position's P&L. */
  datatype Event = Booked(net: real) | Marked(open: real)

  function Next(g: Guard, c: Limits, e: Event): Guard {
    match e
    case Booked(net) => Registered(g, c, net)
    case Marked(open) => Checked(g, c, open)
  }

  function Run(c: Limits, h: seq<Event>): Guard {
    if h == [] then Fresh(c) else Next(Run(c, h[..|h| - 1]), c, h[|h| - 1])
  }

  function Sum(h: seq<Event>): real {
    if h == [] then 0.0 else Sum(h[..|h| - 1]) + if h[|h| - 1].Booked? then h[|h| - 1].net else 0.0
  }

  function Count(h: seq<Event>): nat {
    if h == [] then 0 else Count(h[..|h| - 1]) + if h[|h| - 1].Booked? then 1 else 0
  }

  /** The day's totals are past a limit. */
  predicate Past(c: Limits, realised: real, count: int) {
    || (c.maxLoss > 0.0 && realised <= -c.maxLoss)
    || (c.target.Some? && realised >= c.target.value)
    || (c.maxTrades > 0 && count >= c.maxTrades)
  }

  /** The last event of a non-empty history is one that trips a limit, whatever came before. */
  predicate Trips(c: Limits, h: seq<Event>)
    requires h != []
  {
    match h[|h| - 1]
    case Booked(_) => Past(c, Sum(h), Count(h))
    case Marked(open) => c.maxLoss > 0.0 && Sum(h) + open <= -c.maxLoss
  }

  ghost predicate Tripped(c: Limits, h: seq<Event>) {
    exists k :: 0 < k <= |h| && Trips(c, h[..k])
  }

  lemma TrippedStep(c: Limits, h: seq<Event>)
    requires h != []
    ensures Tripped(c, h) <==> Tripped(c, h[..|h| - 1]) || Trips(c, h)
  {
    var init := h[..|h| - 1];
    assert h[..|h|] == h;
    assert forall k | 0 < k <= |init| :: init[..k] == h[..k];
    if Tripped(c, init) {
      var k :| 0 < k <= |init| && Trips(c, init[..k]);
      assert Trips(c, h[..k]);
    }
  }

  /**
   The guard is halted exactly when the kill switch is set or some moment of the day crossed a limit
   on the day's true totals; until then it holds those totals.
   */
  lemma {:induction false} HaltedExactly(c: Limits, h: seq<Event>)
    ensures Run(c, h).Halted() <==> c.killSwitch || Tripped(c, h)
    ensures !Run(c, h).Halted() ==> Run(c, h).realised == Sum(h) && Run(c, h).count == Count(h)
  {
    if h != [] {
      HaltedExactly(c, h[..|h| - 1]);
      TrippedStep(c, h);
    }
  }

  // ------------------------------------------------------------------ restarts

  /** The guard after further events, wherever it starts from. */
  function From(g: Guard, c: Limits, later: seq<Event>): Guard {
    if later == [] then g else Next(From(g, c, later[..|later| - 1]), c, later[|later| - 1])
  }

  lemma {:induction false} RunGoesOn(c: Limits, h: seq<Event>, later: seq<Event>)
    ensures Run(c, h + later) == From(Run(c, h), c, later)
  {
    if later == [] {
      assert h + later == h;
    } else {
      assert (h + later)[..|h + later| - 1] == h + later[..|later| - 1];
      RunGoesOn(c, h, later[..|later| - 1]);
    }
  }

  lemma {:induction false} HaltStays(g: Guard, c: Limits, later: seq<Event>)
    requires g.Halted()
    ensures From(g, c, later) == g
  {
    if later != [] {
      HaltStays(g, c, later[..|later| - 1]);
    }
  }

  /** The guard of a restarted process, from what recovery reads: the day's gross total and its closed rows. */
  function Restarted(c: Limits, gross: real, rows: nat): Guard {
    Restored(Fresh(c), c, gross, rows)
  }

  /** The next trade is the day's last, whatever it nets. */
  predicate LastTrade(c: Limits, count: int) {
    c.maxTrades > 0 && count + 1 >= c.maxTrades
  }

  /** The recovered totals are the true ones on every limit that can still decide something. */
  predicate SameTotals(c: Limits, net: real, count: int, gross: real, rows: int) {
    && (c.maxTrades > 0 ==> rows == count)
    && (c.maxLoss > 0.0 ==> gross == net)
    && (c.target.Some? && !LastTrade(c, count) ==> gross == net)
  }

  /** No future can tell these guards apart. */
  predicate Alike(c: Limits, g: Guard, r: Guard) {
    && (g.Halted() <==> r.Halted())
    && (!g.Halted() ==> SameTotals(c, g.realised, g.count, r.realised, r.count))
  }

  lemma {:induction false} AlikeStays(c: Limits, g: Guard, r: Guard, later: seq<Event>)
    requires Alike(c, g, r)
    ensures Alike(c, From(g, c, later), From(r, c, later))
  {
    if later != [] {
      AlikeStays(c, g, r, later[..|later| - 1]);
    }
  }

  lemma {:induction false} NoTradeNoTotal(h: seq<Event>)
    requires Count(h) == 0
    ensures Sum(h) == 0.0
  {
    if h != [] {
      NoTradeNoTotal(h[..|h| - 1]);
    }
  }

  lemma {:induction false} PastWasReached(c: Limits, h: seq<Event>)
    requires Past(c, Sum(h), Count(h)) && Count(h) > 0
    ensures Tripped(c, h)
  {
    TrippedStep(c, h);
    if h[|h| - 1].Marked? {
      PastWasReached(c, h[..|h| - 1]);
    }
  }

  /** A running day is inside every limit, unless its target is there to begin with and no trade has met it yet. */
  lemma RunningIsNotPast(c: Limits, h: seq<Event>)
    requires !Run(c, h).Halted()
    ensures Run(c, h) == Guard(Sum(h), Count(h), None)
    ensures Past(c, Sum(h), Count(h)) <==> Count(h) == 0 && c.target.Some? && c.target.value <= 0.0
    ensures Count(h) == 0 ==> Sum(h) == 0.0
  {
    HaltedExactly(c, h);
    if Count(h) == 0 {
      NoTradeNoTotal(h);
    } else if Past(c, Sum(h), Count(h)) {
      PastWasReached(c, h);
    }
  }

  // ------------------------------------------------------------------ telling two running guards apart

  function Trades(n: nat): seq<Event> {
    seq(n, i requires 0 <= i < n => Booked(0.0))
  }

  /** Trades that net nothing can only reach the trade limit. */
  lemma {:induction false} FlatTrades(c: Limits, g: Guard, n: nat)
    requires !g.Halted() && !Past(c, g.realised, g.count)
    ensures var t := From(g, c, Trades(n));
            && (t.Halted() <==> c.maxTrades > 0 && g.count + n >= c.maxTrades)
            && (!t.Halted() ==> t.realised == g.realised && t.count == g.count + n)
  {
    if n > 0 {
      assert Trades(n)[..n - 1] == Trades(n - 1);
      FlatTrades(c, g, n - 1);
    }
  }

  lemma OneEvent(c: Limits, g: Guard, e: Event)
    ensures From(g, c, [e]) == Next(g, c, e)
  {
    assert From(g, c, [e][..0]) == g;
  }

  /** Counts apart, with a target the first guard has met before its first trade: any trade short of the target tells. */
  lemma SeparatedByTheFirst(c: Limits, g: Guard, r: Guard) returns (later: seq<Event>)
    requires !g.Halted() && !r.Halted() && !Past(c, r.realised, r.count)
    requires g.realised == 0.0 && g.count == 0 && c.target.Some? && c.target.value <= 0.0
    requires c.maxLoss <= 0.0 && c.maxTrades > 0 && r.count > 0
    ensures From(g, c, later).Halted() != From(r, c, later).Halted()
  {
    later := [Booked(if LastTrade(c, r.count) then c.target.value - 1.0 else 0.0)];
    OneEvent(c, g, later[0]);
    OneEvent(c, r, later[0]);
  }

  /** Events after which one of the guards has halted and the other has not. */
  lemma Separated(c: Limits, g: Guard, r: Guard) returns (later: seq<Event>)
    requires !g.Halted() && !r.Halted() && !Past(c, r.realised, r.count) && r.count >= 0
    requires Past(c, g.realised, g.count) ==> g.realised == 0.0 && g.count == 0 && c.target.Some? && c.target.value <= 0.0
    requires !SameTotals(c, g.realised, g.count, r.realised, r.count)
    ensures From(g, c, later).Halted() != From(r, c, later).Halted()
  {
    if c.maxLoss > 0.0 && g.realised != r.realised {
      later := [Marked(-c.maxLoss - Min(g.realised, r.realised))];
      OneEvent(c, g, later[0]);
      OneEvent(c, r, later[0]);
    } else if c.maxTrades > 0 && g.count != r.count {
      if Past(c, g.realised, g.count) {
        later := SeparatedByTheFirst(c, g, r);
      } else {
        var n := c.maxTrades - if g.count > r.count then g.count else r.count;
        later := Trades(n);
        FlatTrades(c, g, n);
        FlatTrades(c, r, n);
      }
    } else {
      later := [Booked(c.target.value - Max(g.realised, r.realised))];
      OneEvent(c, g, later[0]);
      OneEvent(c, r, later[0]);
    }
  }

  // ------------------------------------------------------------------ the restart

  /** What recovery must have read for the restart to go unnoticed. */
  predicate GoesUnnoticed(c: Limits, halted: bool, net: real, count: int, gross: real, rows: int) {
    || c.killSwitch
    || (halted && Past(c, gross, rows))
    || (!halted && !Past(c, gross, rows) && SameTotals(c, net, count, gross, rows))
  }

  /**
   A restart goes unnoticed, whatever follows, if and only if the kill switch is set, or the day was
   halted and the recovered totals are past a limit, or it was not, they are not, and they are the
   true totals on every limit that can still decide something.
   */
  lemma RestartIsUnnoticedExactly(c: Limits, h: seq<Event>, gross: real, rows: nat)
    ensures (forall later :: From(Restarted(c, gross, rows), c, later).Halted() == Run(c, h + later).Halted()) <==>
            GoesUnnoticed(c, Tripped(c, h), Sum(h), Count(h), gross, rows)
  {
    HaltedExactly(c, h);
    var g, r := Run(c, h), Restarted(c, gross, rows);
    if GoesUnnoticed(c, Tripped(c, h), Sum(h), Count(h), gross, rows) {
      forall later ensures From(r, c, later).Halted() == Run(c, h + later).Halted() {
        RunGoesOn(c, h, later);
        AlikeStays(c, g, r, later);
      }
    } else {
      var later := [];
      if !g.Halted() && !r.Halted() {
        RunningIsNotPast(c, h);
        later := Separated(c, g, r);
      }
      RunGoesOn(c, h, later);
      assert From(r, c, later).Halted() != Run(c, h + later).Halted();
    }
  }

  /** On the day's last trade a profit target can decide nothing, so a wrong total can go unnoticed. */
  lemma LastTradeHidesTheTotal(gross: real, later: seq<Event>)
    requires gross < 100.0
    ensures var c := Limits(0.0, Some(100.0), 1, false);
            From(Restarted(c, gross, 0), c, later).Halted() == Run(c, [] + later).Halted()
  {
    RestartIsUnnoticedExactly(Limits(0.0, Some(100.0), 1, false), [], gross, 0);
  }

  /**
   With charges never negative and rows never more than trades, a restart from the gross total halts a
   running day if and only if the charges carry it to its profit target, which after a trade it is short of.
   */
  lemma GrossRestoreInventsExactly(c: Limits, h: seq<Event>, charges: real, rows: nat)
    requires charges >= 0.0 && rows <= Count(h) && !Run(c, h).Halted()
    ensures Restarted(c, Sum(h) + charges, rows).Halted() <==> c.target.Some? && c.target.value <= Sum(h) + charges
    ensures c.target.Some? && Count(h) > 0 ==> Sum(h) < c.target.value
  {
    RunningIsNotPast(c, h);
    HaltedExactly(c, h);
  }

  /** A target of zero waits for the first trade, but any restart before that trade halts the day. */
  lemma EmptyRestartHalts()
    ensures var c := Limits(0.0, Some(0.0), 0, false); !Run(c, []).Halted() && Restarted(c, 0.0, 0).Halted()
  {
    GrossRestoreInventsExactly(Limits(0.0, Some(0.0), 0, false), [], 0.0, 0);
  }

  // ------------------------------------------------------------------ each way it fails

  lemma RunOne(c: Limits, h: seq<Event>, e: Event)
    ensures Run(c, h + [e]) == Next(Run(c, h), c, e)
  {
    assert (h + [e])[..|h|] == h;
  }

  /** A position 100 under water trips a cap of 100, recovers, and closes at a loss of 40: the halt is forgotten. */
  lemma LiveHaltIsForgotten()
    ensures var c, h := Limits(100.0, None, 0, false), [] + [Marked(-100.0)] + [Booked(-40.0)];
            Run(c, h).Halted() && !Restarted(c, -40.0, 1).Halted()
  {
    var c := Limits(100.0, None, 0, false);
    RunOne(c, [], Marked(-100.0));
    RunOne(c, [] + [Marked(-100.0)], Booked(-40.0));
  }

  /** A net loss of 100 halts a cap of 100; at 10 in charges the gross total is 90, and the halt is lost. */
  lemma GrossLosesALossHalt()
    ensures var c := Limits(100.0, None, 0, false);
            Run(c, [] + [Booked(-100.0)]).Halted() && !Restarted(c, -100.0 + 10.0, 1).Halted()
  {
    RunOne(Limits(100.0, None, 0, false), [], Booked(-100.0));
  }

  /** A net profit of 95 is short of a target of 100; gross it is past it, and a halt is invented. */
  lemma GrossInventsAProfitHalt()
    ensures var c := Limits(0.0, Some(100.0), 0, false);
            !Run(c, [] + [Booked(95.0)]).Halted() && Restarted(c, 95.0 + 10.0, 1).Halted()
  {
    RunOne(Limits(0.0, Some(100.0), 0, false), [], Booked(95.0));
  }

  /** Two trades on one contract are one closed row, and a limit of two trades is forgotten. */
  lemma RowsLoseATradeHalt()
    ensures var c := Limits(0.0, None, 2, false);
            Run(c, [] + [Booked(0.0)] + [Booked(0.0)]).Halted() && !Restarted(c, 0.0, 1).Halted()
  {
    var c := Limits(0.0, None, 2, false);
    RunOne(c, [], Booked(0.0));
    RunOne(c, [] + [Booked(0.0)], Booked(0.0));
  }

  /** Neither halted, the same next trade: a net 50 down halts at 50 more, a gross 40 down trades on. */
  lemma GrossHaltsLate()
    ensures var c := Limits(100.0, None, 0, false);
            && !Run(c, [] + [Booked(-50.0)]).Halted() && !Restarted(c, -50.0 + 10.0, 1).Halted()
            && Run(c, [] + [Booked(-50.0)] + [Booked(-50.0)]).Halted()
            && !From(Restarted(c, -50.0 + 10.0, 1), c, [Booked(-50.0)]).Halted()
  {
    var c := Limits(100.0, None, 0, false);
    RunOne(c, [], Booked(-50.0));
    RunOne(c, [] + [Booked(-50.0)], Booked(-50.0));
    OneEvent(c, Restarted(c, -50.0 + 10.0, 1), Booked(-50.0));
  }

  // ------------------------------------------------------------------ the object

  class DailyRiskGuard {
    const limits: Limits
    var realised: real
    var count: int
    var halt: Option<Halt>

    function View(): Guard
      reads this
    {
      Guard(realised, count, halt)
    }

    constructor (c: Limits)
      ensures limits == c && View() == Fresh(c)
    {
      limits := c;
      realised, count := 0.0, 0;
      halt := if c.killSwitch then Some(KillSwitch) else None;
    }

    method Reset()
      modifies this
      ensures View() == Fresh(limits)
    {
      realised, count := 0.0, 0;
      halt := if limits.killSwitch then Some(KillSwitch) else None;
    }

    /** Each of the three returns a reason exactly when this very call latched it. */
    method RegisterTrade(net: real) returns (reason: Option<Halt>)
      modifies this
      ensures View() == Registered(old(View()), limits, net)
      ensures reason == if old(halt).Some? then None else halt
    {
      if halt.Some? {
        return None;
      }
      realised := realised + net;
      count := count + 1;
      halt := Evaluate(limits, realised, count);
      reason := halt;
    }

    method CheckOpenMtm(open: real) returns (reason: Option<Halt>)
      modifies this
      ensures View() == Checked(old(View()), limits, open)
      ensures reason == if old(halt).Some? then None else halt
    {
      if halt.Some? || limits.maxLoss <= 0.0 {
        return None;
      }
      var total := realised + open;
      if total <= -limits.maxLoss {
        halt := Some(LiveLoss);
      }
      reason := halt;
    }

    method Restore(recovered: real, trades: int) returns (reason: Option<Halt>)
      modifies this
      ensures View() == Restored(old(View()), limits, recovered, trades)
      ensures reason == if old(halt).Some? then None else halt
    {
      if halt.Some? {
        return None;
      }
      realised, count := recovered, trades;
      halt := Evaluate(limits, realised, count);
      reason := halt;
    }
  }
}
