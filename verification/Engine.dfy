/**
 `TradingEngine`: pending entries, the open position, the entry-block and daily-halt latches, and
 the contract whose premium candles are tracked, moved by ticks.

 What a tick cannot decide by itself is part of its surroundings: the clock's answers, the bars the
 builders complete, what the strategy and the risk manager say, and which legs the gateway fills.

 `run()` is part of the machine: a tick that raises ends the feed, and so does a completed square-off;
 a raise is followed by a forced square-off, and every ending by the requested one, if any.
 */
module Engine {
  import opened Prelude
  import Book
  import DailyGuard

  datatype Setup = Setup(underlying: string, lots: int, premium: bool, limits: Option<DailyGuard.Limits>)

  datatype Tick = Tick(security: string, price: real, time: int)

  datatype Bar = NoBar | GapBar | WholeBar

  datatype Signal = Exit | Enter(optionType: Option<OptionType>, side: Side)

  /** Legs absent from `legs` raise at the gateway. */
  datatype World = World(
    due: bool, sessionOpen: bool, canEnter: bool,
    bar: Bar, signal: Option<Signal>, selected: Book.Contract,
    riskExit: bool, tickExit: bool, premiumBar: bool, premiumExit: bool,
    legs: map<string, Book.Outcome>)

  datatype Pending = Pending(contract: Book.Contract, side: Side)

  /** Where `run()` is: in the feed, at the forced square-off, at the `finally`, or past it. */
  datatype Phase = Running | Raised | Ending | Over

  datatype State = State(
    book: Book.Shelf, guard: Option<DailyGuard.Guard>,
    pending: Option<Pending>, blocked: bool, squaredOff: bool, requested: bool,
    tracked: Option<string>, watermark: Option<int>, spot: Option<real>, phase: Phase)
  {
    predicate Halted() { guard.Some? && guard.value.Halted() }

    predicate Flat() { book.held == map[] }

    predicate Holds(id: string) { id in book.held }
  }

  // ------------------------------------------------------------------ legs

  /** `_current_position`; the book never holds two, so there is nothing to choose. */
  ghost function Current(b: Book.Shelf): (id: string)
    requires b.held != map[]
    ensures id in b.held
  {
    assert b.held.Keys != {};
    var id :| id in b.held;
    id
  }

  function Register(s: Setup, g: Option<DailyGuard.Guard>, net: real): Option<DailyGuard.Guard> {
    if g.Some? && s.limits.Some? then Some(DailyGuard.Registered(g.value, s.limits.value, net)) else g
  }

  /** `_close` when the gateway fills. */
  function Closed(v: State, s: Setup, id: string, result: Book.Outcome): State
    requires v.Holds(id)
  {
    var trade := Book.TradeOf(v.book.held[id], Book.EntryCharges(v.book, id), result);
    v.(book := Book.Left(v.book, id, Some(result)), guard := Register(s, v.guard, trade.NetPnl()),
       tracked := if s.premium then None else v.tracked)
  }

  /** `_close`, raising or not. */
  function Close(v: State, s: Setup, id: string, w: World): State
    requires v.Holds(id)
  {
    if id in w.legs then Closed(v, s, id, w.legs[id]) else v
  }

  /** `_open` of the pending entry; when the gateway raises the entry stays pending. */
  function Open(v: State, s: Setup, tick: Tick, w: World): State
    requires v.pending.Some?
  {
    var contract := v.pending.value.contract;
    if contract.security !in w.legs || v.Holds(contract.security) then v
    else
      var o := Book.Order(contract, v.pending.value.side, s.lots, tick.time, None, None);
      v.(book := Book.Entered(v.book, o, Some(w.legs[contract.security])), pending := None,
         tracked := if s.premium then Some(contract.security) else v.tracked)
  }

  // ------------------------------------------------------------------ ticks

  function Mtm(v: State, s: Setup, pnl: real): Option<DailyGuard.Guard> {
    if v.guard.Some? && s.limits.Some? then Some(DailyGuard.Checked(v.guard.value, s.limits.value, pnl)) else v.guard
  }

  predicate Replayed(v: State, ts: int) {
    v.watermark.Some? && ts <= v.watermark.value
  }

  predicate PremiumExit(v: State, s: Setup, tick: Tick, w: World) {
    s.premium && v.tracked == Some(tick.security) && w.premiumBar && !Replayed(v, tick.time) && w.premiumExit
  }

  function OnHeldTick(v: State, s: Setup, tick: Tick, w: World): State
    requires v.Holds(tick.security)
  {
    var marked := v.(book := Book.Priced(v.book, tick.security, tick.price));
    if w.riskExit || w.tickExit then Close(marked, s, tick.security, w)
    else
      var checked := marked.(guard := Mtm(marked, s, marked.book.held[tick.security].UnrealisedPnl()));
      if checked.Halted() && !v.Halted() then Close(checked, s, tick.security, w)
      else if PremiumExit(v, s, tick, w) then Close(checked, s, tick.security, w)
      else checked
  }

  function OnOptionTick(v: State, s: Setup, tick: Tick, w: World): State {
    if v.Holds(tick.security) then OnHeldTick(v, s, tick, w)
    else if v.pending.Some? && v.Flat() && tick.security == v.pending.value.contract.security then
      if w.canEnter then Open(v, s, tick, w) else v.(pending := None)
    else v
  }

  function Queue(v: State, w: World, signal: Signal): State
    requires signal.Enter?
  {
    if v.blocked || v.Halted() || v.spot.None? || signal.optionType.None? then v
    else v.(pending := Some(Pending(w.selected, signal.side)))
  }

  predicate SameLeg(h: Book.Holding, signal: Signal)
    requires signal.Enter?
  {
    Some(h.contract.optionType) == signal.optionType && h.side == signal.side
  }

  ghost function OnCandleClose(v: State, s: Setup, ts: int, w: World): State {
    if Replayed(v, ts) || w.signal.None? then v
    else if w.signal.value.Exit? then
      if v.Flat() then v else Close(v, s, Current(v.book), w)
    else if v.Flat() then
      if w.canEnter then Queue(v, w, w.signal.value) else v
    else
      var id := Current(v.book);
      if SameLeg(v.book.held[id], w.signal.value) || id !in w.legs then v
      else
        var out := Closed(v, s, id, w.legs[id]);
        if w.canEnter then Queue(out, w, w.signal.value) else out
  }

  ghost function OnUnderlyingTick(v: State, s: Setup, tick: Tick, w: World): State {
    var seen := v.(spot := Some(tick.price));
    if w.sessionOpen && w.bar.WholeBar? then OnCandleClose(seen, s, tick.time, w) else seen
  }

  /** A square-off that completes also stops the feed. */
  function Completed(v: State): State {
    v.(squaredOff := true, phase := if v.phase.Running? then Ending else v.phase)
  }

  /** The closes of `_handle_square_off`, up to the first that raises. */
  ghost function CloseAll(v: State, s: Setup, w: World): State
    decreases |v.book.held|
  {
    if v.Flat() then Completed(v)
    else
      var id := Current(v.book);
      if id !in w.legs then v
      else
        assert |v.book.held - {id}| < |v.book.held| by { Fewer(v.book.held, id); }
        CloseAll(Closed(v, s, id, w.legs[id]), s, w)
  }

  lemma Fewer<V>(m: map<string, V>, id: string)
    requires id in m
    ensures |m - {id}| == |m| - 1
  {
    assert (m - {id}).Keys == m.Keys - {id};
    assert |m.Keys| == |m| && |(m - {id}).Keys| == |m - {id}|;
  }

  ghost function SquareOff(v: State, s: Setup, w: World): State {
    if v.squaredOff then v else CloseAll(v, s, w)
  }

  /** The tick reaches the trading logic: no shutdown requested, no square-off due. */
  predicate Routed(v: State, w: World) {
    !v.requested && !w.due
  }

  ghost function OnTick(v: State, s: Setup, tick: Tick, w: World): State {
    if !Routed(v, w) then SquareOff(v, s, w)
    else if tick.security == s.underlying then OnUnderlyingTick(v, s, tick, w)
    else OnOptionTick(v, s, tick, w)
  }

  // ------------------------------------------------------------------ what asks, and what raises

  /** The guard's live check halts the day at this tick of the held contract. */
  predicate Trips(v: State, s: Setup, tick: Tick)
    requires v.Holds(tick.security)
  {
    var pnl := v.book.held[tick.security].Marked(tick.price).UnrealisedPnl();
    s.limits.Some? && v.guard.Some? && !v.Halted() && DailyGuard.Checked(v.guard.value, s.limits.value, pnl).Halted()
  }

  /** A tick of the held contract asks for its exit. */
  predicate HeldAsks(v: State, s: Setup, tick: Tick, w: World)
    requires v.Holds(tick.security)
  {
    w.riskExit || w.tickExit || Trips(v, s, tick) || PremiumExit(v, s, tick, w)
  }

  /** A closed candle asks for the position's exit: its signal exits it or enters another leg. */
  predicate CandleAsks(v: State, ts: int, w: World, id: string)
    requires v.Holds(id)
  {
    !Replayed(v, ts) && w.signal.Some? && (w.signal.value.Enter? ==> !SameLeg(v.book.held[id], w.signal.value))
  }

  /** The tick tries a leg that the gateway does not fill; the error leaves the tick handler. */
  ghost predicate Raises(v: State, s: Setup, tick: Tick, w: World) {
    if !Routed(v, w) then !v.squaredOff && !v.Flat() && Current(v.book) !in w.legs
    else if tick.security == s.underlying then
      && w.sessionOpen && w.bar.WholeBar? && !v.Flat()
      && CandleAsks(v, tick.time, w, Current(v.book)) && Current(v.book) !in w.legs
    else if v.Holds(tick.security) then HeldAsks(v, s, tick, w) && tick.security !in w.legs
    else
      && v.pending.Some? && v.Flat() && tick.security == v.pending.value.contract.security
      && w.canEnter && tick.security !in w.legs
  }

  // ------------------------------------------------------------------ runs

  datatype Event =
    | Ticked(tick: Tick, world: World)
    | FeedEnds                  // the feed returns: idle, exhausted, or told to
    | FeedRaises                // an exception from the feed itself
    | Forcing(world: World)     // the square-off in `run()`'s handlers
    | Finishing(world: World)   // its `finally`
    | Blocking
    | Requesting

  /** One tick, handed over by a running feed. */
  ghost function Emitted(v: State, s: Setup, tick: Tick, w: World): State {
    var t := OnTick(v, s, tick, w);
    if Raises(v, s, tick, w) then t.(phase := Raised) else t
  }

  /** An event that does not belong to the phase does not happen; other threads may block and request at any time. */
  ghost function Next(v: State, s: Setup, e: Event): State {
    match e
    case Ticked(tick, w) => if v.phase.Running? then Emitted(v, s, tick, w) else v
    case FeedEnds => if v.phase.Running? then v.(phase := Ending) else v
    case FeedRaises => if v.phase.Running? then v.(phase := Raised) else v
    case Forcing(w) => if v.phase.Raised? then SquareOff(v, s, w).(phase := Ending) else v
    case Finishing(w) =>
      if v.phase.Ending? then (if v.requested then SquareOff(v, s, w) else v).(phase := Over) else v
    case Blocking => v.(blocked := true)
    case Requesting => v.(requested := true)
  }

  ghost function Run(v: State, s: Setup, events: seq<Event>): State {
    if events == [] then v else Next(Run(v, s, events[..|events| - 1]), s, events[|events| - 1])
  }

  // ------------------------------------------------------------------ the start of a day

  /** A recovery provider: absent or with nothing to say, raising, or with something found. */
  datatype Recovery<T> = Nothing | Failed | Found(value: T)

  datatype Carried = Carried(holding: Book.Holding, charges: real, last: Option<real>, watermark: Option<int>)

  function GuardAtStart(s: Setup, risk: Recovery<(real, int)>): Option<DailyGuard.Guard> {
    match s.limits
    case None => None
    case Some(c) =>
      Some(if risk.Found? then DailyGuard.Restored(DailyGuard.Fresh(c), c, risk.value.0, risk.value.1)
           else DailyGuard.Fresh(c))
  }

  /** `_start_day` of a process that holds nothing yet. */
  function StartDay(s: Setup, risk: Recovery<(real, int)>, position: Recovery<Carried>): State {
    var empty := Book.Shelf(map[], map[], []);
    var blank := State(empty, GuardAtStart(s, risk), None, position.Failed? || (s.limits.Some? && risk.Failed?),
                       false, false, None, None, None, Running);
    if !position.Found? then blank
    else
      var c := position.value;
      blank.(book := Book.Adopted(empty, c.holding, c.charges, c.last),
             tracked := if s.premium then Some(c.holding.contract.security) else None,
             watermark := c.watermark)
  }

  // ------------------------------------------------------------------ the invariant

  ghost predicate Only(b: Book.Shelf, id: string) {
    b.held.Keys == {id} && b.held[id].contract.security == id
  }

  /** At most one position, entered under its own contract. */
  ghost predicate AtMostOne(b: Book.Shelf) {
    b.held == map[] || exists id :: Only(b, id)
  }

  ghost predicate Inv(v: State, s: Setup) {
    && AtMostOne(v.book)
    && (v.pending.Some? ==> v.Flat() && !v.Halted())
    && (if s.premium && !v.Flat() then v.tracked.Some? && Only(v.book, v.tracked.value) else v.tracked.None?)
    && (v.guard.Some? <==> s.limits.Some?)
    && (v.squaredOff ==> v.Flat() && !v.phase.Running?)
  }

  /**
   How a day starts: running, with nothing pending, requested or squared off; blocked exactly when recovery
   that mattered failed; holding the recovered position, tracked for premium candles where they are used.
   */
  lemma DayStarts(s: Setup, risk: Recovery<(real, int)>, position: Recovery<Carried>)
    ensures var v := StartDay(s, risk, position);
            && v.phase == Running && v.pending == None && !v.requested && !v.squaredOff && v.spot == None && v.book.trades == []
            && (v.blocked <==> position == Failed || (s.limits != None && risk == Failed))
            && (match position
                case Found(c) =>
                  var id := c.holding.contract.security;
                  && v.book.held.Keys == {id} && v.book.held[id].contract == c.holding.contract
                  && v.book.held[id].side == c.holding.side && v.book.held[id].lots == c.holding.lots
                  && v.book.held[id].entry == c.holding.entry && v.book.entryCharges == map[id := c.charges]
                  && v.watermark == c.watermark && v.tracked == (if s.premium then Some(id) else None)
                case _ => v.book.held == map[] && v.book.entryCharges == map[] && v.watermark == None && v.tracked == None)
            && (match s.limits
                case Some(c) =>
                  && v.guard.Some?
                  && (!c.killSwitch ==>
                        if risk.Found? then v.guard.value.realised == risk.value.0 && v.guard.value.count == risk.value.1
                        else v.guard.value == DailyGuard.Guard(0.0, 0, None))
                case None => v.guard == None)
  {
  }

  lemma StartKeepsInv(s: Setup, risk: Recovery<(real, int)>, position: Recovery<Carried>)
    ensures Inv(StartDay(s, risk, position), s)
  {
    if position.Found? {
      assert Only(StartDay(s, risk, position).book, position.value.holding.contract.security);
    }
  }

  lemma CloseKeepsInv(v: State, s: Setup, id: string, w: World)
    requires Inv(v, s) && v.Holds(id)
    ensures Inv(Close(v, s, id, w), s)
    ensures id in w.legs ==> Close(v, s, id, w).Flat()
  {
    var one :| Only(v.book, one);
    assert v.book.held - {id} == map[];
  }

  lemma CurrentIsTheOne(v: State, s: Setup)
    requires Inv(v, s) && !v.Flat()
    ensures Only(v.book, Current(v.book))
  {
    var one :| Only(v.book, one);
    assert Current(v.book) in v.book.held.Keys;
  }

  lemma SquareOffKeepsInv(v: State, s: Setup, w: World)
    requires Inv(v, s)
    ensures Inv(SquareOff(v, s, w), s)
    ensures SquareOff(v, s, w).squaredOff ==> SquareOff(v, s, w).Flat()
    ensures SquareOff(v, s, w).book.held == v.book.held || SquareOff(v, s, w).Flat()
    ensures SquareOff(v, s, w).phase == v.phase || (v.phase.Running? && SquareOff(v, s, w).phase.Ending?)
  {
    if !v.squaredOff && !v.Flat() {
      CloseKeepsInv(v, s, Current(v.book), w);
      if Current(v.book) in w.legs {
        var out := Closed(v, s, Current(v.book), w.legs[Current(v.book)]);
        assert CloseAll(out, s, w) == Completed(out);
      }
    }
  }

  lemma HeldTickKeepsInv(v: State, s: Setup, tick: Tick, w: World)
    requires Inv(v, s) && v.Holds(tick.security)
    ensures Inv(OnHeldTick(v, s, tick, w), s)
    ensures OnHeldTick(v, s, tick, w).book.held.Keys <= v.book.held.Keys
  {
    var marked := v.(book := Book.Priced(v.book, tick.security, tick.price));
    var checked := marked.(guard := Mtm(marked, s, marked.book.held[tick.security].UnrealisedPnl()));
    var one :| Only(v.book, one);
    assert one == tick.security by { assert tick.security in v.book.held.Keys; }
    assert Only(marked.book, one) by { assert marked.book.held.Keys == {one}; }
    assert Inv(marked, s) && Inv(checked, s);
    CloseKeepsInv(marked, s, tick.security, w);
    CloseKeepsInv(checked, s, tick.security, w);
  }

  lemma OptionTickKeepsInv(v: State, s: Setup, tick: Tick, w: World)
    requires Inv(v, s) && !v.squaredOff
    ensures Inv(OnOptionTick(v, s, tick, w), s)
  {
    if v.Holds(tick.security) {
      HeldTickKeepsInv(v, s, tick, w);
    } else if v.pending.Some? {
      var t := Open(v, s, tick, w);
      if t != v {
        assert Only(t.book, v.pending.value.contract.security);
      }
    }
  }

  lemma CandleCloseKeepsInv(v: State, s: Setup, ts: int, w: World)
    requires Inv(v, s)
    ensures Inv(OnCandleClose(v, s, ts, w), s)
    ensures OnCandleClose(v, s, ts, w).book.held == v.book.held || OnCandleClose(v, s, ts, w).Flat()
  {
    if !v.Flat() {
      CloseKeepsInv(v, s, Current(v.book), w);
    }
  }

  lemma TickKeepsPhase(v: State, s: Setup, tick: Tick, w: World)
    requires Inv(v, s) && v.phase.Running?
    ensures OnTick(v, s, tick, w).phase.Running? || OnTick(v, s, tick, w).phase.Ending?
  {
    SquareOffKeepsInv(v, s, w);
  }

  lemma TickKeepsInv(v: State, s: Setup, tick: Tick, w: World)
    requires Inv(v, s) && v.phase.Running?
    ensures Inv(OnTick(v, s, tick, w), s)
  {
    if !Routed(v, w) {
      SquareOffKeepsInv(v, s, w);
    } else if tick.security == s.underlying {
      CandleCloseKeepsInv(v.(spot := Some(tick.price)), s, tick.time, w);
    } else {
      OptionTickKeepsInv(v, s, tick, w);
    }
  }

  lemma StepKeepsInv(v: State, s: Setup, e: Event)
    requires Inv(v, s)
    ensures Inv(Next(v, s, e), s)
  {
    match e
    case Ticked(tick, w) =>
      if v.phase.Running? {
        TickKeepsInv(v, s, tick, w);
        assert Emitted(v, s, tick, w).squaredOff == OnTick(v, s, tick, w).squaredOff;
      }
    case Forcing(w) => SquareOffKeepsInv(v, s, w);
    case Finishing(w) => SquareOffKeepsInv(v, s, w);
    case _ =>
  }

  /**
   After every event of every run, however it started: at most one position is open, a pending entry
   means the book is flat and the day not halted, premium candles track exactly the open contract, and
   once squared off the book is empty and the feed has ended.
   */
  lemma {:induction false} DayKeepsInv(v: State, s: Setup, events: seq<Event>)
    requires Inv(v, s)
    ensures Inv(Run(v, s, events), s)
  {
    if events != [] {
      DayKeepsInv(v, s, events[..|events| - 1]);
      StepKeepsInv(Run(v, s, events[..|events| - 1]), s, events[|events| - 1]);
    }
  }

  lemma RunStep(v: State, s: Setup, events: seq<Event>, e: Event)
    ensures Run(v, s, events + [e]) == Next(Run(v, s, events), s, e)
  {
    assert (events + [e])[..|events|] == events;
  }

  // ------------------------------------------------------------------ what opens a position

  ghost predicate Opens(v: State, t: State) {
    !(t.book.held.Keys <= v.book.held.Keys)
  }

  /** This tick fills the pending entry. */
  predicate Fills(v: State, s: Setup, tick: Tick, w: World) {
    && v.phase.Running? && Routed(v, w) && tick.security != s.underlying && v.pending.Some?
    && tick.security == v.pending.value.contract.security && w.canEnter && tick.security in w.legs
  }

  /** The pending entry is the whole book. */
  ghost predicate Entered(v: State, s: Setup, p: Pending) {
    && v.pending.None? && Only(v.book, p.contract.security)
    && v.book.held[p.contract.security].contract == p.contract
    && v.book.held[p.contract.security].side == p.side
    && v.book.held[p.contract.security].lots == s.lots
  }

  lemma TickOpensExactly(v: State, s: Setup, tick: Tick, w: World)
    requires Inv(v, s) && v.phase.Running?
    ensures Opens(v, OnTick(v, s, tick, w)) <==> Fills(v, s, tick, w)
    ensures Opens(v, OnTick(v, s, tick, w)) ==> v.Flat() && Entered(OnTick(v, s, tick, w), s, v.pending.value)
  {
    if !Routed(v, w) {
      SquareOffKeepsInv(v, s, w);
    } else if tick.security == s.underlying {
      CandleCloseKeepsInv(v.(spot := Some(tick.price)), s, tick.time, w);
    } else if v.Holds(tick.security) {
      HeldTickKeepsInv(v, s, tick, w);
    } else {
      var t := OnTick(v, s, tick, w);
      assert Opens(v, t) ==> t == Open(v, s, tick, w);
      if Fills(v, s, tick, w) {
        assert tick.security in t.book.held.Keys;
      }
    }
  }

  /**
   A position opens exactly on a routed tick of the pending contract inside the entry window that
   the gateway fills while the feed runs; nothing else, no latch and no candle, ever opens one.
   */
  lemma OpensExactly(v: State, s: Setup, e: Event)
    requires Inv(v, s)
    ensures Opens(v, Next(v, s, e)) <==> e.Ticked? && Fills(v, s, e.tick, e.world)
    ensures Opens(v, Next(v, s, e)) ==> v.Flat() && Entered(Next(v, s, e), s, v.pending.value)
  {
    match e
    case Ticked(tick, w) =>
      if v.phase.Running? {
        TickOpensExactly(v, s, tick, w);
      }
    case Forcing(w) => SquareOffKeepsInv(v, s, w);
    case Finishing(w) => SquareOffKeepsInv(v, s, w);
    case _ =>
  }

  // ------------------------------------------------------------------ what is pending

  /** The signal to enter names an option kind, and nothing is held but other legs that the gateway closes. */
  ghost predicate MakesRoom(v: State, w: World)
    requires w.signal.Some? && w.signal.value.Enter?
  {
    && w.signal.value.optionType.Some?
    && forall id | id in v.book.held ::
         && id in w.legs
         && (v.book.held[id].contract.optionType != w.signal.value.optionType.value || v.book.held[id].side != w.signal.value.side)
  }

  /** A candle not seen before signals an entry within the window, on a day neither blocked nor halted by then. */
  ghost predicate CandleQueues(v: State, t: State, ts: int, w: World) {
    && (v.watermark.None? || v.watermark.value < ts) && w.signal.Some? && w.signal.value.Enter? && w.canEnter
    && MakesRoom(v, w) && !v.blocked && !t.Halted()
  }

  /** The tick closes such a candle. */
  ghost predicate Queues(v: State, s: Setup, e: Event) {
    && e.Ticked? && v.phase.Running? && !v.requested && !e.world.due && e.tick.security == s.underlying
    && e.world.sessionOpen && e.world.bar == WholeBar && CandleQueues(v, Next(v, s, e), e.tick.time, e.world)
  }

  /** The pending contract's own tick, routed: the entry fills, or the window has closed. */
  ghost predicate Consumes(v: State, s: Setup, e: Event) {
    && e.Ticked? && v.phase.Running? && !v.requested && !e.world.due && e.tick.security != s.underlying
    && v.pending.Some? && e.tick.security == v.pending.value.contract.security
    && (!e.world.canEnter || e.tick.security in e.world.legs)
  }

  lemma CandlePending(v: State, s: Setup, ts: int, w: World)
    requires Inv(v, s) && v.spot.Some?
    ensures var t := OnCandleClose(v, s, ts, w);
            t.pending == if CandleQueues(v, t, ts, w) then Some(Pending(w.selected, w.signal.value.side)) else v.pending
  {
    if !v.Flat() {
      CurrentIsTheOne(v, s);
      CloseKeepsInv(v, s, Current(v.book), w);
      CloseKeepsLatches(v, s, Current(v.book), w);
      assert forall id | id in v.book.held :: id in v.book.held.Keys && id == Current(v.book);
    }
  }

  lemma OptionTickPending(v: State, s: Setup, tick: Tick, w: World)
    requires Inv(v, s) && v.phase.Running? && Routed(v, w) && tick.security != s.underlying
    ensures OnOptionTick(v, s, tick, w).pending == if Consumes(v, s, Ticked(tick, w)) then None else v.pending
  {
    if v.Holds(tick.security) {
      HeldTickKeepsLatches(v, s, tick, w);
    }
  }

  /**
   An entry is queued exactly when a closed candle signals one within the window on a free day, for the
   contract the selector gave and the side of the signal; it stays until it is consumed or replaced.
   */
  lemma PendingExactly(v: State, s: Setup, e: Event)
    requires Inv(v, s)
    ensures Next(v, s, e).pending ==
            if Queues(v, s, e) then Some(Pending(e.world.selected, e.world.signal.value.side))
            else if Consumes(v, s, e) then None
            else v.pending
  {
    match e
    case Ticked(tick, w) =>
      if v.phase.Running? {
        if !Routed(v, w) {
          CloseAllKeepsLatches(v, s, w);
        } else if tick.security == s.underlying {
          CandlePending(v.(spot := Some(tick.price)), s, tick.time, w);
        } else {
          OptionTickPending(v, s, tick, w);
        }
      }
    case Forcing(w) => CloseAllKeepsLatches(v, s, w);
    case Finishing(w) => CloseAllKeepsLatches(v, s, w);
    case _ =>
  }

  ghost function Openings(v: State, s: Setup, events: seq<Event>): nat {
    if events == [] then 0
    else
      var before := Run(v, s, events[..|events| - 1]);
      Openings(v, s, events[..|events| - 1]) + if Opens(before, Run(v, s, events)) then 1 else 0
  }

  // ------------------------------------------------------------------ latches over whole days

  lemma CloseKeepsLatches(v: State, s: Setup, id: string, w: World)
    requires v.Holds(id)
    ensures var t := Close(v, s, id, w);
            && (v.Halted() ==> t.Halted()) && t.blocked == v.blocked && t.pending == v.pending
            && t.squaredOff == v.squaredOff && t.phase == v.phase && t.requested == v.requested
  {
  }

  lemma {:induction false} CloseAllKeepsLatches(v: State, s: Setup, w: World)
    ensures var t := CloseAll(v, s, w);
            && (v.Halted() ==> t.Halted()) && t.blocked == v.blocked && t.pending == v.pending
            && (v.squaredOff ==> t.squaredOff)
    decreases |v.book.held|
  {
    if !v.Flat() && Current(v.book) in w.legs {
      Fewer(v.book.held, Current(v.book));
      CloseAllKeepsLatches(Closed(v, s, Current(v.book), w.legs[Current(v.book)]), s, w);
    }
  }

  lemma CandleKeepsLatches(v: State, s: Setup, ts: int, w: World)
    ensures var t := OnCandleClose(v, s, ts, w);
            && (v.Halted() ==> t.Halted()) && t.blocked == v.blocked && t.squaredOff == v.squaredOff
            && t.phase == v.phase && t.requested == v.requested && (v.blocked ==> t.pending == v.pending)
  {
    if !v.Flat() {
      CloseKeepsLatches(v, s, Current(v.book), w);
    }
  }

  lemma HeldTickKeepsLatches(v: State, s: Setup, tick: Tick, w: World)
    requires v.Holds(tick.security)
    ensures var t := OnHeldTick(v, s, tick, w);
            && (v.Halted() ==> t.Halted()) && t.blocked == v.blocked && t.pending == v.pending
            && t.squaredOff == v.squaredOff && t.phase == v.phase && t.requested == v.requested
  {
    var marked := v.(book := Book.Priced(v.book, tick.security, tick.price));
    var checked := marked.(guard := Mtm(marked, s, marked.book.held[tick.security].UnrealisedPnl()));
    CloseKeepsLatches(marked, s, tick.security, w);
    CloseKeepsLatches(checked, s, tick.security, w);
  }

  lemma OptionTickKeepsLatches(v: State, s: Setup, tick: Tick, w: World)
    ensures var t := OnOptionTick(v, s, tick, w);
            && (v.Halted() ==> t.Halted()) && t.blocked == v.blocked && (t.pending.None? || t.pending == v.pending)
            && t.squaredOff == v.squaredOff && t.phase == v.phase && t.requested == v.requested
  {
    if v.Holds(tick.security) {
      HeldTickKeepsLatches(v, s, tick, w);
    }
  }

  lemma TickKeepsLatches(v: State, s: Setup, tick: Tick, w: World)
    ensures var t := OnTick(v, s, tick, w);
            && (v.Halted() ==> t.Halted()) && (v.blocked ==> t.blocked)
            && (v.blocked ==> t.pending.None? || t.pending == v.pending)
  {
    if !Routed(v, w) {
      CloseAllKeepsLatches(v, s, w);
    } else if tick.security == s.underlying {
      CandleKeepsLatches(v.(spot := Some(tick.price)), s, tick.time, w);
    } else {
      OptionTickKeepsLatches(v, s, tick, w);
    }
  }

  lemma StepKeepsLatches(v: State, s: Setup, e: Event)
    requires Inv(v, s)
    ensures var t := Next(v, s, e);
            && (v.Halted() ==> t.Halted()) && (v.blocked ==> t.blocked) && (v.squaredOff ==> t.squaredOff)
            && (v.blocked ==> t.pending.None? || t.pending == v.pending)
            && (!v.phase.Running? ==> !t.phase.Running?)
  {
    match e
    case Ticked(tick, w) => TickKeepsLatches(v, s, tick, w);
    case Forcing(w) => CloseAllKeepsLatches(v, s, w);
    case Finishing(w) => CloseAllKeepsLatches(v, s, w);
    case _ =>
  }

  /** Nothing opens once the daily guard has halted, for the rest of any day. */
  lemma {:induction false} NothingOpensAfterHalt(v: State, s: Setup, events: seq<Event>)
    requires Inv(v, s) && v.Halted()
    ensures Run(v, s, events).Halted() && Openings(v, s, events) == 0
  {
    if events != [] {
      var init, e := events[..|events| - 1], events[|events| - 1];
      NothingOpensAfterHalt(v, s, init);
      DayKeepsInv(v, s, init);
      StepKeepsLatches(Run(v, s, init), s, e);
      OpensExactly(Run(v, s, init), s, e);
    }
  }

  /** Every opening of the run is of this entry. */
  ghost predicate OnlyOpens(v: State, s: Setup, events: seq<Event>, entry: Option<Pending>) {
    events != [] ==>
      var init := events[..|events| - 1];
      && OnlyOpens(v, s, init, entry)
      && (Opens(Run(v, s, init), Run(v, s, events)) ==>
            entry.Some? && Only(Run(v, s, events).book, entry.value.contract.security))
  }

  /**
   Once entries are blocked at most one position still opens, and only if it was already pending at
   that moment: the latch is consulted when an entry is queued, not when it fills.
   */
  lemma {:induction false} OnlyThePendingEntryOpensAfterBlock(v: State, s: Setup, events: seq<Event>)
    requires Inv(v, s) && v.blocked
    ensures var t := Run(v, s, events);
            && t.blocked && (t.pending.None? || t.pending == v.pending)
            && Openings(v, s, events) <= (if v.pending.Some? then 1 else 0)
            && (t.pending.Some? ==> Openings(v, s, events) == 0)
            && OnlyOpens(v, s, events, v.pending)
  {
    if events != [] {
      var init, e := events[..|events| - 1], events[|events| - 1];
      OnlyThePendingEntryOpensAfterBlock(v, s, init);
      DayKeepsInv(v, s, init);
      StepKeepsLatches(Run(v, s, init), s, e);
      OpensExactly(Run(v, s, init), s, e);
    }
  }

  // ------------------------------------------------------------------ square-off

  /** Nothing opens once the feed has ended, however it ended. */
  lemma {:induction false} NothingOpensOnceTheFeedEnds(v: State, s: Setup, events: seq<Event>)
    requires Inv(v, s) && !v.phase.Running?
    ensures !Run(v, s, events).phase.Running? && Openings(v, s, events) == 0
  {
    if events != [] {
      var init, e := events[..|events| - 1], events[|events| - 1];
      NothingOpensOnceTheFeedEnds(v, s, init);
      DayKeepsInv(v, s, init);
      StepKeepsLatches(Run(v, s, init), s, e);
      OpensExactly(Run(v, s, init), s, e);
    }
  }

  /**
   Over every run: a square-off that completes leaves the book empty, ends the feed, and nothing opens
   after it; an entry still pending then never fills.
   */
  lemma {:induction false} SquaredOffStaysFlat(v: State, s: Setup, events: seq<Event>)
    requires Inv(v, s) && v.squaredOff
    ensures var t := Run(v, s, events);
            t.squaredOff && t.Flat() && !t.phase.Running? && Openings(v, s, events) == 0
  {
    NothingOpensOnceTheFeedEnds(v, s, events);
    if events != [] {
      var init := events[..|events| - 1];
      SquaredOffStaysFlat(v, s, init);
      DayKeepsInv(v, s, init);
      StepKeepsLatches(Run(v, s, init), s, events[|events| - 1]);
    }
    DayKeepsInv(v, s, events);
  }

  /** A square-off completes exactly when there is nothing to close or the gateway fills its leg; then the book is empty. */
  lemma SquareOffCompletesExactly(v: State, s: Setup, w: World)
    requires Inv(v, s)
    ensures var t := SquareOff(v, s, w);
            && (t.squaredOff <==> v.Flat() || Current(v.book) in w.legs)
            && (t.squaredOff <==> t.Flat())
  {
    SquareOffKeepsInv(v, s, w);
    if !v.squaredOff && !v.Flat() {
      var id := Current(v.book);
      CloseKeepsInv(v, s, id, w);
      if id in w.legs {
        var out := Closed(v, s, id, w.legs[id]);
        assert CloseAll(out, s, w) == Completed(out);
      }
    }
  }

  // ------------------------------------------------------------------ exits

  /** What closes the held contract on its own tick: something that asks, and a leg that fills. */
  lemma HeldTickClosesExactly(v: State, s: Setup, tick: Tick, w: World)
    requires Inv(v, s) && v.Holds(tick.security)
    ensures !OnHeldTick(v, s, tick, w).Holds(tick.security) <==> HeldAsks(v, s, tick, w) && tick.security in w.legs
  {
  }

  lemma CandleClosesExactly(v: State, s: Setup, ts: int, w: World)
    requires Inv(v, s) && !v.Flat()
    ensures OnCandleClose(v, s, ts, w).Flat() <==> CandleAsks(v, ts, w, Current(v.book)) && Current(v.book) in w.legs
  {
    CloseKeepsInv(v, s, Current(v.book), w);
  }

  /** The guard's live check at this price of the position: not yet halted, and the total past the loss cap. */
  ghost predicate TripsAt(v: State, s: Setup, id: string, price: real)
    requires v.Holds(id)
  {
    var h := v.book.held[id];
    var move := if h.side == Buy then price - h.entry else h.entry - price;
    && s.limits.Some? && v.guard.Some? && v.guard.value.halt.None? && s.limits.value.maxLoss > 0.0
    && v.guard.value.realised + move * (h.lots * h.contract.lotSize) as real <= -s.limits.value.maxLoss
  }

  /** Not a candle that a process before this one has already handled. */
  predicate Fresh(v: State, ts: int) {
    v.watermark.None? || v.watermark.value < ts
  }

  /** What asks for the position's exit at this event. */
  ghost predicate Asked(v: State, s: Setup, e: Event, id: string)
    requires v.Holds(id)
  {
    match e
    case Ticked(tick, w) =>
      v.phase.Running? &&
      if v.requested || w.due then true
      else if tick.security == s.underlying then
        && w.sessionOpen && w.bar == WholeBar && Fresh(v, tick.time) && w.signal.Some?
        && (w.signal.value.Exit? || w.signal.value.optionType != Some(v.book.held[id].contract.optionType)
            || w.signal.value.side != v.book.held[id].side)
      else
        tick.security == id
        && (w.riskExit || w.tickExit || TripsAt(v, s, id, tick.price)
            || (s.premium && w.premiumBar && Fresh(v, tick.time) && w.premiumExit))
    case Forcing(_) => v.phase.Raised?
    case Finishing(_) => v.phase.Ending? && v.requested
    case _ => false
  }

  lemma TripsExactly(v: State, s: Setup, tick: Tick)
    requires v.Holds(tick.security)
    ensures Trips(v, s, tick) <==> TripsAt(v, s, tick.security, tick.price)
  {
  }

  /** The position keeps its entry; only its marks move. */
  ghost predicate Stays(v: State, t: State, id: string)
    requires v.Holds(id)
  {
    && t.Holds(id) && t.book.trades == v.book.trades
    && t.book.held[id].(last := v.book.held[id].last, mfe := v.book.held[id].mfe, mae := v.book.held[id].mae) == v.book.held[id]
  }

  lemma SquareOffCloses(v: State, s: Setup, w: World, id: string)
    requires Inv(v, s) && v.Holds(id)
    ensures if id in w.legs then SquareOff(v, s, w).Flat() else SquareOff(v, s, w) == v
  {
    CurrentIsTheOne(v, s);
    assert id in v.book.held.Keys;
    SquareOffCompletesExactly(v, s, w);
  }

  lemma HeldTickCloses(v: State, s: Setup, tick: Tick, w: World)
    requires Inv(v, s) && v.Holds(tick.security) && v.phase.Running? && Routed(v, w) && tick.security != s.underlying
    ensures var t := OnHeldTick(v, s, tick, w);
            if Asked(v, s, Ticked(tick, w), tick.security) && tick.security in w.legs then t.Flat()
            else Stays(v, t, tick.security)
  {
    TripsExactly(v, s, tick);
    HeldTickClosesExactly(v, s, tick, w);
    HeldTickKeepsInv(v, s, tick, w);
    CurrentIsTheOne(v, s);
    assert tick.security in v.book.held.Keys;
  }

  lemma CandleCloses(v: State, s: Setup, tick: Tick, w: World, id: string)
    requires Inv(v, s) && v.Holds(id) && v.phase.Running? && Routed(v, w) && tick.security == s.underlying
    ensures var t := OnUnderlyingTick(v, s, tick, w);
            if Asked(v, s, Ticked(tick, w), id) && id in w.legs then t.Flat() else Stays(v, t, id)
  {
    CurrentIsTheOne(v, s);
    assert id in v.book.held.Keys;
    CandleClosesExactly(v.(spot := Some(tick.price)), s, tick.time, w);
  }

  /** The open position is closed exactly when something asks for its exit and the gateway fills the leg; else it stays. */
  lemma PositionClosesExactly(v: State, s: Setup, e: Event, id: string)
    requires Inv(v, s) && v.Holds(id)
    ensures if Asked(v, s, e, id) && id in e.world.legs then Next(v, s, e).Flat() else Stays(v, Next(v, s, e), id)
  {
    CurrentIsTheOne(v, s);
    assert id in v.book.held.Keys;
    match e
    case Ticked(tick, w) =>
      if v.phase.Running? {
        if !Routed(v, w) {
          SquareOffCloses(v, s, w, id);
        } else if tick.security == s.underlying {
          CandleCloses(v, s, tick, w, id);
        } else if v.Holds(tick.security) {
          HeldTickCloses(v, s, tick, w);
        }
      }
    case Forcing(w) => SquareOffCloses(v, s, w, id);
    case Finishing(w) => SquareOffCloses(v, s, w, id);
    case _ =>
  }

  // ------------------------------------------------------------------ phases and requests

  /** The tick of the pending contract would fill its entry, but the gateway has no leg for it. */
  ghost predicate Misses(v: State, s: Setup, tick: Tick, w: World) {
    && !v.requested && !w.due && tick.security != s.underlying && v.book.held == map[] && v.pending.Some?
    && tick.security == v.pending.value.contract.security && w.canEnter && tick.security !in w.legs
  }

  /** A leg is tried that the gateway does not fill. */
  ghost predicate LegMissing(v: State, s: Setup, tick: Tick, w: World) {
    Misses(v, s, tick, w) || exists id :: v.Holds(id) && Asked(v, s, Ticked(tick, w), id) && id !in w.legs
  }

  /** A tick's error leaves the handler exactly when a leg it tries is not filled. */
  lemma RaisesExactly(v: State, s: Setup, tick: Tick, w: World)
    requires Inv(v, s) && v.phase.Running?
    ensures Raises(v, s, tick, w) <==> LegMissing(v, s, tick, w)
  {
    if !v.Flat() {
      CurrentIsTheOne(v, s);
      assert forall id | v.Holds(id) :: id in v.book.held.Keys && id == Current(v.book);
      if v.Holds(tick.security) {
        TripsExactly(v, s, tick);
      }
    }
  }

  /** A square-off is tried at this event, and completes: nothing is held, or its leg is filled. */
  ghost predicate SquaresOff(v: State, e: Event) {
    && !v.squaredOff
    && (match e
        case Ticked(tick, w) => v.phase.Running? && (v.requested || w.due)
        case Forcing(_) => v.phase.Raised?
        case Finishing(_) => v.phase.Ending? && v.requested
        case _ => false)
    && forall id | v.Holds(id) :: id in e.world.legs
  }

  lemma SquaringOff(v: State, s: Setup, w: World)
    requires Inv(v, s)
    ensures var t := SquareOff(v, s, w);
            && (t.squaredOff <==> v.squaredOff || forall id | v.Holds(id) :: id in w.legs)
            && (t.phase == if !v.squaredOff && t.squaredOff && v.phase.Running? then Ending else v.phase)
            && t.requested == v.requested && t.blocked == v.blocked
  {
    SquareOffCompletesExactly(v, s, w);
    SquareOffKeepsInv(v, s, w);
    CloseAllKeepsLatches(v, s, w);
    if !v.Flat() {
      CurrentIsTheOne(v, s);
      assert forall id | v.Holds(id) :: id in v.book.held.Keys && id == Current(v.book);
      if !v.squaredOff && Current(v.book) in w.legs {
        var out := Closed(v, s, Current(v.book), w.legs[Current(v.book)]);
        CloseKeepsInv(v, s, Current(v.book), w);
        assert CloseAll(out, s, w) == Completed(out);
      }
    }
  }

  /** What a tick that is not a square-off leaves of phase, requests and latches. */
  lemma RoutedTickKeeps(v: State, s: Setup, tick: Tick, w: World)
    requires Inv(v, s) && Routed(v, w)
    ensures var t := OnTick(v, s, tick, w);
            t.squaredOff == v.squaredOff && t.phase == v.phase && t.requested == v.requested && t.blocked == v.blocked
  {
    if tick.security == s.underlying {
      CandleKeepsLatches(v.(spot := Some(tick.price)), s, tick.time, w);
    } else {
      OptionTickKeepsLatches(v, s, tick, w);
    }
  }

  /**
   Where `run()` stands after each event, and what has been requested and latched: the feed goes on until a
   tick or the feed itself raises, the feed ends, or a square-off completes; a raise is followed by the forced
   square-off, every ending by the requested one.
   */
  lemma PhasesExactly(v: State, s: Setup, e: Event)
    requires Inv(v, s)
    ensures var t := Next(v, s, e);
            && t.requested == (v.requested || e.Requesting?) && t.blocked == (v.blocked || e.Blocking?)
            && t.squaredOff == (v.squaredOff || SquaresOff(v, e))
            && t.phase ==
               match v.phase
               case Running =>
                 if e.FeedRaises? || (e.Ticked? && LegMissing(v, s, e.tick, e.world)) then Raised
                 else if e.FeedEnds? || SquaresOff(v, e) then Ending
                 else Running
               case Raised => if e.Forcing? then Ending else Raised
               case Ending => if e.Finishing? then Over else Ending
               case Over => Over
  {
    match e
    case Ticked(tick, w) =>
      if v.phase.Running? {
        RaisesExactly(v, s, tick, w);
        if !Routed(v, w) {
          SquaringOff(v, s, w);
        } else {
          RoutedTickKeeps(v, s, tick, w);
        }
      }
    case Forcing(w) => SquaringOff(v, s, w);
    case Finishing(w) => SquaringOff(v, s, w);
    case _ =>
  }

  // ------------------------------------------------------------------ a halted day squares off

  /** What the daily guard promises never to leave: a halted day with a position open. */
  ghost predicate Exposed(v: State) {
    v.Halted() && !v.Flat()
  }

  /** The tick trips a limit, nothing else asked for the exit first, and the exit's own leg does not fill. */
  ghost predicate TripsUnfilled(v: State, s: Setup, e: Event) {
    && e.Ticked? && v.phase.Running? && Routed(v, e.world) && e.tick.security != s.underlying && v.Holds(e.tick.security)
    && !e.world.riskExit && !e.world.tickExit && Trips(v, s, e.tick) && e.tick.security !in e.world.legs
  }

  lemma HeldTickExposes(v: State, s: Setup, tick: Tick, w: World)
    requires Inv(v, s) && v.Holds(tick.security) && !v.Halted()
    ensures Exposed(OnHeldTick(v, s, tick, w)) <==>
            !w.riskExit && !w.tickExit && Trips(v, s, tick) && tick.security !in w.legs
  {
    var marked := v.(book := Book.Priced(v.book, tick.security, tick.price));
    var one :| Only(v.book, one);
    assert one == tick.security by { assert tick.security in v.book.held.Keys; }
    assert marked.book.held.Keys == {one};
    assert marked.book.held - {one} == map[];
    assert marked.Holds(one);
  }

  lemma SquareOffExposesNothing(v: State, s: Setup, w: World)
    requires Inv(v, s) && !Exposed(v)
    ensures !Exposed(SquareOff(v, s, w))
  {
    SquareOffCompletesExactly(v, s, w);
  }

  lemma CandleExposesNothing(v: State, s: Setup, ts: int, w: World)
    requires Inv(v, s) && !Exposed(v)
    ensures !Exposed(OnCandleClose(v, s, ts, w))
  {
    if !v.Flat() {
      CloseKeepsInv(v, s, Current(v.book), w);
    }
  }

  lemma TickExposesExactly(v: State, s: Setup, tick: Tick, w: World)
    requires Inv(v, s) && !Exposed(v) && v.phase.Running?
    ensures Exposed(OnTick(v, s, tick, w)) <==> TripsUnfilled(v, s, Ticked(tick, w))
  {
    if !Routed(v, w) {
      SquareOffExposesNothing(v, s, w);
    } else if tick.security == s.underlying {
      CandleExposesNothing(v.(spot := Some(tick.price)), s, tick.time, w);
    } else if v.Holds(tick.security) {
      HeldTickExposes(v, s, tick, w);
    }
  }

  lemma StepExposesExactly(v: State, s: Setup, e: Event)
    requires Inv(v, s) && !Exposed(v)
    ensures Exposed(Next(v, s, e)) <==> TripsUnfilled(v, s, e)
    ensures TripsUnfilled(v, s, e) ==> Next(v, s, e).phase.Raised?
  {
    match e
    case Ticked(tick, w) =>
      if v.phase.Running? {
        TickExposesExactly(v, s, tick, w);
      }
    case Forcing(w) => SquareOffExposesNothing(v, s, w);
    case Finishing(w) => SquareOffExposesNothing(v, s, w);
    case _ =>
  }

  /** A square-off of `run()` itself reaches the position, and its leg fills. */
  ghost predicate ForcedCloses(v: State, s: Setup, e: Event) {
    !v.Flat() &&
    match e
    case Forcing(w) => v.phase.Raised? && Current(v.book) in w.legs
    case Finishing(w) => v.phase.Ending? && v.requested && Current(v.book) in w.legs
    case _ => false
  }

  /** What still closes a position once the day is halted: anything but the daily guard. */
  ghost predicate ClosesOtherwise(v: State, s: Setup, e: Event) {
    || ForcedCloses(v, s, e)
    || (!v.Flat() && v.phase.Running? && e.Ticked? &&
        var id, tick, w := Current(v.book), e.tick, e.world;
        && id in w.legs
        && if !Routed(v, w) then true
           else if tick.security == s.underlying then w.sessionOpen && w.bar.WholeBar? && CandleAsks(v, tick.time, w, id)
           else tick.security == id && (w.riskExit || w.tickExit || PremiumExit(v, s, tick, w)))
  }

  lemma HeldTickOfExposed(v: State, s: Setup, tick: Tick, w: World)
    requires Inv(v, s) && Exposed(v) && v.Holds(tick.security)
    ensures OnHeldTick(v, s, tick, w).Flat() <==>
            tick.security in w.legs && (w.riskExit || w.tickExit || PremiumExit(v, s, tick, w))
    ensures tick.security == Current(v.book)
  {
    CurrentIsTheOne(v, s);
    HeldTickClosesExactly(v, s, tick, w);
    HeldTickKeepsInv(v, s, tick, w);
    assert tick.security in v.book.held.Keys;
    assert OnHeldTick(v, s, tick, w).book.held.Keys <= {tick.security};
    assert OnHeldTick(v, s, tick, w).Flat() <==> !OnHeldTick(v, s, tick, w).Holds(tick.security);
  }

  lemma ExposedStep(v: State, s: Setup, e: Event)
    requires Inv(v, s) && Exposed(v)
    ensures Next(v, s, e).Halted() && (Next(v, s, e).Flat() <==> ClosesOtherwise(v, s, e))
  {
    StepKeepsLatches(v, s, e);
    CurrentIsTheOne(v, s);
    match e
    case Ticked(tick, w) =>
      if !Routed(v, w) {
        SquareOffCompletesExactly(v, s, w);
      } else if tick.security == s.underlying {
        CandleClosesExactly(v.(spot := Some(tick.price)), s, tick.time, w);
      } else if v.Holds(tick.security) {
        HeldTickOfExposed(v, s, tick, w);
      }
    case Forcing(w) => SquareOffCompletesExactly(v, s, w);
    case Finishing(w) => SquareOffCompletesExactly(v, s, w);
    case _ =>
  }

  ghost predicate EverClosesOtherwise(v: State, s: Setup, events: seq<Event>) {
    events != [] &&
    (ClosesOtherwise(Run(v, s, events[..|events| - 1]), s, events[|events| - 1]) || EverClosesOtherwise(v, s, events[..|events| - 1]))
  }

  /**
   Once a day is halted with a position open, the guard never asks again, whatever the marks and
   however many legs would fill: the position stays until something else closes it, and only until then.
   */
  lemma {:induction false} GuardNeverAsksAgain(v: State, s: Setup, events: seq<Event>)
    requires Inv(v, s) && Exposed(v)
    ensures Run(v, s, events).Halted()
    ensures Exposed(Run(v, s, events)) <==> !EverClosesOtherwise(v, s, events)
  {
    if events != [] {
      var init, e := events[..|events| - 1], events[|events| - 1];
      GuardNeverAsksAgain(v, s, init);
      DayKeepsInv(v, s, init);
      var t := Run(v, s, init);
      if Exposed(t) {
        ExposedStep(t, s, e);
      } else {
        StepKeepsLatches(t, s, e);
        StepExposesExactly(t, s, e);
      }
    }
  }

  /** Some tick tripped a limit without its leg, and no forced square-off since has filled its own. */
  ghost predicate TrippedAndLeft(v: State, s: Setup, events: seq<Event>) {
    events != [] &&
    var t, e := Run(v, s, events[..|events| - 1]), events[|events| - 1];
    TripsUnfilled(t, s, e) || (TrippedAndLeft(v, s, events[..|events| - 1]) && !ForcedCloses(t, s, e))
  }

  /**
   Over every run that does not start so: it is halted with a position open, at its end as at any
   moment, if and only if some tick tripped a limit while its closing leg did not fill and every
   forced square-off since found its leg unfilled too.  By then the feed has ended.
   */
  lemma {:induction false} ExposedExactly(v: State, s: Setup, events: seq<Event>)
    requires Inv(v, s) && !Exposed(v)
    ensures Exposed(Run(v, s, events)) <==> TrippedAndLeft(v, s, events)
    ensures Exposed(Run(v, s, events)) ==> !Run(v, s, events).phase.Running?
  {
    if events != [] {
      var init, e := events[..|events| - 1], events[|events| - 1];
      ExposedExactly(v, s, init);
      DayKeepsInv(v, s, init);
      var t := Run(v, s, init);
      if Exposed(t) {
        ExposedStep(t, s, e);
        StepKeepsLatches(t, s, e);
      } else {
        StepExposesExactly(t, s, e);
      }
    }
  }

  /** The shortest such ending, step by step: the trip, the forced square-off, and the requested one if any. */
  lemma TripThenForcedExactly(v: State, s: Setup, e: Event, forced: World, last: World)
    requires Inv(v, s) && TripsUnfilled(v, s, e)
    ensures var raised := Next(v, s, e);
            var end := Next(Next(raised, s, Forcing(forced)), s, Finishing(last));
            && raised.phase.Raised? && end.phase.Over?
            && (Exposed(end) <==> e.tick.security !in forced.legs && (v.requested ==> e.tick.security !in last.legs))
  {
    StepExposesExactly(v, s, e);
    StepKeepsInv(v, s, e);
    var raised := Next(v, s, e);
    TrippedHolds(v, s, e);
    ExposedStep(raised, s, Forcing(forced));
    StepKeepsInv(raised, s, Forcing(forced));
    var t := Next(raised, s, Forcing(forced));
    if Exposed(t) {
      SquareOffCompletesExactly(raised, s, forced);
      ExposedStep(t, s, Finishing(last));
    } else {
      StepExposesExactly(t, s, Finishing(last));
    }
  }

  lemma TrippedHolds(v: State, s: Setup, e: Event)
    requires Inv(v, s) && TripsUnfilled(v, s, e)
    ensures var t := Next(v, s, e); Exposed(t) && Current(t.book) == e.tick.security && t.requested == v.requested
  {
    StepExposesExactly(v, s, e);
    StepKeepsInv(v, s, e);
    HeldTickKeepsInv(v, s, e.tick, e.world);
    CurrentIsTheOne(v, s);
    var t := Next(v, s, e);
    CurrentIsTheOne(t, s);
    assert Current(t.book) in t.book.held.Keys;
    assert e.tick.security in v.book.held.Keys;
  }

  /**
   A restart starts its day halted and holding exactly when it adopts a position and the kill switch is
   set or the recovered totals are past a limit; then only something else ever closes that position.
   */
  lemma AdoptedUnderAHaltExactly(s: Setup, risk: Recovery<(real, int)>, position: Recovery<Carried>)
    ensures Exposed(StartDay(s, risk, position)) <==>
            && position.Found? && s.limits.Some?
            && (s.limits.value.killSwitch || (risk.Found? && DailyGuard.Past(s.limits.value, risk.value.0, risk.value.1)))
  {
    if position.Found? {
      assert position.value.holding.contract.security in StartDay(s, risk, position).book.held;
    }
  }

  /**
   Every run of a day, from its start: it is halted with a position open if and only if it adopted one
   under a halt and nothing has closed it, or a limit tripped and every leg tried since was unfilled.
   */
  lemma DayIsExposedExactly(s: Setup, risk: Recovery<(real, int)>, position: Recovery<Carried>, events: seq<Event>)
    ensures var start := StartDay(s, risk, position);
            Exposed(Run(start, s, events)) <==>
            if Exposed(start) then !EverClosesOtherwise(start, s, events) else TrippedAndLeft(start, s, events)
  {
    var start := StartDay(s, risk, position);
    StartKeepsInv(s, risk, position);
    if Exposed(start) {
      GuardNeverAsksAgain(start, s, events);
    } else {
      ExposedExactly(start, s, events);
    }
  }

  // ------------------------------------------------------------------ what the guard is fed

  function NetSum(trades: seq<Book.Trade>): real {
    if trades == [] then 0.0
    else NetSum(trades[..|trades| - 1]) + trades[|trades| - 1].gross - trades[|trades| - 1].charges
  }

  /** What the guard starts the day from. */
  function Recovered(risk: Recovery<(real, int)>): (real, int) {
    if risk.Found? then risk.value else (0.0, 0)
  }

  /** The recovered totals and the book's trades are past a limit. */
  predicate BookedPast(c: DailyGuard.Limits, from: (real, int), trades: seq<Book.Trade>) {
    DailyGuard.Past(c, from.0 + NetSum(trades), from.1 + |trades|)
  }

  /** Until it halts, the guard holds the recovered totals and the book's own trades, and these are inside every limit. */
  ghost predicate Fed(v: State, c: DailyGuard.Limits, from: (real, int)) {
    && v.guard.Some?
    && (!v.Halted() ==>
          && v.guard.value.realised == from.0 + NetSum(v.book.trades)
          && v.guard.value.count == from.1 + |v.book.trades|
          && (v.book.trades != [] ==> !BookedPast(c, from, v.book.trades)))
  }

  /** At this price of the open position the day's total is past its loss cap. */
  ghost predicate MarkedPast(v: State, id: string, price: real, c: DailyGuard.Limits, from: (real, int))
    requires v.Holds(id)
  {
    var h := v.book.held[id];
    var move := if h.side == Buy then price - h.entry else h.entry - price;
    c.maxLoss > 0.0 && from.0 + NetSum(v.book.trades) + move * (h.lots * h.contract.lotSize) as real <= -c.maxLoss
  }

  /** A tick of the open position that reaches the guard and marks the day past its loss cap. */
  ghost predicate MarksPast(v: State, s: Setup, tick: Tick, w: World, c: DailyGuard.Limits, from: (real, int)) {
    && !v.requested && !w.due && tick.security != s.underlying && v.Holds(tick.security)
    && !w.riskExit && !w.tickExit && MarkedPast(v, tick.security, tick.price, c, from)
  }

  /** The step books a trade that takes the day past a limit, or marks it past its loss cap. */
  ghost predicate Halts(v: State, s: Setup, e: Event, c: DailyGuard.Limits, from: (real, int)) {
    var trades := Next(v, s, e).book.trades;
    (|trades| > |v.book.trades| && BookedPast(c, from, trades))
    || (e.Ticked? && v.phase.Running? && MarksPast(v, s, e.tick, e.world, c, from))
  }

  /** One operation: fed afterwards too, and halted by it exactly when it booked a trade past a limit. */
  ghost predicate Books(v: State, t: State, c: DailyGuard.Limits, from: (real, int)) {
    && Fed(t, c, from)
    && (!v.Halted() ==> (t.Halted() <==> |t.book.trades| > |v.book.trades| && BookedPast(c, from, t.book.trades)))
  }

  lemma CloseBooks(v: State, s: Setup, id: string, w: World, from: (real, int))
    requires s.limits.Some? && Fed(v, s.limits.value, from) && v.Holds(id)
    ensures Books(v, Close(v, s, id, w), s.limits.value, from)
  {
    var trades := Close(v, s, id, w).book.trades;
    if id in w.legs {
      assert trades[..|v.book.trades|] == v.book.trades;
    }
  }

  lemma SquareOffBooks(v: State, s: Setup, w: World, from: (real, int))
    requires s.limits.Some? && Inv(v, s) && Fed(v, s.limits.value, from)
    ensures Books(v, SquareOff(v, s, w), s.limits.value, from)
  {
    if !v.squaredOff && !v.Flat() {
      var id := Current(v.book);
      CloseBooks(v, s, id, w, from);
      CloseKeepsInv(v, s, id, w);
      if id in w.legs {
        var out := Closed(v, s, id, w.legs[id]);
        assert CloseAll(out, s, w) == Completed(out);
      }
    }
  }

  lemma CandleBooks(v: State, s: Setup, ts: int, w: World, from: (real, int))
    requires s.limits.Some? && Fed(v, s.limits.value, from)
    ensures Books(v, OnCandleClose(v, s, ts, w), s.limits.value, from)
  {
    if !v.Flat() {
      CloseBooks(v, s, Current(v.book), w, from);
    }
  }

  lemma OpenBooks(v: State, s: Setup, tick: Tick, w: World, from: (real, int))
    requires s.limits.Some? && Fed(v, s.limits.value, from) && v.pending.Some?
    ensures Books(v, Open(v, s, tick, w), s.limits.value, from)
  {
  }

  lemma MarkHalts(v: State, s: Setup, tick: Tick, from: (real, int))
    requires s.limits.Some? && Fed(v, s.limits.value, from) && v.Holds(tick.security)
    ensures var marked := v.(book := Book.Priced(v.book, tick.security, tick.price));
            var checked := marked.(guard := Mtm(marked, s, marked.book.held[tick.security].UnrealisedPnl()));
            && Fed(marked, s.limits.value, from) && Fed(checked, s.limits.value, from)
            && (!v.Halted() ==> (checked.Halted() <==> MarkedPast(v, tick.security, tick.price, s.limits.value, from)))
  {
  }

  lemma HeldTickBooks(v: State, s: Setup, tick: Tick, w: World, from: (real, int))
    requires s.limits.Some? && Fed(v, s.limits.value, from) && v.Holds(tick.security)
    ensures var c, t := s.limits.value, OnHeldTick(v, s, tick, w);
            && Fed(t, c, from)
            && (!v.Halted() ==>
                  (t.Halted() <==> (|t.book.trades| > |v.book.trades| && BookedPast(c, from, t.book.trades))
                                   || (!w.riskExit && !w.tickExit && MarkedPast(v, tick.security, tick.price, c, from))))
  {
    var marked := v.(book := Book.Priced(v.book, tick.security, tick.price));
    MarkHalts(v, s, tick, from);
    if w.riskExit || w.tickExit {
      CloseBooks(marked, s, tick.security, w, from);
    } else {
      var checked := marked.(guard := Mtm(marked, s, marked.book.held[tick.security].UnrealisedPnl()));
      CloseBooks(checked, s, tick.security, w, from);
      CloseKeepsLatches(checked, s, tick.security, w);
    }
  }

  lemma TickBooks(v: State, s: Setup, tick: Tick, w: World, from: (real, int))
    requires s.limits.Some? && Inv(v, s) && Fed(v, s.limits.value, from)
    ensures var c, t := s.limits.value, OnTick(v, s, tick, w);
            && Fed(t, c, from)
            && (!v.Halted() ==>
                  (t.Halted() <==> (|t.book.trades| > |v.book.trades| && BookedPast(c, from, t.book.trades))
                                   || MarksPast(v, s, tick, w, c, from)))
  {
    if !Routed(v, w) {
      SquareOffBooks(v, s, w, from);
    } else if tick.security == s.underlying {
      CandleBooks(v.(spot := Some(tick.price)), s, tick.time, w, from);
    } else if v.Holds(tick.security) {
      HeldTickBooks(v, s, tick, w, from);
    } else if v.pending.Some? {
      OpenBooks(v, s, tick, w, from);
    }
  }

  lemma StepBooks(v: State, s: Setup, e: Event, from: (real, int))
    requires s.limits.Some? && Inv(v, s) && Fed(v, s.limits.value, from)
    ensures Fed(Next(v, s, e), s.limits.value, from)
    ensures !v.Halted() ==> (Next(v, s, e).Halted() <==> Halts(v, s, e, s.limits.value, from))
  {
    match e
    case Ticked(tick, w) => TickBooks(v, s, tick, w, from);
    case Forcing(w) => SquareOffBooks(v, s, w, from);
    case Finishing(w) => SquareOffBooks(v, s, w, from);
    case _ =>
  }

  ghost predicate EverHalts(v: State, s: Setup, events: seq<Event>, c: DailyGuard.Limits, from: (real, int)) {
    events != [] &&
    (EverHalts(v, s, events[..|events| - 1], c, from)
     || Halts(Run(v, s, events[..|events| - 1]), s, events[|events| - 1], c, from))
  }

  lemma {:induction false} RunBooks(v: State, s: Setup, events: seq<Event>, from: (real, int))
    requires s.limits.Some? && Inv(v, s) && Fed(v, s.limits.value, from)
    ensures Fed(Run(v, s, events), s.limits.value, from)
    ensures Run(v, s, events).Halted() <==> v.Halted() || EverHalts(v, s, events, s.limits.value, from)
  {
    if events != [] {
      var init, e := events[..|events| - 1], events[|events| - 1];
      RunBooks(v, s, init, from);
      DayKeepsInv(v, s, init);
      StepBooks(Run(v, s, init), s, e, from);
      StepKeepsLatches(Run(v, s, init), s, e);
    }
  }

  /**
   Every run of a day with limits: until it halts, the guard's totals are the recovered ones plus the net
   P&L and the number of the book's own trades; and it is halted if and only if it started so, some
   closing trade took those totals past a limit, or some mark of the open position did.
   */
  lemma GuardFollowsTheBookExactly(s: Setup, risk: Recovery<(real, int)>, position: Recovery<Carried>, events: seq<Event>)
    requires s.limits.Some?
    ensures var start, c, from := StartDay(s, risk, position), s.limits.value, Recovered(risk);
            var t := Run(start, s, events);
            && t.guard.Some?
            && (!t.Halted() ==> t.guard.value.realised == from.0 + NetSum(t.book.trades)
                                && t.guard.value.count == from.1 + |t.book.trades|)
            && (t.Halted() <==> c.killSwitch || (risk.Found? && DailyGuard.Past(c, from.0, from.1))
                                || EverHalts(start, s, events, c, from))
  {
    StartKeepsInv(s, risk, position);
    RunBooks(StartDay(s, risk, position), s, events, Recovered(risk));
  }

  // ------------------------------------------------------------------ the object

  /** The engine of one run; every handler returns whether it raised. */
  class TradingEngine {
    const setup: Setup
    var book: Book.Shelf
    var guard: Option<DailyGuard.Guard>
    var pending: Option<Pending>
    var blocked: bool
    var squaredOff: bool
    var requested: bool
    var tracked: Option<string>
    var watermark: Option<int>
    var spot: Option<real>
    var phase: Phase

    function View(): State
      reads this
    {
      State(book, guard, pending, blocked, squaredOff, requested, tracked, watermark, spot, phase)
    }

    ghost predicate Valid()
      reads this
    {
      Inv(View(), setup)
    }

    /** A fresh process at the start of its day. */
    constructor (s: Setup, risk: Recovery<(real, int)>, position: Recovery<Carried>)
      ensures setup == s && View() == StartDay(s, risk, position) && Valid()
    {
      setup := s;
      book := Book.Shelf(map[], map[], []);
      guard := GuardAtStart(s, risk);
      pending, squaredOff, requested, spot, phase := None, false, false, None, Running;
      blocked := position.Failed? || (s.limits.Some? && risk.Failed?);
      tracked, watermark := None, None;
      if position.Found? {
        var c := position.value;
        book := Book.Adopted(Book.Shelf(map[], map[], []), c.holding, c.charges, c.last);
        tracked := if s.premium then Some(c.holding.contract.security) else None;
        watermark := c.watermark;
      }
      new;
      StartKeepsInv(s, risk, position);
    }

    method BlockEntries()
      requires Valid()
      modifies this`blocked
      ensures Valid() && View() == Next(old(View()), setup, Blocking)
    {
      if blocked {
        return;
      }
      blocked := true;
    }

    method RequestSquareOff()
      requires Valid()
      modifies this`requested
      ensures Valid() && View() == Next(old(View()), setup, Requesting)
    {
      requested := true;
    }

    /** `on_tick`, as a running feed calls it. */
    method OnTickAt(tick: Tick, w: World) returns (raised: bool)
      requires Valid() && phase.Running?
      modifies this
      ensures Valid() && View() == OnTick(old(View()), setup, tick, w) && raised == old(Raises(View(), setup, tick, w))
      ensures phase.Running? || phase.Ending?
    {
      TickKeepsInv(View(), setup, tick, w);
      TickKeepsPhase(View(), setup, tick, w);
      if requested || w.due {
        raised := HandleSquareOff(w);
      } else if tick.security == setup.underlying {
        raised := OnUnderlyingTickAt(tick, w);
      } else {
        raised := OnOptionTickAt(tick, w);
      }
    }

    /** `_handle_square_off`; unless it raises, the book is empty and the feed stopped. */
    method HandleSquareOff(w: World) returns (raised: bool)
      requires Valid()
      modifies this
      ensures Valid() && View() == SquareOff(old(View()), setup, w)
      ensures raised == old(!squaredOff && !View().Flat() && Current(book) !in w.legs)
      ensures !raised ==> squaredOff && book.held == map[] && !phase.Running?
    {
      SquareOffKeepsInv(View(), setup, w);
      SquareOffCompletesExactly(View(), setup, w);
      if squaredOff {
        return false;
      }
      raised := CloseEach(w);
      if !raised {
        squaredOff := true;
        if phase.Running? {
          phase := Ending;
        }
      }
    }

    /**
     `run()`: the feed's items until it ends or something raises, then the forced square-off after a
     raise, then the requested one.  Other threads' blocks and requests are among the items.
     */
    method RunDay(items: seq<Event>, forced: World, last: World)
      requires Valid() && phase.Running? && forall k | 0 <= k < |items| :: !items[k].Forcing? && !items[k].Finishing?
      modifies this
      ensures Valid() && phase.Over?
      ensures View() == Run(old(View()), setup, items + [FeedEnds] + [Forcing(forced)] + [Finishing(last)])
    {
      ghost var start := View();
      Feed(items);
      RunStep(start, setup, items, FeedEnds);
      RunStep(start, setup, items + [FeedEnds], Forcing(forced));
      RunStep(start, setup, items + [FeedEnds] + [Forcing(forced)], Finishing(last));
      Take(FeedEnds);
      Force(forced);
      Finish(last);
    }

    method Feed(items: seq<Event>)
      requires Valid() && !phase.Over? && forall k | 0 <= k < |items| :: !items[k].Forcing? && !items[k].Finishing?
      modifies this
      ensures Valid() && !phase.Over? && View() == Run(old(View()), setup, items)
    {
      ghost var start := View();
      var n := 0;
      while n < |items|
        invariant 0 <= n <= |items| && Valid() && !phase.Over? && View() == Run(start, setup, items[..n])
      {
        RunStep(start, setup, items[..n], items[n]);
        assert items[..n] + [items[n]] == items[..n + 1];
        Take(items[n]);
        n := n + 1;
      }
      assert items[..n] == items;
    }

    /** The handlers of `run()`: after a raise, square off before raising on. */
    method Force(w: World)
      requires Valid() && !phase.Over? && !phase.Running?
      modifies this
      ensures Valid() && phase.Ending? && View() == Next(old(View()), setup, Forcing(w))
    {
      StepKeepsInv(View(), setup, Forcing(w));
      if phase.Raised? {
        var again := HandleSquareOff(w);
        phase := Ending;
      }
    }

    /** The `finally` of `run()`: honour a request that nothing has carried out. */
    method Finish(w: World)
      requires Valid() && phase.Ending?
      modifies this
      ensures Valid() && phase.Over? && View() == Next(old(View()), setup, Finishing(w))
    {
      StepKeepsInv(View(), setup, Finishing(w));
      if requested {
        var again := HandleSquareOff(w);
      }
      phase := Over;
    }

    /** One item of the feed, or of another thread. */
    method Take(e: Event)
      requires Valid() && !e.Forcing? && !e.Finishing? && !phase.Over?
      modifies this
      ensures Valid() && View() == Next(old(View()), setup, e) && !phase.Over?
      ensures e.FeedEnds? ==> !phase.Running?
    {
      StepKeepsInv(View(), setup, e);
      match e
      case Ticked(tick, w) =>
        if phase.Running? {
          var raised := OnTickAt(tick, w);
          if raised {
            phase := Raised;
          }
        }
      case FeedEnds =>
        if phase.Running? {
          phase := Ending;
        }
      case FeedRaises =>
        if phase.Running? {
          phase := Raised;
        }
      case Blocking => BlockEntries();
      case Requesting => RequestSquareOff();
    }

    /** Closes the book's positions in turn; stops at one that raises. */
    method CloseEach(w: World) returns (raised: bool)
      requires Valid() && !squaredOff
      modifies this`book, this`guard, this`tracked
      ensures CloseAll(old(View()), setup, w) == if raised then View() else Completed(View())
      ensures Valid() && (!raised ==> book.held == map[]) && phase == old(phase)
      ensures raised == old(!View().Flat() && Current(book) !in w.legs)
    {
      ghost var goal := CloseAll(View(), setup, w);
      raised := false;
      while book.held != map[]
        invariant CloseAll(View(), setup, w) == goal && Valid() && !squaredOff
        invariant book.held == old(book.held) || book.held == map[]
        invariant !raised && (book.held == map[] ==> old(View().Flat() || Current(book) in w.legs))
        decreases |book.held|
      {
        var id :| id in book.held;
        CurrentIsTheOne(View(), setup);
        assert id in book.held.Keys;
        CloseKeepsInv(View(), setup, id, w);
        Fewer(book.held, id);
        raised := CloseAt(id, w);
        if raised {
          return;
        }
      }
    }

    /** `_close`. */
    method CloseAt(id: string, w: World) returns (raised: bool)
      requires id in book.held
      modifies this`book, this`guard, this`tracked
      ensures View() == Close(old(View()), setup, id, w) && raised == (id !in w.legs)
    {
      if id !in w.legs {
        return true;
      }
      var trade := Book.TradeOf(book.held[id], Book.EntryCharges(book, id), w.legs[id]);
      book := Book.Left(book, id, Some(w.legs[id]));
      if guard.Some? && setup.limits.Some? {
        guard := Some(DailyGuard.Registered(guard.value, setup.limits.value, trade.NetPnl()));
      }
      if setup.premium {
        tracked := None;
      }
      raised := false;
    }

    /** `_open` of the pending entry, then forgetting it; a raise leaves it pending. */
    method OpenPending(tick: Tick, w: World) returns (raised: bool)
      requires pending.Some?
      modifies this`book, this`pending, this`tracked
      ensures View() == Open(old(View()), setup, tick, w)
      ensures raised == old(pending.value.contract.security in book.held || pending.value.contract.security !in w.legs)
    {
      var p := pending.value;
      var id := p.contract.security;
      if id in book.held || id !in w.legs {
        return true;
      }
      var o := Book.Order(p.contract, p.side, setup.lots, tick.time, None, None);
      book := Book.Entered(book, o, Some(w.legs[id]));
      if setup.premium {
        tracked := Some(id);
      }
      pending := None;
      raised := false;
    }

    /** `_on_option_tick`. */
    method OnOptionTickAt(tick: Tick, w: World) returns (raised: bool)
      requires requested == false && !w.due && tick.security != setup.underlying
      modifies this
      ensures View() == OnOptionTick(old(View()), setup, tick, w) && raised == old(Raises(View(), setup, tick, w))
    {
      raised := false;
      if tick.security in book.held {
        ghost var before := View();
        book := Book.Priced(book, tick.security, tick.price);
        var exit := w.riskExit || w.tickExit;
        if !exit {
          exit := CheckMtm(book.held[tick.security].UnrealisedPnl());
        }
        if !exit {
          exit := setup.premium && tracked == Some(tick.security) && w.premiumBar && !Replayed(View(), tick.time) && w.premiumExit;
        }
        if exit {
          raised := CloseAt(tick.security, w);
        }
        return;
      }
      if pending.Some? && book.held == map[] && tick.security == pending.value.contract.security {
        if w.canEnter {
          raised := OpenPending(tick, w);
        } else {
          pending := None;
        }
      }
    }

    /** The guard's live check; true when it halts the day at this very tick. */
    method CheckMtm(pnl: real) returns (halts: bool)
      modifies this`guard
      ensures guard == Mtm(old(View()), setup, pnl)
      ensures halts == (View().Halted() && !old(View().Halted()))
    {
      if guard.None? || setup.limits.None? {
        return false;
      }
      var was := guard.value.Halted();
      guard := Some(DailyGuard.Checked(guard.value, setup.limits.value, pnl));
      halts := guard.value.Halted() && !was;
    }

    /** `_on_underlying_tick`. */
    method OnUnderlyingTickAt(tick: Tick, w: World) returns (raised: bool)
      requires Valid()
      modifies this
      ensures View() == OnUnderlyingTick(old(View()), setup, tick, w)
      ensures raised == old(w.sessionOpen && w.bar.WholeBar? && !View().Flat()
                            && CandleAsks(View(), tick.time, w, Current(book)) && Current(book) !in w.legs)
    {
      spot := Some(tick.price);
      raised := false;
      if !w.sessionOpen {
        return;
      }
      if w.bar.WholeBar? {
        raised := OnCandleCloseAt(tick.time, w);
      }
    }

    /** `_on_candle_close`. */
    method OnCandleCloseAt(ts: int, w: World) returns (raised: bool)
      requires Valid()
      modifies this
      ensures View() == OnCandleClose(old(View()), setup, ts, w)
      ensures raised == old(!View().Flat() && CandleAsks(View(), ts, w, Current(book)) && Current(book) !in w.legs)
    {
      raised := false;
      if watermark.Some? && ts <= watermark.value {
        return;
      }
      if w.signal.None? {
        return;
      }
      if book.held != map[] {
        var id :| id in book.held;
        CurrentIsTheOne(View(), setup);
        assert id in book.held.Keys;
        if w.signal.value.Exit? {
          raised := CloseAt(id, w);
          return;
        }
        if SameLeg(book.held[id], w.signal.value) {
          return;
        }
        raised := CloseAt(id, w);
        if raised {
          return;
        }
      }
      if w.signal.value.Enter? && w.canEnter {
        EnterOn(w.signal.value, w);
      }
    }

    /** `_enter`: queue the selected contract, to fill at its next tick. */
    method EnterOn(signal: Signal, w: World)
      requires signal.Enter?
      modifies this`pending
      ensures View() == Queue(old(View()), w, signal)
    {
      if blocked {
        return;
      }
      if guard.Some? && guard.value.Halted() {
        return;
      }
      if spot.None? || signal.optionType.None? {
        return;
      }
      pending := Some(Pending(w.selected, signal.side));
    }
  }
}
