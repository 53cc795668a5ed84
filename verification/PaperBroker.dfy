/**
 `PaperBroker`: validation, market fills, and the book of resting limit orders.

 Instrument rules, the clock, the session and the split policy are an operation's surroundings.
 */
module PaperBroker {
  import opened Prelude
  import opened Quotes
  import opened TickPrices
  import Ledger
  import OrderLifecycle
  import Book

  type Positive = n: int | n > 0 witness 1
  type PositiveReal = x: real | x > 0.0 witness 1.0
  type NonNegative = x: real | x >= 0.0

  datatype Kind = Market | Limit(price: Option<real>)

  datatype Intent = Intent(id: string, security: string, side: Side, quantity: int, kind: Kind, allowed: bool)

  datatype Rules = Rules(lotSize: Option<Positive>, tick: Option<PositiveReal>, maxQuantity: Option<int>)

  datatype Slippage = Ticks(n: NonNegative) | Points(p: NonNegative) | BasisPoints(b: NonNegative)

  datatype Config = Config(
    slippage: Slippage, latency: nat, maxAge: Option<Positive>, tick: Option<PositiveReal>,
    fallback: bool, extraTicks: NonNegative, refuseClosed: bool, refusedIds: set<string>)

  datatype Code =
    | InvalidInstrument | InvalidQuantity | InvalidTickPrice | StaleQuote | NoDepth | MarketClosed
    | RiskBlocked | DuplicateCorrelationId | InjectedFailure

  /** The instrument master: not wired in, not knowing the instrument, or listing it. */
  datatype Master = NoMaster | Unknown | Listed(rules: Rules)

  datatype World = World(master: Master, marketOpen: Option<bool>, now: int, split: seq<int>)

  /** A fill, with the quote it was priced against. */
  datatype Fill = Fill(id: nat, quantity: int, price: real, quote: Quote, latencyApplied: bool)

  /** An order, with the intent and the quote it was submitted under. */
  datatype Order = Order(
    intent: Intent, submitted: Quote, status: Ledger.Status, filled: int, average: Option<real>, fills: seq<Fill>)

  datatype Working = Working(intent: Intent, eligibleAt: int)

  /** `working` in the order of submission. */
  datatype State = State(
    orders: map<string, Order>, working: seq<Working>, sequence: nat, unlatent: nat, rejections: map<Code, nat>)

  const NO_ORDERS := State(map[], [], 1, 0, map[])

  /** A fault is a programming error of the split policy, not a refusal. */
  datatype Result = Accepted(order: Order) | Refused(code: Code) | Fault

  // ------------------------------------------------------------------ validation

  const NO_RULES := Rules(None, None, None)

  function RulesOf(w: World): Rules {
    if w.master.Listed? then w.master.rules else NO_RULES
  }

  function TickOf(c: Config, r: Rules): Option<PositiveReal> {
    if r.tick.Some? then r.tick else c.tick
  }

  predicate OffGrid(limit: real, tick: PositiveReal) {
    var steps := limit / tick;
    Abs(steps - Round(steps) as real) > EPSILON * Max(1.0, Abs(steps))
  }

  function LimitRefusal(kind: Kind, tick: Option<PositiveReal>): Option<Code> {
    if kind.Market? then None
    else if kind.price.None? || kind.price.value <= 0.0 then Some(InvalidTickPrice)
    else if tick.Some? && OffGrid(kind.price.value, tick.value) then Some(InvalidTickPrice)
    else None
  }

  /** `_validate`: the first rule that refuses, in the source's order. */
  function Refusal(s: State, c: Config, i: Intent, q: Quote, w: World): Option<Code> {
    var r := RulesOf(w);
    var age := w.now - q.at;
    if i.id in s.orders then Some(DuplicateCorrelationId)
    else if i.id in c.refusedIds then Some(InjectedFailure)
    else if !i.allowed then Some(RiskBlocked)
    else if q.security != i.security then Some(InvalidInstrument)
    else if w.master.Unknown? then Some(InvalidInstrument)
    else if i.quantity <= 0 then Some(InvalidQuantity)
    else if r.lotSize.Some? && i.quantity % r.lotSize.value != 0 then Some(InvalidQuantity)
    else if r.maxQuantity.Some? && i.quantity > r.maxQuantity.value then Some(InvalidQuantity)
    else if LimitRefusal(i.kind, TickOf(c, r)).Some? then LimitRefusal(i.kind, TickOf(c, r))
    else if c.maxAge.Some? && age >= 0 && age > c.maxAge.value then Some(StaleQuote)
    else if c.refuseClosed && w.marketOpen == Some(false) then Some(MarketClosed)
    else if !q.HasDepth() && !c.fallback then Some(NoDepth)
    else None
  }

  // ------------------------------------------------------------------ pricing

  /** The side of the quote a market order trades against, or its last price without depth. */
  function Touch(q: Quote, side: Side): real {
    if !q.HasDepth() then q.last else if side == Buy then q.ask.value else q.bid.value
  }

  /** `SlippageConfig.amount`; None when it is in ticks nobody knows. */
  function Amount(s: Slippage, base: real, tick: Option<PositiveReal>): Option<real> {
    match s
    case Points(p) => Some(p)
    case BasisPoints(b) => Some(base * b / 10_000.0)
    case Ticks(n) => if tick.None? then None else Some(n * tick.value)
  }

  function Extra(c: Config, q: Quote, tick: Option<PositiveReal>): real {
    if q.HasDepth() || tick.None? then 0.0 else c.extraTicks * tick.value
  }

  /** `_market_price`, or why there is none. */
  function MarketPrice(c: Config, side: Side, q: Quote, tick: Option<PositiveReal>): (r: Option<real>)
    ensures r.Some? ==>
              && Amount(c.slippage, Touch(q, side), tick).Some?
              && r.value == FillPrice(Slipped(Touch(q, side), Amount(c.slippage, Touch(q, side), tick).value + Extra(c, q, tick), side), tick, side)
  {
    var amount := Amount(c.slippage, Touch(q, side), tick);
    if (!q.HasDepth() && !c.fallback) || amount.None? then None
    else
      var price := Slipped(Touch(q, side), amount.value + Extra(c, q, tick), side);
      if OnGrid(price, tick, side) <= 0.0 then None else Some(FillPrice(price, tick, side))
  }

  /** Why `MarketPrice` answers none. */
  function PriceRefusal(c: Config, q: Quote): Code {
    if !q.HasDepth() && !c.fallback then NoDepth else InvalidTickPrice
  }

  /** Slippage in ticks nobody knows raises by itself: that refusal is not counted. */
  predicate CountsPriceRefusal(c: Config, side: Side, q: Quote, tick: Option<PositiveReal>) {
    (!q.HasDepth() && !c.fallback) || Amount(c.slippage, Touch(q, side), tick).Some?
  }

  /** `_select_quote`: the quote to price against, and whether it met the latency deadline. */
  function Selected(c: Config, book: Option<map<string, seq<Quote>>>, q: Quote): (Quote, bool) {
    if book.None? || c.latency == 0 then (q, false)
    else
      var later := FirstFrom(Retained(book.value, q.security), q.at + c.latency);
      if later.None? then (q, false) else (later.value, true)
  }

  // ------------------------------------------------------------------ fills

  function Sum(qs: seq<int>): int {
    if qs == [] then 0 else qs[0] + Sum(qs[1..])
  }

  /** `_fill_quantities` accepts the policy's answer. */
  predicate Splits(qs: seq<int>, quantity: int) {
    qs != [] && (forall i | 0 <= i < |qs| :: qs[i] > 0) && Sum(qs) <= quantity
  }

  function Fills(qs: seq<int>, price: real, q: Quote, applied: bool, first: nat): seq<Fill> {
    seq(|qs|, i requires 0 <= i < |qs| => Fill(first + i, qs[i], price, q, applied))
  }

  function Total(fs: seq<Fill>): int {
    if fs == [] then 0 else fs[0].quantity + Total(fs[1..])
  }

  function Notional(fs: seq<Fill>): real {
    if fs == [] then 0.0 else fs[0].price * fs[0].quantity as real + Notional(fs[1..])
  }

  /** `_build_order`. */
  function Built(i: Intent, submitted: Quote, fs: seq<Fill>): Order
    requires Total(fs) != 0
  {
    Order(i, submitted, if Total(fs) >= i.quantity then Ledger.Filled else Ledger.PartiallyFilled, Total(fs),
          Some(RoundTo(Notional(fs) / Total(fs) as real, 10_000.0)), fs)
  }

  lemma {:induction false} TotalOfFills(qs: seq<int>, price: real, q: Quote, applied: bool, first: nat)
    ensures Total(Fills(qs, price, q, applied, first)) == Sum(qs)
    decreases |qs|
  {
    if qs != [] {
      var fs := Fills(qs, price, q, applied, first);
      assert fs[1..] == Fills(qs[1..], price, q, applied, first + 1);
      TotalOfFills(qs[1..], price, q, applied, first + 1);
    }
  }

  lemma {:induction false} SumIsPositive(qs: seq<int>)
    requires forall i | 0 <= i < |qs| :: qs[i] > 0
    ensures Sum(qs) >= |qs|
  {
    if qs != [] {
      SumIsPositive(qs[1..]);
    }
  }

  // ------------------------------------------------------------------ submit

  function Counted(s: State, code: Code): State {
    s.(rejections := s.rejections[code := (if code in s.rejections then s.rejections[code] else 0) + 1])
  }

  function MarketOrder(s: State, i: Intent, submitted: Quote, price: real, selected: (Quote, bool), split: seq<int>): Order
    requires Splits(split, i.quantity)
  {
    TotalOfFills(split, price, selected.0, selected.1, s.sequence);
    SumIsPositive(split);
    Built(i, submitted, Fills(split, price, selected.0, selected.1, s.sequence))
  }

  function RestingOrder(i: Intent, q: Quote): Order {
    Order(i, q, Ledger.Submitted, 0, None, [])
  }

  function SubmitResult(s: State, c: Config, book: Option<map<string, seq<Quote>>>, i: Intent, q: Quote, w: World): Result {
    var refusal := Refusal(s, c, i, q, w);
    if refusal.Some? then Refused(refusal.value)
    else if i.kind.Limit? then Accepted(RestingOrder(i, q))
    else
      var selected := Selected(c, book, q);
      var price := MarketPrice(c, i.side, selected.0, TickOf(c, RulesOf(w)));
      if price.None? then Refused(PriceRefusal(c, selected.0))
      else if !Splits(w.split, i.quantity) then Fault
      else Accepted(MarketOrder(s, i, q, price.value, selected, w.split))
  }

  /** The order got as far as pricing, and its refusal is one the counters miss. */
  predicate Uncounted(s: State, c: Config, book: Option<map<string, seq<Quote>>>, i: Intent, q: Quote, w: World) {
    Refusal(s, c, i, q, w).None? && !CountsPriceRefusal(c, i.side, Selected(c, book, q).0, TickOf(c, RulesOf(w)))
  }

  function Submitted(s: State, c: Config, book: Option<map<string, seq<Quote>>>, i: Intent, q: Quote, w: World): State {
    var r := SubmitResult(s, c, book, i, q, w);
    var late := Refusal(s, c, i, q, w).None? && i.kind.Market? && !Selected(c, book, q).1;
    var t := if late then s.(unlatent := s.unlatent + 1) else s;
    match r
    case Refused(code) => if Uncounted(s, c, book, i, q, w) then t else Counted(t, code)
    case Fault => t
    case Accepted(order) =>
      if i.kind.Limit? then
        t.(orders := t.orders[i.id := order], working := t.working + [Working(i, q.at + c.latency)])
      else
        t.(orders := t.orders[i.id := order], sequence := t.sequence + |w.split|)
  }

  // ------------------------------------------------------------------ settlement

  /** The price a resting order compares with its limit. */
  function Candidate(c: Config, side: Side, q: Quote): Option<real> {
    var touch := if side == Buy then q.ask else q.bid;
    if touch.Some? then touch else if c.fallback then Some(q.last) else None
  }

  predicate Reaches(c: Config, side: Side, limit: real, q: Quote) {
    var candidate := Candidate(c, side, q);
    candidate.Some? && if side == Buy then candidate.value <= limit else candidate.value >= limit
  }

  /** The quote may fill this resting order, and does. */
  predicate Eligible(c: Config, k: Working, q: Quote) {
    && k.intent.security == q.security && q.at >= k.eligibleAt
    && k.intent.kind.Limit? && k.intent.kind.price.Some? && Reaches(c, k.intent.side, k.intent.kind.price.value, q)
  }

  function Without(ks: seq<Working>, id: string): seq<Working> {
    if ks == [] then []
    else Without(ks[..|ks| - 1], id) + if ks[|ks| - 1].intent.id == id then [] else [ks[|ks| - 1]]
  }

  function Settled(s: State, k: Working, q: Quote, split: seq<int>): State
    requires k.intent.id in s.orders && k.intent.kind.Limit? && k.intent.kind.price.Some?
    requires Splits(split, k.intent.quantity)
  {
    TotalOfFills(split, k.intent.kind.price.value, q, true, s.sequence);
    SumIsPositive(split);
    var fills := Fills(split, k.intent.kind.price.value, q, true, s.sequence);
    s.(orders := s.orders[k.intent.id := Built(k.intent, s.orders[k.intent.id].submitted, fills)],
       working := Without(s.working, k.intent.id), sequence := s.sequence + |split|)
  }

  /** `on_quote`, over the orders resting when it began; a fault of the policy stops it. */
  function Offered(s: State, c: Config, q: Quote, ks: seq<Working>, splits: string -> seq<int>): State
    decreases |ks|
  {
    if ks == [] then s
    else if !Eligible(c, ks[0], q) || ks[0].intent.id !in s.orders then Offered(s, c, q, ks[1..], splits)
    else if !Splits(splits(ks[0].intent.id), ks[0].intent.quantity) then s
    else Offered(Settled(s, ks[0], q, splits(ks[0].intent.id)), c, q, ks[1..], splits)
  }

  // ------------------------------------------------------------------ runs

  datatype Event =
    | Submission(intent: Intent, quote: Quote, world: World)
    | Quoting(quote: Quote, splits: string -> seq<int>)

  function Next(s: State, c: Config, book: Option<map<string, seq<Quote>>>, e: Event): State {
    match e
    case Submission(i, q, w) => Submitted(s, c, book, i, q, w)
    case Quoting(q, splits) => Offered(s, c, q, s.working, splits)
  }

  /** Each event with what the quote book holds at that moment, if there is one. */
  datatype Step = Step(book: Option<map<string, seq<Quote>>>, event: Event)

  function Run(c: Config, steps: seq<Step>): State {
    if steps == [] then NO_ORDERS
    else Next(Run(c, steps[..|steps| - 1]), c, steps[|steps| - 1].book, steps[|steps| - 1].event)
  }

  // ------------------------------------------------------------------ the invariant

  /** Every fill's number is its own: they count up within the order. */
  ghost predicate Numbered(fs: seq<Fill>, next: nat) {
    && (forall j, k | 0 <= j < k < |fs| :: fs[j].id < fs[k].id)
    && (forall j | 0 <= j < |fs| :: fs[j].id < next)
  }

  /** The quote is at or through the limit on the side it trades against, or on its last price where that is allowed. */
  predicate Met(c: Config, side: Side, limit: real, q: Quote) {
    match side
    case Buy => if q.ask.Some? then q.ask.value <= limit else c.fallback && q.last <= limit
    case Sell => if q.bid.Some? then limit <= q.bid.value else c.fallback && limit <= q.last
  }

  /** A limit fill: at the limit itself, from a quote that met it, no earlier than submission plus latency. */
  ghost predicate LimitFill(c: Config, o: Order, f: Fill) {
    && o.intent.kind.Limit? && o.intent.kind.price.Some? && f.price == o.intent.kind.price.value
    && f.quote.security == o.intent.security && f.quote.at >= o.submitted.at + c.latency
    && Met(c, o.intent.side, o.intent.kind.price.value, f.quote)
  }

  ghost predicate OrderOk(c: Config, o: Order, next: nat) {
    && o.filled == Total(o.fills) <= o.intent.quantity
    && (forall j | 0 <= j < |o.fills| :: o.fills[j].quantity > 0)
    && (o.fills == [] <==> o.status == Ledger.Submitted)
    && (o.fills != [] ==> (o.status == Ledger.Filled <==> o.filled == o.intent.quantity)
                          && (o.status != Ledger.Filled ==> o.status == Ledger.PartiallyFilled))
    && (o.fills == [] ==> o.intent.kind.Limit? && o.average.None?)
    && (o.intent.kind.Limit? ==> forall j | 0 <= j < |o.fills| :: LimitFill(c, o, o.fills[j]))
    && Numbered(o.fills, next)
  }

  /** A working order is an order without fills yet. */
  ghost predicate WorkingOk(s: State, c: Config, k: Working) {
    && k.intent.id in s.orders && s.orders[k.intent.id].fills == [] && s.orders[k.intent.id].intent == k.intent
    && k.eligibleAt == s.orders[k.intent.id].submitted.at + c.latency
  }

  ghost predicate Distinct(ks: seq<Working>) {
    forall j, k | 0 <= j < k < |ks| :: ks[j].intent.id != ks[k].intent.id
  }

  ghost predicate InWork(ks: seq<Working>, id: string) {
    exists k :: k in ks && k.intent.id == id
  }

  ghost predicate AllInWork(s: State) {
    forall id | id in s.orders && s.orders[id].fills == [] :: InWork(s.working, id)
  }

  /** Every order without fills is resting in the working book, once, and nothing else is. */
  ghost predicate Inv(s: State, c: Config) {
    OrdersOk(s, c) && AllInWork(s)
  }

  ghost predicate OrdersOk(s: State, c: Config) {
    && (forall id | id in s.orders :: s.orders[id].intent.id == id && OrderOk(c, s.orders[id], s.sequence))
    && (forall j | 0 <= j < |s.working| :: WorkingOk(s, c, s.working[j]))
    && Distinct(s.working)
  }

  /** An order keeps its intent, and once it has fills it never changes again. */
  ghost predicate Kept(o: Order, later: Order) {
    later.intent == o.intent && later.submitted == o.submitted && (o.fills != [] ==> later == o)
  }

  ghost predicate AllKept(s: State, t: State) {
    forall id | id in s.orders :: id in t.orders && Kept(s.orders[id], t.orders[id])
  }

  lemma BuiltIsOk(c: Config, i: Intent, submitted: Quote, split: seq<int>, price: real, q: Quote, applied: bool, first: nat)
    requires Splits(split, i.quantity)
    ensures var fs := Fills(split, price, q, applied, first);
            && Total(fs) == Sum(split) > 0 && fs != []
            && (i.kind.Market? || (i.kind.price == Some(price) && q.security == i.security && q.at >= submitted.at + c.latency
                                   && Met(c, i.side, price, q))
                ==> OrderOk(c, Built(i, submitted, fs), first + |split|))
  {
    TotalOfFills(split, price, q, applied, first);
    SumIsPositive(split);
  }

  lemma LaterNumberIsOk(c: Config, o: Order, next: nat, later: nat)
    requires OrderOk(c, o, next) && next <= later
    ensures OrderOk(c, o, later)
  {
  }

  /** A submission that is not accepted leaves every order, the working book and the fill numbers alone. */
  lemma RefusalChangesNothing(s: State, c: Config, book: Option<map<string, seq<Quote>>>, i: Intent, q: Quote, w: World)
    requires !SubmitResult(s, c, book, i, q, w).Accepted?
    ensures var t := Submitted(s, c, book, i, q, w);
            t.orders == s.orders && t.working == s.working && t.sequence == s.sequence
  {
  }

  /** An accepted one adds its order under a new ID, resting or with its fills. */
  lemma AcceptanceAddsOne(s: State, c: Config, book: Option<map<string, seq<Quote>>>, i: Intent, q: Quote, w: World)
    requires SubmitResult(s, c, book, i, q, w).Accepted?
    ensures var t, order := Submitted(s, c, book, i, q, w), SubmitResult(s, c, book, i, q, w).order;
            && i.id !in s.orders && t.orders == s.orders[i.id := order]
            && order.intent == i && order.submitted == q
            && s.sequence <= t.sequence && OrderOk(c, order, t.sequence)
            && (if i.kind.Limit? then order.fills == [] && t.working == s.working + [Working(i, q.at + c.latency)]
                else t.working == s.working)
  {
    if i.kind.Market? {
      var selected := Selected(c, book, q);
      var price := MarketPrice(c, i.side, selected.0, TickOf(c, RulesOf(w))).value;
      BuiltIsOk(c, i, q, w.split, price, selected.0, selected.1, s.sequence);
    }
  }

  /** The tables after one more order: with fills, or resting under a new ID. */
  ghost predicate Adds(s: State, t: State, c: Config, order: Order) {
    && order.intent.id !in s.orders && t.orders == s.orders[order.intent.id := order] && s.sequence <= t.sequence
    && if order.fills == [] then t.working == s.working + [Working(order.intent, order.submitted.at + c.latency)]
       else t.working == s.working
  }

  lemma NewOrderKeepsOrders(s: State, t: State, c: Config, order: Order)
    requires OrdersOk(s, c) && Adds(s, t, c, order) && OrderOk(c, order, t.sequence)
    ensures OrdersOk(t, c)
  {
    forall id | id in t.orders ensures t.orders[id].intent.id == id && OrderOk(c, t.orders[id], t.sequence) {
      if id != order.intent.id {
        LaterNumberIsOk(c, s.orders[id], s.sequence, t.sequence);
      }
    }
    forall j | 0 <= j < |t.working| ensures WorkingOk(t, c, t.working[j]) {
      assert j < |s.working| ==> WorkingOk(s, c, s.working[j]);
    }
  }

  lemma NewOrderKeepsWork(s: State, t: State, c: Config, order: Order)
    requires AllInWork(s) && Adds(s, t, c, order)
    ensures AllInWork(t)
  {
    forall id | id in t.orders && t.orders[id].fills == [] ensures InWork(t.working, id) {
      if id == order.intent.id {
        assert t.working[|s.working|] in t.working;
      } else {
        assert InWork(s.working, id);
        var k :| k in s.working && k.intent.id == id;
        assert k in t.working;
      }
    }
  }

  lemma SubmissionKeepsInv(s: State, c: Config, book: Option<map<string, seq<Quote>>>, i: Intent, q: Quote, w: World)
    requires Inv(s, c)
    ensures Inv(Submitted(s, c, book, i, q, w), c) && AllKept(s, Submitted(s, c, book, i, q, w))
  {
    var r, t := SubmitResult(s, c, book, i, q, w), Submitted(s, c, book, i, q, w);
    if r.Accepted? {
      AcceptanceAddsOne(s, c, book, i, q, w);
      NewOrderKeepsOrders(s, t, c, r.order);
      NewOrderKeepsWork(s, t, c, r.order);
    } else {
      RefusalChangesNothing(s, c, book, i, q, w);
    }
  }

  lemma {:induction false} WithoutHas(ks: seq<Working>, id: string, k: Working)
    ensures k in Without(ks, id) <==> k in ks && k.intent.id != id
  {
    if ks != [] {
      var init, last := ks[..|ks| - 1], ks[|ks| - 1];
      assert ks == init + [last];
      WithoutHas(init, id, k);
    }
  }

  lemma {:induction false} WithoutIsDistinct(ks: seq<Working>, id: string)
    requires Distinct(ks)
    ensures Distinct(Without(ks, id))
  {
    if ks != [] {
      var init, last := ks[..|ks| - 1], ks[|ks| - 1];
      WithoutIsDistinct(init, id);
      var rest := Without(init, id);
      forall j | 0 <= j < |rest| ensures rest[j].intent.id != last.intent.id {
        WithoutHas(init, id, rest[j]);
        var m :| 0 <= m < |init| && init[m] == rest[j];
        assert ks[m].intent.id != ks[|ks| - 1].intent.id;
      }
    }
  }

  lemma ReachesExactly(c: Config, side: Side, limit: real, q: Quote)
    ensures Reaches(c, side, limit, q) <==> Met(c, side, limit, q)
  {
  }

  lemma SettledOrders(s: State, c: Config, k: Working, q: Quote, split: seq<int>)
    requires OrdersOk(s, c) && WorkingOk(s, c, k) && Eligible(c, k, q) && Splits(split, k.intent.quantity)
    ensures var t := Settled(s, k, q, split);
            && AllKept(s, t) && s.sequence <= t.sequence
            && (forall id | id in t.orders :: t.orders[id].intent.id == id && OrderOk(c, t.orders[id], t.sequence))
            && (forall id | id != k.intent.id && id in s.orders :: id in t.orders && t.orders[id] == s.orders[id])
  {
    var t, id := Settled(s, k, q, split), k.intent.id;
    BuiltIsOk(c, k.intent, s.orders[id].submitted, split, k.intent.kind.price.value, q, true, s.sequence);
    forall other | other in t.orders ensures t.orders[other].intent.id == other && OrderOk(c, t.orders[other], t.sequence) {
      if other != id {
        LaterNumberIsOk(c, s.orders[other], s.sequence, t.sequence);
      }
    }
  }

  lemma StillWorkingOk(s: State, t: State, c: Config, id: string, k: Working)
    requires OrdersOk(s, c) && k in Without(s.working, id)
    requires forall other | other != id && other in s.orders :: other in t.orders && t.orders[other] == s.orders[other]
    ensures WorkingOk(t, c, k)
  {
    WithoutHas(s.working, id, k);
    var m :| 0 <= m < |s.working| && s.working[m] == k;
    assert WorkingOk(s, c, s.working[m]);
  }

  lemma SettledKeepsOrders(s: State, c: Config, k: Working, q: Quote, split: seq<int>)
    requires OrdersOk(s, c) && k in s.working && Eligible(c, k, q) && Splits(split, k.intent.quantity)
    ensures WorkingOk(s, c, k)
    ensures OrdersOk(Settled(s, k, q, split), c) && AllKept(s, Settled(s, k, q, split))
    ensures Settled(s, k, q, split).working == Without(s.working, k.intent.id)
  {
    assert WorkingOk(s, c, k);
    var t := Settled(s, k, q, split);
    SettledOrders(s, c, k, q, split);
    WithoutIsDistinct(s.working, k.intent.id);
    forall j | 0 <= j < |t.working| ensures WorkingOk(t, c, t.working[j]) {
      StillWorkingOk(s, t, c, k.intent.id, t.working[j]);
    }
  }

  /** What settling an order leaves: it is filled as the policy split it, at its limit; every other order is as it was. */
  ghost predicate FilledBy(o: Order, was: Order, q: Quote, split: seq<int>) {
    && o.intent == was.intent && o.submitted == was.submitted && o.filled == Sum(split) && |o.fills| == |split| > 0
    && forall j | 0 <= j < |split| ::
         && o.fills[j].quantity == split[j] && o.fills[j].quote == q && o.fills[j].latencyApplied
         && o.intent.kind.Limit? && o.intent.kind.price == Some(o.fills[j].price)
  }

  lemma SettledFills(s: State, c: Config, k: Working, q: Quote, split: seq<int>)
    requires OrdersOk(s, c) && WorkingOk(s, c, k) && Eligible(c, k, q) && Splits(split, k.intent.quantity)
    ensures var t := Settled(s, k, q, split);
            && FilledBy(t.orders[k.intent.id], s.orders[k.intent.id], q, split)
            && t.orders == s.orders[k.intent.id := t.orders[k.intent.id]]
  {
    TotalOfFills(split, k.intent.kind.price.value, q, true, s.sequence);
  }

  lemma SettledKeepsWork(s: State, c: Config, k: Working, q: Quote, split: seq<int>)
    requires Inv(s, c) && WorkingOk(s, c, k) && Eligible(c, k, q) && Splits(split, k.intent.quantity)
    ensures AllInWork(Settled(s, k, q, split))
  {
    var t := Settled(s, k, q, split);
    SettledFills(s, c, k, q, split);
    forall id | id in t.orders && t.orders[id].fills == [] ensures InWork(t.working, id) {
      assert InWork(s.working, id);
      var other :| other in s.working && other.intent.id == id;
      WithoutHas(s.working, k.intent.id, other);
    }
  }

  lemma SettledKeepsInv(s: State, c: Config, k: Working, q: Quote, split: seq<int>)
    requires Inv(s, c) && k in s.working && Eligible(c, k, q) && Splits(split, k.intent.quantity)
    ensures WorkingOk(s, c, k)
    ensures Inv(Settled(s, k, q, split), c) && AllKept(s, Settled(s, k, q, split))
    ensures Settled(s, k, q, split).working == Without(s.working, k.intent.id)
  {
    SettledKeepsOrders(s, c, k, q, split);
    SettledKeepsWork(s, c, k, q, split);
  }

  lemma KeptOn(s: State, t: State, u: State)
    requires AllKept(s, t) && AllKept(t, u)
    ensures AllKept(s, u)
  {
  }

  /** The orders still to be offered are all still working. */
  ghost predicate AllWorking(s: State, ks: seq<Working>) {
    Distinct(ks) && forall j | 0 <= j < |ks| :: ks[j] in s.working
  }

  lemma OthersStillWork(ks: seq<Working>, k: Working, rest: seq<Working>)
    requires Distinct(ks) && Distinct([k] + rest) && forall j | 0 <= j < |rest| :: rest[j] in ks
    ensures Distinct(rest) && forall j | 0 <= j < |rest| :: rest[j] in Without(ks, k.intent.id)
  {
    var all := [k] + rest;
    forall i, j | 0 <= i < j < |rest| ensures rest[i].intent.id != rest[j].intent.id {
      assert all[i + 1].intent.id != all[j + 1].intent.id;
    }
    forall j | 0 <= j < |rest| ensures rest[j] in Without(ks, k.intent.id) {
      assert all[0].intent.id != all[j + 1].intent.id;
      WithoutHas(ks, k.intent.id, rest[j]);
    }
  }

  lemma {:induction false} OfferedKeepsInv(s: State, c: Config, q: Quote, ks: seq<Working>, splits: string -> seq<int>)
    requires Inv(s, c) && AllWorking(s, ks)
    ensures Inv(Offered(s, c, q, ks, splits), c) && AllKept(s, Offered(s, c, q, ks, splits))
    decreases |ks|
  {
    if ks != [] {
      var k, rest := ks[0], ks[1..];
      assert ks == [k] + rest && k in s.working;
      OthersStillWork(s.working, k, rest);
      if !Eligible(c, k, q) || k.intent.id !in s.orders {
        assert forall j | 0 <= j < |rest| :: rest[j] == ks[j + 1];
        OfferedKeepsInv(s, c, q, rest, splits);
      } else if Splits(splits(k.intent.id), k.intent.quantity) {
        var t := Settled(s, k, q, splits(k.intent.id));
        SettledKeepsInv(s, c, k, q, splits(k.intent.id));
        OfferedKeepsInv(t, c, q, rest, splits);
        KeptOn(s, t, Offered(t, c, q, rest, splits));
      }
    }
  }

  lemma QuotingKeepsInv(s: State, c: Config, q: Quote, splits: string -> seq<int>)
    requires Inv(s, c)
    ensures Inv(Offered(s, c, q, s.working, splits), c) && AllKept(s, Offered(s, c, q, s.working, splits))
  {
    assert AllWorking(s, s.working);
    OfferedKeepsInv(s, c, q, s.working, splits);
  }

  /**
   In every run of submissions and quotes, refusals and faults included: fills are positive, never
   exceed the order, and add up to what it reports; a resting order has none, and a limit order's
   fills are all at its limit, from quotes that reach it no earlier than submission plus latency.
   */
  lemma {:induction false} EveryRunIsSound(c: Config, steps: seq<Step>)
    ensures Inv(Run(c, steps), c)
  {
    if steps != [] {
      var init := steps[..|steps| - 1];
      EveryRunIsSound(c, init);
      var s := Run(c, init);
      match steps[|steps| - 1].event
      case Submission(i, q, w) => SubmissionKeepsInv(s, c, steps[|steps| - 1].book, i, q, w);
      case Quoting(q, splits) => QuotingKeepsInv(s, c, q, splits);
    }
  }

  // ------------------------------------------------------------------ what a quote fills

  /** The quote falls due for this resting order: its instrument, past its latency, at or through its limit. */
  predicate Due(c: Config, k: Working, q: Quote) {
    && k.intent.security == q.security && k.eligibleAt <= q.at
    && k.intent.kind.Limit? && k.intent.kind.price.Some? && Met(c, k.intent.side, k.intent.kind.price.value, q)
  }

  /** The policy splits every due order within its quantity. */
  ghost predicate Faultless(c: Config, ks: seq<Working>, q: Quote, splits: string -> seq<int>) {
    forall k | k in ks && Due(c, k, q) ::
      var split := splits(k.intent.id);
      split != [] && (forall i | 0 <= i < |split| :: split[i] > 0) && Sum(split) <= k.intent.quantity
  }

  /** Of these orders, exactly the due ones leave the working book. */
  ghost predicate WorkServed(before: seq<Working>, after: seq<Working>, c: Config, ks: seq<Working>, q: Quote) {
    forall k :: k in after <==> k in before && !(k in ks && Due(c, k, q))
  }

  /** This order is one of these, and due. */
  ghost predicate IsDue(c: Config, ks: seq<Working>, q: Quote, id: string) {
    exists k :: k in ks && Due(c, k, q) && k.intent.id == id
  }

  /** Exactly the due ones are filled, as the policy split them. */
  ghost predicate OrdersServed(before: map<string, Order>, after: map<string, Order>, c: Config, ks: seq<Working>,
                               q: Quote, splits: string -> seq<int>) {
    && after.Keys == before.Keys
    && forall id | id in before ::
         if IsDue(c, ks, q, id) then FilledBy(after[id], before[id], q, splits(id)) else after[id] == before[id]
  }

  lemma WorkServedFirst(before: seq<Working>, after: seq<Working>, c: Config, k: Working, rest: seq<Working>, q: Quote)
    requires Distinct(before) && k in before && Due(c, k, q)
    requires WorkServed(Without(before, k.intent.id), after, c, rest, q)
    ensures WorkServed(before, after, c, [k] + rest, q)
  {
    forall other ensures other in after <==> other in before && !(other in [k] + rest && Due(c, other, q)) {
      WithoutHas(before, k.intent.id, other);
    }
  }

  lemma OrdersServedFirst(before: map<string, Order>, first: map<string, Order>, after: map<string, Order>, c: Config,
                          k: Working, rest: seq<Working>, q: Quote, splits: string -> seq<int>)
    requires Due(c, k, q) && Distinct([k] + rest) && k.intent.id in before && first.Keys == before.Keys
    requires first == before[k.intent.id := first[k.intent.id]]
    requires FilledBy(first[k.intent.id], before[k.intent.id], q, splits(k.intent.id))
    requires OrdersServed(first, after, c, rest, q, splits)
    ensures OrdersServed(before, after, c, [k] + rest, q, splits)
  {
    forall id | id in before
      ensures if IsDue(c, [k] + rest, q, id) then FilledBy(after[id], before[id], q, splits(id)) else after[id] == before[id]
    {
      DueAmong(c, k, rest, q, id);
    }
  }

  lemma DueAmong(c: Config, k: Working, rest: seq<Working>, q: Quote, id: string)
    requires Distinct([k] + rest)
    ensures IsDue(c, [k] + rest, q, id) <==> (Due(c, k, q) && id == k.intent.id) || IsDue(c, rest, q, id)
    ensures id == k.intent.id ==> !IsDue(c, rest, q, id)
  {
    if IsDue(c, [k] + rest, q, id) {
      var other :| other in [k] + rest && Due(c, other, q) && other.intent.id == id;
    }
    if Due(c, k, q) && id == k.intent.id {
      assert k in [k] + rest;
    }
    if IsDue(c, rest, q, id) {
      var other :| other in rest && Due(c, other, q) && other.intent.id == id;
      var j :| 0 <= j < |rest| && rest[j] == other;
      assert ([k] + rest)[0].intent.id != ([k] + rest)[j + 1].intent.id;
      assert other in [k] + rest;
    }
  }

  lemma DueIsEligible(c: Config, k: Working, q: Quote)
    ensures Due(c, k, q) <==> Eligible(c, k, q)
  {
    if k.intent.kind.Limit? && k.intent.kind.price.Some? {
      ReachesExactly(c, k.intent.side, k.intent.kind.price.value, q);
    }
  }

  lemma IsWorking(s: State, c: Config, k: Working)
    requires OrdersOk(s, c) && k in s.working
    ensures WorkingOk(s, c, k)
  {
    var m :| 0 <= m < |s.working| && s.working[m] == k;
  }

  lemma FaultlessFirst(c: Config, q: Quote, k: Working, rest: seq<Working>, splits: string -> seq<int>)
    requires Faultless(c, [k] + rest, q, splits)
    ensures Faultless(c, rest, q, splits) && (Due(c, k, q) ==> Splits(splits(k.intent.id), k.intent.quantity))
  {
    assert k in [k] + rest;
    assert forall other | other in rest :: other in [k] + rest;
  }

  lemma AllInTheRest(work: seq<Working>, k: Working, rest: seq<Working>)
    requires forall j | 0 <= j < |[k] + rest| :: ([k] + rest)[j] in work
    ensures k in work && forall j | 0 <= j < |rest| :: rest[j] in work
  {
    assert ([k] + rest)[0] == k;
    assert forall j | 0 <= j < |rest| :: rest[j] == ([k] + rest)[j + 1];
  }

  lemma RestOfThem(s: State, c: Config, q: Quote, k: Working, rest: seq<Working>)
    requires Distinct(s.working) && AllWorking(s, [k] + rest)
    ensures k in s.working && AllWorking(s, rest)
    ensures forall j | 0 <= j < |rest| :: rest[j] in Without(s.working, k.intent.id)
  {
    AllInTheRest(s.working, k, rest);
    OthersStillWork(s.working, k, rest);
  }

  lemma {:induction false} OfferedServes(s: State, c: Config, q: Quote, ks: seq<Working>, splits: string -> seq<int>)
    requires Inv(s, c) && AllWorking(s, ks) && Faultless(c, ks, q, splits)
    ensures WorkServed(s.working, Offered(s, c, q, ks, splits).working, c, ks, q)
    ensures OrdersServed(s.orders, Offered(s, c, q, ks, splits).orders, c, ks, q, splits)
    decreases |ks|, 0
  {
    if ks != [] {
      var k, rest := ks[0], ks[1..];
      assert ks == [k] + rest;
      RestOfThem(s, c, q, k, rest);
      IsWorking(s, c, k);
      FaultlessFirst(c, q, k, rest, splits);
      DueIsEligible(c, k, q);
      if Due(c, k, q) {
        OfferedServesDue(s, c, q, k, rest, splits);
      } else {
        OfferedServes(s, c, q, rest, splits);
        forall id | id in s.orders ensures IsDue(c, ks, q, id) == IsDue(c, rest, q, id) {
          DueAmong(c, k, rest, q, id);
        }
      }
    }
  }

  lemma SettlingServesOne(s: State, c: Config, q: Quote, k: Working, split: seq<int>)
    requires Inv(s, c) && k in s.working && Due(c, k, q) && Splits(split, k.intent.quantity)
    ensures WorkingOk(s, c, k)
    ensures var t := Settled(s, k, q, split);
            && Inv(t, c) && t.working == Without(s.working, k.intent.id) && t.orders.Keys == s.orders.Keys
            && t.orders == s.orders[k.intent.id := t.orders[k.intent.id]]
            && FilledBy(t.orders[k.intent.id], s.orders[k.intent.id], q, split)
  {
    DueIsEligible(c, k, q);
    SettledKeepsInv(s, c, k, q, split);
    SettledFills(s, c, k, q, split);
  }

  lemma OfferingFirst(s: State, c: Config, q: Quote, k: Working, rest: seq<Working>, splits: string -> seq<int>)
    requires WorkingOk(s, c, k) && Due(c, k, q) && Splits(splits(k.intent.id), k.intent.quantity)
    ensures Offered(s, c, q, [k] + rest, splits) == Offered(Settled(s, k, q, splits(k.intent.id)), c, q, rest, splits)
  {
    DueIsEligible(c, k, q);
    assert ([k] + rest)[0] == k && ([k] + rest)[1..] == rest;
  }

  lemma {:induction false} OfferedServesDue(s: State, c: Config, q: Quote, k: Working, rest: seq<Working>, splits: string -> seq<int>)
    requires Inv(s, c) && AllWorking(s, [k] + rest) && Faultless(c, [k] + rest, q, splits) && Due(c, k, q)
    ensures var u := Offered(s, c, q, [k] + rest, splits);
            WorkServed(s.working, u.working, c, [k] + rest, q) && OrdersServed(s.orders, u.orders, c, [k] + rest, q, splits)
    decreases |rest|, 1
  {
    RestOfThem(s, c, q, k, rest);
    FaultlessFirst(c, q, k, rest, splits);
    SettlingServesOne(s, c, q, k, splits(k.intent.id));
    OfferingFirst(s, c, q, k, rest, splits);
    var t := Settled(s, k, q, splits(k.intent.id));
    OfferedServes(t, c, q, rest, splits);
    ServedFirst(s, t, Offered(t, c, q, rest, splits), c, k, rest, q, splits);
  }

  lemma ServedFirst(s: State, t: State, u: State, c: Config, k: Working, rest: seq<Working>, q: Quote, splits: string -> seq<int>)
    requires Distinct(s.working) && k in s.working && Due(c, k, q) && Distinct([k] + rest) && k.intent.id in s.orders
    requires t.working == Without(s.working, k.intent.id) && t.orders.Keys == s.orders.Keys
    requires t.orders == s.orders[k.intent.id := t.orders[k.intent.id]]
    requires FilledBy(t.orders[k.intent.id], s.orders[k.intent.id], q, splits(k.intent.id))
    requires WorkServed(t.working, u.working, c, rest, q) && OrdersServed(t.orders, u.orders, c, rest, q, splits)
    ensures WorkServed(s.working, u.working, c, [k] + rest, q) && OrdersServed(s.orders, u.orders, c, [k] + rest, q, splits)
  {
    WorkServedFirst(s.working, u.working, c, k, rest, q);
    OrdersServedFirst(s.orders, t.orders, u.orders, c, k, rest, q, splits);
  }

  /**
   At any moment of any run, a quote whose splits are without fault fills exactly the resting orders it is
   due for, as split and at their limits; those alone leave the working book, and none that is due remains.
   */
  lemma QuoteFillsExactly(c: Config, steps: seq<Step>, q: Quote, splits: string -> seq<int>)
    requires Faultless(c, Run(c, steps).working, q, splits)
    ensures var s, t := Run(c, steps), Next(Run(c, steps), c, None, Quoting(q, splits));
            && OrdersServed(s.orders, t.orders, c, s.working, q, splits)
            && WorkServed(s.working, t.working, c, s.working, q)
            && forall k | k in t.working :: k in s.working && !Due(c, k, q)
  {
    EveryRunIsSound(c, steps);
    var s := Run(c, steps);
    assert AllWorking(s, s.working);
    OfferedServes(s, c, q, s.working, splits);
  }

  // ------------------------------------------------------------------ what is refused

  /** Within the tolerance of a whole number of ticks, relative beyond one. */
  predicate NearTicks(steps: real, n: int) {
    Abs(steps - n as real) <= EPSILON * Max(1.0, Abs(steps))
  }

  ghost predicate OnTheGrid(steps: real) {
    exists n: int :: NearTicks(steps, n)
  }

  /** The submission breaks the rule this code stands for. */
  ghost predicate Breaks(s: State, c: Config, i: Intent, q: Quote, w: World, code: Code) {
    match code
    case DuplicateCorrelationId => i.id in s.orders
    case InjectedFailure => i.id in c.refusedIds
    case RiskBlocked => !i.allowed
    case InvalidInstrument => q.security != i.security || w.master == Unknown
    case InvalidQuantity =>
      || i.quantity <= 0
      || (w.master.Listed? && w.master.rules.lotSize.Some? && i.quantity % w.master.rules.lotSize.value != 0)
      || (w.master.Listed? && w.master.rules.maxQuantity.Some? && w.master.rules.maxQuantity.value < i.quantity)
    case InvalidTickPrice =>
      i.kind.Limit? &&
      (i.kind.price.None? || i.kind.price.value <= 0.0
       || exists tick: PositiveReal :: IsTick(c, w, Some(tick)) && !OnTheGrid(i.kind.price.value / tick))
    case StaleQuote => c.maxAge.Some? && w.now > q.at + c.maxAge.value
    case MarketClosed => c.refuseClosed && w.marketOpen == Some(false)
    case NoDepth => !c.fallback && (q.bid.None? || q.ask.None?)
  }

  /** The order in which the rules are looked at. */
  function Rank(code: Code): nat {
    match code
    case DuplicateCorrelationId => 0
    case InjectedFailure => 1
    case RiskBlocked => 2
    case InvalidInstrument => 3
    case InvalidQuantity => 4
    case InvalidTickPrice => 5
    case StaleQuote => 6
    case MarketClosed => 7
    case NoDepth => 8
  }

  lemma RoundIsNearest(x: real, n: int)
    ensures Abs(x - Round(x) as real) <= Abs(x - n as real)
  {
    var f := x.Floor;
    assert f as real <= x < f as real + 1.0;
    if n <= f {
      assert n as real <= f as real;
    } else {
      assert n as real >= f as real + 1.0;
    }
  }

  lemma OffGridExactly(limit: real, tick: PositiveReal)
    ensures OffGrid(limit, tick) <==> !OnTheGrid(limit / tick)
  {
    var steps := limit / tick;
    if OnTheGrid(steps) {
      var n: int :| NearTicks(steps, n);
      RoundIsNearest(steps, n);
    } else {
      assert !NearTicks(steps, Round(steps));
    }
  }

  lemma LimitRefusalExactly(s: State, c: Config, i: Intent, q: Quote, w: World)
    ensures LimitRefusal(i.kind, TickOf(c, RulesOf(w))) ==
            if Breaks(s, c, i, q, w, InvalidTickPrice) then Some(InvalidTickPrice) else None
  {
    var tick := TickOf(c, RulesOf(w));
    if tick.Some? {
      assert IsTick(c, w, Some(tick.value));
      if i.kind.Limit? && i.kind.price.Some? {
        OffGridExactly(i.kind.price.value, tick.value);
      }
    }
  }

  /** This rule is kept by what passes, and by what an earlier one refuses. */
  lemma PassesRule(s: State, c: Config, i: Intent, q: Quote, w: World, code: Code)
    ensures var refusal := Refusal(s, c, i, q, w);
            && (refusal.None? || Rank(code) < Rank(refusal.value) ==> !Breaks(s, c, i, q, w, code))
            && (refusal == Some(code) ==> Breaks(s, c, i, q, w, code))
  {
    LimitRefusalExactly(s, c, i, q, w);
  }

  /** A submission is refused exactly when it breaks some rule, and for the first one it breaks. */
  lemma RefusalExactly(s: State, c: Config, i: Intent, q: Quote, w: World)
    ensures Refusal(s, c, i, q, w).Some? <==> exists code :: Breaks(s, c, i, q, w, code)
    ensures forall code :: Refusal(s, c, i, q, w) == Some(code) ==>
              Breaks(s, c, i, q, w, code) && forall first | Rank(first) < Rank(code) :: !Breaks(s, c, i, q, w, first)
  {
    var refusal := Refusal(s, c, i, q, w);
    forall code
      ensures refusal.None? || Rank(code) < Rank(refusal.value) ==> !Breaks(s, c, i, q, w, code)
      ensures refusal == Some(code) ==> Breaks(s, c, i, q, w, code)
    {
      PassesRule(s, c, i, q, w, code);
    }
  }

  // ------------------------------------------------------------------ one order per ID

  lemma StepKeepsOrders(s: State, c: Config, step: Step)
    requires Inv(s, c)
    ensures AllKept(s, Next(s, c, step.book, step.event))
  {
    match step.event
    case Submission(i, q, w) => SubmissionKeepsInv(s, c, step.book, i, q, w);
    case Quoting(q, splits) => QuotingKeepsInv(s, c, q, splits);
  }

  /** An ID is spent once: its order stays, under the same intent, and is final once filled, for the rest of any run. */
  lemma {:induction false} OrdersAreFinal(c: Config, steps: seq<Step>, n: nat)
    requires n <= |steps|
    ensures AllKept(Run(c, steps[..n]), Run(c, steps))
  {
    if n == |steps| {
      assert steps[..n] == steps;
    } else {
      var init := steps[..|steps| - 1];
      assert init[..n] == steps[..n];
      OrdersAreFinal(c, init, n);
      EveryRunIsSound(c, init);
      StepKeepsOrders(Run(c, init), c, steps[|steps| - 1]);
    }
  }

  // ------------------------------------------------------------------ the price of a market order

  /** The exchange's tick for the instrument, if the master lists one; the configured one otherwise. */
  ghost predicate IsTick(c: Config, w: World, tick: Option<real>) {
    tick == if w.master.Listed? && w.master.rules.tick.Some? then w.master.rules.tick else c.tick
  }

  /** What a trade against this quote starts from: the opposite side, or the last trade without both sides. */
  ghost predicate IsBase(q: Quote, side: Side, base: real) {
    if q.bid.None? || q.ask.None? then base == q.last
    else if side == Buy then q.ask == Some(base) else q.bid == Some(base)
  }

  /** The configured slippage off this base, and the extra ticks of a price without depth. */
  ghost predicate IsSlippage(c: Config, q: Quote, base: real, tick: real, slippage: real) {
    var extra := if q.bid.Some? && q.ask.Some? then 0.0 else c.extraTicks * tick;
    match c.slippage
    case Points(p) => slippage == p + extra
    case BasisPoints(b) => slippage == base * b / 10_000.0 + extra
    case Ticks(n) => slippage == n * tick + extra
  }

  /**
   An accepted market order fills in the policy's parts under the next numbers, off one quote: the
   submission's own, or the oldest retained one that meets the latency deadline.  With a tick, the price
   is never more than a billionth of it better than the quote's opposite side, and less than a full
   tick beyond that side slipped against the trader.
   */
  lemma MarketFillsAreAdverse(s: State, c: Config, book: Option<map<string, seq<Quote>>>, i: Intent, q: Quote, w: World,
                              k: nat, tick: Option<real>, base: real, slippage: real)
    requires i.kind.Market? && SubmitResult(s, c, book, i, q, w).Accepted?
    requires k < |SubmitResult(s, c, book, i, q, w).order.fills| && IsTick(c, w, tick)
    requires IsBase(SubmitResult(s, c, book, i, q, w).order.fills[k].quote, i.side, base)
    requires tick.Some? ==>
               IsSlippage(c, SubmitResult(s, c, book, i, q, w).order.fills[k].quote, base, tick.value, slippage)
    ensures var fills := SubmitResult(s, c, book, i, q, w).order.fills;
            var f := fills[k];
            && |fills| == |w.split| && f.quantity == w.split[k] && f.id == s.sequence + k
            && (if f.latencyApplied
                then book.Some? && c.latency > 0 && FirstFrom(Retained(book.value, q.security), q.at + c.latency) == Some(f.quote)
                else f.quote == q && (book.Some? && c.latency > 0 ==> FirstFrom(Retained(book.value, q.security), q.at + c.latency).None?))
            && (c.slippage.Ticks? ==> tick.Some?) && (c.fallback || (f.quote.bid.Some? && f.quote.ask.Some?))
            && (tick.Some? && TenThousandths(tick.value) && base >= 0.0 ==>
                  if i.side == Buy then
                    base - EPSILON * tick.value <= base + slippage - EPSILON * tick.value <= f.price < base + slippage + tick.value
                  else
                    base - slippage - tick.value < f.price <= base - slippage + EPSILON * tick.value <= base + EPSILON * tick.value)
  {
    MarketFillIs(s, c, book, i, q, w, k);
    var f := SubmitResult(s, c, book, i, q, w).order.fills[k];
    if tick.Some? && TenThousandths(tick.value) && base >= 0.0 {
      PriceIsAdverse(c, f.quote, i.side, tick.value, base, slippage, f.price);
    }
  }

  /** What an accepted market order's fill takes from the submission, the quote book and the policy. */
  lemma MarketFillIs(s: State, c: Config, book: Option<map<string, seq<Quote>>>, i: Intent, q: Quote, w: World, k: nat)
    requires i.kind.Market? && SubmitResult(s, c, book, i, q, w).Accepted?
    requires k < |SubmitResult(s, c, book, i, q, w).order.fills|
    ensures var fills := SubmitResult(s, c, book, i, q, w).order.fills;
            && |fills| == |w.split| && fills[k].quantity == w.split[k] && fills[k].id == s.sequence + k
            && (fills[k].quote, fills[k].latencyApplied) == Selected(c, book, q)
            && MarketPrice(c, i.side, fills[k].quote, TickOf(c, RulesOf(w))) == Some(fills[k].price)
  {
  }

  lemma SlippageIs(c: Config, q: Quote, side: Side, tick: PositiveReal, base: real, slippage: real)
    requires IsBase(q, side, base) && IsSlippage(c, q, base, tick, slippage)
    ensures base == Touch(q, side) && Amount(c.slippage, base, Some(tick)).Some?
    ensures slippage == Amount(c.slippage, base, Some(tick)).value + Extra(c, q, Some(tick))
  {
  }

  lemma PriceIsAdverse(c: Config, q: Quote, side: Side, tick: PositiveReal, base: real, slippage: real, price: real)
    requires MarketPrice(c, side, q, Some(tick)) == Some(price) && TenThousandths(tick) && base >= 0.0
    requires IsBase(q, side, base) && IsSlippage(c, q, base, tick, slippage)
    ensures if side == Buy then
              base - EPSILON * tick <= base + slippage - EPSILON * tick <= price < base + slippage + tick
            else
              base - slippage - tick < price <= base - slippage + EPSILON * tick <= base + EPSILON * tick
  {
    SlippageIs(c, q, side, tick, base, slippage);
    SlippageIsAdverse(c, q, base, Some(tick));
    SlippedIsAdverse(base, slippage, tick, side, price);
  }

  lemma SlippedIsAdverse(base: real, slippage: real, tick: PositiveReal, side: Side, price: real)
    requires slippage >= 0.0 && TenThousandths(tick) && price == FillPrice(Slipped(base, slippage, side), Some(tick), side)
    ensures if side == Buy then
              base - EPSILON * tick <= base + slippage - EPSILON * tick <= price < base + slippage + tick
            else
              base - slippage - tick < price <= base - slippage + EPSILON * tick <= base + EPSILON * tick
  {
    FillIsAdverse(base, slippage, tick, side);
  }

  /** Both sides of the book are quoted. */
  predicate Deep(q: Quote) {
    q.bid.Some? && q.ask.Some?
  }

  /** The quote a market order is priced against: the oldest retained at or past its deadline, or its own. */
  ghost predicate IsSelected(c: Config, book: Option<map<string, seq<Quote>>>, q: Quote, selected: Quote, applied: bool) {
    var later := if book.Some? then FirstFrom(Retained(book.value, q.security), q.at + c.latency) else None;
    if c.latency > 0 && later.Some? then selected == later.value && applied else selected == q && !applied
  }

  /** The slipped price, put on the grid where there is one. */
  function GridPrice(base: real, slippage: real, tick: Option<PositiveReal>, side: Side): real {
    var price := if side == Buy then base + slippage else base - slippage;
    if tick.Some? then RoundToTick(price, tick.value, side) else price
  }

  lemma MarketPriceExactly(c: Config, q: Quote, side: Side, tick: Option<PositiveReal>, base: real, slippage: real)
    requires IsBase(q, side, base) && IsSlippage(c, q, base, if tick.Some? then tick.value else 0.0, slippage)
    ensures MarketPrice(c, side, q, tick).None? <==>
            (!Deep(q) && !c.fallback) || (c.slippage.Ticks? && tick.None?) || GridPrice(base, slippage, tick, side) <= 0.0
    ensures CountsPriceRefusal(c, side, q, tick) <==> (!Deep(q) && !c.fallback) || !(c.slippage.Ticks? && tick.None?)
    ensures PriceRefusal(c, q) == if !Deep(q) && !c.fallback then NoDepth else InvalidTickPrice
  {
    SlippageOf(c, q, side, tick, base, slippage);
  }

  lemma SlippageOf(c: Config, q: Quote, side: Side, tick: Option<PositiveReal>, base: real, slippage: real)
    requires IsBase(q, side, base) && IsSlippage(c, q, base, if tick.Some? then tick.value else 0.0, slippage)
    ensures base == Touch(q, side) && (Amount(c.slippage, base, tick).None? <==> c.slippage.Ticks? && tick.None?)
    ensures Amount(c.slippage, base, tick).Some? ==> Amount(c.slippage, base, tick).value + Extra(c, q, tick) == slippage
  {
    if tick.Some? {
      SlippageIs(c, q, side, tick.value, base, slippage);
    }
  }

  /**
   A market order that breaks no rule: refused without depth or fallback, or when its slippage is in ticks
   nobody knows or its price does not come out positive; a fault when the policy splits it wrongly; else accepted.
   */
  lemma MarketAnswerExactly(s: State, c: Config, book: Option<map<string, seq<Quote>>>, i: Intent, q: Quote, w: World,
                            selected: Quote, applied: bool, tick: Option<PositiveReal>, base: real, slippage: real)
    requires i.kind.Market? && (forall code :: !Breaks(s, c, i, q, w, code)) && IsTick(c, w, tick)
    requires IsSelected(c, book, q, selected, applied) && IsBase(selected, i.side, base)
    requires IsSlippage(c, selected, base, if tick.Some? then tick.value else 0.0, slippage)
    ensures var r := SubmitResult(s, c, book, i, q, w);
            if !Deep(selected) && !c.fallback then r == Refused(NoDepth)
            else if (c.slippage.Ticks? && tick.None?) || GridPrice(base, slippage, tick, i.side) <= 0.0 then
              r == Refused(InvalidTickPrice)
            else if !(w.split != [] && (forall k | 0 <= k < |w.split| :: w.split[k] > 0) && Sum(w.split) <= i.quantity) then
              r == Fault
            else r.Accepted?
  {
    RefusalExactly(s, c, i, q, w);
    assert (selected, applied) == Selected(c, book, q);
    MarketPriceExactly(c, selected, i.side, tick, base, slippage);
  }

  // ------------------------------------------------------------------ the counters

  function CountOf(rejections: map<Code, nat>, code: Code): nat {
    if code in rejections then rejections[code] else 0
  }

  /** A market order that gets as far as its price, with slippage in ticks nobody knows: refused without being counted. */
  ghost predicate Unnoticed(s: State, c: Config, book: Option<map<string, seq<Quote>>>, i: Intent, q: Quote, w: World) {
    && i.kind.Market? && (forall code :: !Breaks(s, c, i, q, w, code)) && IsTick(c, w, None) && c.slippage.Ticks?
    && exists selected, applied :: IsSelected(c, book, q, selected, applied) && (Deep(selected) || c.fallback)
  }

  /** The submissions refused for this reason, but for those. */
  ghost function Refusals(c: Config, steps: seq<Step>, code: Code): nat {
    if steps == [] then 0
    else
      var s, step := Run(c, steps[..|steps| - 1]), steps[|steps| - 1];
      Refusals(c, steps[..|steps| - 1], code) +
      match step.event
      case Submission(i, q, w) =>
        if SubmitResult(s, c, step.book, i, q, w) == Refused(code) && !Unnoticed(s, c, step.book, i, q, w) then 1 else 0
      case Quoting(_, _) => 0
  }

  /** The market orders past validation that no quote met the deadline of. */
  ghost function Unmet(c: Config, steps: seq<Step>): nat {
    if steps == [] then 0
    else
      var s, step := Run(c, steps[..|steps| - 1]), steps[|steps| - 1];
      Unmet(c, steps[..|steps| - 1]) +
      match step.event
      case Submission(i, q, w) =>
        if i.kind.Market? && (forall code :: !Breaks(s, c, i, q, w, code)) && IsSelected(c, step.book, q, q, false) then 1 else 0
      case Quoting(_, _) => 0
  }

  lemma UnnoticedExactly(s: State, c: Config, book: Option<map<string, seq<Quote>>>, i: Intent, q: Quote, w: World)
    requires SubmitResult(s, c, book, i, q, w).Refused?
    ensures Uncounted(s, c, book, i, q, w) && i.kind.Market? <==> Unnoticed(s, c, book, i, q, w)
  {
    RefusalExactly(s, c, i, q, w);
    var selected := Selected(c, book, q);
    assert IsSelected(c, book, q, selected.0, selected.1);
  }

  lemma SubmissionCounts(s: State, c: Config, book: Option<map<string, seq<Quote>>>, i: Intent, q: Quote, w: World, code: Code)
    ensures var r, t := SubmitResult(s, c, book, i, q, w), Submitted(s, c, book, i, q, w);
            && CountOf(t.rejections, code) ==
               CountOf(s.rejections, code) + (if r == Refused(code) && !Unnoticed(s, c, book, i, q, w) then 1 else 0)
            && t.unlatent ==
               s.unlatent + (if i.kind.Market? && (forall rule :: !Breaks(s, c, i, q, w, rule)) && IsSelected(c, book, q, q, false)
                             then 1 else 0)
  {
    RefusalExactly(s, c, i, q, w);
    if SubmitResult(s, c, book, i, q, w).Refused? {
      UnnoticedExactly(s, c, book, i, q, w);
    }
  }

  lemma {:induction false} OfferedCountsNothing(s: State, c: Config, q: Quote, ks: seq<Working>, splits: string -> seq<int>)
    ensures var t := Offered(s, c, q, ks, splits); t.rejections == s.rejections && t.unlatent == s.unlatent
    decreases |ks|
  {
    if ks != [] && (!Eligible(c, ks[0], q) || ks[0].intent.id !in s.orders) {
      OfferedCountsNothing(s, c, q, ks[1..], splits);
    } else if ks != [] && Splits(splits(ks[0].intent.id), ks[0].intent.quantity) {
      OfferedCountsNothing(Settled(s, ks[0], q, splits(ks[0].intent.id)), c, q, ks[1..], splits);
    }
  }

  /** Over every run the refusal counters and the latency counter say what happened, but for the unnoticed refusals. */
  lemma {:induction false} CountersAreExact(c: Config, steps: seq<Step>, code: Code)
    ensures CountOf(Run(c, steps).rejections, code) == Refusals(c, steps, code)
    ensures Run(c, steps).unlatent == Unmet(c, steps)
  {
    if steps != [] {
      var init, step := steps[..|steps| - 1], steps[|steps| - 1];
      CountersAreExact(c, init, code);
      match step.event
      case Submission(i, q, w) => SubmissionCounts(Run(c, init), c, step.book, i, q, w, code);
      case Quoting(q, splits) => OfferedCountsNothing(Run(c, init), c, q, Run(c, init).working, splits);
    }
  }

  lemma SlippageIsAdverse(c: Config, q: Quote, touch: real, tick: Option<PositiveReal>)
    requires touch >= 0.0 && Amount(c.slippage, touch, tick).Some?
    ensures Amount(c.slippage, touch, tick).value >= 0.0 && Extra(c, q, tick) >= 0.0
  {
  }

  /** With no tick at all, a fill is within half a ten-thousandth of the slipped price. */
  lemma TicklessFillIsNear(price: real, side: Side)
    ensures -0.00005 <= FillPrice(price, None, side) - price <= 0.00005
  {
    RoundToIsNear(price, 10_000.0);
  }

  // ------------------------------------------------------------------ what the book hears

  /** The order as `OrderLifecycle` sees it. */
  function AnswerOf(o: Order, name: nat -> string, charge: Fill -> real): OrderLifecycle.Answer {
    OrderLifecycle.Accepted(o.status, o.filled, o.average, Named(o.fills, name, charge))
  }

  function Named(fs: seq<Fill>, name: nat -> string, charge: Fill -> real): seq<OrderLifecycle.BrokerFill> {
    if fs == [] then []
    else [OrderLifecycle.BrokerFill(name(fs[0].id), fs[0].quantity, fs[0].price, charge(fs[0]))] + Named(fs[1..], name, charge)
  }

  lemma {:induction false} NamedIs(fs: seq<Fill>, name: nat -> string, charge: Fill -> real)
    ensures var bs := Named(fs, name, charge);
            && |bs| == |fs| && Book.Total(bs) == Total(fs) && Book.Notional(bs) == Notional(fs)
            && (forall k | 0 <= k < |fs| :: bs[k].id == name(fs[k].id) && bs[k].quantity == fs[k].quantity)
  {
    if fs != [] {
      NamedIs(fs[1..], name, charge);
      assert Named(fs, name, charge)[1..] == Named(fs[1..], name, charge);
      assert forall k | 1 <= k < |fs| :: fs[k] == fs[1..][k - 1];
    }
  }

  lemma {:induction false} NotionalOfFills(qs: seq<int>, price: real, q: Quote, applied: bool, first: nat)
    ensures Notional(Fills(qs, price, q, applied, first)) == Book.Worth(price, Sum(qs))
    decreases |qs|
  {
    if qs != [] {
      var fs := Fills(qs, price, q, applied, first);
      assert fs[1..] == Fills(qs[1..], price, q, applied, first + 1);
      NotionalOfFills(qs[1..], price, q, applied, first + 1);
      assert Book.Worth(price, qs[0] + Sum(qs[1..])) == Book.Worth(price, qs[0]) + Book.Worth(price, Sum(qs[1..]));
    }
  }

  /** A market price is already rounded, so averaging equal prices gives it back. */
  lemma AverageIsThePrice(price: real, n: int, exact: real)
    requires n > 0 && price == RoundTo(exact, 10_000.0)
    ensures RoundTo(Book.Worth(price, n) / n as real, 10_000.0) == price
  {
    Unscaled(price, Book.Worth(price, n), n as real);
    DivTimes(Round(exact * 10_000.0) as real, 10_000.0);
    RoundToIsExact(price, 10_000.0, Round(exact * 10_000.0));
  }

  /** An accepted market order's fills share a price, and average to it. */
  lemma MarketOrderIs(s: State, c: Config, book: Option<map<string, seq<Quote>>>, i: Intent, q: Quote, w: World) returns (price: real)
    requires i.kind.Market? && SubmitResult(s, c, book, i, q, w).Accepted?
    ensures var o := SubmitResult(s, c, book, i, q, w).order;
            && o.fills == Fills(w.split, price, Selected(c, book, q).0, Selected(c, book, q).1, s.sequence)
            && o.average == Some(price) && Splits(w.split, i.quantity) && Sum(w.split) > 0
            && o.status == if Sum(w.split) >= i.quantity then Ledger.Filled else Ledger.PartiallyFilled
  {
    var selected := Selected(c, book, q);
    var tick := TickOf(c, RulesOf(w));
    price := MarketPrice(c, i.side, selected.0, tick).value;
    TotalOfFills(w.split, price, selected.0, selected.1, s.sequence);
    NotionalOfFills(w.split, price, selected.0, selected.1, s.sequence);
    SumIsPositive(w.split);
    var amount := Amount(c.slippage, Touch(selected.0, i.side), tick).value + Extra(c, selected.0, tick);
    AverageIsThePrice(price, Sum(w.split), OnGrid(Slipped(Touch(selected.0, i.side), amount, i.side), tick, i.side));
  }

  /** Fills at one price, averaging to it, are whole exactly when they add up. */
  lemma OnePriceIsWholeExactly(o: Order, price: real, split: seq<int>, q: Quote, applied: bool, first: nat,
                               name: nat -> string, charge: Fill -> real, quantity: int)
    requires o.fills == Fills(split, price, q, applied, first) && o.average == Some(price)
    requires Splits(split, quantity) && Sum(split) > 0
    requires o.status == if Sum(split) >= quantity then Ledger.Filled else Ledger.PartiallyFilled
    requires forall m: nat, n: nat :: name(m) == name(n) ==> m == n
    ensures var a := AnswerOf(o, name, charge);
            Book.WellFormed(Book.FillsOf(a)) && (Book.Whole(a, quantity) <==> Sum(split) == quantity)
  {
    var bs := Named(o.fills, name, charge);
    NamedIs(o.fills, name, charge);
    TotalOfFills(split, price, q, applied, first);
    NotionalOfFills(split, price, q, applied, first);
    assert Book.WellFormed(bs);
    assert Book.Total(bs) == Sum(split) && Book.Notional(bs) == Book.Worth(price, Sum(split));
  }

  /**
   The position book's assumption about its broker, met by this one: a market order's answer is
   well formed, and fills all or nothing at its mean price exactly when the policy's split adds up
   to the whole quantity.
   */
  lemma MarketAnswerIsWholeExactly(
    s: State, c: Config, book: Option<map<string, seq<Quote>>>, i: Intent, q: Quote, w: World,
    name: nat -> string, charge: Fill -> real)
    requires i.kind.Market? && SubmitResult(s, c, book, i, q, w).Accepted?
    requires forall m: nat, n: nat :: name(m) == name(n) ==> m == n
    ensures var a := AnswerOf(SubmitResult(s, c, book, i, q, w).order, name, charge);
            Book.WellFormed(Book.FillsOf(a)) && (Book.Whole(a, i.quantity) <==> Sum(w.split) == i.quantity)
  {
    var price := MarketOrderIs(s, c, book, i, q, w);
    OnePriceIsWholeExactly(SubmitResult(s, c, book, i, q, w).order, price, w.split, Selected(c, book, q).0,
                           Selected(c, book, q).1, s.sequence, name, charge, i.quantity);
  }

  // ------------------------------------------------------------------ the object

  lemma LimitOrdersRest(s: State, c: Config, book: Option<map<string, seq<Quote>>>, i: Intent, q: Quote, w: World)
    requires i.kind.Limit? && Refusal(s, c, i, q, w).None?
    ensures SubmitResult(s, c, book, i, q, w) == Accepted(RestingOrder(i, q))
    ensures Submitted(s, c, book, i, q, w) ==
            s.(orders := s.orders[i.id := RestingOrder(i, q)], working := s.working + [Working(i, q.at + c.latency)])
  {
  }

  lemma RefusedIs(s: State, c: Config, book: Option<map<string, seq<Quote>>>, i: Intent, q: Quote, w: World)
    requires Refusal(s, c, i, q, w).Some?
    ensures SubmitResult(s, c, book, i, q, w) == Refused(Refusal(s, c, i, q, w).value)
    ensures Submitted(s, c, book, i, q, w) == Counted(s, Refusal(s, c, i, q, w).value)
  {
  }

  class PaperBroker {
    const config: Config
    const quotes: QuoteBook?
    var orders: map<string, Order>
    var working: seq<Working>
    var sequence: nat
    var unlatent: nat
    var rejections: map<Code, nat>

    function View(): State
      reads this
    {
      State(orders, working, sequence, unlatent, rejections)
    }

    /** What the quote book, if wired in, holds now. */
    function Kept(): Option<map<string, seq<Quote>>>
      reads quotes
    {
      if quotes == null then None else Some(quotes.quotes)
    }

    ghost predicate Valid()
      reads this
    {
      Inv(View(), config)
    }

    constructor (config: Config, quotes: QuoteBook?)
      ensures this.config == config && this.quotes == quotes && View() == NO_ORDERS && Valid()
    {
      this.config, this.quotes := config, quotes;
      orders, working, sequence, unlatent, rejections := map[], [], 1, 0, map[];
    }

    method Refuse(code: Code)
      modifies this`rejections
      ensures View() == Counted(old(View()), code)
    {
      rejections := rejections[code := (if code in rejections then rejections[code] else 0) + 1];
    }

    method Submit(i: Intent, q: Quote, w: World) returns (r: Result)
      requires Valid()
      modifies this
      ensures Valid()
      ensures View() == Submitted(old(View()), config, Kept(), i, q, w)
      ensures r == SubmitResult(old(View()), config, Kept(), i, q, w)
    {
      SubmissionKeepsInv(View(), config, Kept(), i, q, w);
      var refusal := Refusal(View(), config, i, q, w);
      if refusal.Some? {
        RefusedIs(View(), config, Kept(), i, q, w);
        Refuse(refusal.value);
        return Refused(refusal.value);
      }
      if i.kind.Limit? {
        LimitOrdersRest(View(), config, Kept(), i, q, w);
        r := Rest(i, q);
      } else {
        r := FillNow(i, q, w);
      }
    }

    /** `_rest`: into the working book, unfilled. */
    method Rest(i: Intent, q: Quote) returns (r: Result)
      modifies this`orders, this`working
      ensures r == Accepted(RestingOrder(i, q))
      ensures View() == old(View()).(orders := old(orders)[i.id := r.order],
                                     working := old(working) + [Working(i, q.at + config.latency)])
    {
      working := working + [Working(i, q.at + config.latency)];
      r := Accepted(RestingOrder(i, q));
      orders := orders[i.id := r.order];
    }

    /** `_select_quote`. */
    method SelectQuote(q: Quote) returns (selected: Quote, applied: bool)
      ensures (selected, applied) == Selected(config, Kept(), q)
    {
      if quotes == null || config.latency == 0 {
        return q, false;
      }
      var later := quotes.After(q.security, q.at + config.latency);
      if later.None? {
        return q, false;
      }
      return later.value, true;
    }

    /** `_fill_now`, for an order validation let through. */
    method FillNow(i: Intent, q: Quote, w: World) returns (r: Result)
      requires i.kind.Market? && Refusal(View(), config, i, q, w).None?
      modifies this
      ensures View() == Submitted(old(View()), config, Kept(), i, q, w)
      ensures r == SubmitResult(old(View()), config, Kept(), i, q, w)
    {
      var selected, applied := SelectQuote(q);
      ghost var before := View();
      if !applied {
        unlatent := unlatent + 1;
      }
      var price := MarketPrice(config, i.side, selected, TickOf(config, RulesOf(w)));
      if price.None? {
        if CountsPriceRefusal(config, i.side, selected, TickOf(config, RulesOf(w))) {
          Refuse(PriceRefusal(config, selected));
        }
        return Refused(PriceRefusal(config, selected));
      }
      if !Splits(w.split, i.quantity) {
        return Fault;
      }
      TotalOfFills(w.split, price.value, selected, applied, sequence);
      SumIsPositive(w.split);
      var order := Built(i, q, Fills(w.split, price.value, selected, applied, sequence));
      sequence := sequence + |w.split|;
      orders := orders[i.id := order];
      r := Accepted(order);
    }

    /** `on_quote`; false when the split policy faults. */
    method OnQuote(q: Quote, splits: string -> seq<int>) returns (done: bool)
      requires Valid()
      modifies this`orders, this`working, this`sequence
      ensures Valid()
      ensures View() == Offered(old(View()), config, q, old(working), splits)
    {
      var ks, n := working, 0;
      ghost var goal := Offered(View(), config, q, ks, splits);
      QuotingKeepsInv(View(), config, q, splits);
      assert Inv(goal, config) && ks[0..] == ks;
      while n < |ks|
        invariant 0 <= n <= |ks| && Offered(View(), config, q, ks[n..], splits) == goal
      {
        var offered := Offer(ks, n, q, splits);
        if !offered {
          return false;
        }
        n := n + 1;
      }
      done := true;
    }

    /** One resting order's turn; false when the split policy faults. */
    method Offer(ks: seq<Working>, n: nat, q: Quote, splits: string -> seq<int>) returns (offered: bool)
      requires n < |ks|
      modifies this`orders, this`working, this`sequence
      ensures Offered(old(View()), config, q, ks[n..], splits) ==
              if offered then Offered(View(), config, q, ks[n + 1..], splits) else View()
    {
      var k := ks[n];
      assert ks[n..][0] == k && ks[n..][1..] == ks[n + 1..];
      if Eligible(config, k, q) && k.intent.id in orders {
        var split := splits(k.intent.id);
        if !Splits(split, k.intent.quantity) {
          return false;
        }
        Settle(k, q, split);
      }
      offered := true;
    }

    /** Fill one resting order, at its limit, and take it out of the working book. */
    method Settle(k: Working, q: Quote, split: seq<int>)
      requires k.intent.id in orders && k.intent.kind.Limit? && k.intent.kind.price.Some?
      requires Splits(split, k.intent.quantity)
      modifies this`orders, this`working, this`sequence
      ensures View() == Settled(old(View()), k, q, split)
    {
      TotalOfFills(split, k.intent.kind.price.value, q, true, sequence);
      SumIsPositive(split);
      var fills := Fills(split, k.intent.kind.price.value, q, true, sequence);
      sequence := sequence + |split|;
      working := Without(working, k.intent.id);
      orders := orders[k.intent.id := Built(k.intent, orders[k.intent.id].submitted, fills)];
    }
  }
}
