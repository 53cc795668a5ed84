/**
 The position book (`PositionManager`) and the gateway that executes its legs, against the ledger.

 A desk trades one strategy-day.  Every open and close goes through `OrderLifecycle.handle_signal`,
 whose broker answers arbitrarily; a call raises whenever that answer is not a filled order.
 */
module Book {
  import opened Prelude
  import opened Netting
  import opened Ledger
  import opened OrderLifecycle

  datatype Contract = Contract(
    symbol: string, security: string, strike: real, optionType: OptionType, expiry: string, lotSize: int)

  /** What one leg's execution produced. */
  datatype Outcome = Outcome(price: real, charges: real)

  /** An open position's value. */
  datatype Holding = Holding(
    contract: Contract, side: Side, lots: int, entry: real, last: real, mfe: real, mae: real)
  {
    function Quantity(): int { lots * contract.lotSize }

    function UnrealisedPnl(): real { Gross(side, Quantity(), entry, last) }

    function Marked(price: real): Holding {
      var pnl := Gross(side, Quantity(), entry, price);
      this.(last := price, mfe := Max(mfe, pnl), mae := Min(mae, pnl))
    }
  }

  datatype Trade = Trade(
    contract: Contract, side: Side, lots: int, quantity: int, entry: real, exit: real,
    gross: real, charges: real, mfe: real, mae: real)
  {
    function NetPnl(): real { gross - charges }
  }

  function Gross(side: Side, quantity: int, entry: real, exit: real): real {
    if side == Buy then (exit - entry) * quantity as real else (entry - exit) * quantity as real
  }

  function Opposite(side: Side): Side {
    if side == Buy then Sell else Buy
  }

  /** What the gateway is constructed with. */
  datatype Desk = Desk(config: Config, date: string) {
    function Today(): Day { Day(config.strategy, config.mode, date) }
  }

  /** What a leg can change: the database and the gateway's windows and count. */
  datatype Line = Line(store: Store, windows: map<string, int>, executions: nat)

  /** The manager's own book. */
  datatype Shelf = Shelf(held: map<string, Holding>, entryCharges: map<string, real>, trades: seq<Trade>)

  /** Everything a call can change. */
  datatype Session = Session(line: Line, book: Shelf)

  /** One leg to execute. */
  datatype Order = Order(
    contract: Contract, side: Side, lots: int, ts: int, stop: Option<real>, target: Option<real>)
  {
    function Quantity(): int { lots * contract.lotSize }
  }

  // ------------------------------------------------------------------ handle_signal, run through

  /** The fills applied one transaction at a time; a fill that breaks the schema raises. */
  function FillAll(b: Books, c: Config, order: nat, job: Job, status: Status, fills: seq<BrokerFill>): Books
    decreases |fills|
  {
    if fills == [] || fills[0].quantity <= 0 then b
    else FillAll(After(b, Fill(FillOf(c, order, job, status, fills[0]))), c, order, job, status, fills[1..])
  }

  function Intent(st: Store, c: Config, job: Job): Option<IntentRow> {
    IntentFor(c, |st.signals|, job, MaxSequence(st.intents, DayOf(c, job)) + 1)
  }

  /** The signal is new and its intent can be reserved, so the broker is called. */
  predicate Reaches(st: Store, c: Config, job: Job) {
    && job.key !in st.signals
    && Intent(st, c, job).Some?
    && Insertable(st.intents, Intent(st, c, job).value)
  }

  function SubmittedBooks(st: Store, c: Config, job: Job, answer: Answer): Books
    requires Reaches(st, c, job)
  {
    After(st.books, Ledger.Submission(OrderOf(|st.intents|, Intent(st, c, job).value.correlation, answer)))
  }

  /** The database after one undisturbed `handle_signal`. */
  function Handled(st: Store, c: Config, job: Job, answer: Answer): Store {
    if job.key in st.signals then st
    else if !Reaches(st, c, job) then st.(signals := st.signals + [job.key])
    else
      var books := SubmittedBooks(st, c, job, answer);
      Store(st.signals + [job.key], st.intents + [Intent(st, c, job).value],
            if answer.Refusal? then books
            else FillAll(books, c, |st.books.orders|, job, answer.status, answer.fills))
  }

  // ------------------------------------------------------------------ the protocol, undisturbed

  /** One worker's steps with nobody in between; None when a step is not the worker's next one. */
  function Go(st: Store, c: Config, pc: Pc, actions: seq<Action>): Option<(Store, Pc)>
    decreases |actions|
  {
    if actions == [] then Some((st, pc))
    else if !Enabled(pc, actions[0]) || !InRange(st, pc) then None
    else Go(NextStore(st, c, pc, actions[0]), c, NextPc(st, c, pc, actions[0]), actions[1..])
  }

  function FillSteps(fills: seq<BrokerFill>): seq<Action>
    decreases |fills|
  {
    if fills == [] || fills[0].quantity <= 0 then [ApplyNext] else [ApplyNext] + FillSteps(fills[1..])
  }

  /** From the broker call on. */
  function StepsAfterReserving(answer: Answer): seq<Action> {
    [Submit(answer)] + ([Record] + if answer.Refusal? then [] else FillSteps(answer.fills))
  }

  function StepsFrom(st: Store, c: Config, job: Job, answer: Answer): seq<Action> {
    if job.key in st.signals then [Deliver(job)] + []
    else [Deliver(job)] + ([ReadSequence] + ([Reserve] + if Reaches(st, c, job) then StepsAfterReserving(answer) else []))
  }

  lemma {:induction false} FillStepsApplyThemAll(st: Store, c: Config, order: nat, job: Job, status: Status, fills: seq<BrokerFill>)
    ensures Go(st, c, Filling(order, job, status, fills), FillSteps(fills)) ==
            Some((st.(books := FillAll(st.books, c, order, job, status, fills)), Idle))
    decreases |fills|
  {
    var pc := Filling(order, job, status, fills);
    var next := NextStore(st, c, pc, ApplyNext);
    if fills == [] || fills[0].quantity <= 0 {
      assert Go(next, c, Idle, []) == Some((next, Idle));
    } else {
      assert FillSteps(fills)[1..] == FillSteps(fills[1..]);
      FillStepsApplyThemAll(next, c, order, job, status, fills[1..]);
    }
  }

  lemma GoOn(st: Store, c: Config, pc: Pc, first: Action, rest: seq<Action>)
    requires Enabled(pc, first) && InRange(st, pc)
    ensures Go(st, c, pc, [first] + rest) == Go(NextStore(st, c, pc, first), c, NextPc(st, c, pc, first), rest)
  {
    assert ([first] + rest)[1..] == rest;
  }

  lemma RecordedSteps(st: Store, c: Config, intent: nat, job: Job, answer: Answer)
    requires intent < |st.intents|
    ensures var books := After(st.books, Ledger.Submission(OrderOf(intent, st.intents[intent].correlation, answer)));
            Go(st, c, IntentSaved(intent, job), StepsAfterReserving(answer)) ==
            Some((st.(books := if answer.Refusal? then books
                               else FillAll(books, c, |st.books.orders|, job, answer.status, answer.fills)), Idle))
  {
    var rest := if answer.Refusal? then [] else FillSteps(answer.fills);
    GoOn(st, c, IntentSaved(intent, job), Submit(answer), [Record] + rest);
    GoOn(st, c, Answered(intent, job, answer), Record, rest);
    if answer.Accepted? {
      FillStepsApplyThemAll(NextStore(st, c, Answered(intent, job, answer), Record), c, |st.books.orders|, job,
                            answer.status, answer.fills);
    }
  }

  /** A fresh signal is saved and the next sequence number read. */
  lemma SavedSteps(st: Store, c: Config, job: Job, rest: seq<Action>)
    requires job.key !in st.signals
    ensures Go(st, c, Idle, [Deliver(job)] + ([ReadSequence] + rest)) ==
            Go(st.(signals := st.signals + [job.key]), c,
               SequenceRead(|st.signals|, job, MaxSequence(st.intents, DayOf(c, job)) + 1), rest)
  {
    var saved := st.(signals := st.signals + [job.key]);
    GoOn(st, c, Idle, Deliver(job), [ReadSequence] + rest);
    GoOn(saved, c, SignalSaved(|st.signals|, job), ReadSequence, rest);
  }

  function SavedStore(st: Store, job: Job): Store {
    st.(signals := st.signals + [job.key])
  }

  function NextSequence(st: Store, c: Config, job: Job): nat {
    MaxSequence(st.intents, DayOf(c, job)) + 1
  }

  /** The intent goes in exactly when the broker will be called. */
  lemma ReserveStep(st: Store, c: Config, job: Job, rest: seq<Action>)
    requires job.key !in st.signals
    ensures var pc := SequenceRead(|st.signals|, job, NextSequence(st, c, job));
            var next, at := NextStore(SavedStore(st, job), c, pc, Reserve), NextPc(SavedStore(st, job), c, pc, Reserve);
            && Go(SavedStore(st, job), c, pc, [Reserve] + rest) == Go(next, c, at, rest)
            && (Reaches(st, c, job) ==>
                  next == SavedStore(st, job).(intents := st.intents + [Intent(st, c, job).value]) && at == IntentSaved(|st.intents|, job))
            && (!Reaches(st, c, job) ==> next == SavedStore(st, job) && at == Idle)
  {
    GoOn(SavedStore(st, job), c, SequenceRead(|st.signals|, job, NextSequence(st, c, job)), Reserve, rest);
  }

  lemma ReservedSteps(st: Store, c: Config, job: Job, rest: seq<Action>)
    requires job.key !in st.signals
    ensures var saved := st.(signals := st.signals + [job.key]);
            Go(st, c, Idle, [Deliver(job)] + ([ReadSequence] + ([Reserve] + rest))) ==
            if Reaches(st, c, job)
            then Go(saved.(intents := st.intents + [Intent(st, c, job).value]), c, IntentSaved(|st.intents|, job), rest)
            else Go(saved, c, Idle, rest)
  {
    SavedSteps(st, c, job, [Reserve] + rest);
    ReserveStep(st, c, job, rest);
  }

  /** `Handled` is the crash-safe protocol, run by one worker from idle to idle with nobody in between. */
  lemma HandledIsTheProtocol(st: Store, c: Config, job: Job, answer: Answer)
    ensures Go(st, c, Idle, StepsFrom(st, c, job, answer)) == Some((Handled(st, c, job, answer), Idle))
  {
    if job.key in st.signals {
      GoOn(st, c, Idle, Deliver(job), []);
    } else if !Reaches(st, c, job) {
      ReservedSteps(st, c, job, []);
    } else {
      ReservedSteps(st, c, job, StepsAfterReserving(answer));
      RecordedSteps(Store(st.signals + [job.key], st.intents + [Intent(st, c, job).value], st.books), c,
                    |st.intents|, job, answer);
    }
  }

  predicate AllValid(fills: seq<BrokerFill>) {
    forall i | 0 <= i < |fills| :: fills[i].quantity > 0
  }

  /** `_require_a_fill` lets this answer through. */
  predicate Acceptable(a: Answer) {
    && a.Accepted? && AllValid(a.fills)
    && a.status != Rejected && a.status != PartiallyFilled && a.fills != [] && a.average.Some?
  }

  function Total(fills: seq<BrokerFill>): int {
    if fills == [] then 0 else fills[0].quantity + Total(fills[1..])
  }

  function Notional(fills: seq<BrokerFill>): real {
    if fills == [] then 0.0 else Worth(fills[0].price, fills[0].quantity) + Notional(fills[1..])
  }

  function Charges(fills: seq<BrokerFill>): real {
    if fills == [] then 0.0 else fills[0].charges + Charges(fills[1..])
  }

  // ------------------------------------------------------------------ the gateway

  /** `_window`: a strictly increasing end time per instrument. */
  function WindowEnd(windows: map<string, int>, instrument: string, ts: int): int {
    if instrument in windows && ts < windows[instrument] + 1 then windows[instrument] + 1 else ts
  }

  function JobOf(d: Desk, windows: map<string, int>, o: Order): Job {
    var end := WindowEnd(windows, o.contract.symbol, o.ts);
    Job(SignalKey(d.config.strategy, d.config.mode, o.contract.symbol, end),
        o.contract.security, o.side, o.Quantity(), d.date, o.stop, o.target)
  }

  /** The broker is called for this leg. */
  predicate Sent(g: Line, d: Desk, o: Order) {
    Reaches(g.store, d.config, JobOf(d, g.windows, o))
  }

  /** The leg's outcome, or None when the call raises. */
  function Outcomes(g: Line, d: Desk, o: Order, answer: Answer): Option<Outcome> {
    if Sent(g, d, o) && Acceptable(answer) then Some(OutcomeOf(answer)) else None
  }

  /** `_outcome`: read back off the fills. */
  function OutcomeOf(answer: Answer): Outcome
    requires Acceptable(answer)
  {
    Outcome(answer.average.value, Charges(answer.fills))
  }

  /** `_execute`: what it leaves in the database and the gateway, raised or not. */
  function Executed(g: Line, d: Desk, o: Order, answer: Answer): Line {
    var job := JobOf(d, g.windows, o);
    Line(Handled(g.store, d.config, job, answer),
         g.windows[o.contract.symbol := job.key.candleEnd],
         g.executions + if Outcomes(g, d, o, answer).Some? then 1 else 0)
  }

  // ------------------------------------------------------------------ the manager's calls

  function Closing(h: Holding, ts: int): Order {
    Order(h.contract, Opposite(h.side), h.lots, ts, None, None)
  }

  function Fresh(o: Order, price: real): Holding {
    Holding(o.contract, o.side, o.lots, price, price, 0.0, 0.0)
  }

  /** What the manager does with a leg's outcome; None stands for a raised error. */
  function Entered(b: Shelf, o: Order, result: Option<Outcome>): Shelf {
    var id := o.contract.security;
    if id in b.held || result.None? then b
    else b.(held := b.held[id := Fresh(o, result.value.price)],
            entryCharges := b.entryCharges[id := result.value.charges])
  }

  function Opened(s: Session, d: Desk, o: Order, answer: Answer): Session {
    if o.contract.security in s.book.held then s
    else Session(Executed(s.line, d, o, answer), Entered(s.book, o, Outcomes(s.line, d, o, answer)))
  }

  function TradeOf(h: Holding, entryCharges: real, result: Outcome): Trade {
    var m := h.Marked(result.price);
    Trade(h.contract, h.side, h.lots, h.Quantity(), h.entry, result.price,
          Gross(h.side, h.Quantity(), h.entry, result.price), entryCharges + result.charges, m.mfe, m.mae)
  }

  function EntryCharges(b: Shelf, id: string): real {
    if id in b.entryCharges then b.entryCharges[id] else 0.0
  }

  function Left(b: Shelf, id: string, result: Option<Outcome>): Shelf {
    if id !in b.held || result.None? then b
    else Shelf(b.held - {id}, b.entryCharges - {id},
               b.trades + [TradeOf(b.held[id], EntryCharges(b, id), result.value)])
  }

  function Closed(s: Session, d: Desk, id: string, ts: int, answer: Answer): Session {
    if id !in s.book.held then s
    else
      var o := Closing(s.book.held[id], ts);
      Session(Executed(s.line, d, o, answer), Left(s.book, id, Outcomes(s.line, d, o, answer)))
  }

  /** An adopted position is marked at its entry until a price is known. */
  function Starting(h: Holding, last: Option<real>): Holding {
    if last.Some? then h.Marked(last.value) else h.(last := h.entry)
  }

  /** `adopt`: no order, only the book. */
  function Adopted(b: Shelf, h: Holding, charges: real, last: Option<real>): Shelf {
    var id := h.contract.security;
    if id in b.held then b
    else b.(held := b.held[id := Starting(h, last)], entryCharges := b.entryCharges[id := charges])
  }

  function Priced(b: Shelf, id: string, price: real): Shelf {
    if id in b.held then b.(held := b.held[id := b.held[id].Marked(price)]) else b
  }

  datatype Call =
    | Open(order: Order, answer: Answer)
    | Close(id: string, ts: int, answer: Answer)
    | Adopt(holding: Holding, charges: real, last: Option<real>)
    | Mark(id: string, price: real)

  function Next(s: Session, d: Desk, c: Call): Session {
    match c
    case Open(o, answer) => Opened(s, d, o, answer)
    case Close(id, ts, answer) => Closed(s, d, id, ts, answer)
    case Adopt(h, charges, last) => s.(book := Adopted(s.book, h, charges, last))
    case Mark(id, price) => s.(book := Priced(s.book, id, price))
  }

  function Run(s: Session, d: Desk, calls: seq<Call>): Session {
    if calls == [] then s else Next(Run(s, d, calls[..|calls| - 1]), d, calls[|calls| - 1])
  }

  // ------------------------------------------------------------------ one contract's row under one leg

  function RealisedIn(net: Option<Net>): real {
    if net.Some? then net.value.realised else 0.0
  }

  function QuantityIn(net: Option<Net>): int {
    if net.Some? then net.value.quantity else 0
  }

  lemma OneFill(b: Books, f: FillEvent)
    requires Consistent(b) && f.Valid() && f.order < |b.orders| && !Recorded(b.fills, f.order, f.fillId)
    ensures var a := After(b, Fill(f));
            && Consistent(a) && |a.orders| == |b.orders|
            && NetOf(a.positions, f.day, f.security) == Some(Apply(NetOf(b.positions, f.day, f.security), f.Leg()))
            && DailyOf(a, f.day) - DailyOf(b, f.day) ==
               RealisedIn(NetOf(a.positions, f.day, f.security)) - RealisedIn(NetOf(b.positions, f.day, f.security))
  {
    FillKeepsConsistent(b, f);
    NetAfterFill(b.positions, f, f.day, f.security);
  }

  function Signed(side: Side, n: int): int {
    if side == Buy then n else -n
  }

  function LegOf(side: Side, f: BrokerFill): (l: Leg)
    ensures l == Leg(side.Sign() * f.quantity, f.price)
  {
    Leg(Signed(side, f.quantity), f.price)
  }

  function Worth(price: real, quantity: int): real {
    price * quantity as real
  }

  /** Filled so far, from flat: `n` at a notional cost, nothing realised. */
  ghost predicate PartlyOpen(net: Option<Netting.Net>, side: Side, n: nat, notional: real, realised: real) {
    && RealisedIn(net) == realised
    && QuantityIn(net) == Signed(side, n)
    && (n > 0 ==> net.Some? && Worth(net.value.average, n) == notional)
    && (n == 0 ==> notional == 0.0)
  }

  lemma OpeningLeg(net: Option<Netting.Net>, side: Side, n: nat, notional: real, realised: real, f: BrokerFill)
    requires f.quantity > 0
    requires PartlyOpen(net, side, n, notional, realised)
    ensures PartlyOpen(Some(Apply(net, LegOf(side, f))), side, n + f.quantity,
                       notional + Worth(f.price, f.quantity), realised)
  {
    if net.Some? {
      assert AbsInt(net.value.quantity) == n && AbsInt(LegOf(side, f).signed) == f.quantity;
      MeanTimesTotal(net.value.average, n, f.price, f.quantity);
    }
  }

  lemma MeanTimesTotal(p: real, m: nat, x: real, n: nat)
    requires m + n > 0
    ensures WeightedMean(p, m, x, n) * (m + n) as real == p * m as real + x * n as real
  {
  }

  /** Closed so far, out of `q` held at an average: `n`, for a notional. */
  ghost predicate PartlyClosed(net: Option<Netting.Net>, side: Side, q: int, average: real, realised: real, n: nat, notional: real) {
    && net.Some? && net.value.quantity == Signed(side, q - n) && net.value.average == average
    && net.value.realised == realised + Gained(side, notional, Worth(average, n))
  }

  function Gained(side: Side, exit: real, entry: real): real {
    if side == Buy then exit - entry else entry - exit
  }

  lemma ClosingLeg(net: Option<Netting.Net>, side: Side, q: int, average: real, realised: real, n: nat, notional: real,
                   f: BrokerFill)
    requires f.quantity > 0 && n + f.quantity <= q
    requires PartlyClosed(net, side, q, average, realised, n, notional)
    ensures PartlyClosed(Some(Apply(net, LegOf(Opposite(side), f))), side, q, average, realised, n + f.quantity,
                         notional + Worth(f.price, f.quantity))
  {
    var l := LegOf(Opposite(side), f);
    assert Opposes(net.value, l) && AbsInt(l.signed) == f.quantity <= AbsInt(net.value.quantity);
    assert f.quantity as real * (f.price - average) == Worth(f.price, f.quantity) - Worth(average, f.quantity);
    assert (-f.quantity) as real * (f.price - average) == Worth(average, f.quantity) - Worth(f.price, f.quantity);
    assert Worth(average, n + f.quantity) == Worth(average, n) + Worth(average, f.quantity);
  }

  /** What the broker promises of an answer's fills: real quantities under distinct ids. */
  ghost predicate WellFormed(fills: seq<BrokerFill>) {
    AllValid(fills) && forall i, j | 0 <= i < j < |fills| :: fills[i].id != fills[j].id
  }

  ghost predicate Unrecorded(b: Books, order: nat, fills: seq<BrokerFill>) {
    && WellFormed(fills) && order < |b.orders|
    && forall i | 0 <= i < |fills| :: !Recorded(b.fills, order, fills[i].id)
  }

  function Net(b: Books, day: Day, security: string): Option<Netting.Net> {
    NetOf(b.positions, day, security)
  }

  lemma FirstFill(b: Books, c: Config, order: nat, job: Job, status: Status, fills: seq<BrokerFill>)
    requires Consistent(b) && Unrecorded(b, order, fills) && fills != []
    ensures var f := FillOf(c, order, job, status, fills[0]);
            var a, day := After(b, Fill(f)), DayOf(c, job);
            && Consistent(a) && Unrecorded(a, order, fills[1..])
            && Net(a, day, job.security) == Some(Apply(Net(b, day, job.security), LegOf(job.side, fills[0])))
            && DailyOf(a, day) - DailyOf(b, day) == RealisedIn(Net(a, day, job.security)) - RealisedIn(Net(b, day, job.security))
  {
    var f := FillOf(c, order, job, status, fills[0]);
    var a := After(b, Fill(f));
    assert fills[0].quantity > 0 && !Recorded(b.fills, order, fills[0].id);
    OneFill(b, f);
    assert a.fills == b.fills + [f.Row()];
    forall i | 0 <= i < |fills[1..]| ensures !Recorded(a.fills, order, fills[1..][i].id) {
      assert !Recorded(b.fills, order, fills[1 + i].id);
    }
  }

  /** A row after one leg's fills in turn. */
  function Folded(net: Option<Netting.Net>, side: Side, fills: seq<BrokerFill>): Option<Netting.Net>
    decreases |fills|
  {
    if fills == [] then net
    else Folded(Some(Apply(net, LegOf(side, fills[0]))), side, fills[1..])
  }

  lemma {:induction false} FoldMovesQuantity(net: Option<Netting.Net>, side: Side, fills: seq<BrokerFill>)
    ensures QuantityIn(Folded(net, side, fills)) == QuantityIn(net) + Signed(side, Total(fills))
    decreases |fills|
  {
    if fills != [] {
      FoldMovesQuantity(Some(Apply(net, LegOf(side, fills[0]))), side, fills[1..]);
    }
  }

  /** A whole leg: the tables agree, other contracts are untouched, and P&L moves with the one row. */
  lemma {:induction false} FillsMoveOneRow(b: Books, c: Config, order: nat, job: Job, status: Status, fills: seq<BrokerFill>)
    requires Consistent(b) && Unrecorded(b, order, fills)
    ensures var a, day := FillAll(b, c, order, job, status, fills), DayOf(c, job);
            && Consistent(a)
            && DailyOf(a, day) - DailyOf(b, day) == RealisedIn(Net(a, day, job.security)) - RealisedIn(Net(b, day, job.security))
            && Net(a, day, job.security) == Folded(Net(b, day, job.security), job.side, fills)
    decreases |fills|
  {
    if fills != [] {
      assert fills[0].quantity > 0;
      FirstFill(b, c, order, job, status, fills);
      FillsMoveOneRow(After(b, Fill(FillOf(c, order, job, status, fills[0]))), c, order, job, status, fills[1..]);
    }
  }

  lemma {:induction false} FillsSpareOthers(b: Books, c: Config, order: nat, job: Job, status: Status, fills: seq<BrokerFill>,
                         security: string)
    requires Consistent(b) && order < |b.orders| && security != job.security
    ensures var a, day := FillAll(b, c, order, job, status, fills), DayOf(c, job);
            Consistent(a) && Net(a, day, security) == Net(b, day, security)
    decreases |fills|
  {
    if fills != [] && fills[0].quantity > 0 {
      var f := FillOf(c, order, job, status, fills[0]);
      FillKeepsOrders(b, f);
      NetAfterFill(b.positions, f, DayOf(c, job), security);
      FillsSpareOthers(After(b, Fill(f)), c, order, job, status, fills[1..], security);
    }
  }

  lemma {:induction false} FoldOpens(net: Option<Netting.Net>, side: Side, fills: seq<BrokerFill>,
                                     n: nat, notional: real, realised: real)
    requires AllValid(fills) && PartlyOpen(net, side, n, notional, realised)
    ensures Total(fills) >= 0
    ensures PartlyOpen(Folded(net, side, fills), side, n + Total(fills), notional + Notional(fills), realised)
    decreases |fills|
  {
    if fills != [] {
      assert fills[0].quantity > 0;
      OpeningLeg(net, side, n, notional, realised, fills[0]);
      FoldOpens(Some(Apply(net, LegOf(side, fills[0]))), side, fills[1..], n + fills[0].quantity,
                notional + Worth(fills[0].price, fills[0].quantity), realised);
    }
  }

  lemma TotalIsPositive(fills: seq<BrokerFill>)
    requires AllValid(fills)
    ensures Total(fills) >= |fills|
  {
    if fills != [] {
      assert fills[0].quantity > 0;
      TotalIsPositive(fills[1..]);
    }
  }

  lemma {:induction false} FoldCloses(net: Option<Netting.Net>, side: Side, fills: seq<BrokerFill>,
                                      q: int, average: real, realised: real, n: nat, notional: real)
    requires AllValid(fills) && n + Total(fills) <= q
    requires PartlyClosed(net, side, q, average, realised, n, notional)
    ensures Total(fills) >= 0
    ensures PartlyClosed(Folded(net, Opposite(side), fills), side, q, average, realised,
                         n + Total(fills), notional + Notional(fills))
    decreases |fills|
  {
    TotalIsPositive(fills);
    if fills != [] {
      assert fills[0].quantity > 0;
      TotalIsPositive(fills[1..]);
      ClosingLeg(net, side, q, average, realised, n, notional, fills[0]);
      FoldCloses(Some(Apply(net, LegOf(Opposite(side), fills[0]))), side, fills[1..], q, average, realised,
                 n + fills[0].quantity, notional + Worth(fills[0].price, fills[0].quantity));
    }
  }

  // ------------------------------------------------------------------ one leg and the ledger

  function FillsOf(a: Answer): seq<BrokerFill> {
    if a.Accepted? then a.fills else []
  }

  lemma ExecutedMovesOneRow(s: Session, d: Desk, o: Order, answer: Answer)
    requires Consistent(s.line.store.books) && WellFormed(FillsOf(answer))
    ensures var b, a := s.line.store.books, Executed(s.line, d, o, answer).store.books;
            var before, after := Net(b, d.Today(), o.contract.security), Net(a, d.Today(), o.contract.security);
            && Consistent(a)
            && after == (if Sent(s.line, d, o) then Folded(before, o.side, FillsOf(answer)) else before)
            && DailyOf(a, d.Today()) - DailyOf(b, d.Today()) == RealisedIn(after) - RealisedIn(before)
  {
    var job := JobOf(d, s.line.windows, o);
    if Sent(s.line, d, o) {
      var row := OrderOf(|s.line.store.intents|, Intent(s.line.store, d.config, job).value.correlation, answer);
      SubmissionKeepsConsistent(s.line.store.books, row);
      if answer.Accepted? {
        var books := SubmittedBooks(s.line.store, d.config, job, answer);
        assert Unrecorded(books, |s.line.store.books.orders|, answer.fills);
        FillsMoveOneRow(books, d.config, |s.line.store.books.orders|, job, answer.status, answer.fills);
      }
    }
  }

  lemma ExecutedSparesOthers(s: Session, d: Desk, o: Order, answer: Answer, security: string)
    requires Consistent(s.line.store.books) && security != o.contract.security
    ensures var b, a := s.line.store.books, Executed(s.line, d, o, answer).store.books;
            Net(a, d.Today(), security) == Net(b, d.Today(), security)
  {
    var job := JobOf(d, s.line.windows, o);
    if Sent(s.line, d, o) && answer.Accepted? {
      var row := OrderOf(|s.line.store.intents|, Intent(s.line.store, d.config, job).value.correlation, answer);
      SubmissionKeepsConsistent(s.line.store.books, row);
      FillsSpareOthers(SubmittedBooks(s.line.store, d.config, job, answer), d.config, |s.line.store.books.orders|, job,
                       answer.status, answer.fills, security);
    }
  }

  // ------------------------------------------------------------------ what the tables keep of a leg

  lemma FirstFillCarries(b: Books, c: Config, order: nat, job: Job, status: Status, f: BrokerFill,
                         charges: real, stop: Option<real>, target: Option<real>)
    requires Consistent(b) && f.quantity > 0 && order < |b.orders| && !Recorded(b.fills, order, f.id)
    requires Carries(RowOf(b.positions, DayOf(c, job), job.security), charges, stop, target)
    ensures Carries(RowOf(After(b, Fill(FillOf(c, order, job, status, f))).positions, DayOf(c, job), job.security),
                    charges + f.charges, OrElse(job.stop, stop), OrElse(job.target, target))
  {
    CarriesAfterFill(b.positions, FillOf(c, order, job, status, f), DayOf(c, job), job.security, charges, stop, target);
  }

  lemma {:induction false} FillsCarry(b: Books, c: Config, order: nat, job: Job, status: Status, fills: seq<BrokerFill>,
                                      charges: real, stop: Option<real>, target: Option<real>)
    requires Consistent(b) && Unrecorded(b, order, fills)
    requires Carries(RowOf(b.positions, DayOf(c, job), job.security), charges, stop, target)
    ensures Carries(RowOf(FillAll(b, c, order, job, status, fills).positions, DayOf(c, job), job.security),
                    charges + Charges(fills), if fills == [] then stop else OrElse(job.stop, stop),
                    if fills == [] then target else OrElse(job.target, target))
    decreases |fills|
  {
    if fills != [] {
      assert fills[0].quantity > 0 && !Recorded(b.fills, order, fills[0].id);
      FirstFill(b, c, order, job, status, fills);
      FirstFillCarries(b, c, order, job, status, fills[0], charges, stop, target);
      FillsCarry(After(b, Fill(FillOf(c, order, job, status, fills[0]))), c, order, job, status, fills[1..],
                 charges + fills[0].charges, OrElse(job.stop, stop), OrElse(job.target, target));
    }
  }

  /** The fills table gains a leg's fills, in order, under its order. */
  ghost predicate Appended(before: seq<FillRow>, after: seq<FillRow>, order: nat, fills: seq<BrokerFill>) {
    && |after| == |before| + |fills| && before <= after
    && forall i | 0 <= i < |fills| ::
         var r := after[|before| + i];
         && r.order == order && r.fillId == fills[i].id && r.quantity == fills[i].quantity
         && r.price == fills[i].price && r.charges == fills[i].charges
  }

  lemma AppendedFirst(before: seq<FillRow>, after: seq<FillRow>, order: nat, fills: seq<BrokerFill>, first: FillRow)
    requires fills != [] && Appended(before + [first], after, order, fills[1..])
    requires first == FillRow(order, fills[0].id, fills[0].quantity, fills[0].price, fills[0].charges)
    ensures Appended(before, after, order, fills)
  {
    assert before <= before + [first] <= after;
    assert after[|before|] == (before + [first])[|before|];
    forall i | 0 < i < |fills| ensures after[|before| + i] == after[|before + [first]| + (i - 1)] && fills[i] == fills[1..][i - 1] {
    }
  }

  lemma {:induction false} FillsAppend(b: Books, c: Config, order: nat, job: Job, status: Status, fills: seq<BrokerFill>)
    requires Consistent(b) && Unrecorded(b, order, fills)
    ensures Appended(b.fills, FillAll(b, c, order, job, status, fills).fills, order, fills)
    decreases |fills|
  {
    if fills != [] {
      assert fills[0].quantity > 0 && !Recorded(b.fills, order, fills[0].id);
      FirstFill(b, c, order, job, status, fills);
      var f := FillOf(c, order, job, status, fills[0]);
      FillsAppend(After(b, Fill(f)), c, order, job, status, fills[1..]);
      AppendedFirst(b.fills, FillAll(b, c, order, job, status, fills).fills, order, fills, f.Row());
    }
  }

  lemma {:induction false} FillsSetStatus(b: Books, c: Config, order: nat, job: Job, status: Status, fills: seq<BrokerFill>)
    requires Consistent(b) && Unrecorded(b, order, fills)
    ensures var a := FillAll(b, c, order, job, status, fills);
            && |a.orders| == |b.orders|
            && a.orders[order].status == (if fills == [] then b.orders[order].status else status)
            && (fills != [] ==> DayOf(c, job) in a.lastCandle && a.lastCandle[DayOf(c, job)] == job.key.candleEnd)
    decreases |fills|
  {
    if fills != [] {
      assert fills[0].quantity > 0 && !Recorded(b.fills, order, fills[0].id);
      FirstFill(b, c, order, job, status, fills);
      var a := After(b, Fill(FillOf(c, order, job, status, fills[0])));
      assert a.orders[order].status == status;
      FillsSetStatus(a, c, order, job, status, fills[1..]);
    }
  }

  /** The row before a leg carries these figures. */
  ghost predicate Carried(s: Session, d: Desk, id: string, charges: real, stop: Option<real>, target: Option<real>) {
    Carries(RowOf(s.line.store.books.positions, d.Today(), id), charges, stop, target)
  }

  /**
   A leg the broker filled is recorded as it was answered: its order with the answer's status, its fills
   with their prices and charges, and its contract's row with the fills' charges on top, and the leg's
   stop and target where it gives them.
   */
  lemma LegIsRecorded(s: Session, d: Desk, o: Order, answer: Answer, charges: real, stop: Option<real>, target: Option<real>)
    requires Consistent(s.line.store.books) && Sent(s.line, d, o) && answer.Accepted?
    requires WellFormed(answer.fills) && answer.fills != [] && Carried(s, d, o.contract.security, charges, stop, target)
    ensures var b, line := s.line.store.books, Executed(s.line, d, o, answer);
            var a, order := line.store.books, |s.line.store.books.orders|;
            && |a.orders| == order + 1 && a.orders[order].status == answer.status
            && Appended(b.fills, a.fills, order, answer.fills)
            && d.Today() in a.lastCandle && Some(a.lastCandle[d.Today()]) == WindowOf(line.windows, o.contract.symbol)
            && RowOf(a.positions, d.Today(), o.contract.security).Some?
            && Carries(RowOf(a.positions, d.Today(), o.contract.security), charges + Charges(answer.fills),
                       if o.stop.Some? then o.stop else stop, if o.target.Some? then o.target else target)
  {
    var job, b := JobOf(d, s.line.windows, o), s.line.store.books;
    var row := OrderOf(|s.line.store.intents|, Intent(s.line.store, d.config, job).value.correlation, answer);
    SubmissionKeepsConsistent(b, row);
    var books := SubmittedBooks(s.line.store, d.config, job, answer);
    assert Unrecorded(books, |b.orders|, answer.fills);
    FillsCarry(books, d.config, |b.orders|, job, answer.status, answer.fills, charges, stop, target);
    FillsAppend(books, d.config, |b.orders|, job, answer.status, answer.fills);
    FillsSetStatus(books, d.config, |b.orders|, job, answer.status, answer.fills);
    FillsLeaveARow(books, d.config, |b.orders|, job, answer.status, answer.fills);
  }

  function WindowOf(windows: map<string, int>, instrument: string): Option<int> {
    if instrument in windows then Some(windows[instrument]) else None
  }

  lemma FillsLeaveARow(b: Books, c: Config, order: nat, job: Job, status: Status, fills: seq<BrokerFill>)
    requires Consistent(b) && Unrecorded(b, order, fills) && fills != []
    ensures RowOf(FillAll(b, c, order, job, status, fills).positions, DayOf(c, job), job.security).Some?
  {
    FillsMoveOneRow(b, c, order, job, status, fills);
    FoldIsThere(Net(b, DayOf(c, job), job.security), job.side, fills);
  }

  lemma {:induction false} FoldIsThere(net: Option<Netting.Net>, side: Side, fills: seq<BrokerFill>)
    requires fills != [] || net.Some?
    ensures Folded(net, side, fills).Some?
    decreases |fills|
  {
    if fills != [] {
      FoldIsThere(Some(Apply(net, LegOf(side, fills[0]))), side, fills[1..]);
    }
  }

  /** This is the key the leg is recorded under. */
  ghost predicate IsKey(g: Line, d: Desk, o: Order, key: SignalKey) {
    && key.strategy == d.config.strategy && key.mode == d.config.mode && key.instrument == o.contract.symbol
    && key.candleEnd == if o.contract.symbol in g.windows then MaxInt(o.ts, g.windows[o.contract.symbol] + 1) else o.ts
  }

  function MaxInt(m: int, n: int): int {
    if m >= n then m else n
  }

  /** This row could be the leg's intent: under the strategy-day's next number, and free in the table. */
  ghost predicate IsIntent(st: Store, d: Desk, o: Order, row: IntentRow) {
    && row.sequence == MaxSequence(st.intents, d.Today()) + 1 && row.day == d.Today() && row.signal == |st.signals|
    && Correlation.Build(d.config.mode, d.config.runtime, d.config.strategy, d.date, row.sequence) == Correlation.Id(row.correlation)
    && row.quantity == o.lots * o.contract.lotSize && row.quantity > 0
    && forall i | 0 <= i < |st.intents| ::
         st.intents[i].correlation != row.correlation && !(st.intents[i].day == row.day && st.intents[i].sequence == row.sequence)
  }

  /** The order row a broker's answer is recorded as. */
  ghost predicate IsOrder(row: OrderRow, intent: nat, correlation: string, answer: Answer) {
    && row.intent == intent && row.correlation == correlation
    && match answer
       case Accepted(status, filled, average, fills) => row.filled == filled && row.average == average && row.status == status
       case Refusal => row == OrderRow(intent, correlation, Rejected, 0, None)
  }

  lemma IntentExactly(g: Line, d: Desk, o: Order, row: IntentRow)
    ensures IsIntent(g.store, d, o, row) <==>
            var job := JobOf(d, g.windows, o);
            Intent(g.store, d.config, job) == Some(row) && Insertable(g.store.intents, row)
  {
  }

  /**
   The broker is called for a leg exactly when its key is new and an intent can be reserved for it.  The
   key is recorded whenever it is new; and with the call go the intent, and an order as it was answered.
   */
  lemma LegIsReservedExactly(s: Session, d: Desk, o: Order, answer: Answer, key: SignalKey)
    requires IsKey(s.line, d, o, key)
    ensures var st, after := s.line.store, Executed(s.line, d, o, answer).store;
            && (Sent(s.line, d, o) <==> key !in st.signals && exists row :: IsIntent(st, d, o, row))
            && after.signals == (if key in st.signals then st.signals else st.signals + [key])
            && (!Sent(s.line, d, o) ==> after.intents == st.intents && after.books == st.books)
            && (Sent(s.line, d, o) ==>
                  && |after.intents| == |st.intents| + 1 && after.intents[..|st.intents|] == st.intents
                  && IsIntent(st, d, o, after.intents[|st.intents|]))
  {
    var job := JobOf(d, s.line.windows, o);
    assert job.key == key;
    if Sent(s.line, d, o) {
      IntentExactly(s.line, d, o, Intent(s.line.store, d.config, job).value);
    }
    if row :| IsIntent(s.line.store, d, o, row) {
      IntentExactly(s.line, d, o, row);
    }
  }

  /** A leg that is refused leaves its order rejected and nothing else. */
  lemma OrderIsRecorded(s: Session, d: Desk, o: Order, answer: Answer)
    requires Sent(s.line, d, o) && (answer.Refusal? || answer.fills == [])
    ensures var b, after := s.line.store.books, Executed(s.line, d, o, answer).store;
            && |after.books.orders| == |b.orders| + 1 && after.books == b.(orders := after.books.orders)
            && after.books.orders[..|b.orders|] == b.orders && |after.intents| > |s.line.store.intents|
            && IsOrder(after.books.orders[|b.orders|], |s.line.store.intents|,
                       after.intents[|s.line.store.intents|].correlation, answer)
  {
  }

  // ------------------------------------------------------------------ agreement

  /** The row of a held contract: signed quantity, and the average it was entered at. */
  ghost predicate Backs(net: Option<Netting.Net>, h: Holding) {
    net.Some? && net.value.quantity == Signed(h.side, h.Quantity()) && net.value.average == h.entry
  }

  ghost predicate Agreed(s: Session, d: Desk, id: string) {
    var net := Net(s.line.store.books, d.Today(), id);
    if id in s.book.held then Backs(net, s.book.held[id]) else QuantityIn(net) == 0
  }

  function SumGross(trades: seq<Trade>): real {
    if trades == [] then 0.0 else SumGross(trades[..|trades| - 1]) + trades[|trades| - 1].gross
  }

  /** The persisted daily P&L that this process's trades do not account for. */
  function Unexplained(s: Session, d: Desk): real {
    DailyOf(s.line.store.books, d.Today()) - SumGross(s.book.trades)
  }

  /** The broker's answer filled all or nothing, at its fills' mean price. */
  predicate Whole(a: Answer, quantity: int) {
    if Acceptable(a) then Total(a.fills) == quantity && Worth(a.average.value, quantity) == Notional(a.fills)
    else FillsOf(a) == []
  }

  lemma OpenedRow(net: Option<Netting.Net>, o: Order, a: Answer)
    requires WellFormed(FillsOf(a)) && o.Quantity() > 0 && QuantityIn(net) == 0
    ensures var after := Folded(net, o.side, FillsOf(a));
            && RealisedIn(after) == RealisedIn(net)
            && (Acceptable(a) ==> (Backs(after, Fresh(o, a.average.value)) <==> Whole(a, o.Quantity())))
            && (!Acceptable(a) ==> (QuantityIn(after) == 0 <==> Whole(a, o.Quantity())))
  {
    var fills := FillsOf(a);
    FoldOpens(net, o.side, fills, 0, 0.0, RealisedIn(net));
    TotalIsPositive(fills);
    if Acceptable(a) {
      SamePriceSameWorth(Folded(net, o.side, fills).value.average, a.average.value, o.Quantity());
    }
  }

  lemma SamePriceSameWorth(p: real, q: real, n: int)
    requires n > 0
    ensures Worth(p, n) == Worth(q, n) <==> p == q
  {
    if p != q {
      assert (p - q) * n as real != 0.0;
    }
  }

  lemma ClosedRow(net: Option<Netting.Net>, h: Holding, a: Answer)
    requires WellFormed(FillsOf(a)) && h.Quantity() > 0 && Backs(net, h)
    ensures var after := Folded(net, Opposite(h.side), FillsOf(a));
            var gained := RealisedIn(after) - RealisedIn(net);
            && (Acceptable(a) ==>
                  (QuantityIn(after) == 0 && gained == Gross(h.side, h.Quantity(), h.entry, a.average.value)
                   <==> Whole(a, h.Quantity())))
            && (!Acceptable(a) ==> (Backs(after, h) && gained == 0.0 <==> Whole(a, h.Quantity())))
  {
    var fills, q := FillsOf(a), h.Quantity();
    FoldMovesQuantity(net, Opposite(h.side), fills);
    TotalIsPositive(fills);
    if Total(fills) == q {
      FoldCloses(net, h.side, fills, q, h.entry, RealisedIn(net), 0, 0.0);
      if Acceptable(a) {
        GrossIsGained(h.side, q, h.entry, a.average.value);
      }
    }
  }

  lemma GrossIsGained(side: Side, q: int, entry: real, exit: real)
    ensures Gross(side, q, entry, exit) == Gained(side, Worth(exit, q), Worth(entry, q))
  {
  }

  ghost predicate Keyed(held: map<string, Holding>) {
    forall id | id in held :: held[id].contract.security == id
  }

  /** The contract's row and the day's P&L are still in step with the book. */
  ghost predicate InStep(s: Session, t: Session, d: Desk, id: string) {
    Agreed(t, d, id) && Unexplained(t, d) == Unexplained(s, d)
  }

  lemma LeavingBooksGross(b: Shelf, id: string, result: Option<Outcome>)
    requires id in b.held
    ensures var h := b.held[id];
            SumGross(Left(b, id, result).trades) ==
            SumGross(b.trades) + if result.Some? then Gross(h.side, h.Quantity(), h.entry, result.value.price) else 0.0
  {
    var trades := Left(b, id, result).trades;
    assert result.Some? ==> trades[..|trades| - 1] == b.trades;
  }

  /**
   Opening a contract nobody holds: once the order is sent, the book and the ledger stay in step
   exactly when the broker filled all or nothing, at the mean price it reported.
   */
  lemma OpenInStepExactly(s: Session, d: Desk, o: Order, a: Answer)
    requires Consistent(s.line.store.books) && WellFormed(FillsOf(a))
    requires o.contract.security !in s.book.held && Agreed(s, d, o.contract.security)
    ensures var t := Opened(s, d, o, a);
            && Consistent(t.line.store.books)
            && (Sent(s.line, d, o) ==> (InStep(s, t, d, o.contract.security) <==> Whole(a, o.Quantity())))
    ensures !Sent(s.line, d, o) ==> InStep(s, Opened(s, d, o, a), d, o.contract.security)
  {
    ExecutedMovesOneRow(s, d, o, a);
    if Sent(s.line, d, o) {
      OpenedRow(Net(s.line.store.books, d.Today(), o.contract.security), o, a);
    }
  }

  /** Closing a held contract, likewise; the trade's gross P&L is then what the ledger realised. */
  lemma CloseInStepExactly(s: Session, d: Desk, id: string, ts: int, a: Answer)
    requires Consistent(s.line.store.books) && WellFormed(FillsOf(a))
    requires Keyed(s.book.held) && id in s.book.held && Agreed(s, d, id)
    ensures var t := Closed(s, d, id, ts, a);
            && Consistent(t.line.store.books)
            && (Sent(s.line, d, Closing(s.book.held[id], ts)) ==> (InStep(s, t, d, id) <==> Whole(a, s.book.held[id].Quantity())))
    ensures !Sent(s.line, d, Closing(s.book.held[id], ts)) ==> InStep(s, Closed(s, d, id, ts, a), d, id)
  {
    var h, t := s.book.held[id], Closed(s, d, id, ts, a);
    ExecutedMovesOneRow(s, d, Closing(h, ts), a);
    var before, after := Net(s.line.store.books, d.Today(), id), Net(t.line.store.books, d.Today(), id);
    var result := Outcomes(s.line, d, Closing(h, ts), a);
    LeavingBooksGross(s.book, id, result);
    var gross := if result.Some? then Gross(h.side, h.Quantity(), h.entry, result.value.price) else 0.0;
    assert Unexplained(t, d) - Unexplained(s, d) == (RealisedIn(after) - RealisedIn(before)) - gross;
    if Sent(s.line, d, Closing(h, ts)) {
      ClosedRow(before, h, a);
      if Acceptable(a) {
        assert Agreed(t, d, id) <==> QuantityIn(after) == 0;
      } else {
        assert Agreed(t, d, id) <==> Backs(after, h);
      }
    }
  }

  // ------------------------------------------------------------------ whole runs

  /**
   What the theorem asks of a call: the broker fills all or nothing, nothing is opened on a contract
   the ledger still carries from before, and an adopted holding is the one the ledger shows.
   */
  ghost predicate Proper(s: Session, d: Desk, c: Call) {
    match c
    case Open(o, a) =>
      o.contract.security in s.book.held ||
      (Agreed(s, d, o.contract.security) && WellFormed(FillsOf(a)) && Whole(a, o.Quantity()))
    case Close(id, _, a) => id in s.book.held ==> WellFormed(FillsOf(a)) && Whole(a, s.book.held[id].Quantity())
    case Adopt(h, _, _) =>
      h.contract.security in s.book.held || Backs(Net(s.line.store.books, d.Today(), h.contract.security), h)
    case Mark(_, _) => true
  }

  ghost predicate AllProper(s: Session, d: Desk, calls: seq<Call>) {
    forall k | 0 <= k < |calls| :: Proper(Run(s, d, calls[..k]), d, calls[k])
  }

  ghost predicate TradesBounded(trades: seq<Trade>) {
    forall i | 0 <= i < |trades| :: trades[i].mae <= trades[i].gross <= trades[i].mfe
  }

  /** Every held contract is backed by its ledger row. */
  ghost predicate Sound(s: Session, d: Desk) {
    && Consistent(s.line.store.books) && Keyed(s.book.held) && TradesBounded(s.book.trades)
    && forall id | id in s.book.held :: Agreed(s, d, id)
  }

  /** The ledger holds the contract but the book does not: a position left by an earlier process. */
  ghost predicate Leftover(s: Session, d: Desk, id: string) {
    id !in s.book.held && !Agreed(s, d, id)
  }

  /** Nothing of another contract moved, in the book or in the ledger. */
  ghost predicate Elsewhere(s: Session, t: Session, d: Desk, id: string) {
    forall other | other != id ::
      && Net(t.line.store.books, d.Today(), other) == Net(s.line.store.books, d.Today(), other)
      && (other in t.book.held <==> other in s.book.held)
      && (other in t.book.held ==> t.book.held[other] == s.book.held[other])
  }

  lemma StaysSound(s: Session, t: Session, d: Desk, id: string)
    requires Sound(s, d) && Consistent(t.line.store.books) && TradesBounded(t.book.trades)
    requires Elsewhere(s, t, d, id) && Agreed(t, d, id)
    requires id in t.book.held ==> t.book.held[id].contract.security == id
    ensures Sound(t, d) && forall other :: Leftover(t, d, other) ==> Leftover(s, d, other)
  {
    forall other | other != id
      ensures Agreed(t, d, other) <==> Agreed(s, d, other)
      ensures other in t.book.held ==> other in s.book.held && t.book.held[other].contract.security == other
    {
    }
  }

  lemma OpenTouchesOne(s: Session, d: Desk, o: Order, a: Answer)
    requires Consistent(s.line.store.books)
    ensures Elsewhere(s, Opened(s, d, o, a), d, o.contract.security)
  {
    forall other | other != o.contract.security
      ensures Net(Opened(s, d, o, a).line.store.books, d.Today(), other) == Net(s.line.store.books, d.Today(), other)
    {
      ExecutedSparesOthers(s, d, o, a, other);
    }
  }

  lemma CloseTouchesOne(s: Session, d: Desk, id: string, ts: int, a: Answer)
    requires Consistent(s.line.store.books) && Keyed(s.book.held)
    ensures Elsewhere(s, Closed(s, d, id, ts, a), d, id)
  {
    forall other | other != id
      ensures Net(Closed(s, d, id, ts, a).line.store.books, d.Today(), other) == Net(s.line.store.books, d.Today(), other)
    {
      if id in s.book.held {
        ExecutedSparesOthers(s, d, Closing(s.book.held[id], ts), a, other);
      }
    }
  }

  lemma OpenKeepsSound(s: Session, d: Desk, o: Order, a: Answer)
    requires Sound(s, d) && Proper(s, d, Open(o, a)) && o.contract.security !in s.book.held
    ensures var t := Opened(s, d, o, a);
            && Sound(t, d) && Unexplained(t, d) == Unexplained(s, d)
            && forall id :: Leftover(t, d, id) ==> Leftover(s, d, id)
  {
    OpenInStepExactly(s, d, o, a);
    OpenTouchesOne(s, d, o, a);
    StaysSound(s, Opened(s, d, o, a), d, o.contract.security);
  }

  lemma CloseKeepsSound(s: Session, d: Desk, id: string, ts: int, a: Answer)
    requires Sound(s, d) && Proper(s, d, Close(id, ts, a)) && id in s.book.held
    ensures var t := Closed(s, d, id, ts, a);
            && Sound(t, d) && Unexplained(t, d) == Unexplained(s, d)
            && forall other :: Leftover(t, d, other) ==> Leftover(s, d, other)
  {
    var t := Closed(s, d, id, ts, a);
    assert Agreed(s, d, id);
    CloseInStepExactly(s, d, id, ts, a);
    CloseTouchesOne(s, d, id, ts, a);
    LeavingIsSound(s.book, id, Outcomes(s.line, d, Closing(s.book.held[id], ts), a));
    assert Consistent(t.line.store.books) && Agreed(t, d, id);
    StaysSound(s, t, d, id);
  }

  lemma LeavingIsSound(b: Shelf, id: string, result: Option<Outcome>)
    requires TradesBounded(b.trades) && Keyed(b.held)
    ensures TradesBounded(Left(b, id, result).trades) && Keyed(Left(b, id, result).held)
  {
  }

  lemma CallKeepsSound(s: Session, d: Desk, c: Call)
    requires Sound(s, d) && Proper(s, d, c)
    ensures var t := Next(s, d, c);
            && Sound(t, d) && Unexplained(t, d) == Unexplained(s, d)
            && forall id :: Leftover(t, d, id) ==> Leftover(s, d, id)
  {
    match c
    case Open(o, a) =>
      if o.contract.security !in s.book.held {
        OpenKeepsSound(s, d, o, a);
      }
    case Close(id, ts, a) =>
      if id in s.book.held {
        CloseKeepsSound(s, d, id, ts, a);
      }
    case Adopt(h, charges, last) => AdoptKeepsSound(s, d, h, charges, last);
    case Mark(id, price) =>
      var t := s.(book := Priced(s.book, id, price));
      assert forall other | other in t.book.held ::
          Agreed(s, d, other) && t.book.held[other].side == s.book.held[other].side && t.book.held[other].contract == s.book.held[other].contract;
  }

  lemma AdoptKeepsSound(s: Session, d: Desk, h: Holding, charges: real, last: Option<real>)
    requires Sound(s, d) && Proper(s, d, Adopt(h, charges, last))
    ensures var t := s.(book := Adopted(s.book, h, charges, last));
            && Sound(t, d) && Unexplained(t, d) == Unexplained(s, d)
            && forall id :: Leftover(t, d, id) ==> Leftover(s, d, id)
  {
    if h.contract.security !in s.book.held {
      StaysSound(s, s.(book := Adopted(s.book, h, charges, last)), d, h.contract.security);
    }
  }

  /**
   After every call of every run, raised or not: each held contract's row carries its signed quantity
   at its entry price, a contract not held is flat unless an earlier process left it and nobody has
   adopted it, and the trades' gross P&L is the whole change in the persisted daily P&L.
   */
  lemma {:induction false} BookAgreesWithLedger(s: Session, d: Desk, calls: seq<Call>)
    requires Sound(s, d) && AllProper(s, d, calls)
    ensures var t := Run(s, d, calls);
            && Sound(t, d)
            && DailyOf(t.line.store.books, d.Today()) - DailyOf(s.line.store.books, d.Today()) == SumGross(t.book.trades) - SumGross(s.book.trades)
            && forall id :: Leftover(t, d, id) ==> Leftover(s, d, id)
  {
    if calls != [] {
      var init := calls[..|calls| - 1];
      assert forall k | 0 <= k < |init| :: init[..k] == calls[..k] && Proper(Run(s, d, init[..k]), d, init[k]) by {
        assert forall k | 0 <= k < |init| :: init[..k] == calls[..k] && init[k] == calls[k];
      }
      BookAgreesWithLedger(s, d, init);
      CallKeepsSound(Run(s, d, init), d, calls[|calls| - 1]);
    }
  }

  // ------------------------------------------------------------------ the life of a position

  /** What a position was entered with, and the prices it was marked at since. */
  datatype Life = Life(
    contract: Contract, side: Side, lots: int, entry: real, charges: real, mfe: real, mae: real, marks: seq<real>)
  {
    function Quantity(): int { lots * contract.lotSize }

    /** What it stood at, at a price. */
    function At(price: real): real {
      Gross(side, Quantity(), entry, price)
    }

    /** What it stood at, mark by mark. */
    function Gains(): seq<real> {
      seq(|marks|, k requires 0 <= k < |marks| => At(marks[k]))
    }

    function MarkedAt(price: real): Life { this.(marks := marks + [price]) }
  }

  /** The largest and the smallest of these figures, and of what it was entered with. */
  ghost predicate Extremes(mfe: real, mae: real, gains: seq<real>, largest: real, smallest: real) {
    && mfe <= largest && smallest <= mae
    && (forall k | 0 <= k < |gains| :: smallest <= gains[k] <= largest)
    && (largest == mfe || exists k :: 0 <= k < |gains| && largest == gains[k])
    && (smallest == mae || exists k :: 0 <= k < |gains| && smallest == gains[k])
  }

  lemma ExtremesGrow(mfe: real, mae: real, gains: seq<real>, largest: real, smallest: real, gain: real)
    requires Extremes(mfe, mae, gains, largest, smallest)
    ensures Extremes(mfe, mae, gains + [gain], Max(largest, gain), Min(smallest, gain))
  {
    var all := gains + [gain];
    assert all[|gains|] == gain && forall k | 0 <= k < |gains| :: all[k] == gains[k];
    if largest != mfe {
      var k :| 0 <= k < |gains| && largest == gains[k];
      assert all[k] == largest;
    }
    if smallest != mae {
      var k :| 0 <= k < |gains| && smallest == gains[k];
      assert all[k] == smallest;
    }
  }

  ghost predicate Remembers(life: Life, h: Holding, charges: real) {
    && h.contract == life.contract && h.side == life.side && h.lots == life.lots && h.entry == life.entry
    && charges == life.charges && h.last == (if life.marks == [] then life.entry else life.marks[|life.marks| - 1])
    && Extremes(life.mfe, life.mae, life.Gains(), h.mfe, h.mae)
  }

  /** The life of the position held on a contract, by the calls alone and by which of their legs raised. */
  ghost function LifeOf(s: Session, d: Desk, calls: seq<Call>, id: string): Option<Life> {
    if calls == [] then None
    else
      var init := calls[..|calls| - 1];
      var before := LifeOf(s, d, init, id);
      match calls[|calls| - 1]
      case Open(o, a) =>
        if before.None? && o.contract.security == id && Filled(Run(s, d, init), d, o, a)
        then Some(Life(o.contract, o.side, o.lots, a.average.value, Charges(a.fills), 0.0, 0.0, []))
        else before
      case Close(other, ts, a) =>
        if other == id && before.Some? && Filled(Run(s, d, init), d, Closes(before.value, ts), a) then None else before
      case Adopt(h, charges, last) =>
        if before.None? && h.contract.security == id
        then Some(Life(h.contract, h.side, h.lots, h.entry, charges, h.mfe, h.mae, if last.Some? then [last.value] else []))
        else before
      case Mark(other, price) =>
        if other == id && before.Some? then Some(before.value.MarkedAt(price)) else before
  }

  /** The order that closes it: the other side of the same lots, without a stop or a target. */
  function Closes(life: Life, ts: int): Order {
    Order(life.contract, if life.side == Buy then Sell else Buy, life.lots, ts, None, None)
  }

  /** The order was sent, and the answer counts as filled: neither rejected nor partial, with real fills and their mean. */
  predicate Filled(s: Session, d: Desk, o: Order, a: Answer) {
    && Sent(s.line, d, o) && a.Accepted? && (a.status == Ledger.Filled || a.status == Ledger.Submitted)
    && a.average.Some? && a.fills != [] && forall k | 0 <= k < |a.fills| :: a.fills[k].quantity > 0
  }

  /** The book holds exactly the positions with a life, as their lives say. */
  ghost predicate HeldAs(b: Shelf, id: string, life: Option<Life>) {
    && (id in b.held <==> life.Some?) && (id in b.held <==> id in b.entryCharges)
    && (life.Some? ==> life.value.contract.security == id && Remembers(life.value, b.held[id], b.entryCharges[id]))
  }

  lemma OneMoreGain(life: Life, price: real)
    ensures life.MarkedAt(price).Gains() == life.Gains() + [life.At(price)]
  {
    var t := life.MarkedAt(price);
    forall k | 0 <= k < |t.marks| ensures t.Gains()[k] == (life.Gains() + [life.At(price)])[k] {
    }
  }

  lemma MarkRemembers(life: Life, h: Holding, charges: real, price: real)
    requires Remembers(life, h, charges)
    ensures Remembers(life.MarkedAt(price), h.Marked(price), charges)
  {
    OneMoreGain(life, price);
    ExtremesGrow(life.mfe, life.mae, life.Gains(), h.mfe, h.mae, life.At(price));
  }

  lemma AdoptRemembers(h: Holding, charges: real, last: Option<real>)
    ensures Remembers(Life(h.contract, h.side, h.lots, h.entry, charges, h.mfe, h.mae, if last.Some? then [last.value] else []),
                      Starting(h, last), charges)
  {
    var life := Life(h.contract, h.side, h.lots, h.entry, charges, h.mfe, h.mae, []);
    assert Remembers(life, h.(last := h.entry), charges);
    if last.Some? {
      MarkRemembers(life, h.(last := h.entry), charges, last.value);
      assert h.(last := h.entry).Marked(last.value) == h.Marked(last.value);
      assert life.MarkedAt(last.value).marks == [last.value];
    }
  }

  lemma FilledExactly(s: Session, d: Desk, o: Order, a: Answer)
    ensures Filled(s, d, o, a) <==> Outcomes(s.line, d, o, a).Some?
    ensures Filled(s, d, o, a) ==> Outcomes(s.line, d, o, a).value == Outcome(a.average.value, Charges(a.fills))
  {
  }

  lemma OpenRemembers(s: Session, d: Desk, o: Order, a: Answer, id: string, life: Option<Life>)
    requires HeldAs(s.book, id, life)
    ensures var opens := life.None? && o.contract.security == id && Filled(s, d, o, a);
            HeldAs(Opened(s, d, o, a).book, id,
                   if opens then Some(Life(o.contract, o.side, o.lots, a.average.value, Charges(a.fills), 0.0, 0.0, [])) else life)
  {
    FilledExactly(s, d, o, a);
  }

  lemma CloseRemembers(s: Session, d: Desk, other: string, ts: int, a: Answer, id: string, life: Option<Life>)
    requires HeldAs(s.book, id, life)
    ensures var closes := other == id && life.Some? && Filled(s, d, Closes(life.value, ts), a);
            HeldAs(Closed(s, d, other, ts, a).book, id, if closes then None else life)
  {
    if other == id && life.Some? {
      assert Closes(life.value, ts) == Closing(s.book.held[id], ts);
      FilledExactly(s, d, Closes(life.value, ts), a);
    }
  }

  lemma CallRemembers(s: Session, d: Desk, init: seq<Call>, c: Call, id: string)
    requires HeldAs(Run(s, d, init).book, id, LifeOf(s, d, init, id))
    ensures HeldAs(Next(Run(s, d, init), d, c).book, id, LifeOf(s, d, init + [c], id))
  {
    assert (init + [c])[..|init|] == init;
    var before, now := LifeOf(s, d, init, id), Run(s, d, init);
    match c
    case Open(o, a) => OpenRemembers(now, d, o, a, id, before);
    case Close(other, ts, a) => CloseRemembers(now, d, other, ts, a, id, before);
    case Adopt(h, charges, last) => AdoptRemembers(h, charges, last);
    case Mark(other, price) =>
      if other == id && before.Some? {
        MarkRemembers(before.value, now.book.held[id], now.book.entryCharges[id], price);
      }
  }

  /**
   For every run of a fresh manager: what it holds is what was opened or adopted and not closed since, at
   its own entry and charges, marked at its last price, with the extremes of all its marks.
   */
  lemma {:induction false} EveryRunRemembers(s: Session, d: Desk, calls: seq<Call>, id: string)
    requires s.book.held == map[] && s.book.entryCharges == map[]
    ensures HeldAs(Run(s, d, calls).book, id, LifeOf(s, d, calls, id))
  {
    if calls != [] {
      var init := calls[..|calls| - 1];
      EveryRunRemembers(s, d, init, id);
      CallRemembers(s, d, init, calls[|calls| - 1], id);
      assert init + [calls[|calls| - 1]] == calls;
    }
  }

  /** A trade tells of the life it closes: both legs' charges, its gross P&L, and its extremes up to the exit. */
  ghost predicate TellsOf(trade: Trade, life: Life, a: Answer)
    requires Acceptable(a)
  {
    && trade.contract == life.contract && trade.side == life.side && trade.lots == life.lots
    && trade.quantity == life.Quantity() && trade.entry == life.entry && trade.exit == a.average.value
    && trade.gross == life.At(a.average.value) && trade.charges == life.charges + Charges(a.fills)
    && Extremes(life.mfe, life.mae, life.Gains() + [life.At(a.average.value)], trade.mfe, trade.mae)
  }

  lemma TradeTells(life: Life, h: Holding, charges: real, a: Answer)
    requires Remembers(life, h, charges) && Acceptable(a)
    ensures TellsOf(TradeOf(h, charges, OutcomeOf(a)), life, a)
  {
    MarkRemembers(life, h, charges, a.average.value);
    OneMoreGain(life, a.average.value);
  }

  /** The legs that were filled. */
  ghost function Legs(s: Session, d: Desk, calls: seq<Call>): nat {
    if calls == [] then 0
    else
      var init, before := calls[..|calls| - 1], Run(s, d, calls[..|calls| - 1]);
      Legs(s, d, init) +
      match calls[|calls| - 1]
      case Open(o, a) => if o.contract.security !in before.book.held && Filled(before, d, o, a) then 1 else 0
      case Close(id, ts, a) => if id in before.book.held && Filled(before, d, Closing(before.book.held[id], ts), a) then 1 else 0
      case _ => 0
  }

  /** The gateway's count of executions is the number of legs filled. */
  lemma {:induction false} ExecutionsAreLegs(s: Session, d: Desk, calls: seq<Call>)
    ensures Run(s, d, calls).line.executions == s.line.executions + Legs(s, d, calls)
  {
    if calls != [] {
      ExecutionsAreLegs(s, d, calls[..|calls| - 1]);
    }
  }

  /** And closing a position books the one trade that tells of its life. */
  lemma TradeIsItsLife(s: Session, d: Desk, calls: seq<Call>, id: string, ts: int, a: Answer)
    requires s.book.held == map[] && s.book.entryCharges == map[] && LifeOf(s, d, calls, id).Some?
    requires Filled(Run(s, d, calls), d, Closes(LifeOf(s, d, calls, id).value, ts), a)
    ensures var b, t := Run(s, d, calls).book, Run(s, d, calls + [Close(id, ts, a)]).book;
            && id !in t.held && |t.trades| == |b.trades| + 1 && b.trades == t.trades[..|b.trades|]
            && TellsOf(t.trades[|b.trades|], LifeOf(s, d, calls, id).value, a)
  {
    EveryRunRemembers(s, d, calls, id);
    assert (calls + [Close(id, ts, a)])[..|calls|] == calls;
    var b, life := Run(s, d, calls).book, LifeOf(s, d, calls, id).value;
    assert Closes(life, ts) == Closing(b.held[id], ts);
    TradeTells(life, b.held[id], b.entryCharges[id], a);
  }

  // ------------------------------------------------------------------ the charges of an adopted trade

  /**
   A position adopted with its row's charges, as recovery does, and then closed: its trade is charged
   for its own round trip if and only if the earlier trips on that row cost nothing; otherwise its net
   P&L is short by exactly what they cost.
   */
  lemma AdoptedTradeIsChargedExactly(s: Session, d: Desk, events: seq<Event>, h: Holding, last: Option<real>, ts: int, a: Answer)
    requires s.line.store.books == History(events) && h.contract.security !in s.book.held
    requires RowOf(History(events).positions, d.Today(), h.contract.security).Some?
    requires Outcomes(s.line, d, Closing(Starting(h, last), ts), a).Some?
    ensures var id := h.contract.security;
            var row := RowOf(History(events).positions, d.Today(), id).value;
            var t := Closed(s.(book := Adopted(s.book, h, row.charges, last)), d, id, ts, a);
            var own, earlier := TripCharges(events, d.Today(), id) + Charges(a.fills), EarlierCharges(events, d.Today(), id);
            && |t.book.trades| == |s.book.trades| + 1
            && var trade := t.book.trades[|s.book.trades|];
               && trade.charges == own + earlier
               && trade.NetPnl() == trade.gross - own - earlier
               && (trade.charges == own <==> earlier == 0.0)
  {
    RowChargesAreTheTripsExactly(events, d.Today(), h.contract.security);
  }

  // ------------------------------------------------------------------ windows

  /** A signal is either from an earlier process or no later than its instrument's window. */
  ghost predicate Windowed(g: Line, earlier: seq<SignalKey>) {
    forall key | key in g.store.signals && key !in earlier ::
      key.instrument in g.windows && key.candleEnd <= g.windows[key.instrument]
  }

  lemma HandledSignals(st: Store, c: Config, job: Job, answer: Answer)
    ensures var after := Handled(st, c, job, answer).signals;
            after == st.signals || after == st.signals + [job.key]
  {
  }

  lemma ExecutedKeepsWindows(g: Line, d: Desk, o: Order, a: Answer, earlier: seq<SignalKey>)
    requires Windowed(g, earlier)
    ensures Windowed(Executed(g, d, o, a), earlier)
  {
    HandledSignals(g.store, d.config, JobOf(d, g.windows, o), a);
  }

  /**
   Whatever the timestamps of the calls, equal or going back, no leg is suppressed as a duplicate of
   another leg of the same process: only a signal saved before it started can collide.
   */
  lemma {:induction false} OnlyEarlierSignalsCollide(s: Session, d: Desk, calls: seq<Call>, o: Order)
    requires s.line.windows == map[]
    ensures var g := Run(s, d, calls).line;
            && Windowed(g, s.line.store.signals)
            && (JobOf(d, g.windows, o).key in g.store.signals ==> JobOf(d, g.windows, o).key in s.line.store.signals)
  {
    if calls != [] {
      OnlyEarlierSignalsCollide(s, d, calls[..|calls| - 1], o);
      var t := Run(s, d, calls[..|calls| - 1]);
      match calls[|calls| - 1]
      case Open(p, a) => ExecutedKeepsWindows(t.line, d, p, a, s.line.store.signals);
      case Close(id, ts, a) =>
        if id in t.book.held {
          ExecutedKeepsWindows(t.line, d, Closing(t.book.held[id], ts), a, s.line.store.signals);
        }
      case _ =>
    }
  }

  // ------------------------------------------------------------------ the objects

  /** `OpenPosition`: what a position is stays fixed, its price and excursions move. */
  class OpenPosition {
    const contract: Contract
    const side: Side
    const lots: int
    const entry: real
    var last: real
    var mfe: real
    var mae: real

    function View(): Holding
      reads this
    {
      Holding(contract, side, lots, entry, last, mfe, mae)
    }

    constructor (h: Holding)
      ensures View() == h
    {
      contract, side, lots, entry := h.contract, h.side, h.lots, h.entry;
      last, mfe, mae := h.last, h.mfe, h.mae;
    }

    method UpdatePrice(price: real)
      modifies this
      ensures View() == old(View()).Marked(price)
    {
      last := price;
      var pnl := View().UnrealisedPnl();
      if pnl > mfe {
        mfe := pnl;
      }
      if pnl < mae {
        mae := pnl;
      }
    }
  }

  /** An order with a fill has its contract's row, so replaying the fill finds a row to return. */
  ghost predicate HasRow(b: Books, order: nat, day: Day, security: string) {
    (exists i :: 0 <= i < |b.fills| && b.fills[i].order == order) ==> Find(b.positions, day, security).Some?
  }

  lemma FillHasRow(b: Books, c: Config, order: nat, job: Job, status: Status, f: BrokerFill)
    requires order < |b.orders| && HasRow(b, order, DayOf(c, job), job.security)
    ensures var a := After(b, Fill(FillOf(c, order, job, status, f)));
            && |a.orders| == |b.orders| && HasRow(a, order, DayOf(c, job), job.security)
            && (f.quantity > 0 ==> Find(a.positions, DayOf(c, job), job.security).Some?)
  {
    if f.quantity > 0 {
      AppliedIsKnown(b, FillOf(c, order, job, status, f));
    }
  }

  lemma FillAllFrom(b: Books, c: Config, order: nat, job: Job, status: Status, fills: seq<BrokerFill>, i: nat)
    requires i < |fills|
    ensures FillAll(b, c, order, job, status, fills[i..]) ==
            if fills[i].quantity <= 0 then b
            else FillAll(After(b, Fill(FillOf(c, order, job, status, fills[i]))), c, order, job, status, fills[i + 1..])
    ensures fills[i].quantity <= 0 ==> After(b, Fill(FillOf(c, order, job, status, fills[i]))) == b
  {
    assert fills[i..][1..] == fills[i + 1..];
  }

  /** `LifecycleGateway` over its `OrderLifecycle`: one desk's way to the broker and the database. */
  class LifecycleGateway {
    const desk: Desk
    const repo: ExecutionRepository
    var signals: seq<SignalKey>
    var intents: seq<IntentRow>
    var windows: map<string, int>
    var executions: nat

    function Database(): Store
      reads this, repo
    {
      Store(signals, intents, repo.Tables())
    }

    constructor (desk: Desk, repo: ExecutionRepository)
      ensures this.desk == desk && this.repo == repo
      ensures signals == [] && intents == [] && windows == map[] && executions == 0
    {
      this.desk, this.repo := desk, repo;
      signals, intents, windows, executions := [], [], map[], 0;
    }

    /** Up to the broker call: save the signal, then reserve its intent; None when either fails. */
    method Reserve(job: Job) returns (row: Option<IntentRow>)
      modifies this`signals, this`intents
      ensures var before, after := old(Database()), Database();
              && row == (if Reaches(before, desk.config, job) then Intent(before, desk.config, job) else None)
              && after.books == before.books
              && after.signals == (if job.key in before.signals then before.signals else before.signals + [job.key])
              && after.intents == if row.Some? then before.intents + [row.value] else before.intents
    {
      if job.key in signals {
        return None;
      }
      row := Intent(Database(), desk.config, job);
      signals := signals + [job.key];
      if row.None? || !Insertable(intents, row.value) {
        return None;
      }
      intents := intents + [row.value];
    }

    /** `handle_signal`; None when it skips or raises, otherwise the broker's answer. */
    method HandleSignal(job: Job, answer: Answer) returns (result: Option<Answer>)
      requires repo.Valid()
      modifies this`signals, this`intents, repo
      ensures repo.Valid() && Database() == Handled(old(Database()), desk.config, job, answer)
      ensures result == if Reaches(old(Database()), desk.config, job) && AllValid(FillsOf(answer)) then Some(answer) else None
    {
      var row := Reserve(job);
      if row.None? {
        return None;
      }
      result := Settle(OrderOf(|intents| - 1, row.value.correlation, answer), job, answer);
    }

    /** Record the broker's answer, and its fills. */
    method Settle(row: OrderRow, job: Job, answer: Answer) returns (result: Option<Answer>)
      requires repo.Valid()
      modifies repo
      ensures repo.Valid()
      ensures var books := After(old(repo.Tables()), Ledger.Submission(row));
              repo.Tables() == if answer.Refusal? then books
                               else FillAll(books, desk.config, |old(repo.orders)|, job, answer.status, answer.fills)
      ensures result == if AllValid(FillsOf(answer)) then Some(answer) else None
    {
      var order := repo.RecordSubmission(row);
      if answer.Refusal? {
        return Some(answer);
      }
      var applied := ApplyFills(order, job, answer.status, answer.fills);
      result := if applied then Some(answer) else None;
    }

    /** The loop over the order's fills; stops at one that raises. */
    method ApplyFills(order: nat, job: Job, status: Status, fills: seq<BrokerFill>) returns (all: bool)
      requires repo.Valid() && order < |repo.orders| && HasRow(repo.Tables(), order, DayOf(desk.config, job), job.security)
      modifies repo
      ensures repo.Valid() && repo.Tables() == FillAll(old(repo.Tables()), desk.config, order, job, status, fills)
      ensures all == AllValid(fills)
    {
      var i := 0;
      ghost var goal := FillAll(repo.Tables(), desk.config, order, job, status, fills);
      assert fills[0..] == fills;
      while i < |fills|
        invariant 0 <= i <= |fills| && repo.Valid() && order < |repo.orders|
        invariant forall k | 0 <= k < i :: fills[k].quantity > 0
        invariant FillAll(repo.Tables(), desk.config, order, job, status, fills[i..]) == goal
        invariant HasRow(repo.Tables(), order, DayOf(desk.config, job), job.security)
      {
        var applied := ApplyOne(order, job, status, fills, i);
        if !applied {
          return false;
        }
        i := i + 1;
      }
      assert fills[i..] == [];
      all := true;
    }

    method ApplyOne(order: nat, job: Job, status: Status, fills: seq<BrokerFill>, i: nat) returns (applied: bool)
      requires i < |fills|
      requires repo.Valid() && order < |repo.orders| && HasRow(repo.Tables(), order, DayOf(desk.config, job), job.security)
      modifies repo
      ensures repo.Valid() && order < |repo.orders| && HasRow(repo.Tables(), order, DayOf(desk.config, job), job.security)
      ensures FillAll(old(repo.Tables()), desk.config, order, job, status, fills[i..]) ==
              if applied then FillAll(repo.Tables(), desk.config, order, job, status, fills[i + 1..]) else repo.Tables()
      ensures applied == (fills[i].quantity > 0)
    {
      FillHasRow(repo.Tables(), desk.config, order, job, status, fills[i]);
      FillAllFrom(repo.Tables(), desk.config, order, job, status, fills, i);
      var row := repo.ApplyFill(FillOf(desk.config, order, job, status, fills[i]));
      applied := row.Some?;
    }

    function View(): Line
      reads this, repo
    {
      Line(Database(), windows, executions)
    }

    /** `_execute`: the leg's outcome, or None for a raised error. */
    method Execute(o: Order, answer: Answer) returns (result: Option<Outcome>)
      requires repo.Valid()
      modifies this, repo
      ensures repo.Valid()
      ensures View() == Executed(old(View()), desk, o, answer)
      ensures result == Outcomes(old(View()), desk, o, answer)
    {
      var job := JobOf(desk, windows, o);
      ExecutedIs(View(), desk, o, answer);
      windows := windows[o.contract.symbol := job.key.candleEnd];
      var handled := HandleSignal(job, answer);
      if handled.None? || !Acceptable(handled.value) {
        return None;
      }
      executions := executions + 1;
      result := Some(OutcomeOf(handled.value));
    }
  }

  lemma ExecutedIs(g: Line, d: Desk, o: Order, answer: Answer)
    ensures var job, filled := JobOf(d, g.windows, o), Outcomes(g, d, o, answer).Some?;
            && (filled <==> Reaches(g.store, d.config, job) && AllValid(FillsOf(answer)) && Acceptable(answer))
            && Executed(g, d, o, answer) ==
               Line(Handled(g.store, d.config, job, answer), g.windows[o.contract.symbol := job.key.candleEnd],
                    g.executions + if filled then 1 else 0)
  {
  }

  /** `PositionManager`: the open positions by contract, and the day's closed trades. */
  class PositionManager {
    const gateway: LifecycleGateway
    const lots: int
    var positions: map<string, OpenPosition>
    var entryCharges: map<string, real>
    var trades: seq<Trade>

    ghost predicate Valid()
      reads this, gateway.repo
    {
      && gateway.repo.Valid()
      && forall a, b | a in positions && b in positions && a != b :: positions[a] != positions[b]
    }

    function Held(): map<string, Holding>
      reads this, positions.Values
    {
      map id | id in positions :: positions[id].View()
    }

    function View(): Session
      reads this, gateway, gateway.repo, positions.Values
    {
      Session(gateway.View(), Shelf(Held(), entryCharges, trades))
    }

    constructor (gateway: LifecycleGateway, lots: int)
      requires gateway.repo.Valid()
      ensures Valid() && this.gateway == gateway && this.lots == lots
      ensures positions == map[] && entryCharges == map[] && trades == []
    {
      this.gateway, this.lots := gateway, lots;
      positions, entryCharges, trades := map[], map[], [];
    }

    /** Put a position in the book under its contract. */
    method Enter(h: Holding, charges: real) returns (p: OpenPosition)
      requires Valid() && h.contract.security !in positions
      modifies this
      ensures Valid() && fresh(p) && positions == old(positions)[h.contract.security := p]
      ensures Held() == old(Held())[h.contract.security := h]
      ensures entryCharges == old(entryCharges)[h.contract.security := charges] && trades == old(trades)
    {
      p := new OpenPosition(h);
      positions := positions[h.contract.security := p];
      entryCharges := entryCharges[h.contract.security := charges];
    }

    /** Take a position out of the book at its exit price, and record the trade. */
    method Leave(id: string, result: Outcome) returns (trade: Trade)
      requires Valid() && id in positions
      modifies this, positions.Values
      ensures Valid() && positions == old(positions) - {id}
      ensures Held() == old(Held()) - {id}
      ensures entryCharges == old(entryCharges) - {id} && trades == old(trades) + [trade]
      ensures trade == old(TradeOf(positions[id].View(), if id in entryCharges then entryCharges[id] else 0.0, result))
    {
      var position := positions[id];
      var entry := if id in entryCharges then entryCharges[id] else 0.0;
      entryCharges := entryCharges - {id};
      var gross := Gross(position.side, position.View().Quantity(), position.entry, result.price);
      position.UpdatePrice(result.price);
      trade := Trade(position.contract, position.side, position.lots, position.View().Quantity(),
                     position.entry, result.price, gross, entry + result.charges, position.mfe, position.mae);
      trades := trades + [trade];
      positions := positions - {id};
    }

    /** `open`; None for a raised error. */
    method Open(contract: Contract, side: Side, ts: int, stop: Option<real>, target: Option<real>, answer: Answer)
      returns (p: Option<OpenPosition>)
      requires Valid()
      modifies this, gateway, gateway.repo
      ensures Valid()
      ensures View() == Opened(old(View()), gateway.desk, Order(contract, side, lots, ts, stop, target), answer)
      ensures p.Some? ==> contract.security in positions && positions[contract.security] == p.value && fresh(p.value)
      ensures p.None? ==> positions == old(positions) && trades == old(trades)
    {
      if contract.security in positions {
        return None;
      }
      var o := Order(contract, side, lots, ts, stop, target);
      var result := gateway.Execute(o, answer);
      if result.None? {
        return None;
      }
      var position := Enter(Fresh(o, result.value.price), result.value.charges);
      p := Some(position);
    }

    /** `adopt`: false for a raised error; touches neither the gateway nor the database. */
    method Adopt(h: Holding, charges: real, last: Option<real>) returns (adopted: bool)
      requires Valid()
      modifies this
      ensures Valid()
      ensures View() == old(View()).(book := Adopted(old(View().book), h, charges, last))
      ensures adopted == (h.contract.security !in old(positions))
    {
      if h.contract.security in positions {
        return false;
      }
      var position := Enter(Starting(h, last), charges);
      adopted := true;
    }

    /** `close`; None for a raised error, which leaves the book as it was. */
    method Close(id: string, ts: int, answer: Answer) returns (trade: Option<Trade>)
      requires Valid()
      modifies this, gateway, gateway.repo, positions.Values
      ensures Valid()
      ensures View() == Closed(old(View()), gateway.desk, id, ts, answer)
      ensures trade.Some? ==> id in old(positions) && id !in positions && trades == old(trades) + [trade.value]
      ensures trade.None? ==> positions == old(positions) && trades == old(trades)
    {
      if id !in positions {
        return None;
      }
      var result := gateway.Execute(Closing(positions[id].View(), ts), answer);
      if result.None? {
        return None;
      }
      var closed := Leave(id, result.value);
      trade := Some(closed);
    }
  }
}
