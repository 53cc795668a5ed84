/**
 The repository's execution tables and the transaction that moves them together: a fill, its
 order's totals, its position row and the strategy-day's running P&L.
 */
module Ledger {
  import opened Prelude
  import opened Netting

  /** The strategy-day that `positions` and `strategy_state` rows belong to. */
  datatype Day = Day(strategy: string, mode: Mode, date: string)

  datatype Status = Submitted | PartiallyFilled | Filled | Rejected

  /** Rows are kept in insertion order; an order's id is its place in the table. */
  datatype OrderRow = OrderRow(intent: nat, correlation: string, status: Status, filled: int, average: Option<real>)

  datatype FillRow = FillRow(order: nat, fillId: string, quantity: int, price: real, charges: real)

  datatype PositionRow = PositionRow(
    day: Day, security: string, net: Net, charges: real,
    stop: Option<real>, target: Option<real>, open: bool)

  datatype Books = Books(
    orders: seq<OrderRow>,
    fills: seq<FillRow>,
    positions: seq<PositionRow>,
    daily: map<Day, real>,
    lastCandle: map<Day, int>)

  const NO_BOOKS := Books([], [], [], map[], map[])

  /** One call of `apply_fill`. */
  datatype FillEvent = FillEvent(
    order: nat, fillId: string, quantity: int, price: real, charges: real, status: Status,
    day: Day, security: string, side: Side,
    stop: Option<real>, target: Option<real>, candleEnd: Option<int>)
  {
    /** The schema's CHECK on a fill. */
    predicate Valid() { quantity > 0 }

    function Leg(): Leg { Netting.Leg(side.Sign() * quantity, price) }

    function Row(): FillRow { FillRow(order, fillId, quantity, price, charges) }
  }

  // ------------------------------------------------------------------ queries

  predicate Recorded(fills: seq<FillRow>, order: nat, fillId: string) {
    exists i :: 0 <= i < |fills| && fills[i].order == order && fills[i].fillId == fillId
  }

  function SumQuantity(fills: seq<FillRow>, order: nat): int {
    if fills == [] then 0
    else SumQuantity(fills[..|fills| - 1], order) +
         if fills[|fills| - 1].order == order then fills[|fills| - 1].quantity else 0
  }

  function SumNotional(fills: seq<FillRow>, order: nat): real {
    if fills == [] then 0.0
    else SumNotional(fills[..|fills| - 1], order) +
         if fills[|fills| - 1].order == order
         then fills[|fills| - 1].price * fills[|fills| - 1].quantity as real else 0.0
  }

  /** The row of a contract, by its unique key. */
  function Find(rows: seq<PositionRow>, day: Day, security: string): (r: Option<nat>)
    ensures r.Some? ==> r.value < |rows| && rows[r.value].day == day && rows[r.value].security == security
    ensures r.None? ==> forall i | 0 <= i < |rows| :: !(rows[i].day == day && rows[i].security == security)
  {
    if rows == [] then None
    else if rows[|rows| - 1].day == day && rows[|rows| - 1].security == security then Some(|rows| - 1)
    else Find(rows[..|rows| - 1], day, security)
  }

  function NetOf(rows: seq<PositionRow>, day: Day, security: string): Option<Net> {
    match Find(rows, day, security)
    case None => None
    case Some(i) => Some(rows[i].net)
  }

  function RealisedOn(rows: seq<PositionRow>, day: Day): real {
    if rows == [] then 0.0
    else RealisedOn(rows[..|rows| - 1], day) +
         if rows[|rows| - 1].day == day then rows[|rows| - 1].net.realised else 0.0
  }

  function DailyOf(b: Books, day: Day): real {
    if day in b.daily then b.daily[day] else 0.0
  }

  function OrElse<T>(x: Option<T>, y: Option<T>): Option<T> {
    if x.Some? then x else y
  }

  // ------------------------------------------------------------------ the transaction, as a function

  function MoveOrder(o: OrderRow, status: Status, fills: seq<FillRow>, order: nat): OrderRow {
    var filled := SumQuantity(fills, order);
    o.(status := status, filled := filled,
       average := if filled == 0 then None else Some(SumNotional(fills, order) / filled as real))
  }

  function NewRow(f: FillEvent): PositionRow {
    PositionRow(f.day, f.security, Apply(None, f.Leg()), f.charges, f.stop, f.target, true)
  }

  function MoveRow(r: PositionRow, f: FillEvent): PositionRow {
    var net := Apply(Some(r.net), f.Leg());
    r.(net := net, charges := r.charges + f.charges,
       stop := OrElse(f.stop, r.stop), target := OrElse(f.target, r.target), open := net.quantity != 0)
  }

  function MovePositions(rows: seq<PositionRow>, f: FillEvent): seq<PositionRow> {
    match Find(rows, f.day, f.security)
    case None => rows + [NewRow(f)]
    case Some(i) => rows[i := MoveRow(rows[i], f)]
  }

  /** What one fill adds to realised P&L: the change in its own row. */
  function RealisedDelta(rows: seq<PositionRow>, f: FillEvent): real {
    match Find(rows, f.day, f.security)
    case None => 0.0
    case Some(i) => MoveRow(rows[i], f).net.realised - rows[i].net.realised
  }

  /** `apply_fill`: nothing for a fill already recorded, otherwise all four tables at once. */
  function Applied(b: Books, f: FillEvent): Books
    requires f.order < |b.orders|
  {
    if Recorded(b.fills, f.order, f.fillId) then b
    else
      var fills := b.fills + [f.Row()];
      Books(b.orders[f.order := MoveOrder(b.orders[f.order], f.status, fills, f.order)],
            fills,
            MovePositions(b.positions, f),
            b.daily[f.day := DailyOf(b, f.day) + RealisedDelta(b.positions, f)],
            if f.candleEnd.Some? then b.lastCandle[f.day := f.candleEnd.value] else b.lastCandle)
  }

  // ------------------------------------------------------------------ what every transaction keeps

  ghost predicate UniqueRows(rows: seq<PositionRow>) {
    forall i, j | 0 <= i < j < |rows| :: rows[i].day != rows[j].day || rows[i].security != rows[j].security
  }

  /** Once an order has a fill, its totals are its fills' sum and weighted mean. */
  ghost predicate OrderAgrees(b: Books, o: nat)
    requires o < |b.orders|
  {
    var filled := SumQuantity(b.fills, o);
    filled > 0 ==>
      b.orders[o].filled == filled && b.orders[o].average == Some(SumNotional(b.fills, o) / filled as real)
  }

  ghost predicate Consistent(b: Books) {
    && (forall i | 0 <= i < |b.fills| :: b.fills[i].order < |b.orders| && b.fills[i].quantity > 0)
    && (forall i, j | 0 <= i < j < |b.fills| ::
          b.fills[i].order != b.fills[j].order || b.fills[i].fillId != b.fills[j].fillId)
    && UniqueRows(b.positions)
    && (forall i | 0 <= i < |b.positions| :: b.positions[i].open <==> b.positions[i].net.quantity != 0)
    && (forall o | 0 <= o < |b.orders| :: OrderAgrees(b, o))
    && (forall day :: DailyOf(b, day) == RealisedOn(b.positions, day))
  }

  lemma {:induction false} SumsOfOtherOrders(fills: seq<FillRow>, order: nat)
    requires forall i | 0 <= i < |fills| :: fills[i].order != order
    ensures SumQuantity(fills, order) == 0
  {
    if fills != [] {
      SumsOfOtherOrders(fills[..|fills| - 1], order);
    }
  }

  lemma {:induction false} SumsArePositive(fills: seq<FillRow>, order: nat)
    requires forall i | 0 <= i < |fills| :: fills[i].quantity > 0
    ensures SumQuantity(fills, order) >= 0
  {
    if fills != [] {
      SumsArePositive(fills[..|fills| - 1], order);
    }
  }

  lemma {:induction false} RealisedAfterUpdate(rows: seq<PositionRow>, i: nat, r: PositionRow, day: Day)
    requires i < |rows| && r.day == rows[i].day
    ensures RealisedOn(rows[i := r], day) ==
            RealisedOn(rows, day) + if r.day == day then r.net.realised - rows[i].net.realised else 0.0
  {
    var init := rows[..|rows| - 1];
    if i == |rows| - 1 {
      assert rows[i := r][..|rows| - 1] == init;
    } else {
      assert rows[i := r][..|rows| - 1] == init[i := r];
      RealisedAfterUpdate(init, i, r, day);
    }
  }

  lemma RealisedAfterFill(rows: seq<PositionRow>, f: FillEvent, day: Day)
    ensures RealisedOn(MovePositions(rows, f), day) ==
            RealisedOn(rows, day) + if f.day == day then RealisedDelta(rows, f) else 0.0
  {
    match Find(rows, f.day, f.security)
    case None =>
      assert (rows + [NewRow(f)])[..|rows|] == rows;
    case Some(i) =>
      RealisedAfterUpdate(rows, i, MoveRow(rows[i], f), day);
  }

  lemma OrdersAfterFill(b: Books, f: FillEvent, o: nat)
    requires Consistent(b) && f.order < |b.orders| && f.Valid() && o < |b.orders|
    ensures OrderAgrees(Applied(b, f), o)
  {
    if !Recorded(b.fills, f.order, f.fillId) {
      var fills := b.fills + [f.Row()];
      assert fills[..|fills| - 1] == b.fills;
      assert OrderAgrees(b, o);
      SumsArePositive(b.fills, o);
    }
  }

  lemma RowsAfterFill(rows: seq<PositionRow>, f: FillEvent)
    requires UniqueRows(rows) && f.Valid()
    requires forall i | 0 <= i < |rows| :: rows[i].open <==> rows[i].net.quantity != 0
    ensures var after := MovePositions(rows, f);
            UniqueRows(after) && forall i | 0 <= i < |after| :: after[i].open <==> after[i].net.quantity != 0
  {
  }

  /** Every fill, on whatever contract and order, keeps the tables in agreement. */
  lemma FillKeepsConsistent(b: Books, f: FillEvent)
    requires Consistent(b) && f.order < |b.orders| && f.Valid()
    ensures Consistent(Applied(b, f))
  {
    var a := Applied(b, f);
    if a != b {
      RowsAfterFill(b.positions, f);
      forall o | 0 <= o < |a.orders| ensures OrderAgrees(a, o) {
        OrdersAfterFill(b, f, o);
      }
      forall day ensures DailyOf(a, day) == RealisedOn(a.positions, day) {
        RealisedAfterFill(b.positions, f, day);
      }
    }
  }

  // ------------------------------------------------------------------ whole histories

  datatype Event = Submission(row: OrderRow) | Fill(fill: FillEvent)

  /** `record_submission` of a fresh intent, or `apply_fill`; a fill of an unknown order is refused. */
  function After(b: Books, e: Event): Books {
    match e
    case Submission(row) => b.(orders := b.orders + [row])
    case Fill(f) => if f.Valid() && f.order < |b.orders| then Applied(b, f) else b
  }

  function History(events: seq<Event>): Books {
    if events == [] then NO_BOOKS else After(History(events[..|events| - 1]), events[|events| - 1])
  }

  lemma SubmissionKeepsConsistent(b: Books, row: OrderRow)
    requires Consistent(b)
    ensures Consistent(After(b, Submission(row)))
  {
    var a := After(b, Submission(row));
    forall o | 0 <= o < |a.orders| ensures OrderAgrees(a, o) {
      if o < |b.orders| {
        assert OrderAgrees(b, o);
      } else {
        SumsOfOtherOrders(b.fills, o);
      }
    }
    assert forall day :: DailyOf(a, day) == DailyOf(b, day);
  }

  /**
   At every committed state of every history, with fills of any contracts and orders interleaved:
   each day's running P&L is the sum over its position rows, each filled order's totals are its
   fills' sum and weighted mean, rows are unique per contract and open exactly when not flat.
   */
  lemma {:induction false} HistoryIsConsistent(events: seq<Event>)
    ensures Consistent(History(events))
  {
    if events != [] {
      HistoryIsConsistent(events[..|events| - 1]);
      match events[|events| - 1]
      case Submission(row) => SubmissionKeepsConsistent(History(events[..|events| - 1]), row);
      case Fill(f) =>
        if f.Valid() && f.order < |History(events[..|events| - 1]).orders| {
          FillKeepsConsistent(History(events[..|events| - 1]), f);
        }
    }
  }

  /** Once recorded, a fill stays recorded, its order known, and its contract's row in place. */
  ghost predicate Known(b: Books, f: FillEvent) {
    f.order < |b.orders| && Recorded(b.fills, f.order, f.fillId) && Find(b.positions, f.day, f.security).Some?
  }

  lemma RowsStay(rows: seq<PositionRow>, e: FillEvent, day: Day, security: string)
    requires Find(rows, day, security).Some?
    ensures Find(MovePositions(rows, e), day, security).Some?
  {
    var i, after := Find(rows, day, security).value, MovePositions(rows, e);
    assert after[i].day == day && after[i].security == security;
  }

  lemma KnownStays(b: Books, e: Event, f: FillEvent)
    requires Known(b, f)
    ensures Known(After(b, e), f)
  {
    var i :| 0 <= i < |b.fills| && b.fills[i].order == f.order && b.fills[i].fillId == f.fillId;
    assert After(b, e).fills[i] == b.fills[i];
    if e.Fill? {
      RowsStay(b.positions, e.fill, f.day, f.security);
    }
  }

  lemma AppliedIsKnown(b: Books, f: FillEvent)
    requires f.order < |b.orders|
    requires Recorded(b.fills, f.order, f.fillId) ==> Known(b, f)
    ensures Known(Applied(b, f), f)
  {
    var a := Applied(b, f);
    if a != b {
      assert a.fills[|b.fills|] == f.Row();
      var rows := MovePositions(b.positions, f);
      var i := if Find(b.positions, f.day, f.security).Some? then Find(b.positions, f.day, f.security).value
               else |b.positions|;
      assert rows[i].day == f.day && rows[i].security == f.security;
    }
  }

  lemma {:induction false} FillStaysKnown(before: seq<Event>, f: FillEvent, later: seq<Event>)
    requires f.Valid() && f.order < |History(before).orders|
    requires Recorded(History(before).fills, f.order, f.fillId) ==> Known(History(before), f)
    ensures Known(History(before + [Fill(f)] + later), f)
  {
    var events := before + [Fill(f)] + later;
    if later == [] {
      assert events[..|events| - 1] == before;
      AppliedIsKnown(History(before), f);
    } else {
      var init := later[..|later| - 1];
      assert events[..|events| - 1] == before + [Fill(f)] + init;
      FillStaysKnown(before, f, init);
      KnownStays(History(before + [Fill(f)] + init), later[|later| - 1], f);
    }
  }

  /** Replaying a fill, however much later, changes nothing; and its position row is there to return. */
  lemma ReplayChangesNothing(before: seq<Event>, f: FillEvent, later: seq<Event>)
    requires f.Valid() && f.order < |History(before).orders|
    requires Recorded(History(before).fills, f.order, f.fillId) ==> Known(History(before), f)
    ensures var events := before + [Fill(f)] + later;
            && History(events + [Fill(f)]) == History(events)
            && Find(History(events).positions, f.day, f.security).Some?
  {
    var events := before + [Fill(f)] + later;
    FillStaysKnown(before, f, later);
    assert (events + [Fill(f)])[..|events|] == events;
  }

  // ------------------------------------------------------------------ what the tables record

  /** The orders as they were submitted; an order's id is its place. */
  function Submissions(events: seq<Event>): seq<OrderRow> {
    if events == [] then []
    else
      var last := events[|events| - 1];
      Submissions(events[..|events| - 1]) + if last.Submission? then [last.row] else []
  }

  predicate Repeats(fs: seq<FillEvent>, f: FillEvent) {
    exists i :: 0 <= i < |fs| && fs[i].order == f.order && fs[i].fillId == f.fillId
  }

  /** The fills that count: within the schema, of an order submitted before, and the first under their id. */
  function FreshFills(events: seq<Event>): seq<FillEvent> {
    if events == [] then []
    else
      var init, last := events[..|events| - 1], events[|events| - 1];
      var fs := FreshFills(init);
      if last.Fill? && last.fill.quantity > 0 && last.fill.order < |Submissions(init)| && !Repeats(fs, last.fill)
      then fs + [last.fill] else fs
  }

  function QuantityOf(fs: seq<FillEvent>, order: nat): int {
    if fs == [] then 0
    else QuantityOf(fs[..|fs| - 1], order) + if fs[|fs| - 1].order == order then fs[|fs| - 1].quantity else 0
  }

  function NotionalOf(fs: seq<FillEvent>, order: nat): real {
    if fs == [] then 0.0
    else
      var last := fs[|fs| - 1];
      NotionalOf(fs[..|fs| - 1], order) + if last.order == order then last.price * last.quantity as real else 0.0
  }

  /** The status given with the order's last fill. */
  function StatusOf(fs: seq<FillEvent>, order: nat, submitted: Status): Status {
    if fs == [] then submitted
    else if fs[|fs| - 1].order == order then fs[|fs| - 1].status
    else StatusOf(fs[..|fs| - 1], order, submitted)
  }

  /** The last candle that a fill of the day was given with. */
  function CandleOf(fs: seq<FillEvent>, day: Day): Option<int> {
    if fs == [] then None
    else if fs[|fs| - 1].day == day && fs[|fs| - 1].candleEnd.Some? then fs[|fs| - 1].candleEnd
    else CandleOf(fs[..|fs| - 1], day)
  }

  /** The order's row: as submitted, until its fills say otherwise. */
  ghost predicate OrderRecords(row: OrderRow, submitted: OrderRow, fs: seq<FillEvent>, order: nat) {
    && row.intent == submitted.intent && row.correlation == submitted.correlation
    && row.status == StatusOf(fs, order, submitted.status)
    && row.filled == (if QuantityOf(fs, order) == 0 then submitted.filled else QuantityOf(fs, order))
    && row.average == (if QuantityOf(fs, order) == 0 then submitted.average
                       else Some(NotionalOf(fs, order) / QuantityOf(fs, order) as real))
  }

  ghost predicate FillsRecord(rows: seq<FillRow>, fs: seq<FillEvent>) {
    && |rows| == |fs|
    && forall i | 0 <= i < |rows| ::
         && rows[i].order == fs[i].order && rows[i].fillId == fs[i].fillId
         && rows[i].quantity == fs[i].quantity && rows[i].price == fs[i].price && rows[i].charges == fs[i].charges
  }

  ghost predicate OrdersRecord(orders: seq<OrderRow>, submitted: seq<OrderRow>, fs: seq<FillEvent>) {
    && |orders| == |submitted|
    && forall o | 0 <= o < |orders| :: OrderRecords(orders[o], submitted[o], fs, o)
  }

  ghost predicate Records(b: Books, submitted: seq<OrderRow>, fs: seq<FillEvent>) {
    && (forall i | 0 <= i < |fs| :: fs[i].quantity > 0 && fs[i].order < |submitted|)
    && FillsRecord(b.fills, fs) && OrdersRecord(b.orders, submitted, fs)
    && forall day :: (if day in b.lastCandle then Some(b.lastCandle[day]) else None) == CandleOf(fs, day)
  }

  lemma {:induction false} SumsAreTheFills(rows: seq<FillRow>, fs: seq<FillEvent>, order: nat)
    requires FillsRecord(rows, fs)
    ensures SumQuantity(rows, order) == QuantityOf(fs, order) && SumNotional(rows, order) == NotionalOf(fs, order)
  {
    if rows != [] {
      SumsAreTheFills(rows[..|rows| - 1], fs[..|fs| - 1], order);
    }
  }

  lemma {:induction false} QuantityIsPositive(fs: seq<FillEvent>, order: nat)
    requires forall i | 0 <= i < |fs| :: fs[i].quantity > 0
    ensures QuantityOf(fs, order) >= 0
    ensures QuantityOf(fs, order) == 0 <==> forall i | 0 <= i < |fs| :: fs[i].order != order
  {
    if fs != [] {
      QuantityIsPositive(fs[..|fs| - 1], order);
    }
  }

  lemma {:induction false} UnsubmittedIsUnfilled(fs: seq<FillEvent>, order: nat, submitted: Status)
    requires forall i | 0 <= i < |fs| :: fs[i].order != order
    ensures QuantityOf(fs, order) == 0 && StatusOf(fs, order, submitted) == submitted
  {
    if fs != [] {
      UnsubmittedIsUnfilled(fs[..|fs| - 1], order, submitted);
    }
  }

  lemma SubmissionRecords(b: Books, submitted: seq<OrderRow>, fs: seq<FillEvent>, row: OrderRow)
    requires Records(b, submitted, fs)
    ensures Records(After(b, Submission(row)), submitted + [row], fs)
  {
    UnsubmittedIsUnfilled(fs, |submitted|, row.status);
  }

  lemma MovedOrderRecords(o: OrderRow, submitted: OrderRow, rows: seq<FillRow>, fs: seq<FillEvent>, f: FillEvent)
    requires FillsRecord(rows, fs + [f]) && OrderRecords(o, submitted, fs, f.order)
    requires f.quantity > 0 && forall i | 0 <= i < |fs| :: fs[i].quantity > 0
    ensures OrderRecords(MoveOrder(o, f.status, rows, f.order), submitted, fs + [f], f.order)
  {
    assert (fs + [f])[..|fs|] == fs;
    SumsAreTheFills(rows, fs + [f], f.order);
    QuantityIsPositive(fs, f.order);
  }

  lemma OtherOrderRecords(o: OrderRow, submitted: OrderRow, fs: seq<FillEvent>, f: FillEvent, order: nat)
    requires OrderRecords(o, submitted, fs, order) && f.order != order
    ensures OrderRecords(o, submitted, fs + [f], order)
  {
    assert (fs + [f])[..|fs|] == fs;
  }

  lemma FreshFillRecords(b: Books, submitted: seq<OrderRow>, fs: seq<FillEvent>, f: FillEvent)
    requires Records(b, submitted, fs) && f.quantity > 0 && f.order < |submitted| && !Recorded(b.fills, f.order, f.fillId)
    ensures Records(Applied(b, f), submitted, fs + [f])
  {
    var a := Applied(b, f);
    assert (fs + [f])[..|fs|] == fs;
    assert FillsRecord(a.fills, fs + [f]);
    forall o | 0 <= o < |a.orders| ensures OrderRecords(a.orders[o], submitted[o], fs + [f], o) {
      if o == f.order {
        MovedOrderRecords(b.orders[o], submitted[o], a.fills, fs, f);
      } else {
        OtherOrderRecords(b.orders[o], submitted[o], fs, f, o);
      }
    }
  }

  lemma RecordedIsRepeated(rows: seq<FillRow>, fs: seq<FillEvent>, f: FillEvent)
    requires FillsRecord(rows, fs)
    ensures Recorded(rows, f.order, f.fillId) <==> Repeats(fs, f)
  {
    if Recorded(rows, f.order, f.fillId) {
      var i :| 0 <= i < |rows| && rows[i].order == f.order && rows[i].fillId == f.fillId;
      assert fs[i].order == f.order && fs[i].fillId == f.fillId;
    }
    if Repeats(fs, f) {
      var i :| 0 <= i < |fs| && fs[i].order == f.order && fs[i].fillId == f.fillId;
      assert rows[i].order == f.order && rows[i].fillId == f.fillId;
    }
  }

  /**
   For every history: the fills table is the fresh fills, in order; an order's row is as submitted but
   for the status given with its last fresh fill and, once it has one, their quantity and weighted
   mean; a day's candle is the last one given with a fresh fill of it.
   */
  lemma {:induction false} TablesRecordTheEvents(events: seq<Event>)
    ensures Records(History(events), Submissions(events), FreshFills(events))
  {
    if events != [] {
      var init, last := events[..|events| - 1], events[|events| - 1];
      var b := History(init);
      TablesRecordTheEvents(init);
      match last
      case Submission(row) => SubmissionRecords(b, Submissions(init), FreshFills(init), row);
      case Fill(f) =>
        RecordedIsRepeated(b.fills, FreshFills(init), f);
        assert Submissions(events) == Submissions(init);
        if f.quantity > 0 && f.order < |b.orders| && !Recorded(b.fills, f.order, f.fillId) {
          FreshFillRecords(b, Submissions(init), FreshFills(init), f);
        }
    }
  }

  // ------------------------------------------------------------------ rows and their fills

  /** The fill moves this contract's row. */
  predicate Moves(b: Books, e: Event, day: Day, security: string) {
    && e.Fill? && e.fill.day == day && e.fill.security == security
    && e.fill.Valid() && e.fill.order < |b.orders| && !Recorded(b.fills, e.fill.order, e.fill.fillId)
  }

  /** The legs of the fills a history applied to one contract, in order, replays left out. */
  function LegsOf(events: seq<Event>, day: Day, security: string): (legs: seq<Leg>)
    ensures Legs(legs)
  {
    if events == [] then []
    else
      var init, last := events[..|events| - 1], events[|events| - 1];
      LegsOf(init, day, security) +
      if Moves(History(init), last, day, security) then [last.fill.Leg()] else []
  }

  lemma NetAfterFill(rows: seq<PositionRow>, f: FillEvent, day: Day, security: string)
    requires UniqueRows(rows)
    ensures NetOf(MovePositions(rows, f), day, security) ==
            if f.day == day && f.security == security then Some(Apply(NetOf(rows, day, security), f.Leg()))
            else NetOf(rows, day, security)
  {
    RowAfterFill(rows, f, day, security);
  }

  lemma NetAfter(b: Books, e: Event, day: Day, security: string, legs: seq<Leg>)
    requires UniqueRows(b.positions) && NetOf(b.positions, day, security) == Position(legs)
    ensures NetOf(After(b, e).positions, day, security) ==
            Position(legs + if Moves(b, e, day, security) then [e.fill.Leg()] else [])
  {
    assert legs + [] == legs;
    if e.Fill? {
      NetAfterFill(b.positions, e.fill, day, security);
      PositionAfter(legs, e.fill.Leg());
    }
  }

  /** A position row is what its contract's own fills make of it, whatever else was interleaved. */
  lemma {:induction false} RowIsItsFills(events: seq<Event>, day: Day, security: string)
    ensures NetOf(History(events).positions, day, security) == Position(LegsOf(events, day, security))
  {
    if events != [] {
      var init := events[..|events| - 1];
      RowIsItsFills(init, day, security);
      HistoryIsConsistent(init);
      NetAfter(History(init), events[|events| - 1], day, security, LegsOf(init, day, security));
    }
  }

  /** So in the tables too, a row that is flat after non-crossing fills has realised its net cash. */
  lemma RowIsNetCash(events: seq<Event>, day: Day, security: string)
    requires NeverCrosses(LegsOf(events, day, security))
    ensures var net := NetOf(History(events).positions, day, security);
            net.Some? ==> IsNetCash(net.value, LegsOf(events, day, security))
  {
    RowIsItsFills(events, day, security);
    RealisedIsNetCash(LegsOf(events, day, security));
  }

  // ------------------------------------------------------------------ the rest of a row

  function RowOf(rows: seq<PositionRow>, day: Day, security: string): Option<PositionRow> {
    match Find(rows, day, security)
    case None => None
    case Some(i) => Some(rows[i])
  }

  /** What this contract's fills charged in all. */
  function ChargesOf(events: seq<Event>, day: Day, security: string): real {
    if events == [] then 0.0
    else
      var init, last := events[..|events| - 1], events[|events| - 1];
      ChargesOf(init, day, security) + if Moves(History(init), last, day, security) then last.fill.charges else 0.0
  }

  /** The stop and target last given with one of its fills. */
  function LastStop(events: seq<Event>, day: Day, security: string): Option<real> {
    if events == [] then None
    else
      var init, last := events[..|events| - 1], events[|events| - 1];
      if Moves(History(init), last, day, security) && last.fill.stop.Some? then last.fill.stop
      else LastStop(init, day, security)
  }

  function LastTarget(events: seq<Event>, day: Day, security: string): Option<real> {
    if events == [] then None
    else
      var init, last := events[..|events| - 1], events[|events| - 1];
      if Moves(History(init), last, day, security) && last.fill.target.Some? then last.fill.target
      else LastTarget(init, day, security)
  }

  lemma RowAfterFill(rows: seq<PositionRow>, f: FillEvent, day: Day, security: string)
    requires UniqueRows(rows)
    ensures var before := RowOf(rows, day, security);
            RowOf(MovePositions(rows, f), day, security) ==
            if f.day != day || f.security != security then before
            else if before.None? then Some(NewRow(f)) else Some(MoveRow(before.value, f))
  {
    var after := MovePositions(rows, f);
    var i, j := Find(rows, day, security), Find(after, day, security);
    if f.day == day && f.security == security {
      var k := if i.Some? then i.value else |rows|;
      assert after[k].day == day && after[k].security == security;
    } else {
      if i.Some? {
        assert after[i.value].day == day && after[i.value].security == security;
      }
      if j.Some? {
        assert j.value < |rows| ==> rows[j.value].day == day && rows[j.value].security == security;
      }
    }
  }

  predicate Carries(row: Option<PositionRow>, charges: real, stop: Option<real>, target: Option<real>) {
    if row.None? then charges == 0.0 && stop.None? && target.None?
    else row.value.charges == charges && row.value.stop == stop && row.value.target == target
  }

  lemma MovedRowCarries(r: PositionRow, f: FillEvent)
    ensures var m := MoveRow(r, f);
            m.charges == r.charges + f.charges && m.stop == OrElse(f.stop, r.stop) && m.target == OrElse(f.target, r.target)
    ensures NewRow(f).charges == f.charges && NewRow(f).stop == f.stop && NewRow(f).target == f.target
  {
  }

  lemma CarriesAfterFill(rows: seq<PositionRow>, f: FillEvent, day: Day, security: string,
                         charges: real, stop: Option<real>, target: Option<real>)
    requires UniqueRows(rows) && Carries(RowOf(rows, day, security), charges, stop, target)
    ensures var own := f.day == day && f.security == security;
            Carries(RowOf(MovePositions(rows, f), day, security),
                    charges + if own then f.charges else 0.0,
                    if own then OrElse(f.stop, stop) else stop,
                    if own then OrElse(f.target, target) else target)
  {
    RowAfterFill(rows, f, day, security);
    var before := RowOf(rows, day, security);
    if before.Some? {
      MovedRowCarries(before.value, f);
    }
  }

  /** An event moves the rows exactly when it is a fresh fill of a known order. */
  lemma PositionsAfter(b: Books, e: Event)
    ensures After(b, e).positions ==
            if e.Fill? && Moves(b, e, e.fill.day, e.fill.security) then MovePositions(b.positions, e.fill) else b.positions
  {
  }

  lemma CarriesAfter(b: Books, e: Event, day: Day, security: string, charges: real, stop: Option<real>, target: Option<real>)
    requires UniqueRows(b.positions) && Carries(RowOf(b.positions, day, security), charges, stop, target)
    ensures var moves := Moves(b, e, day, security);
            Carries(RowOf(After(b, e).positions, day, security),
                    charges + if moves then e.fill.charges else 0.0,
                    if moves then OrElse(e.fill.stop, stop) else stop,
                    if moves then OrElse(e.fill.target, target) else target)
  {
    PositionsAfter(b, e);
    if e.Fill? {
      CarriesAfterFill(b.positions, e.fill, day, security, charges, stop, target);
    }
  }

  /** A row's charges add up over its own fills, re-entries included, and its stop and target are the last given. */
  lemma {:induction false} RowCarriesItsCharges(events: seq<Event>, day: Day, security: string)
    ensures Carries(RowOf(History(events).positions, day, security), ChargesOf(events, day, security),
                    LastStop(events, day, security), LastTarget(events, day, security))
  {
    if events != [] {
      var init := events[..|events| - 1];
      RowCarriesItsCharges(init, day, security);
      HistoryIsConsistent(init);
      CarriesAfter(History(init), events[|events| - 1], day, security, ChargesOf(init, day, security),
                   LastStop(init, day, security), LastTarget(init, day, security));
    }
  }

  // ------------------------------------------------------------------ the charges of one round trip

  /** A fill that starts a round trip on a row that has had one: the row is flat, or the fill reverses it. */
  predicate StartsAnother(b: Books, e: Event, day: Day, security: string) {
    Moves(b, e, day, security) && !StaysOneTrip(NetOf(b.positions, day, security), e.fill.Leg())
  }

  /** The charges of the open round trip, from the fill that started it. */
  function TripCharges(events: seq<Event>, day: Day, security: string): real {
    if events == [] then 0.0
    else
      var init, last := events[..|events| - 1], events[|events| - 1];
      var before := TripCharges(init, day, security);
      if !Moves(History(init), last, day, security) then before
      else last.fill.charges + if StartsAnother(History(init), last, day, security) then 0.0 else before
  }

  /** The charges of the round trips before that. */
  function EarlierCharges(events: seq<Event>, day: Day, security: string): real {
    if events == [] then 0.0
    else
      var init, last := events[..|events| - 1], events[|events| - 1];
      if StartsAnother(History(init), last, day, security)
      then ChargesOf(init, day, security) else EarlierCharges(init, day, security)
  }

  lemma {:induction false} ChargesSplit(events: seq<Event>, day: Day, security: string)
    ensures ChargesOf(events, day, security) == TripCharges(events, day, security) + EarlierCharges(events, day, security)
  {
    if events != [] {
      ChargesSplit(events[..|events| - 1], day, security);
    }
  }

  /** A row's charges are those of its own round trip if and only if the earlier trips' charges sum to zero. */
  lemma RowChargesAreTheTripsExactly(events: seq<Event>, day: Day, security: string)
    requires RowOf(History(events).positions, day, security).Some?
    ensures var row := RowOf(History(events).positions, day, security).value;
            && row.charges == TripCharges(events, day, security) + EarlierCharges(events, day, security)
            && (row.charges == TripCharges(events, day, security) <==> EarlierCharges(events, day, security) == 0.0)
  {
    RowCarriesItsCharges(events, day, security);
    ChargesSplit(events, day, security);
  }

  ghost predicate PositiveCharges(events: seq<Event>) {
    forall k | 0 <= k < |events| && events[k].Fill? :: events[k].fill.charges > 0.0
  }

  lemma {:induction false} ChargesArePositive(events: seq<Event>, day: Day, security: string)
    requires PositiveCharges(events)
    ensures ChargesOf(events, day, security) >= 0.0
    ensures LegsOf(events, day, security) != [] ==> ChargesOf(events, day, security) > 0.0
  {
    if events != [] {
      ChargesArePositive(events[..|events| - 1], day, security);
    }
  }

  lemma ReentryStep(events: seq<Event>, day: Day, security: string)
    requires events != []
    ensures var init := events[..|events| - 1];
            var after, before := LegsOf(events, day, security), LegsOf(init, day, security);
            Reentries(after) + Crossings(after) ==
            Reentries(before) + Crossings(before) +
            if StartsAnother(History(init), events[|events| - 1], day, security) then 1 else 0
  {
    var init, last := events[..|events| - 1], events[|events| - 1];
    var before := LegsOf(init, day, security);
    RowIsItsFills(init, day, security);
    if Moves(History(init), last, day, security) {
      assert (before + [last.fill.Leg()])[..|before|] == before;
    } else {
      assert before + [] == before;
    }
  }

  lemma AnotherComesAfterCharges(init: seq<Event>, e: Event, day: Day, security: string)
    requires PositiveCharges(init) && StartsAnother(History(init), e, day, security)
    ensures ChargesOf(init, day, security) > 0.0
  {
    ChargesArePositive(init, day, security);
    RowIsItsFills(init, day, security);
  }

  lemma {:induction false} EarlierChargesCount(events: seq<Event>, day: Day, security: string)
    requires PositiveCharges(events)
    ensures var legs := LegsOf(events, day, security);
            && EarlierCharges(events, day, security) >= 0.0
            && (EarlierCharges(events, day, security) == 0.0 <==> Reentries(legs) + Crossings(legs) == 0)
  {
    if events != [] {
      var init, last := events[..|events| - 1], events[|events| - 1];
      EarlierChargesCount(init, day, security);
      ReentryStep(events, day, security);
      if StartsAnother(History(init), last, day, security) {
        AnotherComesAfterCharges(init, last, day, security);
      }
    }
  }

  /** With charges on every fill, the earlier trips' sum to zero if and only if no fill reached a flat row or reversed one. */
  lemma EarlierChargesExactly(events: seq<Event>, day: Day, security: string)
    requires PositiveCharges(events)
    ensures EarlierCharges(events, day, security) >= 0.0
    ensures EarlierCharges(events, day, security) == 0.0 <==> SingleTrip(LegsOf(events, day, security))
  {
    EarlierChargesCount(events, day, security);
    SingleTripExactly(LegsOf(events, day, security));
  }

  /** A fresh fill on a flat row starts a trip of its own, on a row that keeps all the charges before it. */
  lemma ReentryKeepsEarlierCharges(before: seq<Event>, f: FillEvent)
    requires Moves(History(before), Fill(f), f.day, f.security)
    requires Flat(NetOf(History(before).positions, f.day, f.security))
    ensures var events := before + [Fill(f)];
            && TripCharges(events, f.day, f.security) == f.charges
            && EarlierCharges(events, f.day, f.security) == ChargesOf(before, f.day, f.security)
  {
    var events := before + [Fill(f)];
    assert events[..|events| - 1] == before && events[|events| - 1] == Fill(f);
  }

  const SOME_DAY := Day("", Paper, "")

  /** A fill of one order on one contract, charged 1. */
  function Trading(id: string, side: Side): FillEvent {
    FillEvent(0, id, 1, 10.0, 1.0, Filled, SOME_DAY, "", side, None, None, None)
  }

  const SUBMITTED := [Submission(OrderRow(0, "", Submitted, 0, None))]
  const BOUGHT := SUBMITTED + [Fill(Trading("a", Buy))]
  const SOLD := BOUGHT + [Fill(Trading("b", Sell))]
  const BOUGHT_AGAIN := SOLD + [Fill(Trading("c", Buy))]

  lemma HistoryStep(events: seq<Event>, e: Event)
    ensures History(events + [e]) == After(History(events), e)
    ensures ChargesOf(events + [e], SOME_DAY, "") ==
            ChargesOf(events, SOME_DAY, "") + if Moves(History(events), e, SOME_DAY, "") then e.fill.charges else 0.0
  {
    assert (events + [e])[..|events|] == events;
  }

  lemma BoughtIsOpen()
    ensures var b := History(BOUGHT);
            && |b.orders| == 1 && b.fills == [Trading("a", Buy).Row()] && b.positions == [NewRow(Trading("a", Buy))]
            && ChargesOf(BOUGHT, SOME_DAY, "") == 1.0
  {
    HistoryStep([], SUBMITTED[0]);
    assert [] + [SUBMITTED[0]] == SUBMITTED;
    HistoryStep(SUBMITTED, Fill(Trading("a", Buy)));
    assert !Recorded(History(SUBMITTED).fills, 0, "a");
  }

  lemma SoldIsFlat()
    ensures var b := History(SOLD);
            && |b.orders| == 1 && !Recorded(b.fills, 0, "c") && Flat(NetOf(b.positions, SOME_DAY, ""))
            && ChargesOf(SOLD, SOME_DAY, "") == 2.0
  {
    BoughtIsOpen();
    HistoryStep(BOUGHT, Fill(Trading("b", Sell)));
    assert !Recorded(History(BOUGHT).fills, 0, "b");
    NetAfterFill(History(BOUGHT).positions, Trading("b", Sell), SOME_DAY, "");
  }

  /** Bought, sold and bought again at a charge of 1 each: the row carries 3, of which the open trip was charged 1. */
  lemma ReenteredRowOvercharges()
    ensures TripCharges(BOUGHT_AGAIN, SOME_DAY, "") == 1.0 && EarlierCharges(BOUGHT_AGAIN, SOME_DAY, "") == 2.0
  {
    SoldIsFlat();
    ReentryKeepsEarlierCharges(SOLD, Trading("c", Buy));
  }

  // ------------------------------------------------------------------ counting closed rows

  /** `closed_position_count`. */
  function ClosedRows(rows: seq<PositionRow>, day: Day): nat {
    if rows == [] then 0
    else ClosedRows(rows[..|rows| - 1], day) + if rows[|rows| - 1].day == day && !rows[|rows| - 1].open then 1 else 0
  }

  /** The contracts a day's closed rows are of. */
  ghost function ClosedContracts(rows: seq<PositionRow>, day: Day): set<string> {
    set i | 0 <= i < |rows| && rows[i].day == day && !rows[i].open :: rows[i].security
  }

  lemma ClosedContractsStep(rows: seq<PositionRow>, day: Day)
    requires rows != [] && UniqueRows(rows)
    ensures var init, r := rows[..|rows| - 1], rows[|rows| - 1];
            && UniqueRows(init)
            && ClosedContracts(rows, day) ==
               ClosedContracts(init, day) + (if r.day == day && !r.open then {r.security} else {})
            && (r.day == day ==> r.security !in ClosedContracts(init, day))
  {
    var init, r := rows[..|rows| - 1], rows[|rows| - 1];
    assert forall i | 0 <= i < |init| :: init[i] == rows[i];
    assert rows[|rows| - 1] == r;
  }

  /** With one row a contract, the closed rows number the day's closed contracts. */
  lemma {:induction false} ClosedRowsAreContracts(rows: seq<PositionRow>, day: Day)
    requires UniqueRows(rows)
    ensures ClosedRows(rows, day) == |ClosedContracts(rows, day)|
  {
    if rows != [] {
      ClosedContractsStep(rows, day);
      ClosedRowsAreContracts(rows[..|rows| - 1], day);
    }
  }

  /** The round trips of the contracts these rows are of. */
  function TripsOver(events: seq<Event>, rows: seq<PositionRow>, day: Day): nat {
    if rows == [] then 0
    else
      var r := rows[|rows| - 1];
      TripsOver(events, rows[..|rows| - 1], day) + if r.day == day then RoundTrips(LegsOf(events, day, r.security)) else 0
  }

  /** The rows hold what their contracts' fills make of them. */
  ghost predicate RowsAreTheirFills(events: seq<Event>, rows: seq<PositionRow>, day: Day) {
    forall i | 0 <= i < |rows| && rows[i].day == day ::
      && Position(LegsOf(events, day, rows[i].security)) == Some(rows[i].net)
      && (rows[i].open <==> rows[i].net.quantity != 0)
  }

  ghost predicate EverySingle(events: seq<Event>, rows: seq<PositionRow>, day: Day) {
    forall i | 0 <= i < |rows| && rows[i].day == day :: SingleTrip(LegsOf(events, day, rows[i].security))
  }

  lemma EverySingleStep(events: seq<Event>, rows: seq<PositionRow>, day: Day)
    requires rows != []
    ensures var init, r := rows[..|rows| - 1], rows[|rows| - 1];
            && (EverySingle(events, rows, day) <==>
                EverySingle(events, init, day) && (r.day == day ==> SingleTrip(LegsOf(events, day, r.security))))
            && (RowsAreTheirFills(events, rows, day) ==> RowsAreTheirFills(events, init, day))
  {
    var init, r := rows[..|rows| - 1], rows[|rows| - 1];
    assert forall i | 0 <= i < |init| :: init[i] == rows[i];
    assert rows[|rows| - 1] == r;
  }

  lemma {:induction false} RowsCountTrips(events: seq<Event>, rows: seq<PositionRow>, day: Day)
    requires RowsAreTheirFills(events, rows, day)
    ensures ClosedRows(rows, day) <= TripsOver(events, rows, day)
    ensures ClosedRows(rows, day) == TripsOver(events, rows, day) <==> EverySingle(events, rows, day)
  {
    if rows != [] {
      var init, r := rows[..|rows| - 1], rows[|rows| - 1];
      EverySingleStep(events, rows, day);
      RowsCountTrips(events, init, day);
      if r.day == day {
        ClosedRowsCountRoundTripsExactly(LegsOf(events, day, r.security));
      }
    }
  }

  lemma {:induction false} FindsItself(rows: seq<PositionRow>, i: nat)
    requires UniqueRows(rows) && i < |rows|
    ensures Find(rows, rows[i].day, rows[i].security) == Some(i)
  {
    if i < |rows| - 1 {
      assert rows[i].day != rows[|rows| - 1].day || rows[i].security != rows[|rows| - 1].security;
      assert UniqueRows(rows[..|rows| - 1]);
      FindsItself(rows[..|rows| - 1], i);
    }
  }

  lemma RowIsItsLegs(events: seq<Event>, i: nat)
    requires i < |History(events).positions|
    ensures var r := History(events).positions[i]; Position(LegsOf(events, r.day, r.security)) == Some(r.net)
  {
    var rows := History(events).positions;
    HistoryIsConsistent(events);
    FindsItself(rows, i);
    RowIsItsFills(events, rows[i].day, rows[i].security);
  }

  lemma HistoryRowsAreTheirFills(events: seq<Event>, day: Day)
    ensures RowsAreTheirFills(events, History(events).positions, day)
  {
    HistoryIsConsistent(events);
    forall i | 0 <= i < |History(events).positions|
      ensures var r := History(events).positions[i]; Position(LegsOf(events, r.day, r.security)) == Some(r.net)
    {
      RowIsItsLegs(events, i);
    }
  }

  /** A contract makes a single trip if its row says so, and also if it has no row. */
  lemma SingleIfItsRowIs(events: seq<Event>, day: Day, security: string)
    requires EverySingle(events, History(events).positions, day)
    ensures SingleTrip(LegsOf(events, day, security))
  {
    var rows := History(events).positions;
    var at := Find(rows, day, security);
    if at.Some? {
      assert rows[at.value].day == day && rows[at.value].security == security;
    } else {
      RowIsItsFills(events, day, security);
    }
  }

  ghost predicate EveryContractSingle(events: seq<Event>, day: Day) {
    forall security :: SingleTrip(LegsOf(events, day, security))
  }

  lemma EverySingleExactly(events: seq<Event>, day: Day)
    ensures EverySingle(events, History(events).positions, day) <==> EveryContractSingle(events, day)
  {
    if EverySingle(events, History(events).positions, day) {
      forall security ensures SingleTrip(LegsOf(events, day, security)) {
        SingleIfItsRowIs(events, day, security);
      }
    }
  }

  /** The round trips of a day, over all its contracts. */
  function TripsOn(events: seq<Event>, day: Day): nat {
    TripsOver(events, History(events).positions, day)
  }

  /**
   For every history: a day's closed rows never outnumber its round trips, and the count a restart
   reads is the number of round trips if and only if no contract of the day was re-entered or reversed.
   */
  lemma ClosedCountExactly(events: seq<Event>, day: Day)
    ensures ClosedRows(History(events).positions, day) <= TripsOn(events, day)
    ensures ClosedRows(History(events).positions, day) == TripsOn(events, day) <==> EveryContractSingle(events, day)
  {
    HistoryRowsAreTheirFills(events, day);
    RowsCountTrips(events, History(events).positions, day);
    EverySingleExactly(events, day);
  }

  // ------------------------------------------------------------------ the repository

  /** `ExecutionRepository`: the tables, each method one transaction. */
  class ExecutionRepository {
    var orders: seq<OrderRow>
    var fills: seq<FillRow>
    var positions: seq<PositionRow>
    var daily: map<Day, real>
    var lastCandle: map<Day, int>

    function Tables(): Books
      reads this
    {
      Books(orders, fills, positions, daily, lastCandle)
    }

    ghost predicate Valid()
      reads this
    {
      Consistent(Tables())
    }

    constructor ()
      ensures Tables() == NO_BOOKS && Valid()
    {
      orders, fills, positions, daily, lastCandle := [], [], [], map[], map[];
      new;
      HistoryIsConsistent([]);
    }

    /** `record_submission` for an intent that has no order yet. */
    method RecordSubmission(row: OrderRow) returns (order: nat)
      requires Valid()
      modifies this
      ensures Valid()
      ensures Tables() == After(old(Tables()), Submission(row)) && order == |old(orders)|
    {
      SubmissionKeepsConsistent(Tables(), row);
      order := |orders|;
      orders := orders + [row];
    }

    /**
     `apply_fill`.  Returns the contract's row; None stands for an error raised: the fill breaks the
     schema, or it is recorded but its row is missing.
     */
    method ApplyFill(f: FillEvent) returns (row: Option<PositionRow>)
      requires Valid()
      modifies this
      ensures Valid()
      ensures Tables() == After(old(Tables()), Fill(f))
      ensures row.Some? ==>
                var at := Find(positions, f.day, f.security); at.Some? && row.value == positions[at.value]
      ensures row.Some? <==> f.Valid() && f.order < |orders| && Find(positions, f.day, f.security).Some?
    {
      if !f.Valid() || f.order >= |orders| {
        return None;
      }
      FillKeepsConsistent(Tables(), f);
      if !Recorded(fills, f.order, f.fillId) {
        AppliedIsKnown(Tables(), f);
        MoveTables(f);
      }
      var at := Find(positions, f.day, f.security);
      row := if at.Some? then Some(positions[at.value]) else None;
    }

    /** `closed_position_count`: how many contracts of the day have a closed row. */
    method ClosedPositionCount(day: Day) returns (closed: nat)
      requires Valid()
      ensures closed == ClosedRows(positions, day) == |ClosedContracts(positions, day)|
    {
      closed := 0;
      var n := 0;
      while n < |positions|
        invariant n <= |positions| && closed == ClosedRows(positions[..n], day)
      {
        if positions[n].day == day && !positions[n].open {
          closed := closed + 1;
        }
        assert positions[..n + 1][..n] == positions[..n];
        n := n + 1;
      }
      assert positions[..n] == positions;
      ClosedRowsAreContracts(positions, day);
    }

    /** The writes of one fill that is not yet recorded, in the order the transaction makes them. */
    method MoveTables(f: FillEvent)
      requires f.order < |orders| && !Recorded(fills, f.order, f.fillId)
      modifies this
      ensures Tables() == Applied(old(Tables()), f)
    {
      fills := fills + [f.Row()];
      var filled, notional := SumQuantity(fills, f.order), SumNotional(fills, f.order);
      var average := if filled == 0 then None else Some(notional / filled as real);
      orders := orders[f.order := orders[f.order].(status := f.status, filled := filled, average := average)];
      var delta := UpsertPosition(f);
      daily := daily[f.day := delta + if f.day in daily then daily[f.day] else 0.0];
      if f.candleEnd.Some? {
        lastCandle := lastCandle[f.day := f.candleEnd.value];
      }
    }

    /** `_upsert_position`: returns this fill's own contribution to realised P&L. */
    method UpsertPosition(f: FillEvent) returns (delta: real)
      modifies this`positions
      ensures positions == MovePositions(old(positions), f)
      ensures delta == RealisedDelta(old(positions), f)
    {
      var at := Find(positions, f.day, f.security);
      if at.None? {
        positions := positions + [NewRow(f)];
        delta := 0.0;
      } else {
        var current := positions[at.value];
        var moved := MoveRow(current, f);
        delta := moved.net.realised - current.net.realised;
        positions := positions[at.value := moved];
      }
    }
  }
}
