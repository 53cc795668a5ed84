/**
 `OrderLifecycle.handle_signal` as a crash-safe protocol.

 Any number of workers, each its own process with its own strategy, share one database.  Each
 transaction, the broker call and the reading of the next sequence number is one step; steps of
 different workers interleave freely, a candle may be delivered any number of times, and a worker
 may crash before any step and start again.
 */
module OrderLifecycle {
  import opened Prelude
  import opened Ledger
  import Correlation

  type Pid = nat

  /** What a worker is configured with. */
  datatype Config = Config(runtime: string, strategy: string, mode: Mode)

  /** The unique key of the signals table. */
  datatype SignalKey = SignalKey(strategy: string, mode: Mode, instrument: string, candleEnd: int)

  /** One call of `handle_signal`. */
  datatype Job = Job(
    key: SignalKey, security: string, side: Side, quantity: int, date: string,
    stop: Option<real>, target: Option<real>)

  datatype IntentRow = IntentRow(correlation: string, signal: nat, day: Day, sequence: nat, quantity: int)

  datatype BrokerFill = BrokerFill(id: string, quantity: int, price: real, charges: real)

  datatype Answer = Accepted(status: Status, filled: int, average: Option<real>, fills: seq<BrokerFill>) | Refusal

  /** A row's id is its place in its table. */
  datatype Store = Store(signals: seq<SignalKey>, intents: seq<IntentRow>, books: Books)

  datatype Pc =
    | Idle
    | SignalSaved(signal: nat, job: Job)
    | SequenceRead(signal: nat, job: Job, sequence: nat)
    | IntentSaved(intent: nat, job: Job)
    | Answered(intent: nat, job: Job, answer: Answer)
    | Filling(order: nat, job: Job, status: Status, fills: seq<BrokerFill>)

  datatype Action =
    | Deliver(job: Job)       // record_signal
    | ReadSequence            // next_sequence_number
    | Reserve                 // build the ID and reserve_intent
    | Submit(answer: Answer)  // broker.submit
    | Record                  // record_submission
    | ApplyNext               // apply_fill
    | Crash

  /** A call of broker.submit, with how many intents were committed when it was made. */
  datatype BrokerCall = BrokerCall(intent: nat, correlation: string, committed: nat)

  datatype System = System(store: Store, workers: map<Pid, Pc>, submissions: seq<BrokerCall>)

  const INITIAL := System(Store([], [], NO_BOOKS), map[], [])

  function At(s: System, p: Pid): Pc {
    if p in s.workers then s.workers[p] else Idle
  }

  // ------------------------------------------------------------------ the steps

  function MaxSequence(intents: seq<IntentRow>, day: Day): nat {
    if intents == [] then 0
    else
      var rest, last := MaxSequence(intents[..|intents| - 1], day), intents[|intents| - 1];
      if last.day == day && last.sequence > rest then last.sequence else rest
  }

  /** The intent a worker would insert; None when building its ID raises. */
  function IntentFor(c: Config, signal: nat, job: Job, sequence: nat): Option<IntentRow> {
    match Correlation.Build(c.mode, c.runtime, c.strategy, job.date, sequence)
    case Refused(_) => None
    case Id(id) => Some(IntentRow(id, signal, DayOf(c, job), sequence, job.quantity))
  }

  function DayOf(c: Config, job: Job): Day {
    Day(c.strategy, c.mode, job.date)
  }

  /** The table's constraints let the row in. */
  predicate Insertable(intents: seq<IntentRow>, row: IntentRow) {
    && row.quantity > 0
    && forall i | 0 <= i < |intents| ::
         intents[i].correlation != row.correlation
         && (intents[i].day != row.day || intents[i].sequence != row.sequence)
  }

  function FillOf(c: Config, order: nat, job: Job, status: Status, f: BrokerFill): FillEvent {
    FillEvent(order, f.id, f.quantity, f.price, f.charges, status, DayOf(c, job), job.security, job.side,
              job.stop, job.target, Some(job.key.candleEnd))
  }

  function OrderOf(intent: nat, correlation: string, a: Answer): OrderRow {
    match a
    case Accepted(status, filled, average, _) => OrderRow(intent, correlation, status, filled, average)
    case Refusal => OrderRow(intent, correlation, Rejected, 0, None)
  }

  predicate Enabled(pc: Pc, a: Action) {
    match a
    case Deliver(_) => pc.Idle?
    case ReadSequence => pc.SignalSaved?
    case Reserve => pc.SequenceRead?
    case Submit(_) => pc.IntentSaved?
    case Record => pc.Answered?
    case ApplyNext => pc.Filling?
    case Crash => true
  }

  function NextStore(st: Store, c: Config, pc: Pc, a: Action): Store
    requires Enabled(pc, a)
    requires pc.Answered? ==> pc.intent < |st.intents|
  {
    match a
    case Deliver(job) => if job.key in st.signals then st else st.(signals := st.signals + [job.key])
    case Reserve =>
      var row := IntentFor(c, pc.signal, pc.job, pc.sequence);
      if row.Some? && Insertable(st.intents, row.value) then st.(intents := st.intents + [row.value]) else st
    case Record =>
      st.(books := After(st.books,
                         Ledger.Submission(OrderOf(pc.intent, st.intents[pc.intent].correlation, pc.answer))))
    case ApplyNext =>
      if pc.fills == [] then st
      else st.(books := After(st.books, Fill(FillOf(c, pc.order, pc.job, pc.status, pc.fills[0]))))
    case _ => st
  }

  function NextPc(st: Store, c: Config, pc: Pc, a: Action): Pc
    requires Enabled(pc, a)
  {
    match a
    case Deliver(job) => if job.key in st.signals then Idle else SignalSaved(|st.signals|, job)
    case ReadSequence => SequenceRead(pc.signal, pc.job, MaxSequence(st.intents, DayOf(c, pc.job)) + 1)
    case Reserve =>
      var row := IntentFor(c, pc.signal, pc.job, pc.sequence);
      if row.Some? && Insertable(st.intents, row.value) then IntentSaved(|st.intents|, pc.job) else Idle
    case Submit(answer) => Answered(pc.intent, pc.job, answer)
    case Record =>
      if pc.answer.Refusal? then Idle
      else Filling(|st.books.orders|, pc.job, pc.answer.status, pc.answer.fills)
    case ApplyNext => if pc.fills == [] || pc.fills[0].quantity <= 0 then Idle else pc.(fills := pc.fills[1..])
    case Crash => Idle
  }

  function NextSubmissions(s: System, pc: Pc, a: Action): seq<BrokerCall>
    requires Enabled(pc, a)
    requires pc.IntentSaved? ==> pc.intent < |s.store.intents|
  {
    if a.Submit? then
      s.submissions + [BrokerCall(pc.intent, s.store.intents[pc.intent].correlation, |s.store.intents|)]
    else s.submissions
  }

  /** A worker's row ids are those of rows it inserted. */
  predicate InRange(st: Store, pc: Pc) {
    pc.IntentSaved? || pc.Answered? ==> pc.intent < |st.intents|
  }

  function Perform(s: System, c: Config, p: Pid, a: Action): System
    requires Enabled(At(s, p), a) && InRange(s.store, At(s, p))
  {
    System(NextStore(s.store, c, At(s, p), a),
           s.workers[p := NextPc(s.store, c, At(s, p), a)],
           NextSubmissions(s, At(s, p), a))
  }

  // ------------------------------------------------------------------ the invariant

  function SignalHeld(pc: Pc): Option<nat> {
    if pc.SignalSaved? || pc.SequenceRead? then Some(pc.signal) else None
  }

  function IntentHeld(pc: Pc): Option<nat> {
    if pc.IntentSaved? || pc.Answered? then Some(pc.intent) else None
  }

  ghost predicate TablesOk(st: Store) {
    && (forall i, j | 0 <= i < j < |st.signals| :: st.signals[i] != st.signals[j])
    && (forall i | 0 <= i < |st.intents| :: st.intents[i].signal < |st.signals|)
    && (forall i, j | 0 <= i < j < |st.intents| ::
          && st.intents[i].correlation != st.intents[j].correlation
          && st.intents[i].signal != st.intents[j].signal
          && (st.intents[i].day != st.intents[j].day || st.intents[i].sequence != st.intents[j].sequence))
    && (forall o | 0 <= o < |st.books.orders| ::
          && st.books.orders[o].intent < |st.intents|
          && st.books.orders[o].correlation == st.intents[st.books.orders[o].intent].correlation)
    && (forall o, p | 0 <= o < p < |st.books.orders| :: st.books.orders[o].intent != st.books.orders[p].intent)
    && Consistent(st.books)
  }

  ghost predicate Called(subs: seq<BrokerCall>, intent: nat) {
    exists k :: 0 <= k < |subs| && subs[k].intent == intent
  }

  ghost predicate SubmissionsOk(st: Store, subs: seq<BrokerCall>) {
    && (forall k | 0 <= k < |subs| ::
          && subs[k].intent < subs[k].committed <= |st.intents|
          && subs[k].correlation == st.intents[subs[k].intent].correlation)
    && (forall k, l | 0 <= k < l < |subs| :: subs[k].intent != subs[l].intent)
    && (forall o | 0 <= o < |st.books.orders| :: Called(subs, st.books.orders[o].intent))
  }

  /** What a worker holds is its own: not yet an intent, not yet submitted, not yet an order. */
  ghost predicate WorkerOk(st: Store, subs: seq<BrokerCall>, pc: Pc) {
    && (SignalHeld(pc).Some? ==>
          pc.signal < |st.signals| && forall i | 0 <= i < |st.intents| :: st.intents[i].signal != pc.signal)
    && InRange(st, pc)
    && (pc.IntentSaved? ==> !Called(subs, pc.intent))
    && (pc.Answered? ==> Called(subs, pc.intent))
    && (IntentHeld(pc).Some? ==>
          forall o | 0 <= o < |st.books.orders| :: st.books.orders[o].intent != pc.intent)
    && (pc.Filling? ==> pc.order < |st.books.orders|)
  }

  ghost predicate Apart(pc: Pc, other: Pc) {
    && (SignalHeld(pc).Some? ==> SignalHeld(pc) != SignalHeld(other))
    && (IntentHeld(pc).Some? ==> IntentHeld(pc) != IntentHeld(other))
  }

  ghost predicate Inv(s: System) {
    && TablesOk(s.store)
    && SubmissionsOk(s.store, s.submissions)
    && (forall p: Pid :: WorkerOk(s.store, s.submissions, At(s, p)))
    && (forall p: Pid, q: Pid | p != q :: Apart(At(s, p), At(s, q)))
  }

  lemma FillKeepsOrders(b: Books, f: FillEvent)
    requires Consistent(b)
    ensures var after := After(b, Fill(f));
            && |after.orders| == |b.orders|
            && (forall o | 0 <= o < |b.orders| ::
                  after.orders[o].intent == b.orders[o].intent && after.orders[o].correlation == b.orders[o].correlation)
            && Consistent(after)
  {
    if f.Valid() && f.order < |b.orders| {
      FillKeepsConsistent(b, f);
      FillKeepsIntents(b, f);
    }
  }

  lemma FillKeepsIntents(b: Books, f: FillEvent)
    requires f.order < |b.orders|
    ensures var after := Applied(b, f);
            && |after.orders| == |b.orders|
            && forall o | 0 <= o < |b.orders| ::
                 after.orders[o].intent == b.orders[o].intent && after.orders[o].correlation == b.orders[o].correlation
  {
  }

  lemma RecordKeepsTables(s: System, c: Config, pc: Pc)
    requires pc.Answered? && TablesOk(s.store) && WorkerOk(s.store, s.submissions, pc)
    ensures TablesOk(NextStore(s.store, c, pc, Record))
  {
    SubmissionKeepsConsistent(s.store.books, OrderOf(pc.intent, s.store.intents[pc.intent].correlation, pc.answer));
  }

  lemma SameOrdersAreOk(st: Store, after: Books)
    requires TablesOk(st) && Consistent(after) && |after.orders| == |st.books.orders|
    requires forall o | 0 <= o < |after.orders| ::
               after.orders[o].intent == st.books.orders[o].intent && after.orders[o].correlation == st.books.orders[o].correlation
    ensures TablesOk(st.(books := after))
  {
  }

  lemma ApplyKeepsTables(s: System, c: Config, pc: Pc)
    requires pc.Filling? && TablesOk(s.store)
    ensures TablesOk(NextStore(s.store, c, pc, ApplyNext))
  {
    if pc.fills != [] {
      var f := FillOf(c, pc.order, pc.job, pc.status, pc.fills[0]);
      FillKeepsOrders(s.store.books, f);
      SameOrdersAreOk(s.store, After(s.store.books, Fill(f)));
    }
  }

  lemma ReserveKeepsTables(s: System, c: Config, pc: Pc)
    requires pc.SequenceRead? && TablesOk(s.store) && WorkerOk(s.store, s.submissions, pc)
    ensures TablesOk(NextStore(s.store, c, pc, Reserve))
  {
  }

  lemma DeliverKeepsTables(s: System, c: Config, pc: Pc, job: Job)
    requires pc.Idle? && TablesOk(s.store)
    ensures TablesOk(NextStore(s.store, c, pc, Deliver(job)))
  {
  }

  lemma StepKeepsTables(s: System, c: Config, pc: Pc, a: Action)
    requires Enabled(pc, a) && TablesOk(s.store) && WorkerOk(s.store, s.submissions, pc)
    ensures TablesOk(NextStore(s.store, c, pc, a))
  {
    match a
    case Deliver(job) => DeliverKeepsTables(s, c, pc, job);
    case Reserve => ReserveKeepsTables(s, c, pc);
    case Record => RecordKeepsTables(s, c, pc);
    case ApplyNext => ApplyKeepsTables(s, c, pc);
    case _ =>
  }

  lemma CallsGrow(subs: seq<BrokerCall>, call: BrokerCall, intent: nat)
    ensures Called(subs + [call], intent) <==> Called(subs, intent) || call.intent == intent
  {
    if Called(subs, intent) {
      var k :| 0 <= k < |subs| && subs[k].intent == intent;
      assert (subs + [call])[k].intent == intent;
    }
    assert (subs + [call])[|subs|] == call;
  }

  lemma StepKeepsSubmissions(s: System, c: Config, pc: Pc, a: Action)
    requires Enabled(pc, a) && TablesOk(s.store) && WorkerOk(s.store, s.submissions, pc)
    requires SubmissionsOk(s.store, s.submissions)
    ensures SubmissionsOk(NextStore(s.store, c, pc, a), NextSubmissions(s, pc, a))
  {
    var st, subs := NextStore(s.store, c, pc, a), NextSubmissions(s, pc, a);
    if a.Submit? {
      forall o | 0 <= o < |st.books.orders| ensures Called(subs, st.books.orders[o].intent) {
        CallsGrow(s.submissions, subs[|s.submissions|], st.books.orders[o].intent);
      }
    } else if a.ApplyNext? && pc.fills != [] {
      FillKeepsOrders(s.store.books, FillOf(c, pc.order, pc.job, pc.status, pc.fills[0]));
    }
  }

  lemma StepKeepsWorker(s: System, c: Config, pc: Pc, a: Action)
    requires Enabled(pc, a) && TablesOk(s.store) && WorkerOk(s.store, s.submissions, pc)
    requires SubmissionsOk(s.store, s.submissions)
    ensures WorkerOk(NextStore(s.store, c, pc, a), NextSubmissions(s, pc, a), NextPc(s.store, c, pc, a))
  {
    match a
    case Submit(_) =>
      CallsGrow(s.submissions, NextSubmissions(s, pc, a)[|s.submissions|], pc.intent);
    case Reserve =>
      assert !Called(s.submissions, |s.store.intents|);
    case ApplyNext =>
      if pc.fills != [] {
        FillKeepsOrders(s.store.books, FillOf(c, pc.order, pc.job, pc.status, pc.fills[0]));
      }
    case _ =>
  }

  lemma StepKeepsOther(s: System, c: Config, pc: Pc, a: Action, other: Pc)
    requires Enabled(pc, a) && TablesOk(s.store)
    requires WorkerOk(s.store, s.submissions, pc) && WorkerOk(s.store, s.submissions, other)
    requires Apart(pc, other) && Apart(other, pc)
    ensures WorkerOk(NextStore(s.store, c, pc, a), NextSubmissions(s, pc, a), other)
  {
    if a.Submit? {
      if IntentHeld(other).Some? {
        CallsGrow(s.submissions, NextSubmissions(s, pc, a)[|s.submissions|], other.intent);
      }
    } else if a.ApplyNext? && pc.fills != [] {
      FillKeepsOrders(s.store.books, FillOf(c, pc.order, pc.job, pc.status, pc.fills[0]));
    }
  }

  lemma StepKeepsApart(s: System, c: Config, pc: Pc, a: Action, other: Pc)
    requires Enabled(pc, a)
    requires WorkerOk(s.store, s.submissions, pc) && WorkerOk(s.store, s.submissions, other)
    requires Apart(pc, other) && Apart(other, pc)
    ensures Apart(NextPc(s.store, c, pc, a), other) && Apart(other, NextPc(s.store, c, pc, a))
  {
  }

  lemma StepKeepsInv(s: System, c: Config, p: Pid, a: Action)
    requires Inv(s) && Enabled(At(s, p), a)
    ensures Inv(Perform(s, c, p, a))
  {
    var pc, s' := At(s, p), Perform(s, c, p, a);
    assert WorkerOk(s.store, s.submissions, pc);
    assert At(s', p) == NextPc(s.store, c, pc, a);
    assert forall q: Pid :: q != p ==> At(s', q) == At(s, q);
    StepKeepsTables(s, c, pc, a);
    StepKeepsSubmissions(s, c, pc, a);
    StepKeepsWorker(s, c, pc, a);
    forall q: Pid | q != p
      ensures WorkerOk(s'.store, s'.submissions, At(s', q))
      ensures Apart(At(s', p), At(s', q)) && Apart(At(s', q), At(s', p))
    {
      assert WorkerOk(s.store, s.submissions, At(s, q)) && Apart(pc, At(s, q)) && Apart(At(s, q), pc);
      StepKeepsOther(s, c, pc, a, At(s, q));
      StepKeepsApart(s, c, pc, a, At(s, q));
    }
  }

  datatype Step = Step(worker: Pid, action: Action)

  lemma InitialInv()
    ensures Inv(INITIAL)
  {
    HistoryIsConsistent([]);
    assert forall p: Pid :: At(INITIAL, p) == Idle;
  }

  /** A worker's own ids are in range, so its step is defined. */
  lemma StepIsDefined(s: System, p: Pid)
    requires Inv(s)
    ensures InRange(s.store, At(s, p))
  {
    assert WorkerOk(s.store, s.submissions, At(s, p));
  }

  /** The state a sequence of steps reaches, or None when some step could not be taken. */
  ghost function Run(cfg: Pid -> Config, steps: seq<Step>): (r: Option<System>)
    ensures r.Some? ==> Inv(r.value)
  {
    if steps == [] then
      InitialInv();
      Some(INITIAL)
    else
      var last := steps[|steps| - 1];
      match Run(cfg, steps[..|steps| - 1])
      case None => None
      case Some(s) =>
        if !Enabled(At(s, last.worker), last.action) then None
        else
          StepIsDefined(s, last.worker);
          StepKeepsInv(s, cfg(last.worker), last.worker, last.action);
          Some(Perform(s, cfg(last.worker), last.worker, last.action))
  }

  // ------------------------------------------------------------------ the theorems

  /**
   Whatever crashed and whoever else was running, each call of the broker found its intent, under
   the very correlation ID it used, already committed, and that row is still there to recover from.
   */
  lemma SubmissionWasReserved(cfg: Pid -> Config, steps: seq<Step>, k: nat)
    requires Run(cfg, steps).Some? && k < |Run(cfg, steps).value.submissions|
    ensures var s := Run(cfg, steps).value;
            var call := s.submissions[k];
            && call.intent < call.committed <= |s.store.intents|
            && s.store.intents[call.intent].correlation == call.correlation
  {
    var s := Run(cfg, steps).value;
    assert SubmissionsOk(s.store, s.submissions);
  }

  /** No two broker calls share a correlation ID, an intent, or the signal key they answer. */
  lemma OneSubmissionPerSignal(cfg: Pid -> Config, steps: seq<Step>, k: nat, l: nat)
    requires Run(cfg, steps).Some? && k < l < |Run(cfg, steps).value.submissions|
    ensures var s := Run(cfg, steps).value;
            var i, j := s.submissions[k].intent, s.submissions[l].intent;
            && i < |s.store.intents| && j < |s.store.intents| && i != j
            && s.submissions[k].correlation != s.submissions[l].correlation
            && s.store.intents[i].signal < |s.store.signals| && s.store.intents[j].signal < |s.store.signals|
            && s.store.signals[s.store.intents[i].signal] != s.store.signals[s.store.intents[j].signal]
  {
    var s := Run(cfg, steps).value;
    var i, j := s.submissions[k].intent, s.submissions[l].intent;
    assert i != j;
    assert s.store.intents[i].signal != s.store.intents[j].signal;
  }

  /**
   At every committed state the books agree with themselves, and every order row in them is the
   record of a broker call, under that call's correlation ID, and the only one of its intent: the
   insert never meets the conflict the table would resolve by overwriting.
   */
  lemma OrdersComeFromSubmissions(cfg: Pid -> Config, steps: seq<Step>, o: nat)
    requires Run(cfg, steps).Some? && o < |Run(cfg, steps).value.store.books.orders|
    ensures var s := Run(cfg, steps).value;
            && Consistent(s.store.books)
            && (forall p | 0 <= p < |s.store.books.orders| && p != o ::
                  s.store.books.orders[p].intent != s.store.books.orders[o].intent)
            && exists k :: 0 <= k < |s.submissions|
                 && s.submissions[k].intent == s.store.books.orders[o].intent
                 && s.submissions[k].correlation == s.store.books.orders[o].correlation
  {
    var s := Run(cfg, steps).value;
    assert Called(s.submissions, s.store.books.orders[o].intent);
    var k :| 0 <= k < |s.submissions| && s.submissions[k].intent == s.store.books.orders[o].intent;
    assert s.submissions[k].correlation == s.store.books.orders[o].correlation;
  }

  // ------------------------------------------------------------------ how intents are numbered

  /** How many intents a strategy-day has. */
  function IntentsOn(intents: seq<IntentRow>, day: Day): nat {
    if intents == [] then 0
    else IntentsOn(intents[..|intents| - 1], day) + if intents[|intents| - 1].day == day then 1 else 0
  }

  /** Each strategy-day's intents are numbered from one, in the order they were reserved. */
  ghost predicate CountUp(intents: seq<IntentRow>) {
    intents != [] ==>
      var init, last := intents[..|intents| - 1], intents[|intents| - 1];
      CountUp(init) && last.sequence == IntentsOn(init, last.day) + 1
  }

  lemma {:induction false} MaxIsTheCount(intents: seq<IntentRow>, day: Day)
    requires CountUp(intents)
    ensures MaxSequence(intents, day) == IntentsOn(intents, day)
  {
    if intents != [] {
      MaxIsTheCount(intents[..|intents| - 1], day);
    }
  }

  lemma {:induction false} EveryNumberIsTaken(intents: seq<IntentRow>, day: Day, k: nat) returns (i: nat)
    requires CountUp(intents) && 1 <= k <= IntentsOn(intents, day)
    ensures i < |intents| && intents[i].day == day && intents[i].sequence == k
  {
    var n := |intents| - 1;
    if intents[n].day == day && k == IntentsOn(intents, day) {
      i := n;
    } else {
      i := EveryNumberIsTaken(intents[..n], day, k);
    }
  }

  /** A number that was read is at most one beyond those in use. */
  ghost predicate ReadBelow(intents: seq<IntentRow>, c: Config, pc: Pc) {
    pc.SequenceRead? ==> 1 <= pc.sequence <= IntentsOn(intents, DayOf(c, pc.job)) + 1
  }

  lemma OneMoreIntent(intents: seq<IntentRow>, row: IntentRow, day: Day)
    ensures IntentsOn(intents + [row], day) == IntentsOn(intents, day) + if row.day == day then 1 else 0
  {
    assert (intents + [row])[..|intents|] == intents;
  }

  lemma NumberedNext(intents: seq<IntentRow>, row: IntentRow)
    requires CountUp(intents) && Insertable(intents, row) && 1 <= row.sequence <= IntentsOn(intents, row.day) + 1
    ensures CountUp(intents + [row])
  {
    assert (intents + [row])[..|intents|] == intents;
    if row.sequence <= IntentsOn(intents, row.day) {
      var i := EveryNumberIsTaken(intents, row.day, row.sequence);
      assert false;
    }
  }

  lemma StepCountsUp(st: Store, c: Config, pc: Pc, a: Action)
    requires Enabled(pc, a) && InRange(st, pc) && CountUp(st.intents) && ReadBelow(st.intents, c, pc)
    ensures CountUp(NextStore(st, c, pc, a).intents)
    ensures ReadBelow(NextStore(st, c, pc, a).intents, c, NextPc(st, c, pc, a))
  {
    IntentsGrow(st, c, pc, a);
    if a.Reserve? && Reservable(st, c, pc.signal, pc.job, pc.sequence) {
      NumberedNext(st.intents, IntentFor(c, pc.signal, pc.job, pc.sequence).value);
    }
    if a.ReadSequence? {
      MaxIsTheCount(st.intents, DayOf(c, pc.job));
    }
  }

  lemma OthersStayBelow(st: Store, c: Config, pc: Pc, a: Action, d: Config, other: Pc)
    requires Enabled(pc, a) && InRange(st, pc) && ReadBelow(st.intents, d, other)
    ensures ReadBelow(NextStore(st, c, pc, a).intents, d, other)
  {
    IntentsGrow(st, c, pc, a);
    if other.SequenceRead? && NextStore(st, c, pc, a).intents != st.intents {
      OneMoreIntent(st.intents, IntentFor(c, pc.signal, pc.job, pc.sequence).value, DayOf(d, other.job));
    }
  }

  lemma {:induction false} RunCountsUp(cfg: Pid -> Config, steps: seq<Step>)
    requires Run(cfg, steps).Some?
    ensures CountUp(Run(cfg, steps).value.store.intents)
    ensures forall p: Pid :: ReadBelow(Run(cfg, steps).value.store.intents, cfg(p), At(Run(cfg, steps).value, p))
  {
    if steps != [] {
      var last, s, t := steps[|steps| - 1], Run(cfg, steps[..|steps| - 1]).value, Run(cfg, steps).value;
      RunCountsUp(cfg, steps[..|steps| - 1]);
      StepIsDefined(s, last.worker);
      StepCountsUp(s.store, cfg(last.worker), At(s, last.worker), last.action);
      forall p: Pid ensures ReadBelow(t.store.intents, cfg(p), At(t, p)) {
        if p != last.worker {
          OthersStayBelow(s.store, cfg(last.worker), At(s, last.worker), last.action, cfg(p), At(s, p));
        }
      }
    }
  }

  /**
   However many workers of a strategy race for its numbers, and whoever crashes: its intents of a day are
   numbered 1, 2, 3 and so on without a gap, and a worker reads the number after the last one in use.
   */
  lemma IntentsCountUp(cfg: Pid -> Config, steps: seq<Step>, p: Pid)
    requires Run(cfg, steps).Some?
    ensures var s := Run(cfg, steps).value;
            && CountUp(s.store.intents)
            && (At(s, p).SignalSaved? ==>
                  var day := Day(cfg(p).strategy, cfg(p).mode, At(s, p).job.date);
                  NextPc(s.store, cfg(p), At(s, p), ReadSequence) ==
                  SequenceRead(At(s, p).signal, At(s, p).job, IntentsOn(s.store.intents, day) + 1))
  {
    RunCountsUp(cfg, steps);
    if At(Run(cfg, steps).value, p).SignalSaved? {
      MaxIsTheCount(Run(cfg, steps).value.store.intents, DayOf(cfg(p), At(Run(cfg, steps).value, p).job));
    }
  }

  // ------------------------------------------------------------------ the price of at most once

  /** The intent of this signal could be built and inserted now, under this sequence number. */
  predicate Reservable(st: Store, c: Config, signal: nat, job: Job, sequence: nat) {
    var row := IntentFor(c, signal, job, sequence);
    row.Some? && Insertable(st.intents, row.value)
  }

  /** A worker holds the signal with its intent saved, or before that with an ID it can still reserve. */
  predicate OnItsWay(st: Store, c: Config, pc: Pc, signal: nat) {
    match pc
    case SignalSaved(held, job) => held == signal && Reservable(st, c, signal, job, MaxSequence(st.intents, DayOf(c, job)) + 1)
    case SequenceRead(held, job, sequence) => held == signal && Reservable(st, c, signal, job, sequence)
    case IntentSaved(intent, _) => intent < |st.intents| && st.intents[intent].signal == signal
    case _ => false
  }

  ghost predicate SomeoneHasIt(s: System, cfg: Pid -> Config, signal: nat) {
    exists p: Pid :: OnItsWay(s.store, cfg(p), At(s, p), signal)
  }

  /** Each strategy, in one mode, has one worker. */
  ghost predicate OneWorkerEach(cfg: Pid -> Config) {
    forall p: Pid, q: Pid | p != q :: cfg(p).strategy != cfg(q).strategy || cfg(p).mode != cfg(q).mode
  }

  /** Between the two states the broker was called for this signal. */
  ghost predicate Submitted(s: System, t: System, signal: nat) {
    exists k :: |s.submissions| <= k < |t.submissions| && t.submissions[k].intent < |t.store.intents|
                && t.store.intents[t.submissions[k].intent].signal == signal
  }

  lemma MaxOfOthers(intents: seq<IntentRow>, row: IntentRow, day: Day)
    requires row.day != day
    ensures MaxSequence(intents + [row], day) == MaxSequence(intents, day)
  {
    assert (intents + [row])[..|intents|] == intents;
  }

  lemma TakenStaysTaken(intents: seq<IntentRow>, row: IntentRow, other: IntentRow)
    requires Insertable(intents + [row], other)
    ensures Insertable(intents, other)
  {
    assert forall i | 0 <= i < |intents| :: (intents + [row])[i] == intents[i];
  }

  lemma IntentsGrow(st: Store, c: Config, pc: Pc, a: Action)
    requires Enabled(pc, a) && InRange(st, pc)
    ensures var t := NextStore(st, c, pc, a);
            t.intents == st.intents ||
            (pc.SequenceRead? && Reservable(st, c, pc.signal, pc.job, pc.sequence)
             && t.intents == st.intents + [IntentFor(c, pc.signal, pc.job, pc.sequence).value])
  {
  }

  /** One more intent, of another strategy, makes nothing reservable. */
  lemma NothingFreed(st: Store, row: IntentRow, d: Config, signal: nat, job: Job, sequence: nat)
    requires Reservable(st.(intents := st.intents + [row]), d, signal, job, sequence)
    ensures Reservable(st, d, signal, job, sequence)
  {
    TakenStaysTaken(st.intents, row, IntentFor(d, signal, job, sequence).value);
  }

  lemma OneIntentHelpsNobody(st: Store, row: IntentRow, d: Config, other: Pc, signal: nat)
    requires InRange(st, other) && (row.day.strategy != d.strategy || row.day.mode != d.mode)
    requires OnItsWay(st.(intents := st.intents + [row]), d, other, signal)
    ensures OnItsWay(st, d, other, signal)
  {
    if other.SignalSaved? {
      MaxOfOthers(st.intents, row, DayOf(d, other.job));
      NothingFreed(st, row, d, signal, other.job, MaxSequence(st.intents, DayOf(d, other.job)) + 1);
    } else if other.SequenceRead? {
      NothingFreed(st, row, d, signal, other.job, other.sequence);
    }
  }

  lemma OnlyIntentsMatter(st: Store, t: Store, d: Config, other: Pc, signal: nat)
    requires st.intents == t.intents
    ensures OnItsWay(t, d, other, signal) <==> OnItsWay(st, d, other, signal)
  {
  }

  /** A step helps no other worker's signal along. */
  lemma OthersGetNoFurther(st: Store, c: Config, pc: Pc, a: Action, d: Config, other: Pc, signal: nat)
    requires Enabled(pc, a) && InRange(st, pc) && InRange(st, other)
    requires c.strategy != d.strategy || c.mode != d.mode
    requires OnItsWay(NextStore(st, c, pc, a), d, other, signal)
    ensures OnItsWay(st, d, other, signal)
  {
    var t := NextStore(st, c, pc, a);
    IntentsGrow(st, c, pc, a);
    if t.intents == st.intents {
      OnlyIntentsMatter(st, t, d, other, signal);
    } else {
      var row := IntentFor(c, pc.signal, pc.job, pc.sequence).value;
      OnlyIntentsMatter(st.(intents := st.intents + [row]), t, d, other, signal);
      OneIntentHelpsNobody(st, row, d, other, signal);
    }
  }

  lemma OwnGetsNoFurther(st: Store, c: Config, pc: Pc, a: Action, signal: nat)
    requires Enabled(pc, a) && InRange(st, pc) && signal < |st.signals|
    requires OnItsWay(NextStore(st, c, pc, a), c, NextPc(st, c, pc, a), signal)
    ensures OnItsWay(st, c, pc, signal)
  {
  }

  lemma StuckStays(s: System, cfg: Pid -> Config, p: Pid, a: Action, signal: nat)
    requires Inv(s) && Enabled(At(s, p), a) && OneWorkerEach(cfg) && signal < |s.store.signals|
    requires !SomeoneHasIt(s, cfg, signal)
    ensures var t := Perform(s, cfg(p), p, a);
            && signal < |t.store.signals| && !SomeoneHasIt(t, cfg, signal)
            && t.submissions[..|s.submissions|] == s.submissions && |t.submissions| <= |s.submissions| + 1
            && (|t.submissions| > |s.submissions| ==>
                  var intent := t.submissions[|s.submissions|].intent;
                  intent < |s.store.intents| && s.store.intents[intent].signal != signal)
            && s.store.intents <= t.store.intents
  {
    var t := Perform(s, cfg(p), p, a);
    assert WorkerOk(s.store, s.submissions, At(s, p));
    IntentsGrow(s.store, cfg(p), At(s, p), a);
    assert !OnItsWay(s.store, cfg(p), At(s, p), signal);
    forall q: Pid ensures !OnItsWay(t.store, cfg(q), At(t, q), signal) {
      assert !OnItsWay(s.store, cfg(q), At(s, q), signal);
      if q == p {
        if OnItsWay(t.store, cfg(p), At(t, p), signal) {
          OwnGetsNoFurther(s.store, cfg(p), At(s, p), a, signal);
        }
      } else {
        assert WorkerOk(s.store, s.submissions, At(s, q)) && At(t, q) == At(s, q);
        if OnItsWay(t.store, cfg(q), At(t, q), signal) {
          OthersGetNoFurther(s.store, cfg(p), At(s, p), a, cfg(q), At(s, q), signal);
        }
      }
    }
  }

  /** What nobody has on its way is never submitted. */
  lemma {:induction false} StuckForGood(cfg: Pid -> Config, steps: seq<Step>, later: seq<Step>, signal: nat)
    requires steps <= later && Run(cfg, steps).Some? && Run(cfg, later).Some? && OneWorkerEach(cfg)
    requires signal < |Run(cfg, steps).value.store.signals| && !SomeoneHasIt(Run(cfg, steps).value, cfg, signal)
    ensures var s, t := Run(cfg, steps).value, Run(cfg, later).value;
            && signal < |t.store.signals| && !SomeoneHasIt(t, cfg, signal) && !Submitted(s, t, signal)
            && |s.submissions| <= |t.submissions|
    decreases |later|
  {
    if steps != later {
      var init, last := later[..|later| - 1], later[|later| - 1];
      StuckForGood(cfg, steps, init, signal);
      var u := Run(cfg, init).value;
      StuckStays(u, cfg, last.worker, last.action, signal);
      assert SubmissionsOk(u.store, u.submissions);
    }
  }

  lemma RunStep(cfg: Pid -> Config, steps: seq<Step>, last: Step)
    requires Run(cfg, steps).Some? && Enabled(At(Run(cfg, steps).value, last.worker), last.action)
    ensures InRange(Run(cfg, steps).value.store, At(Run(cfg, steps).value, last.worker))
    ensures Run(cfg, steps + [last]) == Some(Perform(Run(cfg, steps).value, cfg(last.worker), last.worker, last.action))
  {
    assert (steps + [last])[..|steps|] == steps;
    var s := Run(cfg, steps).value;
    assert WorkerOk(s.store, s.submissions, At(s, last.worker));
  }

  /** The next step towards the broker. */
  function Onwards(pc: Pc): Action {
    if pc.SignalSaved? then ReadSequence else if pc.SequenceRead? then Reserve else Submit(Refusal)
  }

  function StepsToGo(pc: Pc): nat {
    if pc.SignalSaved? then 2 else if pc.SequenceRead? then 1 else 0
  }

  lemma OnwardStep(st: Store, c: Config, pc: Pc, signal: nat)
    requires OnItsWay(st, c, pc, signal) && InRange(st, pc)
    ensures Enabled(pc, Onwards(pc))
    ensures !pc.IntentSaved? ==>
              var next := NextPc(st, c, pc, Onwards(pc));
              OnItsWay(NextStore(st, c, pc, Onwards(pc)), c, next, signal) && StepsToGo(next) < StepsToGo(pc)
    ensures pc.IntentSaved? ==> NextStore(st, c, pc, Onwards(pc)) == st
  {
  }

  lemma SubmittedLater(s: System, t: System, u: System, signal: nat)
    requires t.submissions == s.submissions && Submitted(t, u, signal)
    ensures Submitted(s, u, signal)
  {
    var k :| |t.submissions| <= k < |u.submissions| && u.submissions[k].intent < |u.store.intents|
             && u.store.intents[u.submissions[k].intent].signal == signal;
    assert |s.submissions| <= k;
  }

  lemma OnwardRun(cfg: Pid -> Config, steps: seq<Step>, p: Pid, signal: nat)
    requires Run(cfg, steps).Some? && OnItsWay(Run(cfg, steps).value.store, cfg(p), At(Run(cfg, steps).value, p), signal)
    ensures var s, pc := Run(cfg, steps).value, At(Run(cfg, steps).value, p);
            var r := Run(cfg, steps + [Step(p, Onwards(pc))]);
            && r.Some?
            && (pc.IntentSaved? ==> Submitted(s, r.value, signal))
            && (!pc.IntentSaved? ==>
                  && r.value.submissions == s.submissions
                  && OnItsWay(r.value.store, cfg(p), At(r.value, p), signal) && StepsToGo(At(r.value, p)) < StepsToGo(pc))
  {
    var s := Run(cfg, steps).value;
    var pc := At(s, p);
    assert WorkerOk(s.store, s.submissions, pc);
    OnwardStep(s.store, cfg(p), pc, signal);
    RunStep(cfg, steps, Step(p, Onwards(pc)));
    var t := Run(cfg, steps + [Step(p, Onwards(pc))]).value;
    if pc.IntentSaved? {
      assert t.submissions[|s.submissions|].intent == pc.intent;
    }
  }

  /** The run can go on to a broker call for the signal. */
  ghost predicate Submittable(cfg: Pid -> Config, steps: seq<Step>, s: System, signal: nat) {
    exists later :: steps <= later && Run(cfg, later).Some? && Submitted(s, Run(cfg, later).value, signal)
  }

  lemma SubmittableEarlier(cfg: Pid -> Config, steps: seq<Step>, next: seq<Step>, s: System, t: System, signal: nat)
    requires steps <= next && t.submissions == s.submissions && Submittable(cfg, next, t, signal)
    ensures Submittable(cfg, steps, s, signal)
  {
    var later :| next <= later && Run(cfg, later).Some? && Submitted(t, Run(cfg, later).value, signal);
    SubmittedLater(s, t, Run(cfg, later).value, signal);
  }

  /** What somebody has on its way can be submitted, by its worker going straight on. */
  lemma {:induction false} OnItsWayArrives(cfg: Pid -> Config, steps: seq<Step>, p: Pid, signal: nat, togo: nat)
    requires Run(cfg, steps).Some? && OnItsWay(Run(cfg, steps).value.store, cfg(p), At(Run(cfg, steps).value, p), signal)
    requires togo == StepsToGo(At(Run(cfg, steps).value, p))
    ensures Submittable(cfg, steps, Run(cfg, steps).value, signal)
    decreases togo
  {
    var pc := At(Run(cfg, steps).value, p);
    var next := steps + [Step(p, Onwards(pc))];
    OnwardRun(cfg, steps, p, signal);
    if !pc.IntentSaved? {
      OnItsWayArrives(cfg, next, p, signal, StepsToGo(At(Run(cfg, next).value, p)));
      SubmittableEarlier(cfg, steps, next, Run(cfg, steps).value, Run(cfg, next).value, signal);
    }
  }

  /**
   From any reachable state, with one worker a strategy: a saved signal can still be submitted if and
   only if some worker holds it with its intent saved, or holds it before that with an ID it can still
   reserve.  A crash in either window loses the order for good, however often its candle returns.
   */
  lemma SubmittableExactly(cfg: Pid -> Config, steps: seq<Step>, signal: nat)
    requires Run(cfg, steps).Some? && OneWorkerEach(cfg) && signal < |Run(cfg, steps).value.store.signals|
    ensures Submittable(cfg, steps, Run(cfg, steps).value, signal) <==> SomeoneHasIt(Run(cfg, steps).value, cfg, signal)
  {
    var s := Run(cfg, steps).value;
    if SomeoneHasIt(s, cfg, signal) {
      var p: Pid :| OnItsWay(s.store, cfg(p), At(s, p), signal);
      OnItsWayArrives(cfg, steps, p, signal, StepsToGo(At(s, p)));
    } else {
      forall later | steps <= later && Run(cfg, later).Some? ensures !Submitted(s, Run(cfg, later).value, signal) {
        StuckForGood(cfg, steps, later, signal);
      }
    }
  }

  /** The worker holds the signal, before or with its intent, and has not called the broker for it. */
  predicate Holds(st: Store, pc: Pc, signal: nat) {
    || SignalHeld(pc) == Some(signal)
    || (pc.IntentSaved? && pc.intent < |st.intents| && st.intents[pc.intent].signal == signal)
  }

  ghost predicate NobodyHolds(s: System, signal: nat) {
    signal < |s.store.signals| && forall p: Pid :: !Holds(s.store, At(s, p), signal)
  }

  lemma StepLetsNobodyHold(s: System, c: Config, p: Pid, a: Action, signal: nat)
    requires Inv(s) && Enabled(At(s, p), a) && NobodyHolds(s, signal)
    ensures var t := Perform(s, c, p, a);
            && NobodyHolds(t, signal)
            && t.submissions[..|s.submissions|] == s.submissions && |t.submissions| <= |s.submissions| + 1
            && (|t.submissions| > |s.submissions| ==>
                  var intent := t.submissions[|s.submissions|].intent;
                  intent < |s.store.intents| && s.store.intents[intent].signal != signal)
            && s.store.intents <= t.store.intents
  {
    var t := Perform(s, c, p, a);
    assert WorkerOk(s.store, s.submissions, At(s, p)) && !Holds(s.store, At(s, p), signal);
    IntentsGrow(s.store, c, At(s, p), a);
    forall q: Pid ensures !Holds(t.store, At(t, q), signal) {
      assert !Holds(s.store, At(s, q), signal) && WorkerOk(s.store, s.submissions, At(s, q));
    }
  }

  /** A signal nobody holds is never submitted, whatever the workers' strategies. */
  lemma {:induction false} UnheldIsNeverSubmitted(cfg: Pid -> Config, steps: seq<Step>, later: seq<Step>, signal: nat)
    requires steps <= later && Run(cfg, steps).Some? && Run(cfg, later).Some? && NobodyHolds(Run(cfg, steps).value, signal)
    ensures var s, t := Run(cfg, steps).value, Run(cfg, later).value;
            NobodyHolds(t, signal) && !Submitted(s, t, signal) && |s.submissions| <= |t.submissions|
    decreases |later|
  {
    if steps != later {
      var init, last := later[..|later| - 1], later[|later| - 1];
      UnheldIsNeverSubmitted(cfg, steps, init, signal);
      var u := Run(cfg, init).value;
      StepLetsNobodyHold(u, cfg(last.worker), last.worker, last.action, signal);
      assert SubmissionsOk(u.store, u.submissions);
    }
  }

  lemma HeldOnce(st: Store, subs: seq<BrokerCall>, pc: Pc, other: Pc, signal: nat)
    requires TablesOk(st) && WorkerOk(st, subs, pc) && WorkerOk(st, subs, other)
    requires Apart(pc, other) && Apart(other, pc) && Holds(st, pc, signal)
    ensures !Holds(st, other, signal)
  {
  }

  /** Both windows: when the worker that holds a signal crashes, nobody holds it and it is lost for good. */
  lemma CrashLosesTheOrder(cfg: Pid -> Config, steps: seq<Step>, p: Pid, signal: nat)
    requires Run(cfg, steps).Some? && Holds(Run(cfg, steps).value.store, At(Run(cfg, steps).value, p), signal)
    ensures Run(cfg, steps + [Step(p, Crash)]).Some? && NobodyHolds(Run(cfg, steps + [Step(p, Crash)]).value, signal)
    ensures !Submittable(cfg, steps + [Step(p, Crash)], Run(cfg, steps).value, signal)
  {
    var s, after := Run(cfg, steps).value, steps + [Step(p, Crash)];
    RunStep(cfg, steps, Step(p, Crash));
    var t := Run(cfg, after).value;
    assert WorkerOk(s.store, s.submissions, At(s, p)) && t.submissions == s.submissions && t.store == s.store;
    forall q: Pid ensures !Holds(t.store, At(t, q), signal) {
      if q != p {
        assert At(t, q) == At(s, q) && WorkerOk(s.store, s.submissions, At(s, q));
        assert Apart(At(s, p), At(s, q)) && Apart(At(s, q), At(s, p));
        HeldOnce(s.store, s.submissions, At(s, p), At(s, q), signal);
      }
    }
    forall later | after <= later && Run(cfg, later).Some? ensures !Submitted(s, Run(cfg, later).value, signal) {
      UnheldIsNeverSubmitted(cfg, after, later, signal);
    }
  }
}
