/**
 The ownership, stop and retry-budget protocol of `ReconnectingFeed`.

 One thread at a time is inside `start()`; any number of other threads call `stop()` and
 `request_stop()`, and the tick handler that `start()` drives may call them too.  Every lock
 region and every access to a shared flag is one step, so a run is an arbitrary interleaving.
 The wrapped adapter is known only through its contract: `stop()` ends delivery,
 `request_stop()` promises nothing about when, and `start()` may return or raise between any
 two frames.
 */
module FeedOwnership {
  import opened Prelude

  type Tid = nat

  /** Who called `stop()`: a thread outside the loop, or the tick handler the loop is running. */
  datatype Caller = Bystander | Handler

  /** Where a call of `_close_owned_adapter` was made, hence where it returns to. */
  datatype Site = ByStop(caller: Caller) | ByCallback | ByFinally

  datatype Pc =
    | Idle
    // start() and _run()
    | LoopHead        // about to test `stopped()`
    | Entering        // found it false, about to call adapter.start()
    | Pumping         // inside adapter.start(), between ticks
    | InTick          // inside on_tick()
    | TickDone        // on_tick() returned, about to test the stop event
    | Raised          // adapter.start() raised, about to test `stopped()`
    | BackingOff      // sleeping before the next attempt
    | Reconnecting    // inside the adapter.stop() that _reconnect() makes
    | Unwinding       // left _run(), about to close
    | Releasing       // closed, about to give up ownership
    // stop() and request_stop()
    | Flagged(caller: Caller)      // stop(): `_stopped` set
    | Signalled(caller: Caller)    // stop(): event set, about to read the owner
    | AskFlagged(caller: Caller)   // request_stop(): `_stopped` set
    | Routed(caller: Caller)       // about to call adapter.request_stop()
    // _close_owned_adapter()
    | Closing(site: Site)
    | StoppingAdapter(site: Site)

  datatype Action =
    | Start | TestStopped | EnterAdapter | Tick | TickReturns | TickRaises | TestEvent
    | AdapterReturns | AdapterRaises | HandleFailure | BeginReconnect | EndReconnect
    | LoopRaises      // an exception out of the backoff or the reconnect
    | BeginFinally | Release
    | CallStop | CallRequestStop | SetEvent | ReadOwner | AskAdapter
    | TakeClose | AdapterStopped

  /** The fields every thread can see, and a record of what happened for stating the theorems. */
  datatype Shared = Shared(
    stopped: bool,
    signalled: bool,
    owner: Option<Tid>,
    closed: bool,
    failures: nat,
    degraded: bool,
    delivering: bool,
    ticksAfterStop: nat,
    entriesAfterStop: nat,
    exhausted: bool,
    starts: nat,
    closes: nat,
    closesSinceStart: nat
  )

  datatype Feed = Feed(shared: Shared, threads: map<Tid, Pc>)

  const INITIAL :=
    Feed(Shared(false, false, None, false, 0, true, false, 0, 0, false, 0, 0, 0), map[])

  function At(s: Feed, t: Tid): Pc {
    if t in s.threads then s.threads[t] else Idle
  }

  /** The handler returns to the loop; a bystander has nothing left to do. */
  function Resume(c: Caller): Pc {
    if c.Handler? then InTick else Idle
  }

  function AfterClose(site: Site): Pc {
    match site
    case ByStop(c) => Resume(c)
    case ByCallback => Pumping
    case ByFinally => Releasing
  }

  // ------------------------------------------------------------------ the steps

  /** Whether a thread at `pc` can take step `a`. */
  predicate Enabled(h: Shared, pc: Pc, a: Action) {
    match a
    case Start => pc.Idle? && h.owner.None?
    case TestStopped => pc.LoopHead?
    case EnterAdapter => pc.Entering?
    case Tick => pc.Pumping? && h.delivering
    case TickReturns => pc.InTick?
    case TickRaises => pc.InTick?
    case TestEvent => pc.TickDone?
    case AdapterReturns => pc.Pumping?
    case AdapterRaises => pc.Pumping?
    case HandleFailure => pc.Raised?
    case BeginReconnect => pc.BackingOff?
    case EndReconnect => pc.Reconnecting?
    case LoopRaises => pc.BackingOff? || pc.Reconnecting?
    case BeginFinally => pc.Unwinding?
    case Release => pc.Releasing?
    case CallStop => pc.Idle? || pc.InTick?
    case CallRequestStop => pc.Idle? || pc.InTick?
    case SetEvent => pc.Flagged? || pc.AskFlagged?
    case ReadOwner => pc.Signalled?
    case AskAdapter => pc.Routed?
    case TakeClose => pc.Closing?
    case AdapterStopped => pc.StoppingAdapter?
  }

  /** Where thread `t` goes. */
  function NextPc(h: Shared, max: nat, t: Tid, pc: Pc, a: Action): Pc
    requires Enabled(h, pc, a)
  {
    match a
    case Start => LoopHead
    case TestStopped => if h.stopped then Unwinding else Entering
    case EnterAdapter => Pumping
    case Tick => InTick
    case TickReturns => TickDone
    case TickRaises => Raised
    case TestEvent => if h.signalled then Closing(ByCallback) else Pumping
    case AdapterReturns => Unwinding
    case AdapterRaises => Raised
    case HandleFailure => if h.stopped || h.failures + 1 >= max then Unwinding else BackingOff
    case BeginReconnect => Reconnecting
    case EndReconnect => LoopHead
    case LoopRaises => Unwinding
    case BeginFinally => Closing(ByFinally)
    case Release => Idle
    case CallStop => Flagged(if pc.Idle? then Bystander else Handler)
    case CallRequestStop => AskFlagged(if pc.Idle? then Bystander else Handler)
    case SetEvent => if pc.Flagged? then Signalled(pc.caller) else Routed(pc.caller)
    case ReadOwner =>
      if h.owner.Some? && h.owner.value != t then Routed(pc.caller) else Closing(ByStop(pc.caller))
    case AskAdapter => Resume(pc.caller)
    case TakeClose => if h.closed then AfterClose(pc.site) else StoppingAdapter(pc.site)
    case AdapterStopped => AfterClose(pc.site)
  }

  /** What the step does to the shared fields. */
  function NextShared(h: Shared, max: nat, t: Tid, a: Action): Shared {
    match a
    case Start =>
      h.(owner := Some(t), closed := false, failures := 0, exhausted := false,
         starts := h.starts + 1, closesSinceStart := 0)
    case EnterAdapter =>
      h.(delivering := true, entriesAfterStop := h.entriesAfterStop + if h.stopped then 1 else 0)
    case Tick =>
      h.(degraded := false, failures := if h.degraded then 0 else h.failures,
         ticksAfterStop := h.ticksAfterStop + if h.signalled then 1 else 0)
    case HandleFailure =>
      if h.stopped then h
      else h.(failures := h.failures + 1, degraded := true, exhausted := h.failures + 1 >= max)
    case EndReconnect => h.(delivering := false)
    case Release => h.(owner := None)
    case CallStop => h.(stopped := true)
    case CallRequestStop => h.(stopped := true)
    case SetEvent => h.(signalled := true)
    case TakeClose =>
      if h.closed then h
      else h.(closed := true, closes := h.closes + 1, closesSinceStart := h.closesSinceStart + 1)
    case AdapterStopped => h.(delivering := false)
    case _ => h
  }

  /** One atomic step of thread `t`. */
  function Perform(s: Feed, max: nat, t: Tid, a: Action): Feed
    requires Enabled(s.shared, At(s, t), a)
  {
    Feed(NextShared(s.shared, max, t, a), s.threads[t := NextPc(s.shared, max, t, At(s, t), a)])
  }

  datatype Step = Step(thread: Tid, action: Action)

  /** The state a sequence of steps reaches, or None when some step could not be taken. */
  function Run(max: nat, steps: seq<Step>): Option<Feed> {
    if steps == [] then Some(INITIAL)
    else
      var last := steps[|steps| - 1];
      match Run(max, steps[..|steps| - 1])
      case None => None
      case Some(s) =>
        if Enabled(s.shared, At(s, last.thread), last.action)
        then Some(Perform(s, max, last.thread, last.action)) else None
  }

  // ------------------------------------------------------------------ what a pc means

  predicate OwnerCloses(site: Site) {
    site.ByStop? ==> site.caller.Handler?
  }

  /** The thread is inside `start()`. */
  predicate Owns(pc: Pc) {
    match pc
    case Idle => false
    case Flagged(c) => c.Handler?
    case AskFlagged(c) => c.Handler?
    case Signalled(c) => c.Handler?
    case Routed(c) => c.Handler?
    case Closing(site) => OwnerCloses(site)
    case StoppingAdapter(site) => OwnerCloses(site)
    case _ => true
  }

  /** The owning thread has left `_run()`. */
  predicate Leaving(pc: Pc) {
    pc.Unwinding? || pc.Releasing? || ((pc.Closing? || pc.StoppingAdapter?) && pc.site.ByFinally?)
  }

  /** Inside `_run()` but outside `adapter.start()`. */
  predicate BetweenAttempts(pc: Pc) {
    pc.LoopHead? || pc.Entering? || pc.Raised? || pc.BackingOff? || pc.Reconnecting?
  }

  /** `adapter.start()` is in flight on this thread. */
  predicate InFlight(pc: Pc) {
    Owns(pc) && !Leaving(pc) && !BetweenAttempts(pc)
  }

  predicate BystanderCloses(pc: Pc) {
    (pc.Closing? || pc.StoppingAdapter?) && !OwnerCloses(pc.site)
  }

  /** A stop is under way on this thread, past the point where the event was set. */
  predicate Asking(pc: Pc) {
    pc.Signalled? || pc.Routed? || ((pc.Closing? || pc.StoppingAdapter?) && !pc.site.ByFinally?)
  }

  // ------------------------------------------------------------------ the invariant

  /** What the position `pc` of thread `t` says about the shared fields. */
  ghost predicate ThreadOk(h: Shared, t: Tid, pc: Pc) {
    && (Owns(pc) <==> h.owner == Some(t))
    && (pc.Flagged? || pc.AskFlagged? ==> h.stopped)
    && (Asking(pc) ==> h.stopped && h.signalled)
    && (BystanderCloses(pc) ==> !h.delivering)
  }

  /** What the position `pc` of the owning thread says besides. */
  ghost predicate OwnerOk(h: Shared, max: nat, pc: Pc) {
    && (h.closed && !Leaving(pc) ==> h.stopped && !pc.Entering?)
    && (pc.LoopHead? || pc.Entering? || pc.Releasing? ==> !h.delivering)
    && (pc.Releasing? || pc.StoppingAdapter? ==> h.closed)
    && (h.ticksAfterStop > 0 ==> !pc.Entering? && (pc.Pumping? ==> !h.delivering))
    && (h.entriesAfterStop > 0 ==> !pc.Entering?)
    && (h.closed ==> !h.delivering || pc.StoppingAdapter?)
    && (!Leaving(pc) ==> h.failures < max && !h.exhausted)
  }

  /** A bystander that closes has seen that nothing is in flight; this is why nothing can become so. */
  ghost predicate Apart(h: Shared, pc: Pc, owner: Pc) {
    BystanderCloses(pc) ==> owner.LoopHead? || Leaving(owner)
  }

  ghost predicate FlagsOk(h: Shared) {
    && (h.signalled ==> h.stopped)
    && (h.owner.None? ==> !h.delivering)
    && h.ticksAfterStop <= 1
    && (h.ticksAfterStop > 0 ==> h.signalled)
    && h.entriesAfterStop <= 1
    && (h.entriesAfterStop > 0 ==> h.stopped)
  }

  ghost predicate CountsOk(h: Shared, max: nat) {
    && h.failures <= max
    && (!h.degraded ==> h.failures == 0)
    && (h.exhausted <==> h.failures == max)
    && h.closes + (if h.closed then 0 else 1) <= h.starts + 1
    && h.closesSinceStart == (if h.closed then 1 else 0)
  }

  ghost predicate Inv(s: Feed, max: nat) {
    var h := s.shared;
    && FlagsOk(h) && CountsOk(h, max)
    && (h.owner.Some? ==> OwnerOk(h, max, At(s, h.owner.value)))
    && (forall t: Tid :: ThreadOk(h, t, At(s, t)))
    && (h.owner.Some? ==> forall t: Tid :: Apart(h, At(s, t), At(s, h.owner.value)))
  }

  /** The stepping thread owns the loop before or after the step: the facts about flags. */
  lemma OwnerStepFlags(h: Shared, max: nat, t: Tid, pc: Pc, a: Action)
    requires Enabled(h, pc, a) && FlagsOk(h) && ThreadOk(h, t, pc)
    requires h.owner == Some(t) ==> OwnerOk(h, max, pc)
    requires h.owner == Some(t) || a.Start?
    ensures FlagsOk(NextShared(h, max, t, a))
  {
  }

  /** The same: the counts. */
  lemma OwnerStepCounts(h: Shared, max: nat, t: Tid, pc: Pc, a: Action)
    requires max >= 1 && Enabled(h, pc, a) && CountsOk(h, max)
    requires a.Tick? || a.HandleFailure? ==> h.failures < max && !h.exhausted
    ensures CountsOk(NextShared(h, max, t, a), max)
  {
  }

  /** The same: what its new position says about them. */
  lemma OwnerStepThread(h: Shared, max: nat, t: Tid, pc: Pc, a: Action)
    requires Enabled(h, pc, a) && ThreadOk(h, t, pc)
    requires h.owner == Some(t) || a.Start?
    requires h.signalled ==> h.stopped
    ensures ThreadOk(NextShared(h, max, t, a), t, NextPc(h, max, t, pc, a))
    ensures NextShared(h, max, t, a).owner.Some? ==> NextShared(h, max, t, a).owner == Some(t)
  {
  }

  /** The same: what its new position says as the owner's. */
  lemma OwnerStep(h: Shared, max: nat, t: Tid, pc: Pc, a: Action)
    requires max >= 1 && Enabled(h, pc, a)
    requires FlagsOk(h) && CountsOk(h, max) && ThreadOk(h, t, pc)
    requires (h.owner == Some(t) && OwnerOk(h, max, pc)) || a.Start?
    requires NextShared(h, max, t, a).owner == Some(t)
    ensures OwnerOk(NextShared(h, max, t, a), max, NextPc(h, max, t, pc, a))
  {
  }

  /** The stepping thread does not own the loop; `owner` is where the thread that does is. */
  lemma BystanderStep(h: Shared, max: nat, t: Tid, pc: Pc, a: Action, owner: Pc)
    requires Enabled(h, pc, a) && !a.Start? && h.owner != Some(t)
    requires FlagsOk(h) && CountsOk(h, max) && ThreadOk(h, t, pc)
    requires h.owner.Some? ==> OwnerOk(h, max, owner) && Apart(h, pc, owner)
    ensures var h', pc' := NextShared(h, max, t, a), NextPc(h, max, t, pc, a);
            && FlagsOk(h') && CountsOk(h', max) && ThreadOk(h', t, pc')
            && h'.owner == h.owner
            && (h.owner.Some? ==> OwnerOk(h', max, owner) && Apart(h', pc', owner))
  {
  }

  /** What a step leaves of another thread's facts. */
  lemma OtherThread(h: Shared, max: nat, t: Tid, pc: Pc, a: Action, u: Tid, other: Pc)
    requires Enabled(h, pc, a) && u != t
    requires ThreadOk(h, t, pc) && ThreadOk(h, u, other)
    requires h.owner == Some(t) ==> Apart(h, other, pc)
    ensures ThreadOk(NextShared(h, max, t, a), u, other)
    ensures NextShared(h, max, t, a).owner == Some(t) ==>
              Apart(NextShared(h, max, t, a), other, NextPc(h, max, t, pc, a))
  {
  }

  lemma StepKeepsInv(s: Feed, max: nat, t: Tid, a: Action)
    requires max >= 1 && Inv(s, max) && Enabled(s.shared, At(s, t), a)
    ensures Inv(Perform(s, max, t, a), max)
  {
    var h, pc, s' := s.shared, At(s, t), Perform(s, max, t, a);
    assert At(s', t) == NextPc(h, max, t, pc, a);
    assert forall u: Tid :: u != t ==> At(s', u) == At(s, u);
    assert ThreadOk(h, t, pc);
    if h.owner == Some(t) || a.Start? {
      OwnerStepFlags(h, max, t, pc, a);
      OwnerStepCounts(h, max, t, pc, a);
      OwnerStepThread(h, max, t, pc, a);
      if s'.shared.owner == Some(t) {
        OwnerStep(h, max, t, pc, a);
      }
    } else {
      BystanderStep(h, max, t, pc, a, if h.owner.Some? then At(s, h.owner.value) else Idle);
    }
    forall u: Tid | u != t
      ensures ThreadOk(s'.shared, u, At(s', u))
      ensures s'.shared.owner == Some(t) ==> Apart(s'.shared, At(s', u), At(s', t))
    {
      OtherThread(h, max, t, pc, a, u, At(s, u));
    }
  }

  lemma {:induction false} RunKeepsInv(max: nat, steps: seq<Step>)
    requires max >= 1 && Run(max, steps).Some?
    ensures Inv(Run(max, steps).value, max)
  {
    if steps == [] {
      assert forall t: Tid :: At(INITIAL, t) == Idle;
    } else {
      var init, last := steps[..|steps| - 1], steps[|steps| - 1];
      RunKeepsInv(max, init);
      StepKeepsInv(Run(max, init).value, max, last.thread, last.action);
    }
  }

  // ------------------------------------------------------------------ the theorems

  /** Only the thread that is running the adapter's loop ever closes it while the loop runs. */
  lemma OnlyOwnerStopsARunningAdapter(max: nat, steps: seq<Step>, t: Tid, u: Tid)
    requires max >= 1 && Run(max, steps).Some?
    ensures var s := Run(max, steps).value;
            InFlight(At(s, u)) && At(s, t).StoppingAdapter? ==> t == u
  {
    RunKeepsInv(max, steps);
    var s := Run(max, steps).value;
    assert ThreadOk(s.shared, t, At(s, t)) && ThreadOk(s.shared, u, At(s, u));
    if InFlight(At(s, u)) && At(s, t).StoppingAdapter? {
      assert Apart(s.shared, At(s, t), At(s, u));
    }
  }

  /** Some `stop()` or `request_stop()` has set the event. */
  predicate EventSet(steps: seq<Step>) {
    steps != [] && (steps[|steps| - 1].action.SetEvent? || EventSet(steps[..|steps| - 1]))
  }

  predicate StopAsked(steps: seq<Step>) {
    steps != [] &&
    (steps[|steps| - 1].action.CallStop? || steps[|steps| - 1].action.CallRequestStop? || StopAsked(steps[..|steps| - 1]))
  }

  /** The ticks that came after the event was set. */
  function TicksAfterStop(steps: seq<Step>): nat {
    if steps == [] then 0
    else
      var init := steps[..|steps| - 1];
      TicksAfterStop(init) + if steps[|steps| - 1].action.Tick? && EventSet(init) then 1 else 0
  }

  /** The entries of the adapter after a stop was asked for. */
  function EntriesAfterStop(steps: seq<Step>): nat {
    if steps == [] then 0
    else
      var init := steps[..|steps| - 1];
      EntriesAfterStop(init) + if steps[|steps| - 1].action.EnterAdapter? && StopAsked(init) then 1 else 0
  }

  function Starts(steps: seq<Step>): nat {
    if steps == [] then 0
    else Starts(steps[..|steps| - 1]) + if steps[|steps| - 1].action.Start? then 1 else 0
  }

  /** How often closing the adapter was begun: a thread that took the close went on into `adapter.stop()`. */
  function Closes(max: nat, steps: seq<Step>): nat {
    if steps == [] then 0
    else Closes(max, steps[..|steps| - 1]) + if BeginsClose(max, steps) then 1 else 0
  }

  /** The same, since the last `start()`. */
  function ClosesSinceStart(max: nat, steps: seq<Step>): nat {
    if steps == [] || steps[|steps| - 1].action.Start? then 0
    else ClosesSinceStart(max, steps[..|steps| - 1]) + if BeginsClose(max, steps) then 1 else 0
  }

  predicate BeginsClose(max: nat, steps: seq<Step>)
    requires steps != []
  {
    var last := steps[|steps| - 1];
    last.action.TakeClose? && Run(max, steps).Some? && At(Run(max, steps).value, last.thread).StoppingAdapter?
  }

  // What the state has recorded is what the steps say.

  lemma OneMoreStep(init: seq<Step>, last: Step)
    ensures var all := init + [last];
            && (EventSet(all) <==> last.action.SetEvent? || EventSet(init))
            && (StopAsked(all) <==> last.action.CallStop? || last.action.CallRequestStop? || StopAsked(init))
            && TicksAfterStop(all) == TicksAfterStop(init) + (if last.action.Tick? && EventSet(init) then 1 else 0)
            && EntriesAfterStop(all) == EntriesAfterStop(init) + (if last.action.EnterAdapter? && StopAsked(init) then 1 else 0)
            && Starts(all) == Starts(init) + (if last.action.Start? then 1 else 0)
  {
    assert (init + [last])[..|init|] == init;
  }

  lemma OneMoreClose(max: nat, init: seq<Step>, last: Step)
    ensures var all := init + [last];
            && Closes(max, all) == Closes(max, init) + (if BeginsClose(max, all) then 1 else 0)
            && ClosesSinceStart(max, all) ==
               (if last.action.Start? then 0 else ClosesSinceStart(max, init) + if BeginsClose(max, all) then 1 else 0)
  {
    assert (init + [last])[..|init|] == init;
  }

  /** A step's effect on the record. */
  lemma RecordAfter(h: Shared, max: nat, t: Tid, a: Action)
    ensures var h' := NextShared(h, max, t, a);
            && h'.signalled == (a.SetEvent? || h.signalled)
            && h'.stopped == (a.CallStop? || a.CallRequestStop? || h.stopped)
            && h'.ticksAfterStop == h.ticksAfterStop + (if a.Tick? && h.signalled then 1 else 0)
            && h'.entriesAfterStop == h.entriesAfterStop + (if a.EnterAdapter? && h.stopped then 1 else 0)
            && h'.starts == h.starts + (if a.Start? then 1 else 0)
            && h'.closes == h.closes + (if a.TakeClose? && !h.closed then 1 else 0)
            && h'.closesSinceStart == (if a.Start? then 0 else h.closesSinceStart + if a.TakeClose? && !h.closed then 1 else 0)
  {
  }

  ghost predicate Recorded(h: Shared, max: nat, steps: seq<Step>) {
    && h.signalled == EventSet(steps) && h.stopped == StopAsked(steps)
    && h.ticksAfterStop == TicksAfterStop(steps) && h.entriesAfterStop == EntriesAfterStop(steps)
    && h.starts == Starts(steps) && h.closes == Closes(max, steps) && h.closesSinceStart == ClosesSinceStart(max, steps)
  }

  lemma RecordedStep(h: Shared, max: nat, init: seq<Step>, last: Step)
    requires Recorded(h, max, init)
    requires BeginsClose(max, init + [last]) <==> last.action.TakeClose? && !h.closed
    ensures Recorded(NextShared(h, max, last.thread, last.action), max, init + [last])
  {
    OneMoreStep(init, last);
    OneMoreClose(max, init, last);
    RecordAfter(h, max, last.thread, last.action);
  }

  lemma {:induction false} RunIsRecorded(max: nat, steps: seq<Step>)
    requires Run(max, steps).Some?
    ensures Recorded(Run(max, steps).value.shared, max, steps)
  {
    if steps != [] {
      var init, last := steps[..|steps| - 1], steps[|steps| - 1];
      RunIsRecorded(max, init);
      CloseIsTaken(max, steps);
      assert init + [last] == steps;
      RecordedStep(Run(max, init).value.shared, max, init, last);
    }
  }

  /** A close is begun exactly by the step that takes it. */
  lemma CloseIsTaken(max: nat, steps: seq<Step>)
    requires steps != [] && Run(max, steps).Some?
    ensures var h := Run(max, steps[..|steps| - 1]).value.shared;
            BeginsClose(max, steps) <==> steps[|steps| - 1].action.TakeClose? && !h.closed
  {
    var last, s := steps[|steps| - 1], Run(max, steps[..|steps| - 1]).value;
    assert At(Run(max, steps).value, last.thread) == NextPc(s.shared, max, last.thread, At(s, last.thread), last.action);
    if last.action.TakeClose? && s.shared.closed {
      assert !AfterClose(At(s, last.thread).site).StoppingAdapter?;
    }
  }

  /** Once the stop event is set, at most one more tick reaches the handler. */
  lemma AtMostOneTickAfterStop(max: nat, steps: seq<Step>)
    requires max >= 1 && Run(max, steps).Some?
    ensures TicksAfterStop(steps) <= 1
  {
    RunKeepsInv(max, steps);
    RunIsRecorded(max, steps);
  }

  /** Once a stop is asked for the adapter is entered at most once more, by a start past its test. */
  lemma AtMostOneEntryAfterStop(max: nat, steps: seq<Step>)
    requires max >= 1 && Run(max, steps).Some?
    ensures EntriesAfterStop(steps) <= 1
  {
    RunKeepsInv(max, steps);
    RunIsRecorded(max, steps);
  }

  /**
   When start() gives up ownership the adapter has been closed exactly once since that start() and
   delivers nothing; over a run, closes never exceed starts plus one.
   */
  lemma StartLeavesTheAdapterClosed(max: nat, steps: seq<Step>, t: Tid)
    requires max >= 1 && Run(max, steps).Some?
    ensures var s := Run(max, steps).value;
            && (At(s, t).Releasing? ==> ClosesSinceStart(max, steps) == 1 && !s.shared.delivering)
            && ClosesSinceStart(max, steps) <= 1
            && Closes(max, steps) <= Starts(steps) + 1
  {
    RunKeepsInv(max, steps);
    RunIsRecorded(max, steps);
    var s := Run(max, steps).value;
    assert ThreadOk(s.shared, t, At(s, t));
  }

  lemma RunSnoc(max: nat, steps: seq<Step>, last: Step)
    requires Run(max, steps).Some?
    requires Enabled(Run(max, steps).value.shared, At(Run(max, steps).value, last.thread), last.action)
    ensures Run(max, steps + [last]) == Some(Perform(Run(max, steps).value, max, last.thread, last.action))
  {
    assert (steps + [last])[..|steps + [last]| - 1] == steps;
  }

  // ------------------------------------------------------------------ why the loop ends

  /** What thread `t` did last. */
  function LastOf(steps: seq<Step>, t: Tid): Option<Action> {
    if steps == [] then None
    else if steps[|steps| - 1].thread == t then Some(steps[|steps| - 1].action)
    else LastOf(steps[..|steps| - 1], t)
  }

  /** The handling of an exception that left `adapter.start()`, with no stop asked for by then. */
  predicate FailsAttempt(before: seq<Step>, last: Step) {
    last.action.HandleFailure? && !StopAsked(before) && JustRaised(before, last.thread)
  }

  /** The failed attempts since the last tick, or since `start()`. */
  function FailedAttempts(steps: seq<Step>): nat {
    if steps == [] then 0
    else
      var init, last := steps[..|steps| - 1], steps[|steps| - 1];
      if last.action.Start? || last.action.Tick? then 0
      else FailedAttempts(init) + if FailsAttempt(init, last) then 1 else 0
  }

  /** Since thread `t` last called `start()`: the adapter returned, or the loop raised, saw a stop, or spent its budget. */
  predicate Ended(max: nat, steps: seq<Step>, t: Tid) {
    steps != [] &&
    var init, last := steps[..|steps| - 1], steps[|steps| - 1];
    if last.thread != t then Ended(max, init, t)
    else
      match last.action
      case Start => false
      case AdapterReturns => true
      case LoopRaises => true
      case TestStopped => StopAsked(init)
      case HandleFailure => StopAsked(init) || FailedAttempts(steps) == max
      case _ => Ended(max, init, t)
  }

  /** No tick has come yet, or none since the last failed attempt. */
  predicate Degraded(steps: seq<Step>) {
    steps == [] ||
    var init, last := steps[..|steps| - 1], steps[|steps| - 1];
    !last.action.Tick? && (FailsAttempt(init, last) || Degraded(init))
  }

  predicate JustRaised(steps: seq<Step>, t: Tid) {
    LastOf(steps, t) == Some(TickRaises) || LastOf(steps, t) == Some(AdapterRaises)
  }

  /** The shared counter and flags, and the position of a thread that is handling a failure, by the steps alone. */
  ghost predicate Counted(s: Feed, steps: seq<Step>) {
    && s.shared.stopped == StopAsked(steps) && s.shared.failures == FailedAttempts(steps)
    && s.shared.degraded == Degraded(steps)
    && forall t: Tid :: At(s, t).Raised? <==> JustRaised(steps, t)
  }

  lemma RaisedStep(s: Feed, max: nat, init: seq<Step>, last: Step, t: Tid)
    requires Enabled(s.shared, At(s, last.thread), last.action) && Counted(s, init)
    ensures At(Perform(s, max, last.thread, last.action), t).Raised? <==> JustRaised(init + [last], t)
  {
    assert (init + [last])[..|init|] == init;
    if t != last.thread {
      assert At(Perform(s, max, last.thread, last.action), t) == At(s, t);
    }
  }

  lemma CountsStep(s: Feed, max: nat, init: seq<Step>, last: Step)
    requires max >= 1 && Enabled(s.shared, At(s, last.thread), last.action) && Counted(s, init) && CountsOk(s.shared, max)
    ensures var h := NextShared(s.shared, max, last.thread, last.action);
            && h.stopped == StopAsked(init + [last]) && h.failures == FailedAttempts(init + [last])
            && h.degraded == Degraded(init + [last])
  {
    assert (init + [last])[..|init|] == init;
  }

  lemma {:induction false} RunCounts(max: nat, steps: seq<Step>)
    requires max >= 1 && Run(max, steps).Some?
    ensures Counted(Run(max, steps).value, steps)
  {
    if steps != [] {
      var init, last := steps[..|steps| - 1], steps[|steps| - 1];
      assert init + [last] == steps;
      RunCounts(max, init);
      RunKeepsInv(max, init);
      var s := Run(max, init).value;
      CountsStep(s, max, init, last);
      forall t: Tid ensures At(Run(max, steps).value, t).Raised? <==> JustRaised(steps, t) {
        RaisedStep(s, max, init, last, t);
      }
    }
  }

  /**
   The attempt budget bounds one unrecovered outage: what is counted is exactly the exceptions out of
   adapter.start() since the last tick, a clean return never; the loop gives up exactly when `max` of
   them have come, and never goes on with that many.
   */
  lemma BudgetBoundsOneOutage(max: nat, steps: seq<Step>, t: Tid)
    requires max >= 1 && Run(max, steps).Some?
    ensures var s := Run(max, steps).value;
            && s.shared.failures == FailedAttempts(steps) <= max && s.shared.degraded == Degraded(steps)
            && (s.shared.exhausted <==> FailedAttempts(steps) == max)
            && (Owns(At(s, t)) && !Leaving(At(s, t)) ==> FailedAttempts(steps) < max)
  {
    RunKeepsInv(max, steps);
    RunCounts(max, steps);
    var s := Run(max, steps).value;
    assert ThreadOk(s.shared, t, At(s, t));
  }

  /** An exception out of the adapter, and only that, has its thread handle a failure next. */
  lemma RaisedExactly(max: nat, steps: seq<Step>, t: Tid)
    requires max >= 1 && Run(max, steps).Some?
    ensures Enabled(Run(max, steps).value.shared, At(Run(max, steps).value, t), HandleFailure) <==> JustRaised(steps, t)
  {
    RunCounts(max, steps);
  }

  lemma EndedStep(s: Feed, max: nat, init: seq<Step>, last: Step, t: Tid)
    requires max >= 1 && Inv(s, max) && Counted(s, init) && Enabled(s.shared, At(s, last.thread), last.action)
    requires Owns(At(s, t)) ==> (Leaving(At(s, t)) <==> Ended(max, init, t))
    ensures var s' := Perform(s, max, last.thread, last.action);
            Counted(s', init + [last]) && Owns(At(s', t)) ==> (Leaving(At(s', t)) <==> Ended(max, init + [last], t))
  {
    assert (init + [last])[..|init|] == init;
    assert ThreadOk(s.shared, last.thread, At(s, last.thread));
  }

  /** Inside `start()`, a thread has left the loop exactly when one of the four reasons has come since it entered. */
  lemma {:induction false} LoopEndsExactly(max: nat, steps: seq<Step>, t: Tid)
    requires max >= 1 && Run(max, steps).Some?
    ensures var pc := At(Run(max, steps).value, t); Owns(pc) ==> (Leaving(pc) <==> Ended(max, steps, t))
  {
    if steps != [] {
      var init, last := steps[..|steps| - 1], steps[|steps| - 1];
      assert init + [last] == steps;
      LoopEndsExactly(max, init, t);
      RunKeepsInv(max, init);
      RunCounts(max, init);
      RunCounts(max, steps);
      EndedStep(Run(max, init).value, max, init, last, t);
    }
  }

  lemma {:induction false} WhereAFailureLeads(max: nat, steps: seq<Step>, t: Tid)
    requires Run(max, steps).Some?
    ensures var pc := At(Run(max, steps).value, t);
            && (pc.Reconnecting? <==> LastOf(steps, t) == Some(BeginReconnect))
            && (pc.BackingOff? ==> LastOf(steps, t) == Some(HandleFailure))
            && (LastOf(steps, t) == Some(HandleFailure) ==> pc.BackingOff? || pc.Unwinding?)
  {
    if steps != [] {
      WhereAFailureLeads(max, steps[..|steps| - 1], t);
      PlaceAfter(max, steps, t);
    }
  }

  /** A thread's place after a step: its own step's, or where it was. */
  lemma PlaceAfter(max: nat, steps: seq<Step>, t: Tid)
    requires steps != [] && Run(max, steps).Some?
    ensures var init, last, s := steps[..|steps| - 1], steps[|steps| - 1], Run(max, steps[..|steps| - 1]).value;
            && Enabled(s.shared, At(s, last.thread), last.action)
            && At(Run(max, steps).value, t) ==
               if t == last.thread then NextPc(s.shared, max, t, At(s, t), last.action) else At(s, t)
  {
  }

  /**
   After a failure that does not end the loop a thread backs off and then stops the adapter to reconnect; an
   exception may leave either, and nothing else.
   */
  lemma ReconnectsExactly(max: nat, steps: seq<Step>, t: Tid)
    requires max >= 1 && Run(max, steps).Some?
    ensures var s := Run(max, steps).value;
            var backingOff := LastOf(steps, t) == Some(HandleFailure) && !Ended(max, steps, t);
            && (Enabled(s.shared, At(s, t), BeginReconnect) <==> backingOff)
            && (Enabled(s.shared, At(s, t), EndReconnect) <==> LastOf(steps, t) == Some(BeginReconnect))
            && (Enabled(s.shared, At(s, t), LoopRaises) <==> backingOff || LastOf(steps, t) == Some(BeginReconnect))
            && (Enabled(s.shared, At(s, t), AdapterRaises) <==> Enabled(s.shared, At(s, t), AdapterReturns))
  {
    WhereAFailureLeads(max, steps, t);
    LoopEndsExactly(max, steps, t);
  }

  /** So a thread whose adapter returned does not enter it again before its next `start()`. */
  lemma {:induction false} CleanReturnEnds(max: nat, steps: seq<Step>, t: Tid, j: nat, k: nat)
    requires max >= 1 && Run(max, steps).Some? && j < k < |steps|
    requires steps[j] == Step(t, AdapterReturns) && steps[k] == Step(t, EnterAdapter)
    ensures exists i :: j < i < k && steps[i] == Step(t, Start)
  {
    var n := |steps| - 1;
    if k < n {
      CleanReturnEnds(max, steps[..n], t, j, k);
      var i :| j < i < k && steps[..n][i] == Step(t, Start);
      assert steps[i] == Step(t, Start);
    } else if forall i | j < i < k :: steps[i] != Step(t, Start) {
      StaysEnded(max, steps[..n], t, j);
    }
  }

  /** What a return leaves true until the next `start()`. */
  lemma {:induction false} StaysEnded(max: nat, steps: seq<Step>, t: Tid, j: nat)
    requires max >= 1 && Run(max, steps).Some? && j < |steps| && steps[j] == Step(t, AdapterReturns)
    requires forall i | j < i < |steps| :: steps[i] != Step(t, Start)
    ensures Ended(max, steps, t) && !(Owns(At(Run(max, steps).value, t)) && !Leaving(At(Run(max, steps).value, t)))
  {
    LoopEndsExactly(max, steps, t);
    var n := |steps| - 1;
    if j < n {
      assert forall i | j < i < n :: steps[..n][i] == steps[i];
      StaysEnded(max, steps[..n], t, j);
      LoopEndsExactly(max, steps[..n], t);
    }
  }

  // ------------------------------------------------------------------ who is inside adapter.stop()

  /** The thread is inside `adapter.stop()`, closing or reconnecting. */
  predicate InStop(pc: Pc) {
    pc.StoppingAdapter? || pc.Reconnecting?
  }

  ghost predicate NobodyInStop(s: Feed) {
    forall u: Tid :: !InStop(At(s, u))
  }

  ghost predicate Exclusive(s: Feed) {
    forall t: Tid, u: Tid | InStop(At(s, t)) && InStop(At(s, u)) :: t == u
  }

  /** From the `n`th step on, every `start()` was taken while no thread was inside `adapter.stop()`. */
  ghost predicate QuietStarts(max: nat, steps: seq<Step>, n: nat) {
    |steps| > n ==>
      var init, last := steps[..|steps| - 1], steps[|steps| - 1];
      && QuietStarts(max, init, n)
      && (last.action.Start? && Run(max, init).Some? ==> NobodyInStop(Run(max, init).value))
  }

  /** At most one thread inside `adapter.stop()`, and then it is the loop's own, or the close was taken. */
  ghost predicate OneStops(s: Feed) {
    Exclusive(s) && forall u: Tid | At(s, u).StoppingAdapter? :: s.shared.closed
  }

  lemma StepKeepsOneStops(s: Feed, max: nat, t: Tid, a: Action)
    requires max >= 1 && Inv(s, max) && Enabled(s.shared, At(s, t), a) && OneStops(s)
    requires a.Start? ==> NobodyInStop(s)
    ensures OneStops(Perform(s, max, t, a))
  {
    var s' := Perform(s, max, t, a);
    assert forall u: Tid :: u != t ==> At(s', u) == At(s, u);
    assert ThreadOk(s.shared, t, At(s, t));
    forall u: Tid | u != t && InStop(At(s', u)) ensures !InStop(At(s', t)) {
      assert ThreadOk(s.shared, u, At(s, u));
    }
  }

  /** While starts are quiet, no two threads are ever inside `adapter.stop()`. */
  lemma {:induction false} QuietStartsStopAlone(max: nat, steps: seq<Step>, n: nat)
    requires max >= 1 && n <= |steps| && Run(max, steps).Some? && QuietStarts(max, steps, n)
    requires Run(max, steps[..n]).Some? && OneStops(Run(max, steps[..n]).value)
    ensures OneStops(Run(max, steps).value)
  {
    if n == |steps| {
      assert steps[..n] == steps;
    } else {
      var init, last := steps[..|steps| - 1], steps[|steps| - 1];
      assert init[..n] == steps[..n];
      QuietStartsStopAlone(max, init, n);
      RunKeepsInv(max, init);
      StepKeepsOneStops(Run(max, init).value, max, last.thread, last.action);
    }
  }

  /** So in every run whose starts each find nobody inside `adapter.stop()`, at most one thread is inside it at a time. */
  lemma QuietRunStopsAlone(max: nat, steps: seq<Step>)
    requires max >= 1 && Run(max, steps).Some? && QuietStarts(max, steps, 0)
    ensures OneStops(Run(max, steps).value)
  {
    assert forall t: Tid :: At(INITIAL, t) == Idle;
    QuietStartsStopAlone(max, steps, 0);
  }

  /** A start taken while another thread is closing can close the adapter at the same time. */
  lemma LoudStartClosesConcurrently(max: nat, steps: seq<Step>, t: Tid, u: Tid) returns (more: seq<Step>)
    requires max >= 1 && Run(max, steps).Some? && Enabled(Run(max, steps).value.shared, At(Run(max, steps).value, t), Start)
    requires InStop(At(Run(max, steps).value, u))
    ensures t != u && QuietStarts(max, steps + [Step(t, Start)] + more, |steps| + 1)
    ensures var s := Run(max, steps + [Step(t, Start)] + more);
            s.Some? && At(s.value, t).StoppingAdapter? && At(s.value, u).StoppingAdapter?
  {
    RunKeepsInv(max, steps);
    var s := Run(max, steps).value;
    assert ThreadOk(s.shared, t, At(s, t)) && ThreadOk(s.shared, u, At(s, u));
    var r1 := steps + [Step(t, Start)];
    RunSnoc(max, steps, Step(t, Start));
    more := [Step(t, TestStopped), Step(t, BeginFinally), Step(t, TakeClose)];
    StoppedStartCloses(max, r1, t, u);
    var r2 := r1 + [more[0]];
    var r3 := r2 + [more[1]];
    QuietSnoc(max, r1, more[0], |steps| + 1);
    QuietSnoc(max, r2, more[1], |steps| + 1);
    QuietSnoc(max, r3, more[2], |steps| + 1);
    assert r3 + [more[2]] == r1 + more;
  }

  lemma QuietSnoc(max: nat, steps: seq<Step>, last: Step, n: nat)
    requires QuietStarts(max, steps, n) && !last.action.Start?
    ensures QuietStarts(max, steps + [last], n)
  {
    assert (steps + [last])[..|steps|] == steps;
  }

  /** A start that finds the feed stopped goes straight on to close the adapter. */
  lemma StoppedStartCloses(max: nat, steps: seq<Step>, t: Tid, u: Tid)
    requires t != u && Run(max, steps).Some? && At(Run(max, steps).value, t) == LoopHead
    requires Run(max, steps).value.shared.stopped && !Run(max, steps).value.shared.closed
    ensures var s := Run(max, steps + [Step(t, TestStopped), Step(t, BeginFinally), Step(t, TakeClose)]);
            s.Some? && At(s.value, t) == StoppingAdapter(ByFinally) && At(s.value, u) == At(Run(max, steps).value, u)
  {
    var r1 := steps + [Step(t, TestStopped)];
    var r2 := r1 + [Step(t, BeginFinally)];
    RunSnoc(max, steps, Step(t, TestStopped));
    RunSnoc(max, r1, Step(t, BeginFinally));
    RunSnoc(max, r2, Step(t, TakeClose));
    assert r2 + [Step(t, TakeClose)] == steps + [Step(t, TestStopped), Step(t, BeginFinally), Step(t, TakeClose)];
  }

  /**
   Decided at each start: after a run whose starts each found nobody inside `adapter.stop()`, the
   threads go on stopping the adapter one at a time, whatever follows that takes no later start into
   a stop, if and only if no thread is inside `adapter.stop()` when this start is taken.
   */
  lemma StartIsExclusiveExactly(max: nat, steps: seq<Step>, t: Tid)
    requires max >= 1 && Run(max, steps).Some? && QuietStarts(max, steps, 0)
    requires Enabled(Run(max, steps).value.shared, At(Run(max, steps).value, t), Start)
    ensures (forall more: seq<Step> | Run(max, steps + [Step(t, Start)] + more).Some?
                                      && QuietStarts(max, steps + [Step(t, Start)] + more, |steps| + 1) ::
               Exclusive(Run(max, steps + [Step(t, Start)] + more).value)) <==>
            NobodyInStop(Run(max, steps).value)
  {
    var s, started := Run(max, steps).value, steps + [Step(t, Start)];
    if NobodyInStop(s) {
      QuietRunStopsAlone(max, steps);
      RunKeepsInv(max, steps);
      RunSnoc(max, steps, Step(t, Start));
      StepKeepsOneStops(s, max, t, Start);
      forall more: seq<Step> | Run(max, started + more).Some? && QuietStarts(max, started + more, |steps| + 1)
        ensures Exclusive(Run(max, started + more).value)
      {
        assert (started + more)[..|steps| + 1] == started;
        QuietStartsStopAlone(max, started + more, |steps| + 1);
      }
    } else {
      var u: Tid :| InStop(At(s, u));
      var more := LoudStartClosesConcurrently(max, steps, t, u);
      assert !Exclusive(Run(max, started + more).value);
    }
  }

  /** Such a start exists: a stop that found no loop is still inside `adapter.stop()` when one comes. */
  lemma LateStartClosesConcurrently() returns (steps: seq<Step>)
    ensures var s := Run(1, steps);
            s.Some? && At(s.value, 0).StoppingAdapter? && At(s.value, 1).StoppingAdapter?
  {
    var stop := LateStop();
    var more := LoudStartClosesConcurrently(1, stop, 1, 0);
    steps := stop + [Step(1, Start)] + more;
  }

  /** A stop that finds no loop running and is inside adapter.stop(). */
  lemma LateStop() returns (steps: seq<Step>)
    ensures var s := Run(1, steps);
            s.Some? && At(s.value, 0) == StoppingAdapter(ByStop(Bystander)) && At(s.value, 1) == Idle && s.value.shared.owner.None?
  {
    steps := [] + [Step(0, CallStop)];
    RunSnoc(1, [], Step(0, CallStop));
    var h := INITIAL.shared.(stopped := true);
    assert Run(1, steps) == Some(Feed(h, map[0 := Flagged(Bystander)]));
    RunSnoc(1, steps, Step(0, SetEvent));
    steps := steps + [Step(0, SetEvent)];
    h := h.(signalled := true);
    assert map[0 := Flagged(Bystander)][0 := Signalled(Bystander)] == map[0 := Signalled(Bystander)];
    assert Run(1, steps) == Some(Feed(h, map[0 := Signalled(Bystander)]));
    RunSnoc(1, steps, Step(0, ReadOwner));
    steps := steps + [Step(0, ReadOwner)];
    assert map[0 := Signalled(Bystander)][0 := Closing(ByStop(Bystander))] == map[0 := Closing(ByStop(Bystander))];
    assert Run(1, steps) == Some(Feed(h, map[0 := Closing(ByStop(Bystander))]));
    RunSnoc(1, steps, Step(0, TakeClose));
    steps := steps + [Step(0, TakeClose)];
  }

  // ------------------------------------------------------------------ whose stop closes

  /** Which of the two stops thread `t` called last. */
  function LastCall(steps: seq<Step>, t: Tid): Option<Action> {
    if steps == [] then None
    else
      var last := steps[|steps| - 1];
      if last.thread == t && (last.action.CallStop? || last.action.CallRequestStop?) then Some(last.action)
      else LastCall(steps[..|steps| - 1], t)
  }

  /** Past `stop()`'s flag, on the way to a close of its own. */
  predicate InStopCall(pc: Pc) {
    pc.Flagged? || pc.Signalled? || ((pc.Closing? || pc.StoppingAdapter?) && pc.site.ByStop?)
  }

  /** `request_stop()` never touches the connection: a thread closing it outside the loop's own ends called `stop()`. */
  lemma {:induction false} RequestStopNeverCloses(max: nat, steps: seq<Step>, t: Tid)
    requires Run(max, steps).Some?
    ensures InStopCall(At(Run(max, steps).value, t)) ==> LastCall(steps, t) == Some(CallStop)
  {
    if steps != [] {
      var init, last := steps[..|steps| - 1], steps[|steps| - 1];
      RequestStopNeverCloses(max, init, t);
      if t != last.thread {
        assert At(Run(max, steps).value, t) == At(Run(max, init).value, t);
      }
    }
  }

  // ------------------------------------------------------------------ runs from end to end

  /** What one thread's steps make of the shared fields and its position, with nobody in between. */
  function Alone(h: Shared, pc: Pc, max: nat, t: Tid, actions: seq<Action>): Option<(Shared, Pc)>
    decreases |actions|
  {
    if actions == [] then Some((h, pc))
    else if !Enabled(h, pc, actions[0]) then None
    else Alone(NextShared(h, max, t, actions[0]), NextPc(h, max, t, pc, actions[0]), max, t, actions[1..])
  }

  function StepsOf(t: Tid, actions: seq<Action>): seq<Step> {
    seq(|actions|, k requires 0 <= k < |actions| => Step(t, actions[k]))
  }

  lemma {:induction false} AloneRuns(max: nat, steps: seq<Step>, t: Tid, actions: seq<Action>)
    requires Run(max, steps).Some?
    requires Alone(Run(max, steps).value.shared, At(Run(max, steps).value, t), max, t, actions).Some?
    ensures var s, r := Run(max, steps).value, Run(max, steps + StepsOf(t, actions));
            r.Some? && (r.value.shared, At(r.value, t)) == Alone(s.shared, At(s, t), max, t, actions).value
    decreases |actions|
  {
    if actions == [] {
      assert steps + StepsOf(t, actions) == steps;
    } else {
      RunSnoc(max, steps, Step(t, actions[0]));
      assert steps + StepsOf(t, actions) == (steps + [Step(t, actions[0])]) + StepsOf(t, actions[1..]);
      AloneRuns(max, steps + [Step(t, actions[0])], t, actions[1..]);
    }
  }

  lemma OneAction(h: Shared, pc: Pc, max: nat, t: Tid, a: Action, rest: seq<Action>)
    requires Enabled(h, pc, a)
    ensures Alone(h, pc, max, t, [a] + rest) == Alone(NextShared(h, max, t, a), NextPc(h, max, t, pc, a), max, t, rest)
  {
    assert ([a] + rest)[0] == a && ([a] + rest)[1..] == rest;
  }

  /** A start, a tick and the next one, whose handler raises: one failed attempt. */
  lemma AttemptRuns(t: Tid) returns (h: Shared)
    ensures Alone(INITIAL.shared, Idle, 2, t, [Start, TestStopped, EnterAdapter, Tick, TickReturns, TestEvent, Tick, TickRaises]) == Some((h, Raised))
    ensures h == INITIAL.shared.(owner := Some(t), degraded := false, delivering := true, starts := 1)
  {
    h := INITIAL.shared;
    var pc := Idle;
    OneAction(h, pc, 2, t, Start, [TestStopped, EnterAdapter, Tick, TickReturns, TestEvent, Tick, TickRaises]);
    assert [Start] + [TestStopped, EnterAdapter, Tick, TickReturns, TestEvent, Tick, TickRaises] == [Start, TestStopped, EnterAdapter, Tick, TickReturns, TestEvent, Tick, TickRaises];
    h, pc := NextShared(h, 2, t, Start), NextPc(h, 2, t, pc, Start);
    OneAction(h, pc, 2, t, TestStopped, [EnterAdapter, Tick, TickReturns, TestEvent, Tick, TickRaises]);
    assert [TestStopped] + [EnterAdapter, Tick, TickReturns, TestEvent, Tick, TickRaises] == [TestStopped, EnterAdapter, Tick, TickReturns, TestEvent, Tick, TickRaises];
    h, pc := NextShared(h, 2, t, TestStopped), NextPc(h, 2, t, pc, TestStopped);
    OneAction(h, pc, 2, t, EnterAdapter, [Tick, TickReturns, TestEvent, Tick, TickRaises]);
    assert [EnterAdapter] + [Tick, TickReturns, TestEvent, Tick, TickRaises] == [EnterAdapter, Tick, TickReturns, TestEvent, Tick, TickRaises];
    h, pc := NextShared(h, 2, t, EnterAdapter), NextPc(h, 2, t, pc, EnterAdapter);
    OneAction(h, pc, 2, t, Tick, [TickReturns, TestEvent, Tick, TickRaises]);
    assert [Tick] + [TickReturns, TestEvent, Tick, TickRaises] == [Tick, TickReturns, TestEvent, Tick, TickRaises];
    h, pc := NextShared(h, 2, t, Tick), NextPc(h, 2, t, pc, Tick);
    OneAction(h, pc, 2, t, TickReturns, [TestEvent, Tick, TickRaises]);
    assert [TickReturns] + [TestEvent, Tick, TickRaises] == [TickReturns, TestEvent, Tick, TickRaises];
    h, pc := NextShared(h, 2, t, TickReturns), NextPc(h, 2, t, pc, TickReturns);
    OneAction(h, pc, 2, t, TestEvent, [Tick, TickRaises]);
    assert [TestEvent] + [Tick, TickRaises] == [TestEvent, Tick, TickRaises];
    h, pc := NextShared(h, 2, t, TestEvent), NextPc(h, 2, t, pc, TestEvent);
    OneAction(h, pc, 2, t, Tick, [TickRaises]);
    assert [Tick] + [TickRaises] == [Tick, TickRaises];
    h, pc := NextShared(h, 2, t, Tick), NextPc(h, 2, t, pc, Tick);
    OneAction(h, pc, 2, t, TickRaises, []);
    assert [TickRaises] + [] == [TickRaises];
    h, pc := NextShared(h, 2, t, TickRaises), NextPc(h, 2, t, pc, TickRaises);
  }

  /** After a failure within the budget the adapter is stopped and entered again. */
  lemma ReconnectRuns(t: Tid, before: Shared) returns (h: Shared)
    requires !before.stopped && before.failures == 0 && !before.signalled
    ensures Alone(before, Raised, 2, t, [HandleFailure, BeginReconnect, EndReconnect, TestStopped, EnterAdapter]) == Some((h, Pumping))
    ensures h == before.(failures := before.failures + 1, degraded := true, exhausted := false, delivering := true)
  {
    h := before;
    var pc := Raised;
    OneAction(h, pc, 2, t, HandleFailure, [BeginReconnect, EndReconnect, TestStopped, EnterAdapter]);
    assert [HandleFailure] + [BeginReconnect, EndReconnect, TestStopped, EnterAdapter] == [HandleFailure, BeginReconnect, EndReconnect, TestStopped, EnterAdapter];
    h, pc := NextShared(h, 2, t, HandleFailure), NextPc(h, 2, t, pc, HandleFailure);
    OneAction(h, pc, 2, t, BeginReconnect, [EndReconnect, TestStopped, EnterAdapter]);
    assert [BeginReconnect] + [EndReconnect, TestStopped, EnterAdapter] == [BeginReconnect, EndReconnect, TestStopped, EnterAdapter];
    h, pc := NextShared(h, 2, t, BeginReconnect), NextPc(h, 2, t, pc, BeginReconnect);
    OneAction(h, pc, 2, t, EndReconnect, [TestStopped, EnterAdapter]);
    assert [EndReconnect] + [TestStopped, EnterAdapter] == [EndReconnect, TestStopped, EnterAdapter];
    h, pc := NextShared(h, 2, t, EndReconnect), NextPc(h, 2, t, pc, EndReconnect);
    OneAction(h, pc, 2, t, TestStopped, [EnterAdapter]);
    assert [TestStopped] + [EnterAdapter] == [TestStopped, EnterAdapter];
    h, pc := NextShared(h, 2, t, TestStopped), NextPc(h, 2, t, pc, TestStopped);
    OneAction(h, pc, 2, t, EnterAdapter, []);
    assert [EnterAdapter] + [] == [EnterAdapter];
    h, pc := NextShared(h, 2, t, EnterAdapter), NextPc(h, 2, t, pc, EnterAdapter);
  }

  /** A clean return closes the adapter and gives up ownership. */
  lemma ReturnRuns(t: Tid, before: Shared) returns (h: Shared)
    requires !before.closed
    ensures Alone(before, Pumping, 2, t, [AdapterReturns, BeginFinally, TakeClose, AdapterStopped, Release]) == Some((h, Idle))
    ensures h == before.(owner := None, closed := true, delivering := false, closes := before.closes + 1, closesSinceStart := before.closesSinceStart + 1)
  {
    h := before;
    var pc := Pumping;
    OneAction(h, pc, 2, t, AdapterReturns, [BeginFinally, TakeClose, AdapterStopped, Release]);
    assert [AdapterReturns] + [BeginFinally, TakeClose, AdapterStopped, Release] == [AdapterReturns, BeginFinally, TakeClose, AdapterStopped, Release];
    h, pc := NextShared(h, 2, t, AdapterReturns), NextPc(h, 2, t, pc, AdapterReturns);
    OneAction(h, pc, 2, t, BeginFinally, [TakeClose, AdapterStopped, Release]);
    assert [BeginFinally] + [TakeClose, AdapterStopped, Release] == [BeginFinally, TakeClose, AdapterStopped, Release];
    h, pc := NextShared(h, 2, t, BeginFinally), NextPc(h, 2, t, pc, BeginFinally);
    OneAction(h, pc, 2, t, TakeClose, [AdapterStopped, Release]);
    assert [TakeClose] + [AdapterStopped, Release] == [TakeClose, AdapterStopped, Release];
    h, pc := NextShared(h, 2, t, TakeClose), NextPc(h, 2, t, pc, TakeClose);
    OneAction(h, pc, 2, t, AdapterStopped, [Release]);
    assert [AdapterStopped] + [Release] == [AdapterStopped, Release];
    h, pc := NextShared(h, 2, t, AdapterStopped), NextPc(h, 2, t, pc, AdapterStopped);
    OneAction(h, pc, 2, t, Release, []);
    assert [Release] + [] == [Release];
    h, pc := NextShared(h, 2, t, Release), NextPc(h, 2, t, pc, Release);
  }

  /** A stop from the handler closes at once. */
  lemma HandlerStopRuns(t: Tid, before: Shared) returns (h: Shared)
    requires !before.closed && before.owner == Some(t)
    ensures Alone(before, InTick, 2, t, [CallStop, SetEvent, ReadOwner, TakeClose, AdapterStopped]) == Some((h, InTick))
    ensures h == before.(stopped := true, signalled := true, closed := true, delivering := false, closes := before.closes + 1, closesSinceStart := before.closesSinceStart + 1)
  {
    h := before;
    var pc := InTick;
    OneAction(h, pc, 2, t, CallStop, [SetEvent, ReadOwner, TakeClose, AdapterStopped]);
    assert [CallStop] + [SetEvent, ReadOwner, TakeClose, AdapterStopped] == [CallStop, SetEvent, ReadOwner, TakeClose, AdapterStopped];
    h, pc := NextShared(h, 2, t, CallStop), NextPc(h, 2, t, pc, CallStop);
    OneAction(h, pc, 2, t, SetEvent, [ReadOwner, TakeClose, AdapterStopped]);
    assert [SetEvent] + [ReadOwner, TakeClose, AdapterStopped] == [SetEvent, ReadOwner, TakeClose, AdapterStopped];
    h, pc := NextShared(h, 2, t, SetEvent), NextPc(h, 2, t, pc, SetEvent);
    OneAction(h, pc, 2, t, ReadOwner, [TakeClose, AdapterStopped]);
    assert [ReadOwner] + [TakeClose, AdapterStopped] == [ReadOwner, TakeClose, AdapterStopped];
    h, pc := NextShared(h, 2, t, ReadOwner), NextPc(h, 2, t, pc, ReadOwner);
    OneAction(h, pc, 2, t, TakeClose, [AdapterStopped]);
    assert [TakeClose] + [AdapterStopped] == [TakeClose, AdapterStopped];
    h, pc := NextShared(h, 2, t, TakeClose), NextPc(h, 2, t, pc, TakeClose);
    OneAction(h, pc, 2, t, AdapterStopped, []);
    assert [AdapterStopped] + [] == [AdapterStopped];
    h, pc := NextShared(h, 2, t, AdapterStopped), NextPc(h, 2, t, pc, AdapterStopped);
  }

  /** After it the loop unwinds without closing again. */
  lemma StoppedLoopUnwinds(t: Tid, before: Shared) returns (h: Shared)
    requires before.closed && before.signalled
    ensures Alone(before, InTick, 2, t, [TickReturns, TestEvent, TakeClose, AdapterReturns, BeginFinally, TakeClose, Release]) == Some((h, Idle))
    ensures h == before.(owner := None)
  {
    h := before;
    var pc := InTick;
    OneAction(h, pc, 2, t, TickReturns, [TestEvent, TakeClose, AdapterReturns, BeginFinally, TakeClose, Release]);
    assert [TickReturns] + [TestEvent, TakeClose, AdapterReturns, BeginFinally, TakeClose, Release] == [TickReturns, TestEvent, TakeClose, AdapterReturns, BeginFinally, TakeClose, Release];
    h, pc := NextShared(h, 2, t, TickReturns), NextPc(h, 2, t, pc, TickReturns);
    OneAction(h, pc, 2, t, TestEvent, [TakeClose, AdapterReturns, BeginFinally, TakeClose, Release]);
    assert [TestEvent] + [TakeClose, AdapterReturns, BeginFinally, TakeClose, Release] == [TestEvent, TakeClose, AdapterReturns, BeginFinally, TakeClose, Release];
    h, pc := NextShared(h, 2, t, TestEvent), NextPc(h, 2, t, pc, TestEvent);
    OneAction(h, pc, 2, t, TakeClose, [AdapterReturns, BeginFinally, TakeClose, Release]);
    assert [TakeClose] + [AdapterReturns, BeginFinally, TakeClose, Release] == [TakeClose, AdapterReturns, BeginFinally, TakeClose, Release];
    h, pc := NextShared(h, 2, t, TakeClose), NextPc(h, 2, t, pc, TakeClose);
    OneAction(h, pc, 2, t, AdapterReturns, [BeginFinally, TakeClose, Release]);
    assert [AdapterReturns] + [BeginFinally, TakeClose, Release] == [AdapterReturns, BeginFinally, TakeClose, Release];
    h, pc := NextShared(h, 2, t, AdapterReturns), NextPc(h, 2, t, pc, AdapterReturns);
    OneAction(h, pc, 2, t, BeginFinally, [TakeClose, Release]);
    assert [BeginFinally] + [TakeClose, Release] == [BeginFinally, TakeClose, Release];
    h, pc := NextShared(h, 2, t, BeginFinally), NextPc(h, 2, t, pc, BeginFinally);
    OneAction(h, pc, 2, t, TakeClose, [Release]);
    assert [TakeClose] + [Release] == [TakeClose, Release];
    h, pc := NextShared(h, 2, t, TakeClose), NextPc(h, 2, t, pc, TakeClose);
    OneAction(h, pc, 2, t, Release, []);
    assert [Release] + [] == [Release];
    h, pc := NextShared(h, 2, t, Release), NextPc(h, 2, t, pc, Release);
  }

  /** A requested stop sets the flags and asks the adapter, no more. */
  lemma RequestStopRuns(t: Tid, before: Shared) returns (h: Shared)
    ensures Alone(before, Idle, 2, t, [CallRequestStop, SetEvent, AskAdapter]) == Some((h, Idle))
    ensures h == before.(stopped := true, signalled := true)
  {
    h := before;
    var pc := Idle;
    OneAction(h, pc, 2, t, CallRequestStop, [SetEvent, AskAdapter]);
    assert [CallRequestStop] + [SetEvent, AskAdapter] == [CallRequestStop, SetEvent, AskAdapter];
    h, pc := NextShared(h, 2, t, CallRequestStop), NextPc(h, 2, t, pc, CallRequestStop);
    OneAction(h, pc, 2, t, SetEvent, [AskAdapter]);
    assert [SetEvent] + [AskAdapter] == [SetEvent, AskAdapter];
    h, pc := NextShared(h, 2, t, SetEvent), NextPc(h, 2, t, pc, SetEvent);
    OneAction(h, pc, 2, t, AskAdapter, []);
    assert [AskAdapter] + [] == [AskAdapter];
    h, pc := NextShared(h, 2, t, AskAdapter), NextPc(h, 2, t, pc, AskAdapter);
  }

  /** A feed whose handler raises once: it reconnects, runs to the end of its tape, is closed once and given up. */
  lemma RecoveryRuns(t: Tid) returns (steps: seq<Step>)
    ensures var s := Run(2, steps);
            && s.Some? && At(s.value, t) == Idle && s.value.shared.owner.None? && s.value.shared.closes == 1
            && s.value.shared.failures == 1 && s.value.shared.degraded && !s.value.shared.exhausted
  {
    var h1 := AttemptRuns(t);
    AloneRuns(2, [], t, [Start, TestStopped, EnterAdapter, Tick, TickReturns, TestEvent, Tick, TickRaises]);
    steps := [] + StepsOf(t, [Start, TestStopped, EnterAdapter, Tick, TickReturns, TestEvent, Tick, TickRaises]);
    var h2 := ReconnectRuns(t, h1);
    AloneRuns(2, steps, t, [HandleFailure, BeginReconnect, EndReconnect, TestStopped, EnterAdapter]);
    steps := steps + StepsOf(t, [HandleFailure, BeginReconnect, EndReconnect, TestStopped, EnterAdapter]);
    var h3 := ReturnRuns(t, h2);
    AloneRuns(2, steps, t, [AdapterReturns, BeginFinally, TakeClose, AdapterStopped, Release]);
    steps := steps + StepsOf(t, [AdapterReturns, BeginFinally, TakeClose, AdapterStopped, Release]);
  }

  // ------------------------------------------------------------------ backoff

  datatype Policy = Policy(initial: real, cap: real, multiplier: real, jitter: real) {
    /** `ReconnectPolicy.__post_init__`. */
    predicate Valid() {
      initial > 0.0 && cap > 0.0 && multiplier >= 1.0 && 0.0 <= jitter <= 1.0
    }

    /** `initial * multiplier ** (attempt - 1)`. */
    function Raw(attempt: nat): (r: real)
      requires Valid() && attempt >= 1
      ensures r > 0.0
    {
      if attempt == 1 then initial else Grown(Raw(attempt - 1), multiplier)
    }

    function Capped(attempt: nat): (c: real)
      requires Valid() && attempt >= 1
      ensures 0.0 < c <= cap
    {
      Min(Raw(attempt), cap)
    }

    /**
     `delay_for`: `draw` is the random number, in [0, 1).  Jitter only shortens a delay, so the cap
     is never exceeded.
     */
    function DelayFor(attempt: nat, draw: real): (d: real)
      requires Valid() && attempt >= 1 && 0.0 <= draw < 1.0
      ensures 0.0 <= d <= cap
      ensures (1.0 - jitter) * Capped(attempt) <= d <= Capped(attempt)
    {
      Scaled(Capped(attempt), Kept(jitter, draw), 1.0 - jitter)
    }
  }

  function Scaled(x: real, k: real, least: real): (p: real)
    requires x > 0.0 && 0.0 <= least <= k <= 1.0
    ensures least * x <= p <= x && p >= 0.0
  {
    Times(least, k, x);
    Times(k, 1.0, x);
    x * k
  }

  function Grown(x: real, k: real): (p: real)
    requires x > 0.0 && k >= 1.0
    ensures p >= x
  {
    Times(1.0, k, x);
    x * k
  }

  /** The fraction of a delay that jitter leaves. */
  function Kept(jitter: real, draw: real): (k: real)
    requires 0.0 <= jitter <= 1.0 && 0.0 <= draw < 1.0
    ensures 1.0 - jitter <= k <= 1.0
  {
    Times(0.0, draw, jitter);
    Times(draw, 1.0, jitter);
    1.0 - jitter * draw
  }

  lemma Times(x: real, y: real, k: real)
    requires x <= y && k >= 0.0
    ensures x * k <= y * k
  {
    assert (y - x) * k >= 0.0;
  }

  lemma Regrouped(x: real, y: real, z: real)
    ensures x * y * z == x * (z * y)
  {
  }

  /** The delay before the cap and the jitter grows by the multiplier with every attempt. */
  lemma {:induction false} RawIsExponential(p: Policy, attempt: nat)
    requires p.Valid() && attempt >= 1
    ensures p.Raw(attempt) == p.initial * Power(p.multiplier, attempt - 1)
  {
    if attempt > 1 {
      RawIsExponential(p, attempt - 1);
      Regrouped(p.initial, Power(p.multiplier, attempt - 2), p.multiplier);
    }
  }

  /** The delay: the smaller of the exponential and the cap, less the drawn part of its jitter. */
  lemma DelayExactly(p: Policy, attempt: nat, draw: real)
    requires p.Valid() && attempt >= 1 && 0.0 <= draw < 1.0
    ensures var raw := p.initial * Power(p.multiplier, attempt - 1);
            p.DelayFor(attempt, draw) == (if raw <= p.cap then raw else p.cap) * (1.0 - p.jitter * draw)
  {
    RawIsExponential(p, attempt);
  }

  /** Before jitter, a later attempt never waits less than an earlier one. */
  lemma {:induction false} BackoffGrows(p: Policy, early: nat, late: nat)
    requires p.Valid() && 1 <= early <= late
    ensures p.Capped(early) <= p.Capped(late)
  {
    if early < late {
      BackoffGrows(p, early, late - 1);
      assert p.Raw(late - 1) <= p.Raw(late);
    }
  }
}
