/**
 The bounded drop-oldest queue between the hub and one worker, with the hub's drop notices.

 One producer publishes from the feed thread; the worker takes at any moment, also in the middle of
 a publish.  Such racing takes are part of an operation's input, and so is a pipe that lags: between
 processes an item may be counted as held before it can be got, and the producer's own get then
 finds nothing to drop.
 */
module DropQueue {
  import opened Prelude

  datatype Item = Tick(id: int) | Notice(dropped: nat)

  /** How many items the worker takes after a full put and after the drop, and whether the drop found nothing. */
  datatype Race = Race(beforeDrop: nat, beforePut: nat, lagging: bool)

  const CALM := Race(0, 0, false)

  const LAGGING := Race(0, 0, true)

  /** The queue and its counters, the hub's last notice, and what went in and out and was refused so far. */
  datatype State = State(
    items: seq<Item>, published: nat, dropped: nat, last: nat, taken: seq<Item>, sent: seq<Item>, refused: nat)

  const EMPTY := State([], 0, 0, 0, [], [], 0)

  const NOTICE_EVERY := 8

  /** `drop_notice_cadence`. */
  function Cadence(depth: nat): nat {
    var clamped := if depth / 2 < NOTICE_EVERY then depth / 2 else NOTICE_EVERY;
    if clamped < 1 then 1 else clamped
  }

  /** The most that keeps a notice within half the queue, up to eight, but one at least. */
  lemma CadenceExactly(depth: nat, n: nat)
    ensures n == Cadence(depth) <==>
            && 1 <= n <= 8 && (2 * n <= depth || n == 1)
            && forall more: nat | n < more <= 8 :: depth < 2 * more
  {
    if 1 <= n <= 8 && (2 * n <= depth || n == 1) && forall more: nat | n < more <= 8 :: depth < 2 * more {
      assert n < 8 ==> depth < 2 * (n + 1);
    }
  }

  // ------------------------------------------------------------------ operations

  function Taken(s: State, n: nat): State {
    var k := if n < |s.items| then n else |s.items|;
    s.(items := s.items[k..], taken := s.taken + s.items[..k])
  }

  function Put(s: State, item: Item): State {
    s.(items := s.items + [item], published := s.published + 1, sent := s.sent + [item])
  }

  function DropOldest(s: State, lagging: bool): State {
    if lagging || s.items == [] then s else s.(items := s.items[1..], dropped := s.dropped + 1)
  }

  /** The queue is full again, or still: the new item is the one dropped. */
  function Refuse(s: State): State {
    s.(dropped := s.dropped + 1, refused := s.refused + 1)
  }

  /** `publish`'s second put. */
  function PutAgain(s: State, depth: nat, item: Item): State {
    if |s.items| < depth then Put(s, item) else Refuse(s)
  }

  /** `publish`. */
  function Published(s: State, depth: nat, item: Item, race: Race): State {
    if |s.items| < depth then Put(s, item)
    else PutAgain(Taken(DropOldest(Taken(s, race.beforeDrop), race.lagging), race.beforePut), depth, item)
  }

  /** `_notify_drop`: on the first drop, then once per cadence. */
  function Notified(s: State, depth: nat, race: Race): State {
    if s.last != 0 && s.dropped - s.last < Cadence(depth) then s
    else Published(s.(last := s.dropped), depth, Notice(s.dropped), race)
  }

  /** What the worker does during one `on_tick`: in the publish, before the notice, and in its publish. */
  datatype Pace = Pace(first: Race, between: nat, second: Race)

  const STALLED := Pace(CALM, 0, CALM)

  /** `on_tick` for this channel. */
  function OnTick(s: State, depth: nat, id: int, pace: Pace): State {
    if |s.items| < depth then Put(s, Tick(id))
    else Notified(Taken(Published(s, depth, Tick(id), pace.first), pace.between), depth, pace.second)
  }

  datatype Event = Ticking(id: int, pace: Pace) | Taking(n: nat)

  function Next(s: State, depth: nat, e: Event): State {
    match e
    case Ticking(id, pace) => OnTick(s, depth, id, pace)
    case Taking(n) => Taken(s, n)
  }

  function Run(depth: nat, events: seq<Event>): State {
    if events == [] then EMPTY else Next(Run(depth, events[..|events| - 1]), depth, events[|events| - 1])
  }

  // ------------------------------------------------------------------ in any interleaving

  /** Bounded, nothing lost uncounted, and what is held is always the latest of what was published. */
  ghost predicate Sound(s: State, depth: nat) {
    && |s.items| <= depth
    && s.refused <= s.dropped && s.published == |s.taken| + (s.dropped - s.refused) + |s.items|
    && s.published == |s.sent| && s.items == s.sent[|s.sent| - |s.items|..]
  }

  lemma TakenIsSound(s: State, depth: nat, n: nat)
    requires Sound(s, depth)
    ensures Sound(Taken(s, n), depth)
  {
  }

  lemma DropIsSound(s: State, depth: nat)
    requires Sound(s, depth) && depth > 0
    ensures Sound(DropOldest(s, false), depth - 1)
  {
  }

  lemma PutIsSound(s: State, depth: nat, item: Item)
    requires depth > 0 && Sound(s, depth - 1)
    ensures Sound(Put(s, item), depth)
  {
  }

  lemma PutAgainIsSound(s: State, depth: nat, item: Item)
    requires Sound(s, depth)
    ensures Sound(PutAgain(s, depth, item), depth)
  {
    if |s.items| < depth {
      PutIsSound(s, depth, item);
    }
  }

  lemma DropOldestIsSound(s: State, depth: nat, lagging: bool)
    requires Sound(s, depth) && depth > 0
    ensures Sound(DropOldest(s, lagging), depth)
  {
    if !lagging {
      DropIsSound(s, depth);
    }
  }

  lemma PublishedIsSound(s: State, depth: nat, item: Item, race: Race)
    requires Sound(s, depth) && depth > 0
    ensures Sound(Published(s, depth, item, race), depth)
  {
    if |s.items| < depth {
      PutIsSound(s, depth, item);
    } else {
      var t := Taken(s, race.beforeDrop);
      TakenIsSound(s, depth, race.beforeDrop);
      var u := DropOldest(t, race.lagging);
      DropOldestIsSound(t, depth, race.lagging);
      TakenIsSound(u, depth, race.beforePut);
      PutAgainIsSound(Taken(u, race.beforePut), depth, item);
    }
  }

  lemma PublishedDrops(s: State, depth: nat, item: Item, race: Race)
    requires |s.items| <= depth && depth > 0
    ensures var t := Published(s, depth, item, race);
            s.dropped <= t.dropped <= s.dropped + 1 && t.last == s.last && (|s.items| < depth ==> t.dropped == s.dropped)
  {
  }

  /** Drops since the last notice, at the end of a tick: one at most just after a notice, else less than the cadence. */
  ghost predicate Reported(s: State, depth: nat) {
    && s.last <= s.dropped
    && (s.dropped - s.last <= 1 || (s.last > 0 && s.dropped - s.last < Cadence(depth)))
  }

  lemma NotifiedIsSound(s: State, depth: nat, race: Race)
    requires Sound(s, depth) && depth > 0
    ensures Sound(Notified(s, depth, race), depth)
  {
    PublishedIsSound(s.(last := s.dropped), depth, Notice(s.dropped), race);
  }

  lemma OnTickIsSound(s: State, depth: nat, id: int, pace: Pace)
    requires Sound(s, depth) && depth > 0
    ensures Sound(OnTick(s, depth, id, pace), depth)
  {
    PublishedIsSound(s, depth, Tick(id), pace.first);
    var t := Published(s, depth, Tick(id), pace.first);
    TakenIsSound(t, depth, pace.between);
    NotifiedIsSound(Taken(t, pace.between), depth, pace.second);
  }

  lemma OnTickReports(s: State, depth: nat, id: int, pace: Pace)
    requires Reported(s, depth) && Sound(s, depth) && depth > 0
    ensures Reported(OnTick(s, depth, id, pace), depth)
  {
    PublishedDrops(s, depth, Tick(id), pace.first);
    PublishedIsSound(s, depth, Tick(id), pace.first);
    var t := Taken(Published(s, depth, Tick(id), pace.first), pace.between);
    PublishedDrops(t.(last := t.dropped), depth, Notice(t.dropped), pace.second);
  }

  /**
   For every depth and every interleaving: the length stays within bounds, every item is taken, held
   or counted as dropped, and the held ones are the freshest of those published; and at the end of
   every tick the drops since the last notice sent do not exceed the cadence.
   */
  lemma {:induction false} EveryRunIsSound(depth: nat, events: seq<Event>)
    requires depth > 0
    ensures var s := Run(depth, events);
            Sound(s, depth) && Reported(s, depth) && s.dropped - s.last <= Cadence(depth)
  {
    if events != [] {
      EveryRunIsSound(depth, events[..|events| - 1]);
      var s := Run(depth, events[..|events| - 1]);
      match events[|events| - 1]
      case Ticking(id, pace) =>
        OnTickIsSound(s, depth, id, pace);
        OnTickReports(s, depth, id, pace);
      case Taking(n) => TakenIsSound(s, depth, n);
    }
  }

  // ------------------------------------------------------------------ a stalled worker

  ghost predicate Noticed(items: seq<Item>) {
    exists i :: 0 <= i < |items| && items[i].Notice?
  }

  /** `n` ticks that nobody takes. */
  function Backlog(depth: nat, ids: seq<int>): State {
    if ids == [] then EMPTY else OnTick(Backlog(depth, ids[..|ids| - 1]), depth, ids[|ids| - 1], STALLED)
  }

  /** The last notice sent sits as far from the tail as drops happened after its own. */
  ghost predicate Placed(s: State, depth: nat) {
    && |s.items| <= depth
    && (s.dropped == 0 <==> s.last == 0)
    && (s.last > 0 ==>
          && |s.items| == depth && s.last < s.dropped
          && s.dropped - s.last - 1 < depth
          && s.items[depth - 1 - (s.dropped - s.last - 1)].Notice?)
  }

  /** Nobody takes and nothing lags: a full queue drops its oldest for the new item. */
  lemma CalmPublish(s: State, depth: nat, item: Item)
    requires depth > 0 && |s.items| == depth
    ensures var t := Published(s, depth, item, CALM);
            && t.items == s.items[1..] + [item] && t.dropped == s.dropped + 1 && t.last == s.last
            && t.taken == s.taken && Taken(t, 0) == t
  {
    assert Taken(s, 0).items == s.items;
    var u := DropOldest(Taken(s, 0), false);
    assert Taken(u, 0).items == u.items;
  }

  lemma StalledNotice(s: State, depth: nat)
    requires depth > 0 && |s.items| == depth && s.dropped > 0 && s.last < s.dropped
    requires s.last > 0 && s.dropped - s.last - 1 < depth ==> s.items[depth - 1 - (s.dropped - s.last - 1)].Notice?
    ensures var t := Notified(s, depth, CALM); Placed(t, depth) && Reported(t, depth) && t.dropped >= s.dropped
  {
    CalmPublish(s.(last := s.dropped), depth, Notice(s.dropped));
  }

  lemma StalledTick(s: State, depth: nat, id: int)
    requires depth > 0 && Placed(s, depth) && Reported(s, depth)
    ensures var t := OnTick(s, depth, id, STALLED); Placed(t, depth) && Reported(t, depth)
    ensures |s.items| == depth ==> OnTick(s, depth, id, STALLED).dropped > s.dropped
  {
    if |s.items| == depth {
      CalmPublish(s, depth, Tick(id));
      StalledNotice(Taken(Published(s, depth, Tick(id), CALM), 0), depth);
    }
  }

  /** With a stalled worker and no lag a notice is in the queue at the end of every tick from the first overflow on, at any depth. */
  lemma {:induction false} StalledWorkerKeepsANotice(depth: nat, ids: seq<int>)
    requires depth > 0
    ensures var s := Backlog(depth, ids);
            && Placed(s, depth) && Reported(s, depth)
            && |s.items| == (if |ids| < depth then |ids| else depth)
            && (s.dropped > 0 <==> |ids| > depth) && (|ids| > depth ==> Noticed(s.items))
  {
    if ids != [] {
      StalledWorkerKeepsANotice(depth, ids[..|ids| - 1]);
      StalledTick(Backlog(depth, ids[..|ids| - 1]), depth, ids[|ids| - 1]);
    }
  }

  // ------------------------------------------------------------------ when a notice always gets through

  /** A notice is in the queue, or the worker has taken one. */
  ghost predicate Told(s: State) {
    Noticed(s.taken + s.items)
  }

  lemma TakenTells(s: State, n: nat)
    ensures Taken(s, n).taken + Taken(s, n).items == s.taken + s.items
  {
  }

  lemma PutTells(s: State, item: Item)
    ensures Told(s) || item.Notice? ==> Told(Put(s, item))
  {
    var before, after := s.taken + s.items, Put(s, item).taken + Put(s, item).items;
    assert after == before + [item];
    if Told(s) {
      var i :| 0 <= i < |before| && before[i].Notice?;
      assert after[i].Notice?;
    } else {
      assert after[|before|] == item;
    }
  }

  lemma PublishedTells(s: State, depth: nat, item: Item, race: Race)
    requires |s.items| <= depth && depth > 0
    ensures item.Notice? && !race.lagging ==> Told(Published(s, depth, item, race))
    ensures Told(s) && Published(s, depth, item, race).dropped == s.dropped ==> Told(Published(s, depth, item, race))
  {
    if |s.items| < depth {
      PutTells(s, item);
    } else {
      var t := DropOldest(Taken(s, race.beforeDrop), race.lagging);
      TakenTells(s, race.beforeDrop);
      TakenTells(t, race.beforePut);
      PutTells(Taken(t, race.beforePut), item);
    }
  }

  /** Every get of the producer's finds what the queue holds. */
  predicate Prompt(pace: Pace) {
    !pace.first.lagging && !pace.second.lagging
  }

  ghost predicate AllPrompt(events: seq<Event>) {
    forall k | 0 <= k < |events| && events[k].Ticking? :: Prompt(events[k].pace)
  }

  lemma ShallowNoticeTells(s: State, depth: nat, race: Race)
    requires Cadence(depth) == 1 && depth > 0 && |s.items| <= depth && !race.lagging && s.last <= s.dropped
    requires s.dropped == s.last && s.dropped > 0 ==> Told(s)
    ensures Notified(s, depth, race).dropped > 0 ==> Told(Notified(s, depth, race))
  {
    PublishedTells(s.(last := s.dropped), depth, Notice(s.dropped), race);
  }

  lemma ShallowTickTells(s: State, depth: nat, id: int, pace: Pace)
    requires Cadence(depth) == 1 && depth > 0 && Reported(s, depth) && Sound(s, depth) && Prompt(pace)
    requires s.dropped > 0 ==> Told(s)
    ensures OnTick(s, depth, id, pace).dropped > 0 ==> Told(OnTick(s, depth, id, pace))
  {
    if |s.items| < depth {
      PutTells(s, Tick(id));
    } else {
      var t := Published(s, depth, Tick(id), pace.first);
      PublishedDrops(s, depth, Tick(id), pace.first);
      PublishedTells(s, depth, Tick(id), pace.first);
      PublishedIsSound(s, depth, Tick(id), pace.first);
      TakenTells(t, pace.between);
      TakenIsSound(t, depth, pace.between);
      ShallowNoticeTells(Taken(t, pace.between), depth, pace.second);
    }
  }

  lemma {:induction false} ShallowQueueTells(depth: nat, events: seq<Event>)
    requires depth > 0 && Cadence(depth) == 1 && AllPrompt(events)
    ensures Run(depth, events).dropped > 0 ==> Told(Run(depth, events))
  {
    if events != [] {
      var init := events[..|events| - 1];
      ShallowQueueTells(depth, init);
      EveryRunIsSound(depth, init);
      match events[|events| - 1]
      case Ticking(id, pace) => ShallowTickTells(Run(depth, init), depth, id, pace);
      case Taking(n) => TakenTells(Run(depth, init), n);
    }
  }

  function Ticks(n: nat): seq<Item> {
    seq(n, i requires 0 <= i < n => Tick(0))
  }

  function Filling(n: nat): seq<Event> {
    seq(n, i requires 0 <= i < n => Ticking(0, STALLED))
  }

  lemma RunStep(depth: nat, events: seq<Event>, e: Event)
    ensures Run(depth, events + [e]) == Next(Run(depth, events), depth, e)
  {
    assert (events + [e])[..|events|] == events;
  }

  lemma OneMore(n: nat)
    ensures Ticks(n + 1) == Ticks(n) + [Tick(0)] && Filling(n + 1) == Filling(n) + [Ticking(0, STALLED)]
  {
  }

  lemma RoomForOne(depth: nat, events: seq<Event>)
    requires |Run(depth, events).items| < depth
    ensures Run(depth, events + [Ticking(0, STALLED)]) == Put(Run(depth, events), Tick(0))
  {
    RunStep(depth, events, Ticking(0, STALLED));
  }

  /** While there is room, ticks only pile up. */
  lemma {:induction false} FillingRuns(depth: nat, events: seq<Event>, n: nat)
    requires |Run(depth, events).items| + n <= depth
    ensures var s, t := Run(depth, events), Run(depth, events + Filling(n));
            t.items == s.items + Ticks(n) && t.dropped == s.dropped && t.last == s.last && t.taken == s.taken
  {
    if n == 0 {
      assert events + Filling(0) == events;
    } else {
      FillingRuns(depth, events, n - 1);
      OneMore(n - 1);
      var s, most := Run(depth, events), events + Filling(n - 1);
      assert events + Filling(n) == most + [Ticking(0, STALLED)];
      RoomForOne(depth, most);
      assert s.items + Ticks(n - 1) + [Tick(0)] == s.items + Ticks(n);
    }
  }

  /**
   Fill the queue, overflow it with the worker taking one item just before the notice goes in, drain
   to the notice, and fill it again: one more tick evicts the notice without another being due.
   */
  function FirstHalf(depth: nat): seq<Event> {
    Filling(depth) + [Ticking(0, Pace(CALM, 1, CALM))]
  }

  function LosingRun(depth: nat): seq<Event>
    requires depth > 0
  {
    FirstHalf(depth) + [Taking(depth - 1)] + Filling(depth - 1) + [Ticking(0, STALLED)]
  }

  lemma FirstHalfRuns(depth: nat)
    requires depth > 1
    ensures var s := Run(depth, FirstHalf(depth));
            && s.items == Ticks(depth - 1) + [Notice(1)] && s.taken == [Tick(0)] && s.dropped == 1 && s.last == 1
  {
    FillingRuns(depth, [], depth);
    assert [] + Filling(depth) == Filling(depth);
    RunStep(depth, Filling(depth), Ticking(0, Pace(CALM, 1, CALM)));
    var full := Run(depth, Filling(depth));
    FullThenOneTaken(full, depth);
  }

  lemma FullThenOneTaken(s: State, depth: nat)
    requires depth > 1 && s.items == Ticks(depth) && s.taken == [] && s.dropped == 0 && s.last == 0
    ensures var t := OnTick(s, depth, 0, Pace(CALM, 1, CALM));
            && t.items == Ticks(depth - 1) + [Notice(1)] && t.taken == [Tick(0)] && t.dropped == 1 && t.last == 1
  {
    CalmPublish(s, depth, Tick(0));
    var t := Published(s, depth, Tick(0), CALM);
    assert t.items == Ticks(depth) && t.taken == [];
    var u := Taken(t, 1);
    assert u.items == Ticks(depth - 1) && u.taken == [Tick(0)];
    assert Notified(u, depth, CALM) == Put(u.(last := 1), Notice(1));
  }

  lemma SecondHalfRuns(depth: nat)
    requires depth > 1
    ensures var s := Run(depth, FirstHalf(depth) + [Taking(depth - 1)] + Filling(depth - 1));
            && s.items == [Notice(1)] + Ticks(depth - 1) && s.taken == [Tick(0)] + Ticks(depth - 1)
            && s.dropped == 1 && s.last == 1
  {
    var first := FirstHalf(depth);
    var second := first + [Taking(depth - 1)];
    FirstHalfRuns(depth);
    RunStep(depth, first, Taking(depth - 1));
    assert Run(depth, second) == Taken(Run(depth, first), depth - 1);
    assert Run(depth, second).items == [Notice(1)] && Run(depth, second).taken == [Tick(0)] + Ticks(depth - 1);
    FillingRuns(depth, second, depth - 1);
  }

  /** A full queue with the notice at its head loses it to one more tick, and no other is due. */
  lemma LastTickLoses(s: State, depth: nat)
    requires depth > 3 && s.items == [Notice(1)] + Ticks(depth - 1) && s.taken == [Tick(0)] + Ticks(depth - 1)
    requires s.dropped == 1 && s.last == 1
    ensures var t := OnTick(s, depth, 0, STALLED); t.dropped == 2 && !Told(t)
  {
    var t := OnTick(s, depth, 0, STALLED);
    assert t.items == Ticks(depth - 1) + [Tick(0)] && t.taken == s.taken;
  }

  lemma LosingRunLoses(depth: nat)
    requires depth > 3
    ensures Run(depth, LosingRun(depth)).dropped > 0 && !Told(Run(depth, LosingRun(depth)))
  {
    var third := FirstHalf(depth) + [Taking(depth - 1)] + Filling(depth - 1);
    SecondHalfRuns(depth);
    LastTickLoses(Run(depth, third), depth);
    RunStep(depth, third, Ticking(0, STALLED));
  }

  /** Full, with a pipe that lags: the tick is refused, and so is the notice that would report it. */
  function LaggingRun(depth: nat): seq<Event> {
    Filling(depth) + [Ticking(0, Pace(LAGGING, 0, LAGGING))]
  }

  lemma LaggingRunLoses(depth: nat)
    requires depth > 0
    ensures Run(depth, LaggingRun(depth)).dropped == 2 && !Told(Run(depth, LaggingRun(depth)))
  {
    FillingRuns(depth, [], depth);
    assert [] + Filling(depth) == Filling(depth);
    RunStep(depth, Filling(depth), Ticking(0, Pace(LAGGING, 0, LAGGING)));
    var full := Run(depth, Filling(depth));
    assert full.items == Ticks(depth);
    FullAndLagging(full, depth);
    assert Ticks(depth) == full.taken + full.items;
  }

  lemma Refused(s: State, depth: nat, item: Item)
    requires |s.items| == depth
    ensures Published(s, depth, item, LAGGING) == Refuse(s) && Taken(s, 0) == s
  {
    assert Taken(s, 0) == s && DropOldest(s, true) == s;
  }

  lemma FullAndLagging(s: State, depth: nat)
    requires |s.items| == depth && s.dropped == 0 && s.last == 0
    ensures var t := OnTick(s, depth, 0, Pace(LAGGING, 0, LAGGING));
            t.dropped == 2 && t.items == s.items && t.taken == s.taken
  {
    var t := Refuse(s);
    Refused(s, depth, Tick(0));
    Refused(t, depth, Tick(0));
    Refused(t.(last := 1), depth, Notice(1));
  }

  lemma FillingIsPrompt(n: nat)
    ensures AllPrompt(Filling(n))
  {
  }

  lemma LosingRunIsPrompt(depth: nat)
    requires depth > 0
    ensures AllPrompt(LosingRun(depth))
  {
    FillingIsPrompt(depth);
    FillingIsPrompt(depth - 1);
  }

  /**
   Some notice always gets through to a worker that keeps taking, however it races the hub, exactly
   for queues of depth three and less that never lag: there the cadence is one.  Any deeper queue, the
   deployed one included, has a run that loses the only notice, and so has any queue that may lag.
   */
  lemma NoticeGetsThroughExactly(depth: nat, mayLag: bool)
    requires depth > 0
    ensures (forall events | mayLag || AllPrompt(events) :: Run(depth, events).dropped > 0 ==> Told(Run(depth, events)))
            <==> depth <= 3 && !mayLag
  {
    if mayLag {
      LaggingRunLoses(depth);
    } else if depth <= 3 {
      forall events | AllPrompt(events) ensures Run(depth, events).dropped > 0 ==> Told(Run(depth, events)) {
        ShallowQueueTells(depth, events);
      }
    } else {
      LosingRunLoses(depth);
      LosingRunIsPrompt(depth);
    }
  }

  // ------------------------------------------------------------------ the objects

  /** The channel's queue.  `taken`, `sent` and `refused` record, for the proof, what went out and in and what did not. */
  class BoundedWorkerQueue {
    const depth: nat
    var items: seq<Item>
    var published: nat
    var dropped: nat
    ghost var taken: seq<Item>
    ghost var sent: seq<Item>
    ghost var refused: nat

    ghost function View(last: nat): State
      reads this
    {
      State(items, published, dropped, last, taken, sent, refused)
    }

    constructor (depth: nat)
      ensures this.depth == depth && View(0) == EMPTY
    {
      this.depth := depth;
      items, published, dropped, taken, sent, refused := [], 0, 0, [], [], 0;
    }

    /** The worker's takes, as many as there are items. */
    method Take(n: nat) returns (out: seq<Item>)
      modifies this
      ensures forall last :: View(last) == Taken(old(View(last)), n)
      ensures old(items) == out + items && |items| <= |old(items)|
    {
      var k := if n < |items| then n else |items|;
      out := items[..k];
      taken := taken + items[..k];
      items := items[k..];
    }

    method PutNowait(item: Item) returns (ok: bool)
      modifies this
      ensures ok == (|old(items)| < depth) && (!ok ==> items == old(items))
      ensures forall last :: View(last) == if ok then Put(old(View(last)), item) else old(View(last))
    {
      if |items| >= depth {
        return false;
      }
      items := items + [item];
      sent := sent + [item];
      published := published + 1;
      ok := true;
    }

    method DropOne(lagging: bool)
      modifies this
      ensures forall last :: View(last) == DropOldest(old(View(last)), lagging)
      ensures items == if lagging || old(items) == [] then old(items) else old(items)[1..]
    {
      if !lagging && items != [] {
        items := items[1..];
        dropped := dropped + 1;
      }
    }

    /** Never blocks; false when something had to be dropped, or may have been. */
    method Publish(item: Item, race: Race) returns (ok: bool)
      requires depth > 0 && |items| <= depth
      modifies this
      ensures ok == (|old(items)| < depth)
      ensures forall last :: View(last) == Published(old(View(last)), depth, item, race)
    {
      ok := PutNowait(item);
      if !ok {
        var early := Take(race.beforeDrop);
        DropOne(race.lagging);
        var late := Take(race.beforePut);
        PutOrDrop(item);
      }
    }

    /** The second put; the new item is dropped rather than tried again. */
    method PutOrDrop(item: Item)
      modifies this
      ensures forall last :: View(last) == PutAgain(old(View(last)), depth, item)
    {
      var ok := PutNowait(item);
      if !ok {
        dropped := dropped + 1;
        refused := refused + 1;
      }
    }
  }

  /** The hub's side of one channel: its queue and the drop total last reported on it. */
  class Channel {
    const queue: BoundedWorkerQueue
    var last: nat

    ghost function View(): State
      reads this, queue
    {
      queue.View(last)
    }

    constructor (depth: nat)
      ensures queue.depth == depth && fresh(queue) && View() == EMPTY
    {
      queue := new BoundedWorkerQueue(depth);
      last := 0;
    }

    method NotifyDrop(race: Race)
      requires queue.depth > 0 && |queue.items| <= queue.depth
      modifies this, queue
      ensures View() == Notified(old(View()), queue.depth, race)
    {
      if last != 0 && queue.dropped - last < Cadence(queue.depth) {
        return;
      }
      last := queue.dropped;
      var ok := queue.Publish(Notice(queue.dropped), race);
    }

    method Deliver(id: int, pace: Pace)
      requires queue.depth > 0 && Sound(View(), queue.depth)
      modifies this, queue
      ensures View() == OnTick(old(View()), queue.depth, id, pace)
      ensures Sound(View(), queue.depth)
    {
      OnTickIsSound(View(), queue.depth, id, pace);
      PublishedIsSound(View(), queue.depth, Item.Tick(id), pace.first);
      var ok := queue.Publish(Item.Tick(id), pace.first);
      if !ok {
        TakenIsSound(View(), queue.depth, pace.between);
        var out := queue.Take(pace.between);
        NotifyDrop(pace.second);
      }
    }
  }
}
