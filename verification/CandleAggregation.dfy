/**
 `CandleAggregator`: completed candles per instrument from one tick stream.

 Times are whole seconds; every decision floors the timestamp first, so fractions never matter.
 The specification speaks of the history alone: which ticks an instrument's bar is made of, and
 whether a feed gap hit it.
 */
module CandleAggregation {
  import opened Prelude

  const DAY := 86_400
  const IST := 19_800

  datatype Tick = Tick(security: string, price: real, quantity: int, time: int)

  /** Session bounds in seconds of the exchange's day; `end` is excluded. */
  datatype Window = Window(start: int, end: int) {
    predicate Contains(time: int) {
      start <= (time + IST) % DAY < end
    }
  }

  const SESSION := Window(33_300, 55_800) // 09:15 to 15:30

  /** Seconds into a day of India's calendar, five and a half hours ahead of UTC. */
  function Into(time: int, day: int): int {
    time + 19_800 - day * 86_400
  }

  /** A session contains an instant exactly when the local time of its day is from the start up to, not including, the end. */
  lemma ContainsExactly(w: Window, time: int)
    ensures w.Contains(time) <==> exists day :: 0 <= Into(time, day) < 86_400 && w.start <= Into(time, day) < w.end
    ensures SESSION == Window((9 * 60 + 15) * 60, (15 * 60 + 30) * 60)
  {
    var today := (time + IST) / DAY;
    assert Into(time, today) == (time + IST) % DAY;
    forall day | 0 <= Into(time, day) < 86_400 ensures day == today {
    }
  }

  /** `floor_to_interval` of an instant, on the wall clock of a zone `offset` seconds ahead of UTC. */
  function Floor(time: int, interval: int, offset: int): int
    requires interval > 0
  {
    var midnight := time + offset - (time + offset) % DAY;
    midnight + (time + offset) % DAY / interval * interval - offset
  }

  lemma FloorOf(x: int, interval: int)
    requires interval > 0 && x >= 0
    ensures var f := x / interval * interval; 0 <= f <= x < f + interval && f % interval == 0
  {
    assert x == x / interval * interval + x % interval;
    MultipleOf(x / interval, interval);
  }

  lemma MultipleOf(q: int, n: int)
    requires n > 0
    ensures q * n % n == 0
  {
    var d := q * n / n - q;
    assert d * n + q * n % n == 0;
  }

  lemma NextMultiple(a: int, b: int, n: int)
    requires a < b && n > 0
    ensures a * n + n <= b * n
  {
    assert b * n - a * n == (b - a) * n;
    assert (b - a - 1) * n >= 0;
  }

  lemma OnlyMultiple(f: int, g: int, x: int, interval: int)
    requires interval > 0 && f % interval == 0 && g % interval == 0
    requires f <= x < f + interval && g <= x < g + interval
    ensures f == g
  {
    var a, b := f / interval, g / interval;
    if a < b {
      NextMultiple(a, b, interval);
    } else if b < a {
      NextMultiple(b, a, interval);
    }
  }

  /** This instant starts an interval: whole intervals after midnight, on the zone's clock. */
  ghost predicate Starts(start: int, interval: int, offset: int)
    requires interval > 0
  {
    (start + offset) % DAY % interval == 0
  }

  lemma FloorParts(time: int, interval: int, offset: int)
    requires interval > 0
    ensures var f := Floor(time, interval, offset);
            && (f + offset) / DAY == (time + offset) / DAY
            && (f + offset) % DAY == (time + offset) % DAY / interval * interval
  {
    var x, y := time + offset, (time + offset) % DAY;
    FloorOf(y, interval);
    var f := Floor(time, interval, offset);
    assert f + offset == x / DAY * DAY + y / interval * interval;
  }

  /** The floor of an instant is the one start, on its own day, of an interval that contains it. */
  lemma FloorExactly(time: int, interval: int, offset: int, start: int)
    requires interval > 0
    ensures start == Floor(time, interval, offset) <==>
            && start <= time < start + interval && (start + offset) / DAY == (time + offset) / DAY
            && Starts(start, interval, offset)
  {
    var f, day := Floor(time, interval, offset), (time + offset) / DAY;
    FloorParts(time, interval, offset);
    FloorOf((time + offset) % DAY, interval);
    if start <= time < start + interval && (start + offset) / DAY == day && Starts(start, interval, offset) {
      OnlyMultiple((start + offset) % DAY, (f + offset) % DAY, (time + offset) % DAY, interval);
    }
  }

  datatype Bar = Bar(
    start: int, open: real, high: real, low: real, close: real, volume: int, count: int, lastAt: int, gap: bool)

  function NewBar(start: int, t: Tick): Bar {
    Bar(start, t.price, t.price, t.price, t.price, t.quantity, 1, t.time, false)
  }

  function Absorb(b: Bar, t: Tick): Bar {
    b.(high := Max(b.high, t.price), low := Min(b.low, t.price), close := t.price,
       volume := b.volume + t.quantity, count := b.count + 1, lastAt := t.time)
  }

  datatype Config = Config(interval: int, session: Window) {
    predicate Valid() { interval > 0 }

    function Bucket(t: Tick): int
      requires Valid()
    {
      Floor(t.time, interval, IST)
    }
  }

  datatype State = State(
    bars: map<string, Bar>, published: set<(string, int)>, outOfSession: nat, late: nat, dropped: nat)

  const EMPTY := State(map[], {}, 0, 0, 0)

  datatype Result = Nothing | Published(bar: Bar) | Discarded(bar: Bar) | Duplicate

  // ------------------------------------------------------------------ operations

  function Completion(s: State, security: string, bar: Bar): Result {
    if (security, bar.start) in s.published then Duplicate
    else if bar.gap then Discarded(bar) else Published(bar)
  }

  /** `add`, with what it answers; a discarded bar is answered like no bar at all. */
  function AddResult(s: State, c: Config, t: Tick): Result
    requires c.Valid()
  {
    if !c.session.Contains(t.time) || t.security !in s.bars || c.Bucket(t) <= s.bars[t.security].start then Nothing
    else Completion(s, t.security, s.bars[t.security])
  }

  function Added(s: State, c: Config, t: Tick): State
    requires c.Valid()
  {
    var id := t.security;
    if !c.session.Contains(t.time) then s.(outOfSession := s.outOfSession + 1)
    else if id !in s.bars then s.(bars := s.bars[id := NewBar(c.Bucket(t), t)])
    else if c.Bucket(t) == s.bars[id].start then s.(bars := s.bars[id := Absorb(s.bars[id], t)])
    else if c.Bucket(t) < s.bars[id].start then s.(late := s.late + 1)
    else
      match AddResult(s, c, t)
      case Duplicate => s
      case r =>
        s.(bars := s.bars[id := NewBar(c.Bucket(t), t)], published := s.published + {(id, s.bars[id].start)},
           dropped := s.dropped + if r.Discarded? then 1 else 0)
  }

  function Marked(bars: map<string, Bar>, ids: set<string>): map<string, Bar> {
    map id | id in bars :: if id in ids then bars[id].(gap := true) else bars[id]
  }

  /** `mark_feed_gap` for one instrument, or for all of them. */
  function Gapped(s: State, security: Option<string>): State {
    s.(bars := Marked(s.bars, if security.Some? then {security.value} else s.bars.Keys))
  }

  /** `flush` of one instrument. */
  function FlushResult(s: State, security: string): Result {
    if security !in s.bars then Nothing else Completion(s, security, s.bars[security])
  }

  function Flushed(s: State, security: string): State {
    if security !in s.bars then s
    else
      var r, rest := FlushResult(s, security), s.(bars := s.bars - {security});
      if r.Duplicate? then rest
      else
        rest.(published := s.published + {(security, s.bars[security].start)},
              dropped := s.dropped + if r.Discarded? then 1 else 0)
  }

  datatype Event = Add(tick: Tick) | Gap(security: Option<string>)

  function Next(s: State, c: Config, e: Event): State
    requires c.Valid()
  {
    match e
    case Add(t) => Added(s, c, t)
    case Gap(security) => Gapped(s, security)
  }

  function Run(c: Config, h: seq<Event>): State
    requires c.Valid()
  {
    if h == [] then EMPTY else Next(Run(c, h[..|h| - 1]), c, h[|h| - 1])
  }

  // ------------------------------------------------------------------ the history alone

  /** The event is a tick of this instrument, inside the session. */
  predicate Counts(c: Config, e: Event, id: string) {
    e.Add? && e.tick.security == id && c.session.Contains(e.tick.time)
  }

  /** The latest bucket any of the instrument's ticks reached. */
  function Latest(c: Config, h: seq<Event>, id: string): Option<int>
    requires c.Valid()
  {
    if h == [] then None
    else
      var before, e := Latest(c, h[..|h| - 1], id), h[|h| - 1];
      if Counts(c, e, id) && (before.None? || c.Bucket(e.tick) > before.value) then Some(c.Bucket(e.tick)) else before
  }

  /** The instrument's ticks in one bucket, in order. */
  function Members(c: Config, h: seq<Event>, id: string, bucket: int): seq<Tick>
    requires c.Valid()
  {
    if h == [] then []
    else
      var e := h[|h| - 1];
      Members(c, h[..|h| - 1], id, bucket) + if Counts(c, e, id) && c.Bucket(e.tick) == bucket then [e.tick] else []
  }

  /** The event marks a feed gap for the instrument. */
  predicate Marks(e: Event, id: string) {
    e.Gap? && (e.security.None? || e.security.value == id)
  }

  /** A gap was marked while a bar of this bucket had already begun. */
  predicate GapHit(c: Config, h: seq<Event>, id: string, bucket: int)
    requires c.Valid()
  {
    exists k :: 0 <= k < |h| && Marks(h[k], id) && Members(c, h[..k], id, bucket) != []
  }

  function Volume(ts: seq<Tick>): int {
    if ts == [] then 0 else Volume(ts[..|ts| - 1]) + ts[|ts| - 1].quantity
  }

  /** The bar is the open, high, low, close, volume and count of exactly these ticks. */
  ghost predicate IsOhlc(b: Bar, ts: seq<Tick>) {
    && ts != [] && b.count == |ts| && b.volume == Volume(ts) && b.lastAt == ts[|ts| - 1].time
    && b.open == ts[0].price && b.close == ts[|ts| - 1].price
    && (forall i | 0 <= i < |ts| :: b.low <= ts[i].price <= b.high)
    && (exists i :: 0 <= i < |ts| && ts[i].price == b.high)
    && (exists i :: 0 <= i < |ts| && ts[i].price == b.low)
  }

  lemma NewBarIsOhlc(start: int, t: Tick)
    ensures IsOhlc(NewBar(start, t), [t])
  {
    assert [t][0].price == t.price && Volume([t][..0]) == 0;
  }

  lemma AbsorbIsOhlc(b: Bar, ts: seq<Tick>, t: Tick)
    requires IsOhlc(b, ts)
    ensures IsOhlc(Absorb(b, t), ts + [t])
  {
    var all, a := ts + [t], Absorb(b, t);
    assert all[..|all| - 1] == ts;
    var i :| 0 <= i < |ts| && ts[i].price == b.high;
    var j :| 0 <= j < |ts| && ts[j].price == b.low;
    assert all[|ts|] == t && all[i] == ts[i] && all[j] == ts[j];
  }

  // ------------------------------------------------------------------ the machine keeps to the history

  lemma {:induction false} MembersAreReached(c: Config, h: seq<Event>, id: string, bucket: int)
    requires c.Valid()
    ensures Members(c, h, id, bucket) != [] ==> Latest(c, h, id).Some? && bucket <= Latest(c, h, id).value
    ensures Latest(c, h, id).Some? ==> Members(c, h, id, Latest(c, h, id).value) != []
  {
    if h != [] {
      MembersAreReached(c, h[..|h| - 1], id, bucket);
      MembersAreReached(c, h[..|h| - 1], id, if Latest(c, h[..|h| - 1], id).Some? then Latest(c, h[..|h| - 1], id).value else 0);
    }
  }

  lemma GapHitStep(c: Config, h: seq<Event>, e: Event, id: string, bucket: int)
    requires c.Valid()
    ensures GapHit(c, h + [e], id, bucket) <==>
            GapHit(c, h, id, bucket) ||
            (Marks(e, id) && Members(c, h, id, bucket) != [])
  {
    var all := h + [e];
    assert all[..|h|] == h && all[|h|] == e;
    assert forall k | 0 <= k < |h| :: all[..k] == h[..k] && all[k] == h[k];
    if GapHit(c, h, id, bucket) {
      var k :| 0 <= k < |h| && Marks(h[k], id) && Members(c, h[..k], id, bucket) != [];
      assert all[k] == h[k] && Members(c, all[..k], id, bucket) != [];
    }
  }

  /** What the machine holds of one instrument is what the history says. */
  ghost predicate Follows(s: State, c: Config, h: seq<Event>, id: string)
    requires c.Valid()
  {
    var latest := Latest(c, h, id);
    && (id in s.bars <==> latest.Some?)
    && (latest.Some? ==>
          && s.bars[id].start == latest.value
          && IsOhlc(s.bars[id], Members(c, h, id, latest.value))
          && s.bars[id].gap == GapHit(c, h, id, latest.value))
    && forall start | (id, start) in s.published :: latest.Some? && start < latest.value
  }

  lemma HistoryStep(c: Config, h: seq<Event>, e: Event, id: string, bucket: int)
    requires c.Valid()
    ensures Latest(c, h + [e], id) ==
            if Counts(c, e, id) && (Latest(c, h, id).None? || c.Bucket(e.tick) > Latest(c, h, id).value)
            then Some(c.Bucket(e.tick)) else Latest(c, h, id)
    ensures Members(c, h + [e], id, bucket) ==
            if Counts(c, e, id) && c.Bucket(e.tick) == bucket then Members(c, h, id, bucket) + [e.tick]
            else Members(c, h, id, bucket)
  {
    assert (h + [e])[..|h|] == h;
  }

  /** An event that is not an instrument's in-session tick can only mark its bar. */
  lemma OthersOnlyMark(s: State, c: Config, e: Event, id: string)
    requires c.Valid() && !Counts(c, e, id)
    ensures var t := Next(s, c, e);
            && (id in t.bars <==> id in s.bars)
            && (id in s.bars ==> t.bars[id] == if Marks(e, id) then s.bars[id].(gap := true) else s.bars[id])
            && forall start :: (id, start) in t.published <==> (id, start) in s.published
  {
  }

  lemma OtherStepFollows(s: State, c: Config, h: seq<Event>, e: Event, id: string)
    requires c.Valid() && Follows(s, c, h, id) && !Counts(c, e, id)
    ensures Follows(Next(s, c, e), c, h + [e], id)
  {
    var latest, t := Latest(c, h, id), Next(s, c, e);
    OthersOnlyMark(s, c, e, id);
    HistoryStep(c, h, e, id, if latest.Some? then latest.value else 0);
    if latest.Some? {
      GapHitStep(c, h, e, id, latest.value);
      MembersAreReached(c, h, id, latest.value);
      assert IsOhlc(t.bars[id], Members(c, h, id, latest.value));
    }
  }

  /** The instrument's own in-session tick, on a machine whose open bar is not yet published. */
  lemma TickMoves(s: State, c: Config, t: Tick)
    requires c.Valid() && c.session.Contains(t.time)
    requires t.security in s.bars ==> (t.security, s.bars[t.security].start) !in s.published
    ensures var id, after := t.security, Added(s, c, t);
            var before := if id in s.bars then Some(s.bars[id]) else None;
            && id in after.bars
            && after.bars[id] == (if before.None? || before.value.start < c.Bucket(t) then NewBar(c.Bucket(t), t)
                                  else if before.value.start == c.Bucket(t) then Absorb(before.value, t) else before.value)
            && forall start :: (id, start) in after.published <==>
                 (id, start) in s.published || (before.Some? && start == before.value.start < c.Bucket(t))
  {
  }

  lemma WithinStepFollows(s: State, c: Config, h: seq<Event>, t: Tick)
    requires c.Valid() && Follows(s, c, h, t.security) && c.session.Contains(t.time)
    requires Latest(c, h, t.security).Some? && c.Bucket(t) <= Latest(c, h, t.security).value
    ensures Follows(Added(s, c, t), c, h + [Add(t)], t.security)
  {
    var id, latest := t.security, Latest(c, h, t.security).value;
    TickMoves(s, c, t);
    HistoryStep(c, h, Add(t), id, latest);
    GapHitStep(c, h, Add(t), id, latest);
    if c.Bucket(t) == latest {
      AbsorbIsOhlc(s.bars[id], Members(c, h, id, latest), t);
    }
  }

  /** A tick beyond every earlier one starts its bucket: alone in it, and no gap has hit it. */
  lemma BucketStarts(c: Config, h: seq<Event>, t: Tick)
    requires c.Valid() && c.session.Contains(t.time)
    requires Latest(c, h, t.security).Some? ==> c.Bucket(t) > Latest(c, h, t.security).value
    ensures var all := h + [Add(t)];
            && Latest(c, all, t.security) == Some(c.Bucket(t))
            && Members(c, all, t.security, c.Bucket(t)) == [t]
            && !GapHit(c, all, t.security, c.Bucket(t))
  {
    var id, bucket := t.security, c.Bucket(t);
    HistoryStep(c, h, Add(t), id, bucket);
    MembersAreReached(c, h, id, bucket);
    assert Members(c, h, id, bucket) == [];
    GapHitStep(c, h, Add(t), id, bucket);
    NoEarlyGap(c, h, id, bucket);
  }

  lemma BeyondStepFollows(s: State, c: Config, h: seq<Event>, t: Tick)
    requires c.Valid() && Follows(s, c, h, t.security) && c.session.Contains(t.time)
    requires Latest(c, h, t.security).Some? ==> c.Bucket(t) > Latest(c, h, t.security).value
    ensures Follows(Added(s, c, t), c, h + [Add(t)], t.security)
  {
    var id, bucket, after, all := t.security, c.Bucket(t), Added(s, c, t), h + [Add(t)];
    TickMoves(s, c, t);
    BucketStarts(c, h, t);
    NewBarIsOhlc(bucket, t);
    assert after.bars[id] == NewBar(bucket, t);
    assert IsOhlc(after.bars[id], Members(c, all, id, bucket));
    forall start | (id, start) in after.published ensures start < bucket {
      assert (id, start) in s.published || start == s.bars[id].start;
    }
  }

  /** No gap can have hit a bucket that had no ticks. */
  lemma NoEarlyGap(c: Config, h: seq<Event>, id: string, bucket: int)
    requires c.Valid() && Members(c, h, id, bucket) == []
    ensures !GapHit(c, h, id, bucket)
  {
    forall k | 0 <= k < |h| ensures Members(c, h[..k], id, bucket) == [] {
      MembersGrow(c, h, k, id, bucket);
    }
  }

  lemma {:induction false} MembersGrow(c: Config, h: seq<Event>, k: nat, id: string, bucket: int)
    requires c.Valid() && k <= |h|
    ensures Members(c, h[..k], id, bucket) <= Members(c, h, id, bucket)
  {
    if k == |h| {
      assert h[..k] == h;
    } else {
      assert h[..|h| - 1][..k] == h[..k];
      MembersGrow(c, h[..|h| - 1], k, id, bucket);
    }
  }

  lemma {:induction false} RunFollows(c: Config, h: seq<Event>, id: string)
    requires c.Valid()
    ensures Follows(Run(c, h), c, h, id)
  {
    if h != [] {
      RunFollows(c, h[..|h| - 1], id);
      var init, e := h[..|h| - 1], h[|h| - 1];
      assert init + [e] == h;
      if Counts(c, e, id) {
        if Latest(c, init, id).Some? && c.Bucket(e.tick) <= Latest(c, init, id).value {
          WithinStepFollows(Run(c, init), c, init, e.tick);
        } else {
          BeyondStepFollows(Run(c, init), c, init, e.tick);
        }
      } else {
        OtherStepFollows(Run(c, init), c, init, e, id);
      }
    }
  }

  // ------------------------------------------------------------------ the theorems

  /**
   Any order of ticks, gaps anywhere, no flush: a tick completes a bar exactly when it is in session
   and beyond every earlier tick of its instrument.  The bar is the OHLC of exactly the ticks of the
   latest bucket; it is published unless a gap was marked after it had begun, and never a duplicate.
   */
  lemma CompletesExactly(c: Config, h: seq<Event>, t: Tick)
    requires c.Valid()
    ensures var r, latest := AddResult(Run(c, h), c, t), Latest(c, h, t.security);
            && !r.Duplicate?
            && (r.Nothing? <==> !(c.session.Contains(t.time) && latest.Some? && c.Bucket(t) > latest.value))
            && (!r.Nothing? ==> && r.bar.start == latest.value
                                && IsOhlc(r.bar, Members(c, h, t.security, latest.value))
                                && (r.Discarded? <==> GapHit(c, h, t.security, latest.value)))
  {
    RunFollows(c, h, t.security);
  }

  /** The bars an instrument had published, in order. */
  function Outputs(c: Config, h: seq<Event>, id: string): seq<Bar>
    requires c.Valid()
  {
    if h == [] then []
    else
      var init, e := h[..|h| - 1], h[|h| - 1];
      var r := if e.Add? && e.tick.security == id then AddResult(Run(c, init), c, e.tick) else Nothing;
      Outputs(c, init, id) + if r.Published? then [r.bar] else []
  }

  ghost predicate Ascending(out: seq<Bar>) {
    forall i, j | 0 <= i < j < |out| :: out[i].start < out[j].start
  }

  ghost predicate Before(out: seq<Bar>, latest: Option<int>) {
    forall i | 0 <= i < |out| :: latest.Some? && out[i].start < latest.value
  }

  /** An instrument's published bars start strictly later and later, all before its open one. */
  lemma {:induction false} OutputsIncrease(c: Config, h: seq<Event>, id: string)
    requires c.Valid()
    ensures Ascending(Outputs(c, h, id)) && Before(Outputs(c, h, id), Latest(c, h, id))
  {
    if h != [] {
      var init, e := h[..|h| - 1], h[|h| - 1];
      var out, latest := Outputs(c, init, id), Latest(c, init, id);
      OutputsIncrease(c, init, id);
      assert init + [e] == h;
      HistoryStep(c, init, e, id, 0);
      if e.Add? && e.tick.security == id && AddResult(Run(c, init), c, e.tick).Published? {
        CompletesExactly(c, init, e.tick);
        assert Before(out + [AddResult(Run(c, init), c, e.tick).bar], Latest(c, h, id));
      } else {
        assert Outputs(c, h, id) == out;
        assert Before(out, Latest(c, h, id));
      }
    }
  }

  // ------------------------------------------------------------------ every tick once

  /** The tick came after a later bucket of its instrument had begun. */
  predicate Late(c: Config, h: seq<Event>, t: Tick)
    requires c.Valid()
  {
    c.session.Contains(t.time) && Latest(c, h, t.security).Some? && c.Bucket(t) < Latest(c, h, t.security).value
  }

  function One(b: bool): nat {
    if b then 1 else 0
  }

  function OutsideTicks(c: Config, h: seq<Event>): nat {
    if h == [] then 0
    else OutsideTicks(c, h[..|h| - 1]) + One(h[|h| - 1].Add? && !c.session.Contains(h[|h| - 1].tick.time))
  }

  function LateTicks(c: Config, h: seq<Event>): nat
    requires c.Valid()
  {
    if h == [] then 0
    else LateTicks(c, h[..|h| - 1]) + One(h[|h| - 1].Add? && Late(c, h[..|h| - 1], h[|h| - 1].tick))
  }

  /** The two rejection counters say what the history says. */
  lemma {:induction false} RejectionsAreCounted(c: Config, h: seq<Event>)
    requires c.Valid()
    ensures Run(c, h).outOfSession == OutsideTicks(c, h) && Run(c, h).late == LateTicks(c, h)
  {
    if h != [] {
      var init, e := h[..|h| - 1], h[|h| - 1];
      RejectionsAreCounted(c, init);
      if e.Add? {
        RunFollows(c, init, e.tick.security);
      }
    }
  }

  /** An instrument's ticks that were neither outside the session nor late. */
  function AcceptedTicks(c: Config, h: seq<Event>, id: string): nat
    requires c.Valid()
  {
    if h == [] then 0
    else AcceptedTicks(c, h[..|h| - 1], id) + One(Counts(c, h[|h| - 1], id) && !Late(c, h[..|h| - 1], h[|h| - 1].tick))
  }

  /** Ticks in the bars that left the machine, published or discarded. */
  function ClosedTicks(c: Config, h: seq<Event>, id: string, published: bool): int
    requires c.Valid()
  {
    if h == [] then 0
    else
      var init, e := h[..|h| - 1], h[|h| - 1];
      var r := if e.Add? && e.tick.security == id then AddResult(Run(c, init), c, e.tick) else Nothing;
      ClosedTicks(c, init, id, published) +
      if r.Published? && published then r.bar.count else if r.Discarded? && !published then r.bar.count else 0
  }

  function OpenTicks(s: State, id: string): int {
    if id in s.bars then s.bars[id].count else 0
  }

  /** Every accepted tick is in exactly one bar: published, discarded or still open. */
  lemma {:induction false} EveryTickIsInOneBar(c: Config, h: seq<Event>, id: string)
    requires c.Valid()
    ensures AcceptedTicks(c, h, id) ==
            ClosedTicks(c, h, id, true) + ClosedTicks(c, h, id, false) + OpenTicks(Run(c, h), id)
  {
    if h != [] {
      var init, e := h[..|h| - 1], h[|h| - 1];
      EveryTickIsInOneBar(c, init, id);
      RunFollows(c, init, id);
      if Counts(c, e, id) {
        TickMoves(Run(c, init), c, e.tick);
      } else {
        OthersOnlyMark(Run(c, init), c, e, id);
      }
    }
  }

  // ------------------------------------------------------------------ flushing

  /** No open bar is for an interval already published: the duplicate error is out of reach. */
  ghost predicate OpenIsUnpublished(s: State) {
    forall id | id in s.bars :: (id, s.bars[id].start) !in s.published
  }

  /** The tick opens a bar for an interval that is already published; only a flush makes that possible. */
  predicate Reopens(s: State, c: Config, t: Tick)
    requires c.Valid()
  {
    && c.session.Contains(t.time) && (t.security, c.Bucket(t)) in s.published
    && (t.security in s.bars ==> c.Bucket(t) > s.bars[t.security].start)
  }

  /** With flushes, a tick keeps the error out of reach exactly when it reopens nothing. */
  lemma TickIsSafeExactly(s: State, c: Config, t: Tick)
    requires c.Valid() && OpenIsUnpublished(s)
    ensures !AddResult(s, c, t).Duplicate?
    ensures OpenIsUnpublished(Added(s, c, t)) <==> !Reopens(s, c, t)
  {
    var a := Added(s, c, t);
    if c.session.Contains(t.time) {
      TickMoves(s, c, t);
    }
    forall id | id in a.bars && id != t.security ensures (id, a.bars[id].start) !in a.published {
      OthersOnlyMark(s, c, Add(t), id);
    }
  }

  lemma FlushAndGapAreSafe(s: State, security: string, gap: Option<string>)
    requires OpenIsUnpublished(s)
    ensures !FlushResult(s, security).Duplicate? && OpenIsUnpublished(Flushed(s, security))
    ensures OpenIsUnpublished(Gapped(s, gap))
  {
  }

  /** What can happen to the machine, flushes included. */
  datatype Action = Feeding(event: Event) | Flushing(security: string)

  function Act(s: State, c: Config, a: Action): State
    requires c.Valid()
  {
    match a
    case Feeding(e) => Next(s, c, e)
    case Flushing(security) => Flushed(s, security)
  }

  /** The action reaches the duplicate-publication error. */
  predicate Raises(s: State, c: Config, a: Action)
    requires c.Valid()
  {
    match a
    case Feeding(Add(t)) => AddResult(s, c, t).Duplicate?
    case Feeding(Gap(_)) => false
    case Flushing(security) => FlushResult(s, security).Duplicate?
  }

  function Acted(c: Config, actions: seq<Action>): State
    requires c.Valid()
  {
    if actions == [] then EMPTY else Act(Acted(c, actions[..|actions| - 1]), c, actions[|actions| - 1])
  }

  /** Some next action would raise. */
  ghost predicate InReach(s: State, c: Config)
    requires c.Valid()
  {
    exists a: Action :: Raises(s, c, a)
  }

  /** The error is in reach exactly when some open bar is already published: flushing that bar raises. */
  lemma InReachExactly(s: State, c: Config)
    requires c.Valid()
    ensures InReach(s, c) <==> !OpenIsUnpublished(s)
  {
    if !OpenIsUnpublished(s) {
      var id :| id in s.bars && (id, s.bars[id].start) in s.published;
      assert Raises(s, c, Flushing(id));
    } else if InReach(s, c) {
      var a: Action :| Raises(s, c, a);
      match a
      case Feeding(e) =>
        if e.Add? {
          TickIsSafeExactly(s, c, e.tick);
        }
      case Flushing(security) => FlushAndGapAreSafe(s, security, None);
    }
  }

  predicate ReopensNow(s: State, c: Config, a: Action)
    requires c.Valid()
  {
    a.Feeding? && a.event.Add? && Reopens(s, c, a.event.tick)
  }

  ghost predicate NeverInReach(c: Config, actions: seq<Action>)
    requires c.Valid()
  {
    !InReach(Acted(c, actions), c) && (actions != [] ==> NeverInReach(c, actions[..|actions| - 1]))
  }

  predicate EverReopens(c: Config, actions: seq<Action>)
    requires c.Valid()
  {
    actions != [] &&
    var init := actions[..|actions| - 1];
    ReopensNow(Acted(c, init), c, actions[|actions| - 1]) || EverReopens(c, init)
  }

  predicate EverRaises(c: Config, actions: seq<Action>)
    requires c.Valid()
  {
    actions != [] &&
    var init := actions[..|actions| - 1];
    Raises(Acted(c, init), c, actions[|actions| - 1]) || EverRaises(c, init)
  }

  lemma ActIsSafeExactly(s: State, c: Config, a: Action)
    requires c.Valid() && OpenIsUnpublished(s)
    ensures !Raises(s, c, a)
    ensures OpenIsUnpublished(Act(s, c, a)) <==> !ReopensNow(s, c, a)
  {
    match a
    case Feeding(Add(t)) => TickIsSafeExactly(s, c, t);
    case Feeding(Gap(security)) => FlushAndGapAreSafe(s, "", security);
    case Flushing(security) => FlushAndGapAreSafe(s, security, None);
  }

  /**
   Over every run of ticks, gaps and flushes: the duplicate error never comes within reach, and so is
   never raised, if and only if no tick reopens an interval already published.
   */
  lemma {:induction false} ErrorStaysOutOfReachExactly(c: Config, actions: seq<Action>)
    requires c.Valid()
    ensures NeverInReach(c, actions) <==> !EverReopens(c, actions)
    ensures !EverReopens(c, actions) ==> !EverRaises(c, actions)
  {
    InReachExactly(Acted(c, actions), c);
    if actions != [] {
      var init := actions[..|actions| - 1];
      ErrorStaysOutOfReachExactly(c, init);
      InReachExactly(Acted(c, init), c);
      if NeverInReach(c, init) {
        ActIsSafeExactly(Acted(c, init), c, actions[|actions| - 1]);
      }
    }
  }

  // ------------------------------------------------------------------ what was closed

  /** The open bar that an action would close: a tick beyond its interval, or a flush of its instrument. */
  function Closing(s: State, c: Config, a: Action): Option<(string, Bar)>
    requires c.Valid()
  {
    match a
    case Feeding(Add(t)) =>
      if c.session.Contains(t.time) && t.security in s.bars && s.bars[t.security].start < Floor(t.time, c.interval, IST)
      then Some((t.security, s.bars[t.security])) else None
    case Feeding(Gap(_)) => None
    case Flushing(security) => if security in s.bars then Some((security, s.bars[security])) else None
  }

  ghost predicate WasClosed(closed: seq<(string, Bar)>, id: string, start: int) {
    exists i :: 0 <= i < |closed| && closed[i].0 == id && closed[i].1.start == start
  }

  /** The bars closed so far, in order; one for an interval that was closed before raises instead. */
  ghost function Closed(c: Config, actions: seq<Action>): seq<(string, Bar)>
    requires c.Valid()
  {
    if actions == [] then []
    else
      var init := actions[..|actions| - 1];
      var before, bar := Closed(c, init), Closing(Acted(c, init), c, actions[|actions| - 1]);
      if bar.Some? && !WasClosed(before, bar.value.0, bar.value.1.start) then before + [bar.value] else before
  }

  function Discards(closed: seq<(string, Bar)>): nat {
    if closed == [] then 0 else Discards(closed[..|closed| - 1]) + One(closed[|closed| - 1].1.gap)
  }

  /** The published intervals and the count of discarded bars are those of the bars closed. */
  ghost predicate ClosedIsRecorded(s: State, closed: seq<(string, Bar)>) {
    && (forall id, start :: (id, start) in s.published <==> WasClosed(closed, id, start))
    && s.dropped == Discards(closed)
  }

  lemma OneMoreClosed(closed: seq<(string, Bar)>, bar: (string, Bar))
    ensures Discards(closed + [bar]) == Discards(closed) + One(bar.1.gap)
    ensures forall id, start :: WasClosed(closed + [bar], id, start) <==>
              WasClosed(closed, id, start) || (id == bar.0 && start == bar.1.start)
  {
    var all := closed + [bar];
    assert all[..|closed|] == closed && all[|closed|] == bar;
    forall id, start | WasClosed(closed, id, start) ensures WasClosed(all, id, start) {
      var i :| 0 <= i < |closed| && closed[i].0 == id && closed[i].1.start == start;
      assert all[i] == closed[i];
    }
  }

  /** What an action answers, if it is one that answers. */
  function Answer(s: State, c: Config, a: Action): Result
    requires c.Valid()
  {
    match a
    case Feeding(Add(t)) => AddResult(s, c, t)
    case Feeding(Gap(_)) => Nothing
    case Flushing(security) => FlushResult(s, security)
  }

  lemma ActCloses(s: State, c: Config, a: Action, closed: seq<(string, Bar)>)
    requires c.Valid() && ClosedIsRecorded(s, closed)
    ensures var bar, t := Closing(s, c, a), Act(s, c, a);
            var counts := bar.Some? && !WasClosed(closed, bar.value.0, bar.value.1.start);
            && (forall id, start :: (id, start) in t.published <==>
                  (id, start) in s.published || (counts && id == bar.value.0 && start == bar.value.1.start))
            && t.dropped == s.dropped + One(counts && bar.value.1.gap)
            && Answer(s, c, a) == (if bar.None? then Nothing else if !counts then Duplicate
                                   else if bar.value.1.gap then Discarded(bar.value.1) else Published(bar.value.1))
  {
  }

  lemma {:induction false} RunRecordsClosed(c: Config, actions: seq<Action>)
    requires c.Valid()
    ensures ClosedIsRecorded(Acted(c, actions), Closed(c, actions))
  {
    if actions != [] {
      var init, a := actions[..|actions| - 1], actions[|actions| - 1];
      RunRecordsClosed(c, init);
      var s := Acted(c, init);
      ActCloses(s, c, a, Closed(c, init));
      if Closing(s, c, a).Some? {
        OneMoreClosed(Closed(c, init), Closing(s, c, a).value);
      }
    }
  }

  /**
   Over every run of ticks, gaps and flushes: an action that closes a bar publishes it, discards it if a
   gap hit it, or raises if its interval was closed before; the intervals counted as published and the
   count of discarded bars are exactly those of the bars closed.  A flush leaves its bar closed either way.
   */
  lemma ClosesOnceExactly(c: Config, actions: seq<Action>, a: Action)
    requires c.Valid()
    ensures var s, closed := Acted(c, actions), Closed(c, actions);
            var bar := Closing(s, c, a);
            && (forall id, start :: (id, start) in s.published <==> WasClosed(closed, id, start))
            && s.dropped == Discards(closed)
            && Answer(s, c, a) == (if bar.None? then Nothing
                                   else if WasClosed(closed, bar.value.0, bar.value.1.start) then Duplicate
                                   else if bar.value.1.gap then Discarded(bar.value.1) else Published(bar.value.1))
            && (a.Flushing? ==> Act(s, c, a).bars == s.bars - {a.security})
  {
    RunRecordsClosed(c, actions);
    ActCloses(Acted(c, actions), c, a, Closed(c, actions));
  }

  /** A reopened bar can never be closed: every tick beyond it raises and changes nothing. */
  lemma ReopenedBarNeverCloses(s: State, c: Config, t: Tick)
    requires c.Valid() && c.session.Contains(t.time) && t.security in s.bars
    requires (t.security, s.bars[t.security].start) in s.published && c.Bucket(t) > s.bars[t.security].start
    ensures AddResult(s, c, t).Duplicate? && Added(s, c, t) == s
  {
  }

  // ------------------------------------------------------------------ the object

  lemma MarkedStep(bars: map<string, Bar>, done: set<string>, key: string)
    requires key in bars && key !in done
    ensures var now := Marked(bars, done); Marked(bars, done + {key}) == now[key := now[key].(gap := true)]
  {
  }

  lemma MarkedOne(bars: map<string, Bar>, key: string)
    ensures Marked(bars, {key}) == if key in bars then bars[key := bars[key].(gap := true)] else bars
  {
  }

  class CandleAggregator {
    const config: Config
    var bars: map<string, Bar>
    var published: set<(string, int)>
    var outOfSession: nat
    var late: nat
    var dropped: nat

    function View(): State
      reads this
    {
      State(bars, published, outOfSession, late, dropped)
    }

    constructor (c: Config)
      ensures config == c && View() == EMPTY
    {
      config := c;
      bars, published, outOfSession, late, dropped := map[], {}, 0, 0, 0;
    }

    /** `_complete`: the interval counts as published either way. */
    method Complete(security: string, bar: Bar) returns (r: Result)
      modifies this`published, this`dropped
      ensures r == Completion(old(View()), security, bar)
      ensures published == if r.Duplicate? then old(published) else old(published) + {(security, bar.start)}
      ensures dropped == old(dropped) + if r.Discarded? then 1 else 0
    {
      if (security, bar.start) in published {
        return Duplicate;
      }
      published := published + {(security, bar.start)};
      if bar.gap {
        dropped := dropped + 1;
        return Discarded(bar);
      }
      r := Published(bar);
    }

    method AddTick(t: Tick) returns (r: Result)
      requires config.Valid()
      modifies this
      ensures View() == Added(old(View()), config, t) && r == AddResult(old(View()), config, t)
    {
      if !config.session.Contains(t.time) {
        outOfSession := outOfSession + 1;
        return Nothing;
      }
      var bucket := config.Bucket(t);
      if t.security !in bars {
        bars := bars[t.security := NewBar(bucket, t)];
        return Nothing;
      }
      var current := bars[t.security];
      if bucket == current.start {
        bars := bars[t.security := Absorb(current, t)];
        return Nothing;
      }
      if bucket < current.start {
        late := late + 1;
        return Nothing;
      }
      r := Complete(t.security, current);
      if !r.Duplicate? {
        bars := bars[t.security := NewBar(bucket, t)];
      }
    }

    /** Marks one instrument's open bar, or every open bar; returns how many. */
    method MarkFeedGap(security: Option<string>) returns (discarded: nat)
      modifies this`bars
      ensures View() == Gapped(old(View()), security)
      ensures discarded == if security.None? then |old(bars)| else One(security.value in old(bars))
    {
      if security.Some? {
        var id := security.value;
        MarkedOne(bars, id);
        if id !in bars {
          return 0;
        }
        bars := bars[id := bars[id].(gap := true)];
        return 1;
      }
      var keys := bars.Keys;
      ghost var before, done := bars, {};
      assert Marked(before, {}) == before;
      discarded := 0;
      while keys != {}
        invariant done + keys == before.Keys && done !! keys && discarded == |done|
        invariant bars == Marked(before, done)
        decreases |keys|
      {
        var key :| key in keys;
        MarkedStep(before, done, key);
        keys := keys - {key};
        done := done + {key};
        bars := bars[key := bars[key].(gap := true)];
        discarded := discarded + 1;
      }
      assert done == before.Keys && |before.Keys| == |before|;
    }

    /** `flush` of one instrument. */
    method Flush(security: string) returns (r: Result)
      modifies this
      ensures View() == Flushed(old(View()), security) && r == FlushResult(old(View()), security)
    {
      if security !in bars {
        return Nothing;
      }
      var bar := bars[security];
      bars := bars - {security};
      r := Complete(security, bar);
    }
  }
}
