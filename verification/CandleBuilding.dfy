/**
 `CandleBuilder`: the engine's own bars of one instrument, and when they are the hub's bars.

 The builder floors a timestamp in whatever zone it carries.  Live ticks carry UTC, so its buckets
 are UTC's while the aggregator's are India's, 19,800 seconds ahead.
 */
module CandleBuilding {
  import opened Prelude
  import Hub = CandleAggregation

  datatype Update = Update(price: real, time: int, volume: real)

  datatype Bar = Bar(
    start: int, open: real, high: real, low: real, close: real, volume: real, count: int, lastAt: int)

  datatype Candle = Candle(bar: Bar, spansGap: bool)

  function NewBar(start: int, u: Update): Bar {
    Bar(start, u.price, u.price, u.price, u.price, u.volume, 1, u.time)
  }

  function Absorb(b: Bar, u: Update): Bar {
    b.(high := Max(b.high, u.price), low := Min(b.low, u.price), close := u.price,
       volume := b.volume + u.volume, count := b.count + 1, lastAt := u.time)
  }

  /** The zone of live ticks. */
  const UTC := 0

  function Bucket(time: int, minutes: int): int
    requires minutes > 0
  {
    Hub.Floor(time, minutes * 60, UTC)
  }

  /** More than one interval between the last tick's bucket and this one's: a whole bar is missing. */
  predicate Hole(b: Bar, minutes: int, u: Update)
    requires minutes > 0
  {
    Bucket(u.time, minutes) - Bucket(b.lastAt, minutes) > minutes * 60
  }

  /** `add`: the bar left open... */
  function Added(current: Option<Bar>, minutes: int, u: Update): Bar
    requires minutes > 0
  {
    var bucket := Bucket(u.time, minutes);
    if current.None? || bucket > current.value.start then NewBar(bucket, u) else Absorb(current.value, u)
  }

  /** ...and the candle this update closed. */
  function Closed(current: Option<Bar>, minutes: int, u: Update): Option<Candle>
    requires minutes > 0
  {
    if current.Some? && Bucket(u.time, minutes) > current.value.start
    then Some(Candle(current.value, Hole(current.value, minutes, u))) else None
  }

  function Run(minutes: int, us: seq<Update>): Option<Bar>
    requires minutes > 0
  {
    if us == [] then None else Some(Added(Run(minutes, us[..|us| - 1]), minutes, us[|us| - 1]))
  }

  class CandleBuilder {
    const minutes: int
    var current: Option<Bar>

    constructor (minutes: int)
      requires minutes > 0
      ensures this.minutes == minutes && current == None
    {
      this.minutes := minutes;
      current := None;
    }

    /** `reset`, and the part of `retarget` that matters here: an open bar is never inherited. */
    method Reset()
      modifies this`current
      ensures current == None
    {
      current := None;
    }

    /** `add`; an update with negative volume raises and changes nothing. */
    method Add(u: Update) returns (raised: bool, candle: Option<Candle>)
      requires minutes > 0
      modifies this`current
      ensures raised == (u.volume < 0.0)
      ensures !raised ==> current == Some(Added(old(current), minutes, u)) && candle == Closed(old(current), minutes, u)
      ensures raised ==> current == old(current) && candle.None?
    {
      if u.volume < 0.0 {
        return true, None;
      }
      raised := false;
      var bucket := Bucket(u.time, minutes);
      if current.None? {
        current := Some(NewBar(bucket, u));
        return false, None;
      }
      var gapped := bucket - Bucket(current.value.lastAt, minutes) > minutes * 60;
      if bucket > current.value.start {
        candle := Some(Candle(current.value, gapped));
        current := Some(NewBar(bucket, u));
        return;
      }
      current := Some(Absorb(current.value, u));
      candle := None;
    }

    /** `flush`: the final partial bar. */
    method Flush() returns (bar: Option<Bar>)
      modifies this`current
      ensures bar == old(current) && current == None
    {
      bar := current;
      current := None;
    }
  }

  // ------------------------------------------------------------------ floors

  lemma ModShift(x: int, k: int, n: int)
    requires n > 0
    ensures (x + k) % n == x % n <==> k % n == 0
  {
    var q1, q2 := x / n, (x + k) / n;
    if (x + k) % n == x % n {
      assert k == (q2 - q1) * n;
      MultipleMod(q2 - q1, 0, n);
    }
    if k % n == 0 {
      assert x + k == (q1 + k / n) * n + x % n;
      MultipleMod(q1 + k / n, x % n, n);
    }
  }

  lemma MultipleMod(q: int, r: int, n: int)
    requires n > 0 && 0 <= r < n
    ensures (q * n + r) % n == r && (q * n + r) / n == q
  {
    var d := (q * n + r) / n - q;
    assert d * n + (q * n + r) % n == r;
  }

  lemma FloorIs(time: int, interval: int, offset: int)
    requires interval > 0
    ensures Hub.Floor(time, interval, offset) == time - (time + offset) % Hub.DAY % interval
  {
  }

  /** In session, the two zones floor an instant to the same bucket exactly when the interval divides their offset. */
  lemma SameBucketExactly(time: int, interval: int)
    requires interval > 0 && Hub.SESSION.Contains(time)
    ensures Hub.Floor(time, interval, Hub.IST) == Hub.Floor(time, interval, UTC) <==> Hub.IST % interval == 0
  {
    var x := time % Hub.DAY;
    assert (time + Hub.IST) % Hub.DAY == x + Hub.IST;
    FloorIs(time, interval, Hub.IST);
    FloorIs(time, interval, UTC);
    ModShift(x, Hub.IST, interval);
  }

  lemma DivMonotone(x: int, y: int, n: int)
    requires n > 0 && x <= y
    ensures x / n * n <= y / n * n
  {
    var d := y / n - x / n;
    assert y - x == d * n + y % n - x % n;
    assert d * n >= 0;
  }

  lemma LaterDay(x: int, y: int)
    requires x / Hub.DAY < y / Hub.DAY
    ensures x < y - y % Hub.DAY
  {
  }

  lemma FloorMonotone(t: int, u: int, interval: int, offset: int)
    requires interval > 0 && t <= u
    ensures Hub.Floor(t, interval, offset) <= Hub.Floor(u, interval, offset)
  {
    var x, y := t + offset, u + offset;
    if x / Hub.DAY == y / Hub.DAY {
      DivMonotone(x % Hub.DAY, y % Hub.DAY, interval);
    } else {
      LaterDay(x, y);
      FloorIs(t, interval, offset);
      DivMonotone(0, y % Hub.DAY, interval);
    }
  }

  // ------------------------------------------------------------------ what the builder emits

  /** The latest bucket of a non-empty stream. */
  function Latest(minutes: int, us: seq<Update>): int
    requires minutes > 0 && us != []
  {
    var last := Bucket(us[|us| - 1].time, minutes);
    if |us| == 1 then last
    else
      var before := Latest(minutes, us[..|us| - 1]);
      if last > before then last else before
  }

  lemma {:induction false} RunIsLatest(minutes: int, us: seq<Update>)
    requires minutes > 0 && us != []
    ensures Run(minutes, us).Some? && Run(minutes, us).value.start == Latest(minutes, us)
    ensures Run(minutes, us).value.lastAt == us[|us| - 1].time
  {
    if |us| > 1 {
      RunIsLatest(minutes, us[..|us| - 1]);
    }
  }

  /**
   In any order of updates, a candle closes exactly when a tick reaches beyond every earlier bucket;
   it is the latest bucket's, and marked exactly when a whole interval lies between the last tick's
   bucket and the new one.
   */
  lemma ClosesExactly(minutes: int, us: seq<Update>, u: Update)
    requires minutes > 0
    ensures var closed := Closed(Run(minutes, us), minutes, u);
            && (closed.Some? <==> us != [] && Bucket(u.time, minutes) > Latest(minutes, us))
            && (closed.Some? ==>
                  && closed.value.bar.start == Latest(minutes, us)
                  && (closed.value.spansGap <==>
                      Bucket(u.time, minutes) - Bucket(us[|us| - 1].time, minutes) > minutes * 60))
  {
    if us != [] {
      RunIsLatest(minutes, us);
    }
  }

  // ------------------------------------------------------------------ agreement with the hub

  /** One instrument's in-session stream, never going back in time. */
  ghost predicate Stream(ts: seq<Hub.Tick>) {
    && (forall i | 0 <= i < |ts| :: Hub.SESSION.Contains(ts[i].time) && ts[i].security == ts[0].security)
    && (forall i, j | 0 <= i < j < |ts| :: ts[i].time <= ts[j].time)
  }

  function Events(ts: seq<Hub.Tick>): seq<Hub.Event> {
    seq(|ts|, i requires 0 <= i < |ts| => Hub.Add(ts[i]))
  }

  function Updates(ts: seq<Hub.Tick>): seq<Update> {
    seq(|ts|, i requires 0 <= i < |ts| => UpdateOf(ts[i]))
  }

  function UpdateOf(t: Hub.Tick): Update {
    Update(t.price, t.time, t.quantity as real)
  }

  function HubConfig(minutes: int): Hub.Config {
    Hub.Config(minutes * 60, Hub.SESSION)
  }

  function FromHub(minutes: int, ts: seq<Hub.Tick>, t: Hub.Tick): Hub.Result
    requires minutes > 0
  {
    Hub.AddResult(Hub.Run(HubConfig(minutes), Events(ts)), HubConfig(minutes), t)
  }

  function FromBuilder(minutes: int, ts: seq<Hub.Tick>, t: Hub.Tick): Option<Candle>
    requires minutes > 0
  {
    Closed(Run(minutes, Updates(ts)), minutes, UpdateOf(t))
  }

  /** Same start instant, prices, volume and tick count. */
  ghost predicate SameBar(h: Hub.Bar, b: Bar) {
    && h.start == b.start && h.open == b.open && h.high == b.high && h.low == b.low && h.close == b.close
    && h.count == b.count && h.volume == Round(b.volume) && b.volume == h.volume as real
  }

  /** The two answer a tick with the same bar, or both with none. */
  ghost predicate SameAnswer(r: Hub.Result, c: Option<Candle>) {
    && (r.Published? <==> c.Some?)
    && (r.Published? ==> SameBar(r.bar, c.value.bar))
  }

  /** They answer every tick of the stream alike. */
  ghost predicate Agree(minutes: int, ts: seq<Hub.Tick>)
    requires minutes > 0
  {
    forall k | 0 <= k < |ts| :: SameAnswer(FromHub(minutes, ts[..k], ts[k]), FromBuilder(minutes, ts[..k], ts[k]))
  }

  lemma LastEvent(ts: seq<Hub.Tick>)
    requires ts != []
    ensures Events(ts)[..|ts| - 1] == Events(ts[..|ts| - 1]) && Updates(ts)[..|ts| - 1] == Updates(ts[..|ts| - 1])
  {
  }

  /** The two machines hold the same open bar. */
  ghost predicate InTandem(s: Hub.State, b: Option<Bar>, id: string) {
    && (id in s.bars <==> b.Some?)
    && (b.Some? ==> SameBar(s.bars[id], b.value) && !s.bars[id].gap)
    && forall start | (id, start) in s.published :: b.Some? && start < b.value.start
  }

  lemma TandemStep(s: Hub.State, b: Option<Bar>, minutes: int, t: Hub.Tick)
    requires minutes > 0 && InTandem(s, b, t.security) && Hub.SESSION.Contains(t.time)
    requires HubConfig(minutes).Bucket(t) == Bucket(t.time, minutes)
    requires b.Some? ==> b.value.start <= Bucket(t.time, minutes)
    ensures SameAnswer(Hub.AddResult(s, HubConfig(minutes), t), Closed(b, minutes, UpdateOf(t)))
    ensures InTandem(Hub.Added(s, HubConfig(minutes), t), Some(Added(b, minutes, UpdateOf(t))), t.security)
  {
    Hub.TickMoves(s, HubConfig(minutes), t);
  }

  lemma {:induction false} StayInTandem(minutes: int, ts: seq<Hub.Tick>, id: string)
    requires minutes > 0 && Hub.IST % (minutes * 60) == 0 && Stream(ts)
    requires forall i | 0 <= i < |ts| :: ts[i].security == id
    ensures InTandem(Hub.Run(HubConfig(minutes), Events(ts)), Run(minutes, Updates(ts)), id)
    ensures ts != [] ==> Run(minutes, Updates(ts)).value.start <= Bucket(ts[|ts| - 1].time, minutes)
  {
    if ts != [] {
      var init, t := ts[..|ts| - 1], ts[|ts| - 1];
      StayInTandem(minutes, init, id);
      LastEvent(ts);
      SameBucketExactly(t.time, minutes * 60);
      if init != [] {
        FloorMonotone(init[|init| - 1].time, t.time, minutes * 60, UTC);
      }
      TandemStep(Hub.Run(HubConfig(minutes), Events(init)), Run(minutes, Updates(init)), minutes, t);
    }
  }

  lemma AgreeWhenAligned(minutes: int, ts: seq<Hub.Tick>)
    requires minutes > 0 && Hub.IST % (minutes * 60) == 0 && Stream(ts)
    ensures Agree(minutes, ts)
  {
    forall k | 0 <= k < |ts| ensures SameAnswer(FromHub(minutes, ts[..k], ts[k]), FromBuilder(minutes, ts[..k], ts[k])) {
      var t := ts[k];
      StayInTandem(minutes, ts[..k], t.security);
      SameBucketExactly(t.time, minutes * 60);
      if k > 0 {
        FloorMonotone(ts[k - 1].time, t.time, minutes * 60, UTC);
      }
      TandemStep(Hub.Run(HubConfig(minutes), Events(ts[..k])), Run(minutes, Updates(ts[..k])), minutes, t);
    }
  }

  lemma {:induction false} LatestIsLast(minutes: int, ts: seq<Hub.Tick>)
    requires minutes > 0 && Stream(ts) && ts != []
    ensures Latest(minutes, Updates(ts)) == Bucket(ts[|ts| - 1].time, minutes)
    ensures Hub.Latest(HubConfig(minutes), Events(ts), ts[0].security) ==
            Some(Hub.Floor(ts[|ts| - 1].time, minutes * 60, Hub.IST))
  {
    LastEvent(ts);
    var init, t := ts[..|ts| - 1], ts[|ts| - 1];
    if init != [] {
      LatestIsLast(minutes, init);
      FloorMonotone(init[|init| - 1].time, t.time, minutes * 60, UTC);
      FloorMonotone(init[|init| - 1].time, t.time, minutes * 60, Hub.IST);
    } else {
      assert Hub.Latest(HubConfig(minutes), Events(init), ts[0].security).None?;
    }
  }

  /** Neither machine closes a bar anywhere in the stream. */
  ghost predicate Silent(minutes: int, ts: seq<Hub.Tick>)
    requires minutes > 0
  {
    forall k | 0 <= k < |ts| ::
      !FromHub(minutes, ts[..k], ts[k]).Published? && FromBuilder(minutes, ts[..k], ts[k]).None?
  }

  lemma MisalignedAnswersDiffer(minutes: int, ts: seq<Hub.Tick>, t: Hub.Tick)
    requires minutes > 0 && Hub.IST % (minutes * 60) != 0 && Stream(ts + [t])
    requires FromHub(minutes, ts, t).Published? || FromBuilder(minutes, ts, t).Some?
    ensures !SameAnswer(FromHub(minutes, ts, t), FromBuilder(minutes, ts, t))
  {
    var all := ts + [t];
    assert forall i | 0 <= i < |ts| :: ts[i] == all[i];
    Hub.CompletesExactly(HubConfig(minutes), Events(ts), t);
    ClosesExactly(minutes, Updates(ts), UpdateOf(t));
    if ts != [] {
      assert all[0] == ts[0] && all[|ts|] == t;
      LatestIsLast(minutes, ts);
      SameBucketExactly(ts[|ts| - 1].time, minutes * 60);
    }
  }

  lemma StreamPrefix(ts: seq<Hub.Tick>, k: nat)
    requires Stream(ts) && k < |ts|
    ensures Stream(ts[..k] + [ts[k]])
  {
    assert ts[..k] + [ts[k]] == ts[..k + 1];
  }

  lemma AgreeingIsSilent(minutes: int, ts: seq<Hub.Tick>, k: nat)
    requires minutes > 0 && Hub.IST % (minutes * 60) != 0 && Stream(ts) && Agree(minutes, ts) && k < |ts|
    ensures !FromHub(minutes, ts[..k], ts[k]).Published? && FromBuilder(minutes, ts[..k], ts[k]).None?
  {
    StreamPrefix(ts, k);
    assert SameAnswer(FromHub(minutes, ts[..k], ts[k]), FromBuilder(minutes, ts[..k], ts[k]));
    if FromHub(minutes, ts[..k], ts[k]).Published? || FromBuilder(minutes, ts[..k], ts[k]).Some? {
      MisalignedAnswersDiffer(minutes, ts[..k], ts[k]);
    }
  }

  /** On any one stream, aggregator and builder answer alike exactly when the interval is aligned or no bar ever closes. */
  lemma AgreeOnStreamExactly(minutes: int, ts: seq<Hub.Tick>)
    requires minutes > 0 && Stream(ts)
    ensures Agree(minutes, ts) <==> Hub.IST % (minutes * 60) == 0 || Silent(minutes, ts)
  {
    if Hub.IST % (minutes * 60) == 0 {
      AgreeWhenAligned(minutes, ts);
    } else if Agree(minutes, ts) {
      forall k | 0 <= k < |ts|
        ensures !FromHub(minutes, ts[..k], ts[k]).Published? && FromBuilder(minutes, ts[..k], ts[k]).None?
      {
        AgreeingIsSilent(minutes, ts, k);
      }
    }
  }

  /** The same time of day on two days running. */
  function TwoDays(): seq<Hub.Tick> {
    var open := Hub.SESSION.start - Hub.IST;
    [Hub.Tick("", 1.0, 1, open), Hub.Tick("", 1.0, 1, open + Hub.DAY)]
  }

  lemma TwoDaysSpeak(minutes: int)
    requires minutes > 0
    ensures Stream(TwoDays()) && !Silent(minutes, TwoDays())
  {
    var ts := TwoDays();
    assert ts[..1] == [ts[0]] && Updates([ts[0]]) == [UpdateOf(ts[0])];
    ClosesExactly(minutes, [UpdateOf(ts[0])], UpdateOf(ts[1]));
    FloorIs(ts[0].time, minutes * 60, UTC);
    FloorIs(ts[1].time, minutes * 60, UTC);
    assert FromBuilder(minutes, ts[..1], ts[1]).Some?;
  }

  /**
   Hub and engine build the same bars on every in-session stream exactly when the interval divides
   the 19,800 seconds between their clocks.
   */
  lemma SameBarsExactly(minutes: int)
    requires minutes > 0
    ensures (forall ts | Stream(ts) :: Agree(minutes, ts)) <==> Hub.IST % (minutes * 60) == 0
  {
    if Hub.IST % (minutes * 60) == 0 {
      forall ts | Stream(ts) ensures Agree(minutes, ts) {
        AgreeWhenAligned(minutes, ts);
      }
    } else {
      TwoDaysSpeak(minutes);
      AgreeOnStreamExactly(minutes, TwoDays());
    }
  }

  // ------------------------------------------------------------------ within one day

  /** The engine starts its builder afresh each day, so a stream of one day is what it really sees. */
  ghost predicate OneDay(ts: seq<Hub.Tick>) {
    forall i | 0 <= i < |ts| :: (ts[i].time + Hub.IST) / Hub.DAY == (ts[0].time + Hub.IST) / Hub.DAY
  }

  /** The session's first second and, the same day, the first second of a later bucket of one of the clocks. */
  function OpenAnd(second: int): seq<Hub.Tick> {
    [Hub.Tick("", 1.0, 1, Hub.SESSION.start - Hub.IST), Hub.Tick("", 1.0, 1, second)]
  }

  lemma StepUp(x: int, n: int)
    requires 0 <= x && n > 0
    ensures x < (x / n + 1) * n <= x + n
    ensures x < n ==> (x / n + 1) * n == n
  {
    assert (x / n + 1) * n == x / n * n + n;
    if x < n {
      Small(x, n);
    }
  }

  const OPENS := Hub.SESSION.start - Hub.IST
  const ENDS := Hub.SESSION.end - Hub.IST

  /** The next boundary of the builder's clock after the session opens, when one comes before it ends. */
  lemma BuilderBoundary(interval: int) returns (second: int)
    requires 0 < interval < ENDS
    ensures OPENS < second < ENDS && Hub.Floor(OPENS, interval, UTC) < Hub.Floor(second, interval, UTC)
  {
    StepUp(OPENS, interval);
    second := (OPENS / interval + 1) * interval;
    MultipleMod(OPENS / interval + 1, 0, interval);
    Small(second, Hub.DAY);
    FloorIs(OPENS, interval, UTC);
    FloorIs(second, interval, UTC);
  }

  lemma HubBoundary(interval: int)
    requires ENDS <= interval < Hub.SESSION.end
    ensures Hub.Floor(OPENS, interval, Hub.IST) < Hub.Floor(interval - Hub.IST, interval, Hub.IST)
  {
    Small(Hub.SESSION.start, interval);
    MultipleMod(1, 0, interval);
    FloorIs(OPENS, interval, Hub.IST);
    FloorIs(interval - Hub.IST, interval, Hub.IST);
  }

  lemma OpenAndIsAStream(second: int)
    requires OPENS <= second < ENDS
    ensures Stream(OpenAnd(second)) && OneDay(OpenAnd(second)) && OpenAnd(second)[..1] == [OpenAnd(second)[0]]
  {
  }

  lemma BuilderSpeaks(minutes: int, second: int)
    requires minutes > 0 && Bucket(OPENS, minutes) < Bucket(second, minutes)
    ensures FromBuilder(minutes, [OpenAnd(second)[0]], OpenAnd(second)[1]).Some?
  {
    var ts := OpenAnd(second);
    assert Updates([ts[0]]) == [UpdateOf(ts[0])];
    ClosesExactly(minutes, [UpdateOf(ts[0])], UpdateOf(ts[1]));
  }

  lemma HubSpeaks(minutes: int, second: int)
    requires minutes > 0 && OPENS <= second < ENDS
    requires Hub.Floor(OPENS, minutes * 60, Hub.IST) < Hub.Floor(second, minutes * 60, Hub.IST)
    ensures FromHub(minutes, [OpenAnd(second)[0]], OpenAnd(second)[1]).Published?
  {
    var first, t := OpenAnd(second)[0], OpenAnd(second)[1];
    assert Stream([first]);
    LatestIsLast(minutes, [first]);
    HubPublishes(HubConfig(minutes), Events([first]), t, Hub.Floor(OPENS, minutes * 60, Hub.IST));
  }

  /** A tick past the latest bucket publishes it, when no gap was ever marked. */
  lemma HubPublishes(c: Hub.Config, h: seq<Hub.Event>, t: Hub.Tick, latest: int)
    requires c.Valid() && (forall k | 0 <= k < |h| :: h[k].Add?) && c.session.Contains(t.time)
    requires Hub.Latest(c, h, t.security) == Some(latest) && c.Bucket(t) > latest
    ensures Hub.AddResult(Hub.Run(c, h), c, t).Published?
  {
    Hub.CompletesExactly(c, h, t);
    NoGapInTicks(c, h, t.security, latest);
  }

  lemma NoGapInTicks(c: Hub.Config, h: seq<Hub.Event>, id: string, bucket: int)
    requires c.Valid() && forall k | 0 <= k < |h| :: h[k].Add?
    ensures !Hub.GapHit(c, h, id, bucket)
  {
  }

  /** An interval that reaches past the session has one bucket a day, on either clock. */
  lemma OneBucketADay(time: int, other: int, interval: int)
    requires interval >= Hub.SESSION.end && Hub.SESSION.Contains(time) && Hub.SESSION.Contains(other)
    requires (time + Hub.IST) / Hub.DAY == (other + Hub.IST) / Hub.DAY
    ensures Hub.Floor(time, interval, UTC) == Hub.Floor(other, interval, UTC)
    ensures Hub.Floor(time, interval, Hub.IST) == Hub.Floor(other, interval, Hub.IST)
  {
    var d := (time + Hub.IST) / Hub.DAY;
    Small((time + Hub.IST) % Hub.DAY, interval);
    Small((other + Hub.IST) % Hub.DAY, interval);
    assert time % Hub.DAY == (time + Hub.IST) % Hub.DAY - Hub.IST && other % Hub.DAY == (other + Hub.IST) % Hub.DAY - Hub.IST;
    Small(time % Hub.DAY, interval);
    Small(other % Hub.DAY, interval);
    FloorIs(time, interval, UTC);
    FloorIs(other, interval, UTC);
    FloorIs(time, interval, Hub.IST);
    FloorIs(other, interval, Hub.IST);
  }

  lemma Small(x: int, n: int)
    requires 0 <= x < n
    ensures x % n == x && x / n == 0
  {
  }

  lemma LongIntervalsAreSilent(minutes: int, ts: seq<Hub.Tick>)
    requires minutes * 60 >= Hub.SESSION.end && Stream(ts) && OneDay(ts)
    ensures Silent(minutes, ts)
  {
    forall k | 0 <= k < |ts|
      ensures !FromHub(minutes, ts[..k], ts[k]).Published? && FromBuilder(minutes, ts[..k], ts[k]).None?
    {
      Hub.CompletesExactly(HubConfig(minutes), Events(ts[..k]), ts[k]);
      ClosesExactly(minutes, Updates(ts[..k]), UpdateOf(ts[k]));
      if k > 0 {
        LatestIsLast(minutes, ts[..k]);
        OneBucketADay(ts[k - 1].time, ts[k].time, minutes * 60);
      } else {
        assert Events(ts[..k]) == [] && Updates(ts[..k]) == [];
      }
    }
  }

  /**
   Within one day they build the same bars on every in-session stream exactly when the interval
   divides the offset, or is so long that no bar ever closes before the session ends.
   */
  lemma SameBarsWithinADayExactly(minutes: int)
    requires minutes > 0
    ensures (forall ts | Stream(ts) && OneDay(ts) :: Agree(minutes, ts)) <==>
            Hub.IST % (minutes * 60) == 0 || minutes * 60 >= Hub.SESSION.end
  {
    if Hub.IST % (minutes * 60) == 0 || minutes * 60 >= Hub.SESSION.end {
      forall ts | Stream(ts) && OneDay(ts) ensures Agree(minutes, ts) {
        AgreeOnStreamExactly(minutes, ts);
        if minutes * 60 >= Hub.SESSION.end {
          LongIntervalsAreSilent(minutes, ts);
        }
      }
    } else {
      var second := minutes * 60 - Hub.IST;
      if minutes * 60 < ENDS {
        second := BuilderBoundary(minutes * 60);
        BuilderSpeaks(minutes, second);
      } else {
        HubBoundary(minutes * 60);
        HubSpeaks(minutes, second);
      }
      OpenAndIsAStream(second);
      AgreeOnStreamExactly(minutes, OpenAnd(second));
      assert !Silent(minutes, OpenAnd(second));
    }
  }
}
