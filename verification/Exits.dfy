/**
 The exit engines and their composite: what each remembers between candles, when it fires, and what
 a restart can see of it.
 */
module Exits {
  import opened Prelude

  /** The open position, as an exit engine reads it. */
  datatype Position = Position(side: Side, optionType: OptionType, entry: real, last: real)

  datatype Candle = Candle(high: real, low: real, close: real)

  /** One call: the candle, the one before it in the caller's history, and the indicator and clock readings. */
  datatype Input = Input(
    position: Position, candle: Candle, previous: Option<Candle>, trend: Option<int>, time: Option<int>)

  /** Whether "long" means a call or a bought option. */
  datatype Basis = ByOptionType | BySide

  datatype Trail = InPoints(points: real) | InPercent(percent: real, gate: Option<real>)

  /** A configured engine. */
  datatype Rule =
    | StopLoss(points: real)
    | FixedTarget(points: real)
    | MomentumClose(premium: bool)
    | MomentumLow(basis: Basis)
    | HighestClose(basis: Basis, trail: Trail)
    | ConsecutiveReversal(candles: int)
    | TrendFlip
    | Trailing(trailPoints: real)
    | TimeOfDay(at: int)

  /** What an engine keeps from candle to candle. */
  datatype Memory =
    | Stateless
    | Extreme(extreme: Option<real>, activated: bool)
    | Streak(streak: int, previousClose: Option<real>)
    | Peak(peak: real)

  function Fresh(r: Rule): Memory {
    match r
    case HighestClose(_, _) => Extreme(None, false)
    case ConsecutiveReversal(_) => Streak(0, None)
    case Trailing(_) => Peak(0.0)
    case _ => Stateless
  }

  function Profit(p: Position): real {
    if p.side == Buy then p.last - p.entry else p.entry - p.last
  }

  predicate Long(b: Basis, p: Position) {
    if b == BySide then p.side == Buy else p.optionType == CE
  }

  /** The close is on the losing side of an earlier one. */
  predicate Adverse(long: bool, close: real, earlier: real) {
    if long then close < earlier else close > earlier
  }

  // ------------------------------------------------------------------ one candle

  function BestClose(long: bool, extreme: Option<real>, close: real): real {
    if extreme.None? then close else if long then Max(extreme.value, close) else Min(extreme.value, close)
  }

  /** How far, in percent, `from` lies beyond `base` in the favourable direction. */
  function Percent(long: bool, from: real, base: real): real
    requires base > 0.0
  {
    (if long then from - base else base - from) / base * 100.0
  }

  /** Prices are positive: a zero entry or extreme would divide by zero. */
  predicate Priced(i: Input) {
    i.position.entry > 0.0 && i.candle.close > 0.0
  }

  predicate Sane(m: Memory) {
    m.Extreme? && m.extreme.Some? ==> m.extreme.value > 0.0
  }

  predicate Matches(r: Rule, m: Memory) {
    match r
    case HighestClose(_, _) => m.Extreme?
    case ConsecutiveReversal(_) => m.Streak?
    case Trailing(_) => m.Peak?
    case _ => m.Stateless?
  }

  /** The gate is open, now or from before; without one it always is. */
  predicate Open(t: Trail, activated: bool, long: bool, extreme: real, entry: real)
    requires t.InPercent? && entry > 0.0
  {
    t.gate.None? || activated || Percent(long, extreme, entry) >= t.gate.value
  }

  function Advanced(r: Rule, m: Memory, i: Input): Memory
    requires Matches(r, m) && Sane(m) && Priced(i)
  {
    match r
    case HighestClose(basis, trail) =>
      var long := Long(basis, i.position);
      var extreme := BestClose(long, m.extreme, i.candle.close);
      Extreme(Some(extreme),
              m.activated || (trail.InPercent? && trail.gate.Some? && Open(trail, false, long, extreme, i.position.entry)))
    case ConsecutiveReversal(_) =>
      var adverse := m.previousClose.Some? && Adverse(i.position.optionType == CE, i.candle.close, m.previousClose.value);
      Streak(if m.previousClose.None? then m.streak else if adverse then m.streak + 1 else 0, Some(i.candle.close))
    case Trailing(_) => Peak(Max(m.peak, Profit(i.position)))
    case _ => m
  }

  predicate TrailFires(trail: Trail, m: Memory, long: bool, i: Input)
    requires m.Extreme? && Sane(m) && Priced(i)
  {
    var close, extreme := i.candle.close, BestClose(long, m.extreme, i.candle.close);
    match trail
    case InPoints(points) => (if long then extreme - close else close - extreme) >= points
    case InPercent(percent, _) =>
      Open(trail, m.activated, long, extreme, i.position.entry) &&
      (if long then extreme - close else close - extreme) / extreme * 100.0 >= percent
  }

  predicate Fires(r: Rule, m: Memory, i: Input)
    requires Matches(r, m) && Sane(m) && Priced(i)
  {
    match r
    case StopLoss(points) => -Profit(i.position) >= points
    case FixedTarget(points) => Profit(i.position) >= points
    case MomentumClose(premium) =>
      i.previous.Some? &&
      Adverse(if premium then i.position.side == Buy else i.position.optionType == CE, i.candle.close, i.previous.value.close)
    case MomentumLow(basis) => Broke(Long(basis, i.position), i)
    case HighestClose(basis, trail) => TrailFires(trail, m, Long(basis, i.position), i)
    case ConsecutiveReversal(candles) => Advanced(r, m, i).streak >= Needed(candles)
    case TrendFlip => i.trend.Some? && i.trend.value == if i.position.optionType == CE then -1 else 1
    case Trailing(points) =>
      var peak := Advanced(r, m, i).peak;
      peak > 0.0 && peak - Profit(i.position) >= points
    case TimeOfDay(at) => i.time.Some? && i.time.value >= at
  }

  predicate Broke(long: bool, i: Input) {
    i.previous.Some? && if long then i.candle.close < i.previous.value.low else i.candle.close > i.previous.value.high
  }

  function Needed(candles: int): int {
    if candles < 1 then 1 else candles
  }

  // ------------------------------------------------------------------ snapshot and restore

  /** None stands for an empty snapshot, which is not stored. */
  function Snapshot(m: Memory): Option<Memory> {
    match m
    case Stateless => None
    case Extreme(extreme, _) => if extreme.None? then None else Some(m)
    case Streak(streak, previous) => if streak == 0 && previous.None? then None else Some(m)
    case Peak(peak) => if peak > 0.0 then Some(m) else None
  }

  /** `restore`: a field that is missing or foreign leaves what is there. */
  function Restored(m: Memory, data: Memory): Memory {
    match m
    case Stateless => m
    case Extreme(_, _) => if data.Extreme? && data.extreme.Some? then data else m
    case Streak(_, previous) =>
      if data.Streak? then Streak(data.streak, if data.previousClose.Some? then data.previousClose else previous) else m
    case Peak(_) => if data.Peak? then data else m
  }

  /** What every engine's memory satisfies from its reset on. */
  predicate Reachable(r: Rule, m: Memory) {
    && Matches(r, m) && Sane(m)
    && (m.Extreme? && m.extreme.None? ==> !m.activated)
    && (m.Streak? ==> m.streak >= 0 && (m.previousClose.None? ==> m.streak == 0))
    && (m.Peak? ==> m.peak >= 0.0)
  }

  lemma AdvanceIsReachable(r: Rule, m: Memory, i: Input)
    requires Reachable(r, m) && Priced(i)
    ensures Reachable(r, Advanced(r, m, i))
  {
  }

  /** A snapshot is the memory itself, and there is none exactly while the engine has nothing to remember. */
  lemma SnapshotExactly(r: Rule, m: Memory)
    requires Reachable(r, m)
    ensures Snapshot(m) == if m == Fresh(r) then None else Some(m)
  {
  }

  /** Data of another kind, or without the field, is ignored; a streak may come without its last close. */
  lemma RestoresExactly(m: Memory, data: Memory)
    ensures Restored(m, data) ==
            if (m.Extreme? && data.Extreme? && data.extreme.Some?) || (m.Peak? && data.Peak?) then data
            else if m.Streak? && data.Streak? then
              Streak(data.streak, if data.previousClose.Some? then data.previousClose else m.previousClose)
            else m
  {
  }

  /** A fresh engine, restored from a reachable engine's snapshot if it has one, is that engine again. */
  lemma RestoreIsExact(r: Rule, m: Memory)
    requires Reachable(r, m)
    ensures (if Snapshot(m).Some? then Restored(Fresh(r), Snapshot(m).value) else Fresh(r)) == m
  {
  }

  // ------------------------------------------------------------------ the composite

  /** The settings key an engine is built from; its label. */
  datatype Label = LStopLoss | LTarget | LMomentumClose | LMomentumLow | LHighestClose | LConsecutive | LTrend | LTrailing | LSquareOff

  function LabelOf(r: Rule): Label {
    match r
    case StopLoss(_) => LStopLoss
    case FixedTarget(_) => LTarget
    case MomentumClose(_) => LMomentumClose
    case MomentumLow(_) => LMomentumLow
    case HighestClose(_, _) => LHighestClose
    case ConsecutiveReversal(_) => LConsecutive
    case TrendFlip => LTrend
    case Trailing(_) => LTrailing
    case TimeOfDay(_) => LSquareOff
  }

  predicate AllReachable(rs: seq<Rule>, ms: seq<Memory>) {
    |rs| == |ms| && forall k | 0 <= k < |rs| :: Reachable(rs[k], ms[k])
  }

  function AllFresh(rs: seq<Rule>): (ms: seq<Memory>)
    ensures AllReachable(rs, ms)
  {
    seq(|rs|, k requires 0 <= k < |rs| => Fresh(rs[k]))
  }

  /** `should_exit` advances every engine, also those behind the one that fires. */
  function AllAdvanced(rs: seq<Rule>, ms: seq<Memory>, i: Input): (r: seq<Memory>)
    requires AllReachable(rs, ms) && Priced(i)
    ensures AllReachable(rs, r)
  {
    seq(|rs|, k requires 0 <= k < |rs| => AdvanceIsReachable(rs[k], ms[k], i); Advanced(rs[k], ms[k], i))
  }

  /** The index of the engine whose reason wins: the first that fires. */
  function FirstFired(rs: seq<Rule>, ms: seq<Memory>, i: Input): (r: Option<nat>)
    requires AllReachable(rs, ms) && Priced(i)
    ensures r.Some? ==> r.value < |rs| && Fires(rs[r.value], ms[r.value], i)
    ensures forall k | 0 <= k < (if r.Some? then r.value else |rs|) :: !Fires(rs[k], ms[k], i)
  {
    if rs == [] then None
    else
      var init := FirstFired(rs[..|rs| - 1], ms[..|rs| - 1], i);
      if init.Some? then init
      else if Fires(rs[|rs| - 1], ms[|rs| - 1], i) then Some(|rs| - 1) else None
  }

  /** The first of the engines up to `n` that fires. */
  ghost predicate FirstAmong(rs: seq<Rule>, ms: seq<Memory>, i: Input, fired: Option<nat>, n: nat)
    requires AllReachable(rs, ms) && Priced(i) && n <= |rs|
  {
    && (fired.Some? ==> fired.value < n && Fires(rs[fired.value], ms[fired.value], i))
    && forall k | 0 <= k < (if fired.Some? then fired.value else n) :: !Fires(rs[k], ms[k], i)
  }

  lemma FirstAmongAll(rs: seq<Rule>, ms: seq<Memory>, i: Input, fired: Option<nat>)
    requires AllReachable(rs, ms) && Priced(i) && FirstAmong(rs, ms, i, fired, |rs|)
    ensures fired == FirstFired(rs, ms, i)
  {
  }

  /** The snapshots worth keeping, by label. */
  function SnapshotAll(rs: seq<Rule>, ms: seq<Memory>): map<Label, Memory>
    requires |rs| == |ms|
  {
    if rs == [] then map[]
    else
      var n := |rs| - 1;
      var rest := SnapshotAll(rs[..n], ms[..n]);
      if Snapshot(ms[n]).Some? then rest[LabelOf(rs[n]) := Snapshot(ms[n]).value] else rest
  }

  /** Labels nobody knows are skipped. */
  function RestoreAll(rs: seq<Rule>, data: map<Label, Memory>): (ms: seq<Memory>)
    ensures |ms| == |rs|
  {
    seq(|rs|, k requires 0 <= k < |rs| =>
      if LabelOf(rs[k]) in data then Restored(Fresh(rs[k]), data[LabelOf(rs[k])]) else Fresh(rs[k]))
  }

  ghost predicate Distinct(rs: seq<Rule>) {
    forall j, k | 0 <= j < k < |rs| :: LabelOf(rs[j]) != LabelOf(rs[k])
  }

  lemma {:induction false} SnapshotAllIs(rs: seq<Rule>, ms: seq<Memory>, k: nat)
    requires |rs| == |ms| && Distinct(rs) && k < |rs|
    ensures LabelOf(rs[k]) in SnapshotAll(rs, ms) <==> Snapshot(ms[k]).Some?
    ensures Snapshot(ms[k]).Some? ==> SnapshotAll(rs, ms)[LabelOf(rs[k])] == Snapshot(ms[k]).value
  {
    var n := |rs| - 1;
    if k < n {
      SnapshotAllIs(rs[..n], ms[..n], k);
    } else {
      SnapshotsOnlyOf(rs[..n], ms[..n], LabelOf(rs[n]));
    }
  }

  lemma {:induction false} SnapshotsOnlyOf(rs: seq<Rule>, ms: seq<Memory>, l: Label)
    requires |rs| == |ms| && forall k | 0 <= k < |rs| :: LabelOf(rs[k]) != l
    ensures l !in SnapshotAll(rs, ms)
  {
    if rs != [] {
      SnapshotsOnlyOf(rs[..|rs| - 1], ms[..|rs| - 1], l);
    }
  }

  lemma RestoreAllIsExact(rs: seq<Rule>, ms: seq<Memory>)
    requires Distinct(rs) && AllReachable(rs, ms)
    ensures RestoreAll(rs, SnapshotAll(rs, ms)) == ms
  {
    forall k | 0 <= k < |rs| ensures RestoreAll(rs, SnapshotAll(rs, ms))[k] == ms[k] {
      SnapshotAllIs(rs, ms, k);
      RestoreIsExact(rs[k], ms[k]);
    }
  }

  ghost predicate AllPriced(inputs: seq<Input>) {
    forall k | 0 <= k < |inputs| :: Priced(inputs[k])
  }

  ghost function After(rs: seq<Rule>, ms: seq<Memory>, inputs: seq<Input>): (r: seq<Memory>)
    requires AllReachable(rs, ms) && AllPriced(inputs)
    ensures AllReachable(rs, r)
  {
    if inputs == [] then ms
    else AllAdvanced(rs, After(rs, ms, inputs[..|inputs| - 1]), inputs[|inputs| - 1])
  }

  /** The first-fired engine at each candle. */
  ghost function Decisions(rs: seq<Rule>, ms: seq<Memory>, inputs: seq<Input>): seq<Option<nat>>
    requires AllReachable(rs, ms) && AllPriced(inputs)
  {
    if inputs == [] then []
    else
      var init := inputs[..|inputs| - 1];
      Decisions(rs, ms, init) + [FirstFired(rs, After(rs, ms, init), inputs[|inputs| - 1])]
  }

  lemma {:induction false} MemoryGoesOn(rs: seq<Rule>, ms: seq<Memory>, before: seq<Input>, later: seq<Input>)
    requires AllReachable(rs, ms) && AllPriced(before) && AllPriced(later)
    ensures AllPriced(before + later)
    ensures After(rs, ms, before + later) == After(rs, After(rs, ms, before), later)
  {
    if later == [] {
      assert before + later == before;
    } else {
      MemoryGoesOn(rs, ms, before, later[..|later| - 1]);
      assert (before + later)[..|before + later| - 1] == before + later[..|later| - 1];
    }
  }

  lemma OneMoreDecision(rs: seq<Rule>, ms: seq<Memory>, inputs: seq<Input>, i: Input)
    requires AllReachable(rs, ms) && AllPriced(inputs) && Priced(i)
    ensures AllPriced(inputs + [i])
    ensures Decisions(rs, ms, inputs + [i]) == Decisions(rs, ms, inputs) + [FirstFired(rs, After(rs, ms, inputs), i)]
  {
    assert (inputs + [i])[..|inputs|] == inputs;
  }

  lemma Regrouped<T>(a: seq<T>, b: seq<T>, x: T)
    ensures a + b + [x] == a + (b + [x])
  {
  }

  lemma DecidesOn(rs: seq<Rule>, ms: seq<Memory>, before: seq<Input>, init: seq<Input>, i: Input)
    requires AllReachable(rs, ms) && AllPriced(before) && AllPriced(init) && Priced(i) && AllPriced(before + init)
    requires Decisions(rs, ms, before + init) == Decisions(rs, ms, before) + Decisions(rs, After(rs, ms, before), init)
    ensures AllPriced(before + (init + [i])) && AllPriced(init + [i])
    ensures Decisions(rs, ms, before + (init + [i])) ==
            Decisions(rs, ms, before) + Decisions(rs, After(rs, ms, before), init + [i])
  {
    MemoryGoesOn(rs, ms, before, init);
    Regrouped(before, init, i);
    OneMoreDecision(rs, ms, before + init, i);
    OneMoreDecision(rs, After(rs, ms, before), init, i);
    Regrouped(Decisions(rs, ms, before), Decisions(rs, After(rs, ms, before), init), FirstFired(rs, After(rs, ms, before + init), i));
  }

  lemma {:induction false} DecisionsGoOn(rs: seq<Rule>, ms: seq<Memory>, before: seq<Input>, later: seq<Input>)
    requires AllReachable(rs, ms) && AllPriced(before) && AllPriced(later)
    ensures AllPriced(before + later)
    ensures After(rs, ms, before + later) == After(rs, After(rs, ms, before), later)
    ensures Decisions(rs, ms, before + later) == Decisions(rs, ms, before) + Decisions(rs, After(rs, ms, before), later)
  {
    MemoryGoesOn(rs, ms, before, later);
    if later == [] {
      assert before + later == before;
    } else {
      var init, i := later[..|later| - 1], later[|later| - 1];
      DecisionsGoOn(rs, ms, before, init);
      DecidesOn(rs, ms, before, init, i);
      assert later == init + [i];
    }
  }

  /**
   Wherever a restart falls, every later candle gets the decision and the first-fired engine it would
   have got without one: snapshotting the composite and restoring into a freshly built one is invisible.
   */
  lemma RestartIsInvisible(rs: seq<Rule>, before: seq<Input>, later: seq<Input>)
    requires Distinct(rs) && AllPriced(before) && AllPriced(later)
    ensures AllPriced(before + later)
    ensures var restored := RestoreAll(rs, SnapshotAll(rs, After(rs, AllFresh(rs), before)));
            && AllReachable(rs, restored)
            && Decisions(rs, AllFresh(rs), before + later) ==
               Decisions(rs, AllFresh(rs), before) + Decisions(rs, restored, later)
  {
    RestoreAllIsExact(rs, After(rs, AllFresh(rs), before));
    DecisionsGoOn(rs, AllFresh(rs), before, later);
  }

  // ------------------------------------------------------------------ a restart without the candle history

  /** What the first candle after a restart looks like: the caller's history starts anew. */
  function Forgetting(i: Input): Input {
    i.(previous := None)
  }

  predicate ReadsHistory(r: Rule) {
    r.MomentumClose? || r.MomentumLow?
  }

  /** Only the two momentum engines read the previous candle, and without one they never fire; no memory depends on it. */
  lemma ForgettingSilencesMomentum(r: Rule, m: Memory, i: Input)
    requires Matches(r, m) && Sane(m) && Priced(i)
    ensures Advanced(r, m, Forgetting(i)) == Advanced(r, m, i)
    ensures Fires(r, m, Forgetting(i)) <==> Fires(r, m, i) && !ReadsHistory(r)
  {
  }

  lemma ForgettingAdvances(rs: seq<Rule>, ms: seq<Memory>, i: Input)
    requires AllReachable(rs, ms) && Priced(i)
    ensures AllAdvanced(rs, ms, Forgetting(i)) == AllAdvanced(rs, ms, i)
  {
    forall k | 0 <= k < |rs| ensures Advanced(rs[k], ms[k], Forgetting(i)) == Advanced(rs[k], ms[k], i) {
      ForgettingSilencesMomentum(rs[k], ms[k], i);
    }
  }

  /** Without a previous candle the first engine that fires changes exactly when a momentum engine was the first. */
  lemma ForgettingDecidesExactly(rs: seq<Rule>, ms: seq<Memory>, i: Input)
    requires AllReachable(rs, ms) && Priced(i)
    ensures var first := FirstFired(rs, ms, i);
            FirstFired(rs, ms, Forgetting(i)) == first <==> first.None? || !ReadsHistory(rs[first.value])
  {
    var first, forgot := FirstFired(rs, ms, i), FirstFired(rs, ms, Forgetting(i));
    forall k | 0 <= k < |rs| ensures Fires(rs[k], ms[k], Forgetting(i)) <==> Fires(rs[k], ms[k], i) && !ReadsHistory(rs[k]) {
      ForgettingSilencesMomentum(rs[k], ms[k], i);
    }
  }

  lemma {:induction false} ForgettingIsOver(rs: seq<Rule>, ms: seq<Memory>, i: Input, rest: seq<Input>)
    requires AllReachable(rs, ms) && Priced(i) && AllPriced(rest)
    ensures AllPriced([i] + rest) && AllPriced([Forgetting(i)] + rest)
    ensures After(rs, ms, [Forgetting(i)] + rest) == After(rs, ms, [i] + rest)
    ensures Decisions(rs, ms, [Forgetting(i)] + rest) ==
            [FirstFired(rs, ms, Forgetting(i))] + Decisions(rs, ms, [i] + rest)[1..]
  {
    DecisionsGoOn(rs, ms, [i], rest);
    DecisionsGoOn(rs, ms, [Forgetting(i)], rest);
    ForgettingAdvances(rs, ms, i);
    OneDecision(rs, ms, i);
    OneDecision(rs, ms, Forgetting(i));
  }

  lemma OneDecision(rs: seq<Rule>, ms: seq<Memory>, i: Input)
    requires AllReachable(rs, ms) && Priced(i)
    ensures AllPriced([i])
    ensures After(rs, ms, [i]) == AllAdvanced(rs, ms, i) && Decisions(rs, ms, [i]) == [FirstFired(rs, ms, i)]
  {
    assert [i][..0] == [];
    assert Decisions(rs, ms, [i]) == Decisions(rs, ms, []) + [FirstFired(rs, After(rs, ms, []), i)];
  }

  /**
   A restarted process has lost its candle history, so its first candle has no previous one.  That changes
   no decision after the first, and changes the first exactly when a momentum engine would have won it.
   */
  lemma RestartWithoutHistoryExactly(rs: seq<Rule>, before: seq<Input>, i: Input, rest: seq<Input>)
    requires Distinct(rs) && AllPriced(before) && Priced(i) && AllPriced(rest)
    ensures AllPriced([i] + rest) && AllPriced([Forgetting(i)] + rest)
    ensures var ms := After(rs, AllFresh(rs), before);
            var restored := RestoreAll(rs, SnapshotAll(rs, ms));
            var first := FirstFired(rs, ms, i);
            && AllReachable(rs, restored)
            && |Decisions(rs, restored, [Forgetting(i)] + rest)| == |Decisions(rs, ms, [i] + rest)| > 0
            && Decisions(rs, restored, [Forgetting(i)] + rest)[1..] == Decisions(rs, ms, [i] + rest)[1..]
            && (Decisions(rs, restored, [Forgetting(i)] + rest) == Decisions(rs, ms, [i] + rest) <==>
                first.None? || !ReadsHistory(rs[first.value]))
  {
    var ms := After(rs, AllFresh(rs), before);
    RestoreAllIsExact(rs, ms);
    ForgettingIsOver(rs, ms, i, rest);
    ForgettingDecidesExactly(rs, ms, i);
    DecisionsGoOn(rs, ms, [i], rest);
    OneDecision(rs, ms, i);
  }

  // ------------------------------------------------------------------ building

  /** A settings block: switched on or not, and the engine it describes; an absent one is off, with defaults. */
  datatype Block = Block(enabled: bool, rule: Rule)

  const PRIORITY := [LStopLoss, LTarget, LMomentumClose, LMomentumLow, LHighestClose, LConsecutive, LTrend, LTrailing, LSquareOff]

  /** `build_exit_engine`: enabled blocks and the mode's own, in priority order. */
  function Build(blocks: Label -> Block, mode: Option<Label>, keys: seq<Label>): seq<Rule> {
    if keys == [] then []
    else
      var key, init := keys[|keys| - 1], Build(blocks, mode, keys[..|keys| - 1]);
      if blocks(key).enabled || mode == Some(key) then init + [blocks(key).rule] else init
  }

  ghost predicate Labelled(rs: seq<Rule>, keys: seq<Label>) {
    forall k | 0 <= k < |rs| :: LabelOf(rs[k]) in keys
  }

  /** Exactly the selected keys' engines. */
  ghost predicate Selected(rs: seq<Rule>, blocks: Label -> Block, mode: Option<Label>, keys: seq<Label>) {
    forall l | l in keys :: blocks(l).rule in rs <==> blocks(l).enabled || mode == Some(l)
  }

  ghost predicate NoDuplicates(keys: seq<Label>) {
    forall j, k | 0 <= j < k < |keys| :: keys[j] != keys[k]
  }

  lemma OneMoreKey(rs: seq<Rule>, keys: seq<Label>, rule: Rule)
    requires Distinct(rs) && Labelled(rs, keys) && LabelOf(rule) !in keys
    ensures Distinct(rs + [rule]) && Labelled(rs + [rule], keys + [LabelOf(rule)])
  {
  }

  lemma SelectedStep(rs: seq<Rule>, blocks: Label -> Block, mode: Option<Label>, keys: seq<Label>, key: Label)
    requires Selected(rs, blocks, mode, keys) && Labelled(rs, keys) && key !in keys
    requires forall l :: LabelOf(blocks(l).rule) == l
    ensures var on := blocks(key).enabled || mode == Some(key);
            Selected(if on then rs + [blocks(key).rule] else rs, blocks, mode, keys + [key])
  {
    var on := blocks(key).enabled || mode == Some(key);
    var after := if on then rs + [blocks(key).rule] else rs;
    forall l | l in keys + [key] ensures blocks(l).rule in after <==> blocks(l).enabled || mode == Some(l) {
      if l == key {
        assert blocks(key).rule in rs ==> LabelOf(blocks(key).rule) in keys;
      } else {
        assert LabelOf(blocks(l).rule) != LabelOf(blocks(key).rule);
      }
    }
  }

  /** A built composite has exactly the selected engines, at most one a label, which makes labels safe snapshot keys. */
  lemma {:induction false} BuildIsDistinct(blocks: Label -> Block, mode: Option<Label>, keys: seq<Label>)
    requires NoDuplicates(keys) && forall l :: LabelOf(blocks(l).rule) == l
    ensures var rs := Build(blocks, mode, keys); Distinct(rs) && Labelled(rs, keys) && Selected(rs, blocks, mode, keys)
  {
    if keys != [] {
      var init, key := keys[..|keys| - 1], keys[|keys| - 1];
      assert keys == init + [key] && key !in init;
      BuildIsDistinct(blocks, mode, init);
      OneMoreKey(Build(blocks, mode, init), init, blocks(key).rule);
      SelectedStep(Build(blocks, mode, init), blocks, mode, init, key);
    }
  }

  /** Where an engine stands among the others: hard risk first, then candles and trends, then the clock. */
  function Rank(r: Rule): nat {
    match r
    case StopLoss(_) => 0
    case FixedTarget(_) => 1
    case MomentumClose(_) => 2
    case MomentumLow(_) => 3
    case HighestClose(_, _) => 4
    case ConsecutiveReversal(_) => 5
    case TrendFlip => 6
    case Trailing(_) => 7
    case TimeOfDay(_) => 8
  }

  lemma RankIsPriority(r: Rule)
    ensures LabelOf(r) == PRIORITY[Rank(r)]
  {
  }

  ghost predicate Ranked(rs: seq<Rule>) {
    forall j, k | 0 <= j < k < |rs| :: Rank(rs[j]) < Rank(rs[k])
  }

  lemma {:induction false} BuildIsRanked(blocks: Label -> Block, mode: Option<Label>, n: nat)
    requires n <= |PRIORITY| && forall l :: LabelOf(blocks(l).rule) == l
    ensures Ranked(Build(blocks, mode, PRIORITY[..n]))
    ensures forall k | 0 <= k < |Build(blocks, mode, PRIORITY[..n])| :: Rank(Build(blocks, mode, PRIORITY[..n])[k]) < n
  {
    if n > 0 {
      BuildIsRanked(blocks, mode, n - 1);
      assert PRIORITY[..n][..n - 1] == PRIORITY[..n - 1] && PRIORITY[..n][n - 1] == PRIORITY[n - 1];
      RankIsPriority(blocks(PRIORITY[n - 1]).rule);
    }
  }

  /** So for the registered keys, which also stand in their order of priority: that is whose reason wins. */
  lemma CompositeIsDistinct(blocks: Label -> Block, mode: Option<Label>)
    requires forall l :: LabelOf(blocks(l).rule) == l
    ensures var rs := Build(blocks, mode, PRIORITY); Distinct(rs) && Selected(rs, blocks, mode, PRIORITY) && Ranked(rs)
  {
    BuildIsDistinct(blocks, mode, PRIORITY);
    BuildIsRanked(blocks, mode, |PRIORITY|);
    assert PRIORITY[..|PRIORITY|] == PRIORITY;
  }

  // ------------------------------------------------------------------ what the memories mean

  ghost function Recall(r: Rule, inputs: seq<Input>): (m: Memory)
    requires AllPriced(inputs)
    ensures Reachable(r, m)
  {
    if inputs == [] then Fresh(r)
    else
      var m := Recall(r, inputs[..|inputs| - 1]);
      AdvanceIsReachable(r, m, inputs[|inputs| - 1]);
      Advanced(r, m, inputs[|inputs| - 1])
  }

  /** One position throughout: its entry and its direction do not change. */
  ghost predicate OnePosition(inputs: seq<Input>, basis: Basis, long: bool, entry: real) {
    forall k | 0 <= k < |inputs| ::
      && (if basis == BySide then inputs[k].position.side == Buy else inputs[k].position.optionType == CE) == long
      && inputs[k].position.entry == entry
  }

  ghost predicate IsBest(long: bool, best: real, inputs: seq<Input>) {
    && (exists k :: 0 <= k < |inputs| && inputs[k].candle.close == best)
    && forall k | 0 <= k < |inputs| :: if long then inputs[k].candle.close <= best else inputs[k].candle.close >= best
  }

  lemma PercentGrows(long: bool, better: real, worse: real, entry: real)
    requires entry > 0.0 && (if long then worse <= better else worse >= better)
    ensures Percent(long, worse, entry) <= Percent(long, better, entry)
  {
    Divided(if long then worse - entry else entry - worse, if long then better - entry else entry - better, entry);
  }

  lemma Divided(x: real, y: real, k: real)
    requires k > 0.0 && x <= y
    ensures x / k <= y / k
  {
    assert (y - x) / k >= 0.0;
  }

  lemma BestGrows(long: bool, best: Option<real>, inputs: seq<Input>, i: Input)
    requires best.Some? ==> IsBest(long, best.value, inputs)
    requires best.None? ==> inputs == []
    ensures IsBest(long, BestClose(long, best, i.candle.close), inputs + [i])
  {
    var all := inputs + [i];
    assert all[|inputs|] == i;
    if best.Some? {
      var k :| 0 <= k < |inputs| && inputs[k].candle.close == best.value;
      assert all[k] == inputs[k];
    }
  }

  /** The gate is past when this close was the best. */
  predicate PastGate(trail: Trail, long: bool, best: real, entry: real) {
    && trail.InPercent? && trail.gate.Some? && entry > 0.0
    && (if long then best - entry else entry - best) / entry * 100.0 >= trail.gate.value
  }

  lemma GateStaysPast(trail: Trail, long: bool, better: real, worse: real, entry: real)
    requires (if long then worse <= better else worse >= better) && PastGate(trail, long, worse, entry)
    ensures PastGate(trail, long, better, entry)
  {
    PercentGrows(long, better, worse, entry);
  }

  lemma TrailAdvances(basis: Basis, trail: Trail, m: Memory, i: Input, long: bool, entry: real)
    requires m.Extreme? && Sane(m) && Priced(i) && Long(basis, i.position) == long && i.position.entry == entry
    ensures var t, best := Advanced(HighestClose(basis, trail), m, i), BestClose(long, m.extreme, i.candle.close);
            t.extreme == Some(best) && (t.activated <==> m.activated || PastGate(trail, long, best, entry))
  {
  }

  /** The extreme is the best close of the position's life, and the gate has opened exactly when that best close is past it. */
  lemma {:induction false} ExtremeIsBest(basis: Basis, trail: Trail, inputs: seq<Input>, long: bool, entry: real)
    requires AllPriced(inputs) && OnePosition(inputs, basis, long, entry) && inputs != []
    ensures var m := Recall(HighestClose(basis, trail), inputs);
            && m.extreme.Some? && IsBest(long, m.extreme.value, inputs)
            && (m.activated <==> PastGate(trail, long, m.extreme.value, entry))
  {
    var init, i := inputs[..|inputs| - 1], inputs[|inputs| - 1];
    assert init + [i] == inputs;
    var before := Recall(HighestClose(basis, trail), init);
    if init != [] {
      ExtremeIsBest(basis, trail, init, long, entry);
      if before.activated {
        GateStaysPast(trail, long, BestClose(long, before.extreme, i.candle.close), before.extreme.value, entry);
      }
    }
    TrailAdvances(basis, trail, before, i, long, entry);
    BestGrows(long, before.extreme, init, i);
  }

  /** The trail fires exactly when the best close so far is past the gate and the last close has given back enough of it. */
  lemma HighestCloseFiresExactly(basis: Basis, percent: real, gate: Option<real>, inputs: seq<Input>, long: bool, entry: real)
    requires AllPriced(inputs) && OnePosition(inputs, basis, long, entry) && inputs != []
    ensures var r, i := HighestClose(basis, InPercent(percent, gate)), inputs[|inputs| - 1];
            exists best :: && IsBest(long, best, inputs) && best > 0.0 && entry > 0.0
                           && (Fires(r, Recall(r, inputs[..|inputs| - 1]), i) <==>
                               && (gate.None? || (if long then best - entry else entry - best) / entry * 100.0 >= gate.value)
                               && (if long then best - i.candle.close else i.candle.close - best) / best * 100.0 >= percent)
  {
    var r, init, i := HighestClose(basis, InPercent(percent, gate)), inputs[..|inputs| - 1], inputs[|inputs| - 1];
    ExtremeIsBest(basis, r.trail, inputs, long, entry);
    var before, best := Recall(r, init), Recall(r, inputs).extreme.value;
    assert best == BestClose(long, before.extreme, i.candle.close);
    if init != [] {
      ExtremeIsBest(basis, r.trail, init, long, entry);
      PercentGrows(long, best, before.extreme.value, entry);
    }
    assert IsBest(long, best, inputs);
  }

  /** The last `m` closes each moved against the position. */
  ghost predicate LastAdverse(inputs: seq<Input>, m: nat) {
    m < |inputs| && forall k | |inputs| - m <= k < |inputs| ::
      if inputs[k].position.optionType == CE then inputs[k].candle.close < inputs[k - 1].candle.close
      else inputs[k].candle.close > inputs[k - 1].candle.close
  }

  lemma {:induction false} StreakIsLastAdverse(candles: int, inputs: seq<Input>, m: nat)
    requires AllPriced(inputs) && m > 0
    ensures var memory := Recall(ConsecutiveReversal(candles), inputs);
            && (memory.streak >= m <==> LastAdverse(inputs, m))
            && (inputs == [] ==> memory.previousClose.None?)
            && (inputs != [] ==> memory.previousClose == Some(inputs[|inputs| - 1].candle.close))
  {
    if inputs != [] {
      var init := inputs[..|inputs| - 1];
      StreakIsLastAdverse(candles, init, if m > 1 then m - 1 else 1);
      if init != [] {
        assert init[|init| - 1] == inputs[|inputs| - 2];
        LastAdverseStep(inputs, m);
      }
    }
  }

  lemma LastAdverseStep(inputs: seq<Input>, m: nat)
    requires |inputs| >= 2 && m > 0
    ensures var n := |inputs| - 1;
            LastAdverse(inputs, m) <==>
            Adverse(inputs[n].position.optionType == CE, inputs[n].candle.close, inputs[n - 1].candle.close) &&
            (m == 1 || LastAdverse(inputs[..n], m - 1))
  {
    var n := |inputs| - 1;
    if m > 1 && LastAdverse(inputs[..n], m - 1) {
      assert forall k | n - (m - 1) <= k < n ::
          Adverse(inputs[..n][k].position.optionType == CE, inputs[..n][k].candle.close, inputs[..n][k - 1].candle.close);
    }
  }

  /** It fires exactly when the last so many closes, one at least, each moved against the position. */
  lemma ConsecutiveFiresExactly(candles: int, inputs: seq<Input>)
    requires AllPriced(inputs) && inputs != []
    ensures var r := ConsecutiveReversal(candles);
            Fires(r, Recall(r, inputs[..|inputs| - 1]), inputs[|inputs| - 1]) <==>
            LastAdverse(inputs, if candles < 1 then 1 else candles)
  {
    StreakIsLastAdverse(candles, inputs, Needed(candles));
  }

  // ------------------------------------------------------------------ the engines without a memory

  /** What each of them promises, read off the position, the two candles, the indicator and the clock. */
  predicate Calls(r: Rule, i: Input) {
    var p := i.position;
    match r
    case StopLoss(points) => if p.side == Buy then p.last <= p.entry - points else p.entry + points <= p.last
    case FixedTarget(points) => if p.side == Buy then p.entry + points <= p.last else p.last <= p.entry - points
    case MomentumClose(premium) =>
      i.previous.Some? &&
      if (if premium then p.side == Buy else p.optionType == CE) then i.candle.close < i.previous.value.close
      else i.previous.value.close < i.candle.close
    case MomentumLow(basis) =>
      i.previous.Some? &&
      if (if basis == BySide then p.side == Buy else p.optionType == CE) then i.candle.close < i.previous.value.low
      else i.previous.value.high < i.candle.close
    case TrendFlip => i.trend.Some? && ((p.optionType == CE && i.trend.value == -1) || (p.optionType == PE && i.trend.value == 1))
    case TimeOfDay(at) => i.time.Some? && at <= i.time.value
    case _ => false
  }

  lemma MemorylessFiresExactly(r: Rule, i: Input)
    requires Fresh(r).Stateless? && Priced(i)
    ensures Fires(r, Stateless, i) <==> Calls(r, i)
    ensures Advanced(r, Stateless, i) == Stateless
  {
  }

  // ------------------------------------------------------------------ the profit trail

  /** What the position had gained at a candle, by its own side and entry. */
  function Gain(i: Input): real {
    if i.position.side == Buy then i.position.last - i.position.entry else i.position.entry - i.position.last
  }

  /** The peak is the largest gain so far, or zero if there was none above it. */
  ghost predicate IsPeak(peak: real, inputs: seq<Input>) {
    && peak >= 0.0 && (forall k | 0 <= k < |inputs| :: Gain(inputs[k]) <= peak)
    && (peak > 0.0 ==> exists k :: 0 <= k < |inputs| && Gain(inputs[k]) == peak)
  }

  lemma PeakGrows(points: real, m: Memory, inputs: seq<Input>, i: Input)
    requires m.Peak? && Priced(i) && IsPeak(m.peak, inputs)
    ensures IsPeak(Advanced(Trailing(points), m, i).peak, inputs + [i])
  {
    var all, peak := inputs + [i], Advanced(Trailing(points), m, i).peak;
    assert all[|inputs|] == i;
    if m.peak > 0.0 && peak == m.peak {
      var k :| 0 <= k < |inputs| && Gain(inputs[k]) == m.peak;
      assert all[k] == inputs[k];
    }
  }

  lemma {:induction false} PeakIsBest(points: real, inputs: seq<Input>)
    requires AllPriced(inputs)
    ensures Recall(Trailing(points), inputs).Peak? && IsPeak(Recall(Trailing(points), inputs).peak, inputs)
  {
    if inputs != [] {
      var init := inputs[..|inputs| - 1];
      PeakIsBest(points, init);
      PeakGrows(points, Recall(Trailing(points), init), init, inputs[|inputs| - 1]);
      assert init + [inputs[|inputs| - 1]] == inputs;
    }
  }

  /** The profit trail fires exactly when some gain of the position's life, above zero, has been given back by its points. */
  lemma TrailingFiresExactly(points: real, inputs: seq<Input>)
    requires AllPriced(inputs) && inputs != []
    ensures var r, n := Trailing(points), |inputs| - 1;
            Fires(r, Recall(r, inputs[..n]), inputs[n]) <==>
            exists k :: 0 <= k <= n && Gain(inputs[k]) > 0.0 && Gain(inputs[k]) - Gain(inputs[n]) >= points
  {
    var r, n := Trailing(points), |inputs| - 1;
    PeakIsBest(points, inputs);
    var peak := Recall(r, inputs).peak;
    assert Fires(r, Recall(r, inputs[..n]), inputs[n]) <==> peak > 0.0 && peak - Gain(inputs[n]) >= points;
    if peak > 0.0 {
      var k :| 0 <= k < |inputs| && Gain(inputs[k]) == peak;
    }
  }

  /** The best-close trail in points fires exactly when the last close has given back that much of the best so far. */
  lemma PointsTrailFiresExactly(basis: Basis, points: real, inputs: seq<Input>, long: bool, entry: real)
    requires AllPriced(inputs) && OnePosition(inputs, basis, long, entry) && inputs != []
    ensures var r, i := HighestClose(basis, InPoints(points)), inputs[|inputs| - 1];
            Fires(r, Recall(r, inputs[..|inputs| - 1]), i) <==>
            exists best :: IsBest(long, best, inputs) && (if long then best - i.candle.close else i.candle.close - best) >= points
  {
    var r, init := HighestClose(basis, InPoints(points)), inputs[..|inputs| - 1];
    ExtremeIsBest(basis, r.trail, inputs, long, entry);
    var best := Recall(r, inputs).extreme.value;
    assert best == BestClose(long, Recall(r, init).extreme, inputs[|inputs| - 1].candle.close);
    assert IsBest(long, best, inputs);
  }

  // ------------------------------------------------------------------ the combined premium-candle exit

  /** `CombinedCandleExit`: a momentum leg with no memory but a suppression, and a best-close trail. */
  datatype Combined = Combined(trail: Memory, highest: Option<real>, lowest: Option<real>, suppress: bool)

  datatype Kept = Kept(highest: Option<real>, lowest: Option<real>, trail: Option<Memory>)

  function TrailRule(percent: real, gate: Option<real>): Rule {
    HighestClose(BySide, InPercent(percent, gate))
  }

  const BLANK := Combined(Extreme(None, false), None, None, false)

  predicate CombinedReachable(r: Rule, c: Combined) {
    r.HighestClose? && Reachable(r, c.trail)
  }

  function CombinedAdvanced(r: Rule, c: Combined, i: Input): Combined
    requires CombinedReachable(r, c) && Priced(i)
  {
    Combined(Advanced(r, c.trail, i), Some(BestClose(true, c.highest, i.candle.close)),
             Some(BestClose(false, c.lowest, i.candle.close)), false)
  }

  /** Whether the momentum leg fired, and whether the trail did; the exit's label and reason follow. */
  function Fired(r: Rule, c: Combined, i: Input): (bool, bool)
    requires CombinedReachable(r, c) && Priced(i)
  {
    (!c.suppress && Fires(MomentumLow(BySide), Stateless, i), Fires(r, c.trail, i))
  }

  function CombinedSnapshot(c: Combined): Kept {
    Kept(c.highest, c.lowest, Snapshot(c.trail))
  }

  function CombinedRestored(c: Combined, k: Kept): Combined {
    Combined(if k.trail.Some? then Restored(c.trail, k.trail.value) else c.trail,
             if k.highest.Some? then k.highest else c.highest,
             if k.lowest.Some? then k.lowest else c.lowest, c.suppress)
  }

  datatype Event = Closed(input: Input) | Gap

  ghost predicate EventsPriced(es: seq<Event>) {
    forall k | 0 <= k < |es| && es[k].Closed? :: Priced(es[k].input)
  }

  ghost function CombinedAfter(r: Rule, c: Combined, es: seq<Event>): (t: Combined)
    requires CombinedReachable(r, c) && EventsPriced(es)
    ensures CombinedReachable(r, t)
  {
    if es == [] then c
    else
      var t, e := CombinedAfter(r, c, es[..|es| - 1]), es[|es| - 1];
      if e.Gap? then t.(suppress := true)
      else
        AdvanceIsReachable(r, t.trail, e.input);
        CombinedAdvanced(r, t, e.input)
  }

  ghost function CombinedDecisions(r: Rule, c: Combined, es: seq<Event>): seq<(bool, bool)>
    requires CombinedReachable(r, c) && EventsPriced(es)
  {
    if es == [] then []
    else
      var init, e := es[..|es| - 1], es[|es| - 1];
      CombinedDecisions(r, c, init) + if e.Gap? then [] else [Fired(r, CombinedAfter(r, c, init), e.input)]
  }

  /** Restoring replaces what the data has and leaves the rest, the suppression always. */
  lemma CombinedRestoresExactly(c: Combined, k: Kept)
    requires c.trail.Extreme? && (k.trail.Some? ==> k.trail.value.Extreme? && k.trail.value.extreme.Some?)
    ensures var t := CombinedRestored(c, k);
            && t.trail == (if k.trail.Some? then k.trail.value else c.trail) && t.suppress == c.suppress
            && (k.highest.Some? ==> t.highest == k.highest) && (k.highest.None? ==> t.highest == c.highest)
            && (k.lowest.Some? ==> t.lowest == k.lowest) && (k.lowest.None? ==> t.lowest == c.lowest)
  {
  }

  /** Everything but a pending gap suppression survives a restart. */
  lemma CombinedRestoreIs(r: Rule, c: Combined)
    requires CombinedReachable(r, c)
    ensures CombinedRestored(BLANK, CombinedSnapshot(c)) == c.(suppress := false)
  {
    RestoreIsExact(r, c.trail);
  }

  /** A bought option whose close broke the previous low: the momentum leg alone decides. */
  function Break(): Input {
    Input(Position(Buy, CE, 1.0, 1.0), Candle(1.0, 1.0, 1.0), Some(Candle(2.0, 2.0, 2.0)), None, None)
  }

  /** A restart is invisible to the combined exit, whatever follows, exactly when no gap suppression is pending. */
  lemma CombinedRestartExactly(r: Rule, before: seq<Event>)
    requires r.HighestClose? && EventsPriced(before)
    ensures var c := CombinedAfter(r, BLANK, before);
            var restored := CombinedRestored(BLANK, CombinedSnapshot(c));
            && CombinedReachable(r, restored)
            && ((forall later | EventsPriced(later) :: CombinedDecisions(r, restored, later) == CombinedDecisions(r, c, later))
                <==> !c.suppress)
  {
    var c := CombinedAfter(r, BLANK, before);
    CombinedRestoreIs(r, c);
    if c.suppress {
      var es := [Closed(Break())];
      assert es[..0] == [] && EventsPriced(es);
      var restored := c.(suppress := false);
      assert Fired(r, restored, Break()).0 && !Fired(r, c, Break()).0;
      assert CombinedDecisions(r, c, es) == [] + [Fired(r, c, Break())];
      assert CombinedDecisions(r, restored, es) == [] + [Fired(r, restored, Break())];
      assert CombinedDecisions(r, restored, es)[0] != CombinedDecisions(r, c, es)[0];
    }
  }

  lemma {:induction false} CombinedGoesOn(r: Rule, c: Combined, i: Input, rest: seq<Event>)
    requires CombinedReachable(r, c) && Priced(i) && EventsPriced(rest)
    ensures CombinedReachable(r, CombinedAdvanced(r, c, i)) && EventsPriced([Closed(i)] + rest)
    ensures CombinedAfter(r, c, [Closed(i)] + rest) == CombinedAfter(r, CombinedAdvanced(r, c, i), rest)
    ensures CombinedDecisions(r, c, [Closed(i)] + rest) ==
            [Fired(r, c, i)] + CombinedDecisions(r, CombinedAdvanced(r, c, i), rest)
  {
    AdvanceIsReachable(r, c.trail, i);
    var es := [Closed(i)] + rest;
    if rest == [] {
      assert es == [Closed(i)] && es[..0] == [];
      assert CombinedDecisions(r, c, es) == CombinedDecisions(r, c, []) + [Fired(r, CombinedAfter(r, c, []), i)];
    } else {
      CombinedGoesOn(r, c, i, rest[..|rest| - 1]);
      assert es[..|es| - 1] == [Closed(i)] + rest[..|rest| - 1];
    }
  }

  /**
   With the candle history lost as well, the same restart is invisible, whatever candle comes first and
   whatever follows, exactly when that candle was suppressed anyway or did not break the one before it.
   */
  lemma CombinedRestartWithoutHistoryExactly(r: Rule, before: seq<Event>, i: Input, rest: seq<Event>)
    requires r.HighestClose? && EventsPriced(before) && Priced(i) && EventsPriced(rest)
    ensures EventsPriced([Closed(i)] + rest) && EventsPriced([Closed(Forgetting(i))] + rest)
    ensures var c := CombinedAfter(r, BLANK, before);
            var restored := CombinedRestored(BLANK, CombinedSnapshot(c));
            && CombinedReachable(r, restored)
            && (CombinedDecisions(r, restored, [Closed(Forgetting(i))] + rest) == CombinedDecisions(r, c, [Closed(i)] + rest)
                <==> c.suppress || !Broke(i.position.side == Buy, i))
  {
    var c := CombinedAfter(r, BLANK, before);
    CombinedRestoreIs(r, c);
    var restored := c.(suppress := false);
    CombinedGoesOn(r, c, i, rest);
    CombinedGoesOn(r, restored, Forgetting(i), rest);
    ForgettingSilencesMomentum(r, c.trail, i);
    assert CombinedAdvanced(r, restored, Forgetting(i)) == CombinedAdvanced(r, c, i);
    assert Fired(r, restored, Forgetting(i)) == Fired(r, c, i) <==> c.suppress || !Broke(i.position.side == Buy, i);
    var later := CombinedDecisions(r, CombinedAdvanced(r, c, i), rest);
    assert ([Fired(r, c, i)] + later)[0] == Fired(r, c, i);
    assert ([Fired(r, restored, Forgetting(i))] + later)[0] == Fired(r, restored, Forgetting(i));
  }

  /** The candles among the events. */
  function Candles(es: seq<Event>): seq<Input> {
    if es == [] then []
    else Candles(es[..|es| - 1]) + if es[|es| - 1].Closed? then [es[|es| - 1].input] else []
  }

  /** Gaps or none, the two closes it keeps are the highest and the lowest of the position's candles. */
  lemma {:induction false} KeepsTheExtremeCloses(r: Rule, es: seq<Event>)
    requires r.HighestClose? && EventsPriced(es)
    ensures var c := CombinedAfter(r, BLANK, es);
            && (c.highest.Some? <==> Candles(es) != []) && (c.lowest.Some? <==> Candles(es) != [])
            && (c.highest.Some? ==> IsBest(true, c.highest.value, Candles(es)))
            && (c.lowest.Some? ==> IsBest(false, c.lowest.value, Candles(es)))
  {
    if es != [] {
      var init, e := es[..|es| - 1], es[|es| - 1];
      KeepsTheExtremeCloses(r, init);
      if e.Closed? {
        var c := CombinedAfter(r, BLANK, init);
        BestGrows(true, c.highest, Candles(init), e.input);
        BestGrows(false, c.lowest, Candles(init), e.input);
      } else {
        assert Candles(es) == Candles(init);
      }
    }
  }

  /** The suppression lasts exactly to the first candle after the gap. */
  lemma SuppressedExactly(r: Rule, es: seq<Event>)
    requires r.HighestClose? && EventsPriced(es)
    ensures CombinedAfter(r, BLANK, es).suppress <==> es != [] && es[|es| - 1].Gap?
  {
  }

  // ------------------------------------------------------------------ the objects

  /** One configured engine. */
  class ExitEngine {
    const rule: Rule
    var memory: Memory

    ghost predicate Valid()
      reads this
    {
      Reachable(rule, memory)
    }

    constructor (r: Rule)
      ensures rule == r && memory == Fresh(r) && Valid()
    {
      rule, memory := r, Fresh(r);
    }

    method Reset()
      modifies this
      ensures memory == Fresh(rule) && Valid()
    {
      memory := Fresh(rule);
    }

    method ShouldExit(i: Input) returns (exit: bool)
      requires Valid() && Priced(i)
      modifies this
      ensures exit == Fires(rule, old(memory), i)
      ensures memory == Advanced(rule, old(memory), i) && Valid()
    {
      AdvanceIsReachable(rule, memory, i);
      exit := Fires(rule, memory, i);
      memory := Advanced(rule, memory, i);
    }
  }

  /** `CompositeExit`: its engines in priority order, and the one whose reason won. */
  class CompositeExit {
    const engines: seq<ExitEngine>
    var lastFired: Option<nat>

    ghost predicate Valid()
      reads this, engines
    {
      && (forall j, k | 0 <= j < k < |engines| :: engines[j] != engines[k])
      && forall k | 0 <= k < |engines| :: engines[k].Valid()
    }

    function Rules(): seq<Rule> {
      seq(|engines|, k requires 0 <= k < |engines| => engines[k].rule)
    }

    function Memories(): seq<Memory>
      reads engines
    {
      seq(|engines|, k requires 0 <= k < |engines| reads engines => engines[k].memory)
    }

    constructor (engines: seq<ExitEngine>)
      requires forall j, k | 0 <= j < k < |engines| :: engines[j] != engines[k]
      requires forall k | 0 <= k < |engines| :: engines[k].Valid()
      ensures this.engines == engines && lastFired == None && Valid()
    {
      this.engines, lastFired := engines, None;
    }

    /** Every engine sees the candle; the first to fire wins. */
    method ShouldExit(i: Input) returns (exit: bool)
      requires Valid() && Priced(i)
      modifies this`lastFired, engines
      ensures Valid()
      ensures AllReachable(Rules(), old(Memories()))
      ensures Memories() == AllAdvanced(Rules(), old(Memories()), i)
      ensures lastFired == FirstFired(Rules(), old(Memories()), i) && exit == lastFired.Some?
    {
      lastFired := Consult(i);
      exit := lastFired.Some?;
      ghost var after := AllAdvanced(Rules(), old(Memories()), i);
      assert Memories() == after;
      assert forall k | 0 <= k < |engines| :: engines[k].memory == after[k] && Reachable(Rules()[k], after[k]);
    }

    method Consult(i: Input) returns (fired: Option<nat>)
      requires Valid() && Priced(i)
      modifies engines
      ensures AllReachable(Rules(), old(Memories()))
      ensures forall k | 0 <= k < |engines| :: engines[k].memory == AllAdvanced(Rules(), old(Memories()), i)[k]
      ensures fired == FirstFired(Rules(), old(Memories()), i)
    {
      ghost var rs, before := Rules(), Memories();
      assert AllReachable(rs, before);
      ghost var after := AllAdvanced(rs, before, i);
      fired := None;
      var n := 0;
      while n < |engines|
        invariant 0 <= n <= |engines|
        invariant forall k | 0 <= k < n :: engines[k].memory == after[k]
        invariant forall k | n <= k < |engines| :: engines[k].memory == before[k]
        invariant FirstAmong(rs, before, i, fired, n)
      {
        assert engines[n].rule == rs[n] && engines[n].memory == before[n];
        var exits := engines[n].ShouldExit(i);
        if exits && fired.None? {
          fired := Some(n);
        }
        n := n + 1;
      }
      FirstAmongAll(rs, before, i, fired);
    }

    method Snapshots() returns (data: map<Label, Memory>)
      ensures data == SnapshotAll(Rules(), Memories())
    {
      ghost var rs, ms := Rules(), Memories();
      data := map[];
      var n := 0;
      while n < |engines|
        invariant 0 <= n <= |engines| && data == SnapshotAll(rs[..n], ms[..n])
      {
        assert rs[..n + 1][..n] == rs[..n] && ms[..n + 1][..n] == ms[..n];
        var snapshot := Snapshot(engines[n].memory);
        if snapshot.Some? {
          data := data[LabelOf(engines[n].rule) := snapshot.value];
        }
        n := n + 1;
      }
      assert rs[..n] == rs && ms[..n] == ms;
    }

    /** Into freshly built or reset engines. */
    method Restore(data: map<Label, Memory>)
      requires Valid() && forall k | 0 <= k < |engines| :: engines[k].memory == Fresh(engines[k].rule)
      modifies engines
      ensures Memories() == RestoreAll(Rules(), data)
    {
      var n := 0;
      while n < |engines|
        invariant 0 <= n <= |engines|
        invariant forall k | 0 <= k < n :: engines[k].memory == RestoreAll(Rules(), data)[k]
        invariant forall k | n <= k < |engines| :: engines[k].memory == Fresh(engines[k].rule)
      {
        assert forall k | 0 <= k < n :: engines[k] != engines[n];
        var l := LabelOf(engines[n].rule);
        if l in data {
          engines[n].memory := Restored(engines[n].memory, data[l]);
        }
        n := n + 1;
      }
    }
  }

  class CombinedCandleExit {
    const rule: Rule
    var state: Combined
    var momentumFired: bool
    var trailFired: bool

    ghost predicate Valid()
      reads this
    {
      CombinedReachable(rule, state)
    }

    constructor (percent: real, gate: Option<real>)
      ensures rule == TrailRule(percent, gate) && state == BLANK && Valid()
    {
      rule, state := TrailRule(percent, gate), BLANK;
      momentumFired, trailFired := false, false;
    }

    method OnGap()
      requires Valid()
      modifies this`state
      ensures state == old(state).(suppress := true) && Valid()
    {
      state := state.(suppress := true);
    }

    method ShouldExit(i: Input) returns (exit: bool)
      requires Valid() && Priced(i)
      modifies this
      ensures (momentumFired, trailFired) == Fired(rule, old(state), i) && exit == (momentumFired || trailFired)
      ensures state == CombinedAdvanced(rule, old(state), i) && Valid()
    {
      AdvanceIsReachable(rule, state.trail, i);
      var close := i.candle.close;
      state := state.(highest := Some(if state.highest.None? then close else Max(state.highest.value, close)),
                      lowest := Some(if state.lowest.None? then close else Min(state.lowest.value, close)));
      if state.suppress {
        momentumFired := false;
        state := state.(suppress := false);
      } else {
        momentumFired := Fires(MomentumLow(BySide), Stateless, i);
      }
      trailFired := Fires(rule, state.trail, i);
      state := state.(trail := Advanced(rule, state.trail, i));
      exit := momentumFired || trailFired;
    }

    method Restore(k: Kept)
      requires Valid() && (k.trail.Some? ==> Reachable(rule, k.trail.value))
      modifies this`state
      ensures state == CombinedRestored(old(state), k) && Valid()
    {
      state := CombinedRestored(state, k);
    }
  }
}
