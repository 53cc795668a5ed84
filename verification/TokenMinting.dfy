/**
 Token generation among any number of processes (`AuthBootstrap._generate`).

 The processes share a cached token, a recorded rejection and one lock.  Each check, each file
 replacement, each lock operation and each half of a login request is one step, and steps of
 different processes interleave freely.  A login's outcome is arbitrary, a process may crash at any
 point (the operating system then frees its lock), an operator may discard the recorded rejection,
 and the clock moves forward between steps.
 */
module TokenMinting {
  import opened Prelude

  type Pid = nat

  datatype Token = Token(text: string, expiry: Option<int>)

  /** `replacing` names a token known to be dead; `force` skips the cache check. */
  datatype Call = Call(replacing: Option<Token>, force: bool)

  datatype Policy = Policy(cooldown: nat, margin: int, retries: nat)

  datatype Outcome = Success(token: Token) | Rejection | RateLimited | Transient

  datatype Pc =
    | Idle
    | Begun(call: Call)                     // about to look at the cooldown, outside the lock
    | Waiting(call: Call)                   // about to take the lock
    | Locked(call: Call)                    // about to look at the cache
    | Rechecking(call: Call)                // about to look at the cooldown again
    | Attempting(call: Call, attempt: nat)  // about to send a login request
    | Requesting(call: Call, attempt: nat)  // awaiting its answer
    | Refused(call: Call)                   // rejected, about to record it
    | Minted(call: Call, token: Token)      // about to clear the cooldown
    | Saving(call: Call, token: Token)      // about to write the cache
    | Leaving(call: Call, result: Option<Token>)  // about to release the lock and return or raise

  datatype Action =
    | Begin(call: Call) | CheckCooldown | Acquire | TimeOut | CheckCache | Recheck
    | Send | Answer(outcome: Outcome) | RecordRejection | ClearCooldown | Save | Release | Crash

  datatype Shared = Shared(now: int, cache: Option<Token>, cooldown: Option<int>, lock: Option<Pid>)

  datatype Event =
    | Sent(at: int)
    | Failed(outcome: Outcome)
    | LoggedIn(call: Call, token: Token, at: int)
    | Recorded(at: int)
    | Returned(call: Call, token: Token)
    | Crashed
    | Forced        // an operator discarded the recorded rejection

  datatype System = System(shared: Shared, procs: map<Pid, Pc>, log: seq<Event>)

  function At(s: System, p: Pid): Pc {
    if p in s.procs then s.procs[p] else Idle
  }

  /** Nothing is under way yet; the files may hold anything. */
  ghost predicate Initial(s: System) {
    s.shared.lock.None? && s.log == [] && forall p: Pid :: At(s, p) == Idle
  }

  /** `StoredToken.is_usable`: a token without a readable expiry counts as usable. */
  predicate Usable(t: Token, now: int, margin: int) {
    t.expiry.None? || t.expiry.value - now > margin
  }

  /** `RejectionCooldown.active` finds nothing in force. */
  predicate Quiet(h: Shared, pol: Policy) {
    h.cooldown.Some? ==> h.now >= h.cooldown.value + pol.cooldown
  }

  /** The cache check under the lock hands the cached token back. */
  predicate Serves(h: Shared, pol: Policy, c: Call) {
    !c.force && h.cache.Some? && Usable(h.cache.value, h.now, pol.margin) && h.cache != c.replacing
  }

  predicate Holds(pc: Pc) {
    !pc.Idle? && !pc.Begun? && !pc.Waiting?
  }

  // ------------------------------------------------------------------ the steps

  predicate Enabled(h: Shared, pc: Pc, a: Action) {
    match a
    case Begin(_) => pc.Idle?
    case CheckCooldown => pc.Begun?
    case Acquire => pc.Waiting? && h.lock.None?
    case TimeOut => pc.Waiting?
    case CheckCache => pc.Locked?
    case Recheck => pc.Rechecking?
    case Send => pc.Attempting?
    case Answer(_) => pc.Requesting?
    case RecordRejection => pc.Refused?
    case ClearCooldown => pc.Minted?
    case Save => pc.Saving?
    case Release => pc.Leaving?
    case Crash => true
  }

  function NextPc(h: Shared, pol: Policy, pc: Pc, a: Action): Pc
    requires Enabled(h, pc, a)
  {
    match a
    case Begin(call) => Begun(call)
    case CheckCooldown => if Quiet(h, pol) then Waiting(pc.call) else Idle
    case Acquire => Locked(pc.call)
    case TimeOut => Idle
    case CheckCache => if Serves(h, pol, pc.call) then Leaving(pc.call, h.cache) else Rechecking(pc.call)
    case Recheck => if Quiet(h, pol) then Attempting(pc.call, 1) else Leaving(pc.call, None)
    case Send => Requesting(pc.call, pc.attempt)
    case Answer(outcome) =>
      (match outcome
       case Success(t) => Minted(pc.call, t)
       case Rejection => Refused(pc.call)
       case RateLimited => Leaving(pc.call, None)
       case Transient =>
         if pc.attempt < pol.retries then Attempting(pc.call, pc.attempt + 1) else Leaving(pc.call, None))
    case RecordRejection => Leaving(pc.call, None)
    case ClearCooldown => Saving(pc.call, pc.token)
    case Save => Leaving(pc.call, Some(pc.token))
    case Release => Idle
    case Crash => Idle
  }

  function NextShared(h: Shared, pol: Policy, p: Pid, pc: Pc, a: Action): Shared
    requires Enabled(h, pc, a)
  {
    match a
    case Acquire => h.(lock := Some(p))
    case RecordRejection => h.(cooldown := Some(h.now))
    case ClearCooldown => h.(cooldown := None)
    case Save => h.(cache := Some(pc.token))
    case Release => h.(lock := None)
    case Crash => if h.lock == Some(p) then h.(lock := None) else h
    case _ => h
  }

  /** What the step adds to the record. */
  function NextLog(h: Shared, pc: Pc, a: Action, log: seq<Event>): seq<Event>
    requires Enabled(h, pc, a)
  {
    match a
    case Send => log + [Sent(h.now)]
    case Answer(outcome) =>
      log + [if outcome.Success? then LoggedIn(pc.call, outcome.token, h.now) else Failed(outcome)]
    case RecordRejection => log + [Recorded(h.now)]
    case Release => log + if pc.result.Some? then [Returned(pc.call, pc.result.value)] else []
    case Crash => log + [Crashed]
    case _ => log
  }

  datatype Step = Act(proc: Pid, action: Action) | Wait(delay: nat) | ForceClear

  predicate CanTake(s: System, step: Step) {
    step.Act? ==> Enabled(s.shared, At(s, step.proc), step.action)
  }

  function Take(s: System, pol: Policy, step: Step): System
    requires CanTake(s, step)
  {
    match step
    case Act(p, a) =>
      System(NextShared(s.shared, pol, p, At(s, p), a),
             s.procs[p := NextPc(s.shared, pol, At(s, p), a)],
             NextLog(s.shared, At(s, p), a, s.log))
    case Wait(d) => s.(shared := s.shared.(now := s.shared.now + d))
    case ForceClear => s.(shared := s.shared.(cooldown := None), log := s.log + [Forced])
  }

  // ------------------------------------------------------------------ the invariant

  /** Past the checks under the lock, with a login still to come, be answered or be recorded. */
  predicate Sending(pc: Pc) {
    pc.Attempting? || pc.Requesting? || pc.Refused? || pc.Minted?
  }

  /** The cache was looked at and did not serve this call; nobody else can have changed it since. */
  ghost predicate Unserved(h: Shared, pol: Policy, c: Call) {
    c.force || h.cache.None? || !Usable(h.cache.value, h.now, pol.margin) || h.cache == c.replacing
  }

  ghost predicate HasToken(log: seq<Event>, t: Token) {
    exists i :: 0 <= i < |log| && log[i].LoggedIn? && log[i].token == t
  }

  ghost predicate ProcOk(h: Shared, pol: Policy, log: seq<Event>, p: Pid, pc: Pc) {
    && (Holds(pc) <==> h.lock == Some(p))
    && (Sending(pc) ==> Quiet(h, pol))
    && (pc.Rechecking? || pc.Attempting? || pc.Requesting? ==> Unserved(h, pol, pc.call))
    && (pc.Attempting? || pc.Requesting? ==> 1 <= pc.attempt <= pol.retries)
    && (pc.Minted? || pc.Saving? ==> HasToken(log, pc.token))
    && (pc.Leaving? && pc.result.Some? && pc.call.replacing == pc.result ==> HasToken(log, pc.result.value))
  }

  ghost predicate NoneForced(log: seq<Event>, i: int, j: int) {
    forall k | i < k < j && 0 <= k < |log| :: !log[k].Forced?
  }

  /** A recorded rejection is over, or a rejection no older than it is still on record. */
  ghost predicate Remembered(h: Shared, pol: Policy, log: seq<Event>) {
    forall i | 0 <= i < |log| && log[i].Recorded? && NoneForced(log, i, |log|) ::
      h.now >= log[i].at + pol.cooldown || (h.cooldown.Some? && h.cooldown.value >= log[i].at)
  }

  /** No request was sent within the cooldown of an earlier recorded rejection. */
  ghost predicate Spaced(pol: Policy, log: seq<Event>) {
    forall i, j | 0 <= i < j < |log| && log[i].Recorded? && log[j].Sent? && NoneForced(log, i, j) ::
      log[j].at >= log[i].at + pol.cooldown
  }

  predicate Dated(e: Event) {
    e.Sent? || e.LoggedIn? || e.Recorded?
  }

  ghost predicate Inv(s: System, pol: Policy) {
    && (forall p: Pid :: ProcOk(s.shared, pol, s.log, p, At(s, p)))
    && (forall i | 0 <= i < |s.log| && Dated(s.log[i]) :: s.log[i].at <= s.shared.now)
    && Remembered(s.shared, pol, s.log)
    && Spaced(pol, s.log)
  }

  lemma TokensStay(log: seq<Event>, more: seq<Event>, t: Token)
    requires HasToken(log, t)
    ensures HasToken(log + more, t)
  {
    var i :| 0 <= i < |log| && log[i].LoggedIn? && log[i].token == t;
    assert (log + more)[i] == log[i];
  }

  lemma LogGrows(h: Shared, pc: Pc, a: Action, log: seq<Event>)
    requires Enabled(h, pc, a)
    ensures var after := NextLog(h, pc, a, log);
            |log| <= |after| <= |log| + 1 && after == log + after[|log|..]
  {
  }

  lemma ActKeepsOwn(h: Shared, pol: Policy, log: seq<Event>, p: Pid, pc: Pc, a: Action)
    requires pol.retries >= 1 && Enabled(h, pc, a) && ProcOk(h, pol, log, p, pc)
    ensures ProcOk(NextShared(h, pol, p, pc, a), pol, NextLog(h, pc, a, log), p, NextPc(h, pol, pc, a))
  {
    LogGrows(h, pc, a, log);
    if pc.Minted? || pc.Saving? {
      TokensStay(log, NextLog(h, pc, a, log)[|log|..], pc.token);
    }
    if pc.Requesting? && a.Answer? && a.outcome.Success? {
      assert NextLog(h, pc, a, log)[|log|] == LoggedIn(pc.call, a.outcome.token, h.now);
    }
  }

  lemma ActKeepsOther(h: Shared, pol: Policy, log: seq<Event>, p: Pid, pc: Pc, a: Action, q: Pid, other: Pc)
    requires Enabled(h, pc, a) && p != q
    requires ProcOk(h, pol, log, p, pc) && ProcOk(h, pol, log, q, other)
    ensures ProcOk(NextShared(h, pol, p, pc, a), pol, NextLog(h, pc, a, log), q, other)
  {
    LogGrows(h, pc, a, log);
    if other.Minted? || other.Saving? {
      TokensStay(log, NextLog(h, pc, a, log)[|log|..], other.token);
    }
    if other.Leaving? && other.result.Some? && other.call.replacing == other.result {
      TokensStay(log, NextLog(h, pc, a, log)[|log|..], other.result.value);
    }
  }

  lemma ActKeepsRemembered(h: Shared, pol: Policy, log: seq<Event>, p: Pid, pc: Pc, a: Action)
    requires Enabled(h, pc, a) && ProcOk(h, pol, log, p, pc)
    requires forall i | 0 <= i < |log| && Dated(log[i]) :: log[i].at <= h.now
    requires Remembered(h, pol, log)
    ensures Remembered(NextShared(h, pol, p, pc, a), pol, NextLog(h, pc, a, log))
  {
    LogGrows(h, pc, a, log);
    var h', after := NextShared(h, pol, p, pc, a), NextLog(h, pc, a, log);
    forall i | 0 <= i < |after| && after[i].Recorded? && NoneForced(after, i, |after|)
      ensures h'.now >= after[i].at + pol.cooldown || (h'.cooldown.Some? && h'.cooldown.value >= after[i].at)
    {
      if i < |log| {
        assert after[i] == log[i];
        assert NoneForced(log, i, |log|) by {
          assert forall k | 0 <= k < |log| :: log[k] == after[k];
        }
      }
    }
  }

  lemma ActKeepsSpaced(h: Shared, pol: Policy, log: seq<Event>, p: Pid, pc: Pc, a: Action)
    requires Enabled(h, pc, a) && ProcOk(h, pol, log, p, pc)
    requires Remembered(h, pol, log) && Spaced(pol, log)
    ensures Spaced(pol, NextLog(h, pc, a, log))
  {
    LogGrows(h, pc, a, log);
    var after := NextLog(h, pc, a, log);
    forall i, j | 0 <= i < j < |after| && after[i].Recorded? && after[j].Sent? && NoneForced(after, i, j)
      ensures after[j].at >= after[i].at + pol.cooldown
    {
      assert after[i] == log[i];
      assert NoneForced(log, i, j) by {
        assert forall k | 0 <= k < |log| :: log[k] == after[k];
      }
      if j < |log| {
        assert after[j] == log[j];
      }
    }
  }

  lemma OtherStepsKeepLog(s: System, pol: Policy, step: Step)
    requires Inv(s, pol) && !step.Act?
    ensures var s' := Take(s, pol, step);
            Remembered(s'.shared, pol, s'.log) && Spaced(pol, s'.log)
            && forall i | 0 <= i < |s'.log| && Dated(s'.log[i]) :: s'.log[i].at <= s'.shared.now
  {
    var s' := Take(s, pol, step);
    assert forall k | 0 <= k < |s.log| :: s'.log[k] == s.log[k];
    if step.ForceClear? {
      assert s'.log[|s.log|].Forced?;
      forall i, j | 0 <= i < j < |s'.log| && s'.log[i].Recorded? && s'.log[j].Sent? && NoneForced(s'.log, i, j)
        ensures s'.log[j].at >= s'.log[i].at + pol.cooldown
      {
        assert NoneForced(s.log, i, j);
      }
    }
  }

  lemma OtherStepsKeepProc(h: Shared, pol: Policy, log: seq<Event>, more: seq<Event>, h': Shared, p: Pid, pc: Pc)
    requires ProcOk(h, pol, log, p, pc)
    requires h'.lock == h.lock && h'.cache == h.cache && h'.now >= h.now
    requires h'.cooldown == h.cooldown || h'.cooldown.None?
    ensures ProcOk(h', pol, log + more, p, pc)
  {
    if pc.Minted? || pc.Saving? {
      TokensStay(log, more, pc.token);
    }
    if pc.Leaving? && pc.result.Some? && pc.call.replacing == pc.result {
      TokensStay(log, more, pc.result.value);
    }
  }

  lemma StepKeepsInv(s: System, pol: Policy, step: Step)
    requires pol.retries >= 1 && Inv(s, pol) && CanTake(s, step)
    ensures Inv(Take(s, pol, step), pol)
  {
    var s' := Take(s, pol, step);
    match step
    case Act(p, a) =>
      var pc := At(s, p);
      assert ProcOk(s.shared, pol, s.log, p, pc);
      LogGrows(s.shared, pc, a, s.log);
      ActKeepsRemembered(s.shared, pol, s.log, p, pc, a);
      ActKeepsSpaced(s.shared, pol, s.log, p, pc, a);
      forall q: Pid ensures ProcOk(s'.shared, pol, s'.log, q, At(s', q)) {
        if q == p {
          ActKeepsOwn(s.shared, pol, s.log, p, pc, a);
        } else {
          assert At(s', q) == At(s, q);
          ActKeepsOther(s.shared, pol, s.log, p, pc, a, q, At(s, q));
        }
      }
    case _ =>
      OtherStepsKeepLog(s, pol, step);
      assert s'.log == s.log + s'.log[|s.log|..];
      forall q: Pid ensures ProcOk(s'.shared, pol, s'.log, q, At(s', q)) {
        assert At(s', q) == At(s, q);
        OtherStepsKeepProc(s.shared, pol, s.log, s'.log[|s.log|..], s'.shared, q, At(s, q));
      }
  }

  // ------------------------------------------------------------------ what a holder of the lock has open

  /** The process that holds the lock, if any. */
  function Holder(s: System): Pc {
    if s.shared.lock.Some? then At(s, s.shared.lock.value) else Idle
  }

  /** Every answer so far was a rejection, nobody crashed and nobody forced the cooldown. */
  ghost predicate OnlyRejections(log: seq<Event>) {
    forall k | 0 <= k < |log| :: log[k].Sent? || log[k].Recorded? || log[k].Returned? || log[k] == Failed(Rejection)
  }

  /** The request sent at `i` has been rejected and the rejection recorded. */
  ghost predicate Settled(log: seq<Event>, i: nat)
    requires i < |log| && log[i].Sent?
  {
    exists k :: i < k < |log| && log[k].Recorded? && log[k].at >= log[i].at
  }

  /** With a wrong PIN, every request but one still open has been settled... */
  ghost predicate Accounted(s: System) {
    OnlyRejections(s.log) ==>
      forall i | 0 <= i < |s.log| && s.log[i].Sent? ::
        Settled(s.log, i) || Holder(s).Requesting? || Holder(s).Refused?
  }

  /** ...so any two requests are a whole cooldown apart. */
  ghost predicate SendsSpaced(pol: Policy, log: seq<Event>) {
    OnlyRejections(log) ==>
      forall i, j | 0 <= i < j < |log| && log[i].Sent? && log[j].Sent? :: log[j].at >= log[i].at + pol.cooldown
  }

  lemma SettledStays(log: seq<Event>, more: seq<Event>, i: nat)
    requires i < |log| && log[i].Sent? && Settled(log, i)
    ensures Settled(log + more, i)
  {
    var k :| i < k < |log| && log[k].Recorded? && log[k].at >= log[i].at;
    assert (log + more)[k] == log[k];
  }

  lemma RejectionsBefore(log: seq<Event>, more: seq<Event>)
    requires OnlyRejections(log + more)
    ensures OnlyRejections(log)
  {
    forall k | 0 <= k < |log|
      ensures log[k].Sent? || log[k].Recorded? || log[k].Returned? || log[k] == Failed(Rejection)
    {
      assert (log + more)[k] == log[k];
    }
  }

  /** Only the process that takes or holds the lock changes where its holder is. */
  lemma HolderAfter(s: System, pol: Policy, step: Step)
    requires Inv(s, pol) && CanTake(s, step)
    ensures var s' := Take(s, pol, step);
            if step.Act? && (s.shared.lock == Some(step.proc) || step.action.Acquire?)
            then Holder(s') == (if s'.shared.lock.Some? then At(s', step.proc) else Idle)
            else Holder(s') == Holder(s)
    ensures var s' := Take(s, pol, step);
            |s'.log| > |s.log| ==> |s'.log| == |s.log| + 1 && s'.log == s.log + [s'.log[|s.log|]]
    ensures |Take(s, pol, step).log| <= |s.log| ==> Take(s, pol, step).log == s.log
  {
    var s' := Take(s, pol, step);
    if step.Act? {
      assert ProcOk(s.shared, pol, s.log, step.proc, At(s, step.proc));
      LogGrows(s.shared, At(s, step.proc), step.action, s.log);
      assert forall q: Pid | q != step.proc :: At(s', q) == At(s, q);
    } else {
      assert forall q: Pid :: At(s', q) == At(s, q);
    }
  }

  lemma StepKeepsAccounted(s: System, pol: Policy, step: Step)
    requires Inv(s, pol) && CanTake(s, step) && Accounted(s)
    ensures Accounted(Take(s, pol, step))
  {
    var s' := Take(s, pol, step);
    HolderAfter(s, pol, step);
    if step.Act? {
      assert ProcOk(s.shared, pol, s.log, step.proc, At(s, step.proc));
    }
    var more := s'.log[|s.log|..];
    assert s'.log == s.log + more;
    if OnlyRejections(s'.log) {
      RejectionsBefore(s.log, more);
      forall i | 0 <= i < |s'.log| && s'.log[i].Sent?
        ensures Settled(s'.log, i) || Holder(s').Requesting? || Holder(s').Refused?
      {
        if i < |s.log| {
          assert |s'.log| > |s.log| ==>
              var e := s'.log[|s.log|]; e.Sent? || e.Recorded? || e.Returned? || e == Failed(Rejection);
          if Settled(s.log, i) {
            SettledStays(s.log, more, i);
          } else if step.Act? && step.action.RecordRejection? {
            assert s'.log[|s.log|] == Recorded(s.shared.now) && s'.log[i] == s.log[i];
          }
        }
      }
    }
  }

  lemma StepKeepsSendsSpaced(s: System, pol: Policy, step: Step)
    requires Inv(s, pol) && CanTake(s, step) && Accounted(s) && SendsSpaced(pol, s.log)
    requires Inv(Take(s, pol, step), pol)
    ensures SendsSpaced(pol, Take(s, pol, step).log)
  {
    var s' := Take(s, pol, step);
    if step.Act? {
      assert ProcOk(s.shared, pol, s.log, step.proc, At(s, step.proc));
      LogGrows(s.shared, At(s, step.proc), step.action, s.log);
    }
    var more := s'.log[|s.log|..];
    assert s'.log == s.log + more;
    if OnlyRejections(s'.log) {
      RejectionsBefore(s.log, more);
      forall i, j | 0 <= i < j < |s'.log| && s'.log[i].Sent? && s'.log[j].Sent?
        ensures s'.log[j].at >= s'.log[i].at + pol.cooldown
      {
        assert s'.log[i] == s.log[i];
        if j == |s.log| {
          assert Settled(s.log, i);
          var k :| i < k < |s.log| && s.log[k].Recorded? && s.log[k].at >= s.log[i].at;
          assert s'.log[k] == s.log[k] && NoneForced(s'.log, k, j);
        }
      }
    }
  }

  // ------------------------------------------------------------------ logins for one dead token

  /** The last successful login in a record. */
  function LastLogin(log: seq<Event>): (m: Option<nat>)
    ensures m.Some? ==> m.value < |log| && log[m.value].LoggedIn?
    ensures forall k | 0 <= k < |log| && log[k].LoggedIn? :: m.Some? && k <= m.value
  {
    if log == [] then None
    else if log[|log| - 1].LoggedIn? then Some(|log| - 1)
    else LastLogin(log[..|log| - 1])
  }

  ghost predicate NoCrash(log: seq<Event>, i: int, j: int) {
    forall k | i < k < j && 0 <= k < |log| :: !log[k].Crashed?
  }

  /** A token being stored is the last one minted; one not being stored is cached, unless someone crashed. */
  ghost predicate Latest(s: System) {
    var m, storing := LastLogin(s.log), Holder(s).Minted? || Holder(s).Saving?;
    && (storing ==> m.Some? && Holder(s).token == s.log[m.value].token)
    && (m.Some? && NoCrash(s.log, m.value, |s.log|) && !storing ==> s.shared.cache == Some(s.log[m.value].token))
  }

  /** Two successful logins to replace one dead token have an unusable one, or that one, between them. */
  ghost predicate Justified(pol: Policy, log: seq<Event>, i: nat, j: nat)
    requires i < j < |log| && log[j].LoggedIn?
  {
    exists k :: i <= k < j && log[k].LoggedIn?
      && (!Usable(log[k].token, log[j].at, pol.margin) || Some(log[k].token) == log[j].call.replacing)
  }

  ghost predicate LoginsJustified(pol: Policy, log: seq<Event>) {
    forall i, j | 0 <= i < j < |log| && log[i].LoggedIn? && log[j].LoggedIn?
                  && !log[j].call.force && NoCrash(log, i, j) ::
      Justified(pol, log, i, j)
  }

  lemma LastLoginAfter(log: seq<Event>, e: Event)
    ensures LastLogin(log + [e]) == if e.LoggedIn? then Some(|log|) else LastLogin(log)
  {
    assert (log + [e])[..|log|] == log;
  }

  lemma UnloggedStepKeepsLatest(s: System, pol: Policy, step: Step)
    requires Inv(s, pol) && CanTake(s, step) && Latest(s) && Take(s, pol, step).log == s.log
    ensures Latest(Take(s, pol, step))
  {
    HolderAfter(s, pol, step);
    if step.Act? {
      assert ProcOk(s.shared, pol, s.log, step.proc, At(s, step.proc));
    }
  }

  lemma LoginKeepsLatest(s: System, pol: Policy, p: Pid, t: Token)
    requires Inv(s, pol) && At(s, p).Requesting?
    ensures Latest(Take(s, pol, Act(p, Answer(Success(t)))))
  {
    var step := Act(p, Answer(Success(t)));
    assert ProcOk(s.shared, pol, s.log, p, At(s, p));
    HolderAfter(s, pol, step);
    LastLoginAfter(s.log, Take(s, pol, step).log[|s.log|]);
  }

  lemma OtherLoggedStepKeepsLatest(s: System, pol: Policy, step: Step)
    requires Inv(s, pol) && CanTake(s, step) && Latest(s) && |Take(s, pol, step).log| > |s.log|
    requires !Take(s, pol, step).log[|s.log|].LoggedIn?
    ensures Latest(Take(s, pol, step))
  {
    var s' := Take(s, pol, step);
    HolderAfter(s, pol, step);
    LastLoginAfter(s.log, s'.log[|s.log|]);
    if step.Act? {
      assert ProcOk(s.shared, pol, s.log, step.proc, At(s, step.proc));
    }
    var m := LastLogin(s.log);
    assert forall k | 0 <= k < |s.log| :: s'.log[k] == s.log[k];
    if m.Some? && NoCrash(s'.log, m.value, |s'.log|) {
      assert !s'.log[|s.log|].Crashed?;
      assert NoCrash(s.log, m.value, |s.log|);
    }
  }

  lemma StepKeepsLatest(s: System, pol: Policy, step: Step)
    requires Inv(s, pol) && CanTake(s, step) && Latest(s)
    ensures Latest(Take(s, pol, step))
  {
    HolderAfter(s, pol, step);
    if Take(s, pol, step).log == s.log {
      UnloggedStepKeepsLatest(s, pol, step);
    } else if Take(s, pol, step).log[|s.log|].LoggedIn? {
      LoginKeepsLatest(s, pol, step.proc, step.action.outcome.token);
    } else {
      OtherLoggedStepKeepsLatest(s, pol, step);
    }
  }

  lemma JustifiedStays(pol: Policy, log: seq<Event>, more: seq<Event>, i: nat, j: nat)
    requires i < j < |log| && log[j].LoggedIn? && Justified(pol, log, i, j)
    ensures (log + more)[j] == log[j] && Justified(pol, log + more, i, j)
  {
    var k :| i <= k < j && log[k].LoggedIn?
      && (!Usable(log[k].token, log[j].at, pol.margin) || Some(log[k].token) == log[j].call.replacing);
    assert (log + more)[k] == log[k];
  }

  lemma StepKeepsLoginsJustified(s: System, pol: Policy, step: Step)
    requires Inv(s, pol) && CanTake(s, step) && Latest(s) && LoginsJustified(pol, s.log)
    ensures LoginsJustified(pol, Take(s, pol, step).log)
  {
    var s' := Take(s, pol, step);
    if step.Act? {
      assert ProcOk(s.shared, pol, s.log, step.proc, At(s, step.proc));
      LogGrows(s.shared, At(s, step.proc), step.action, s.log);
    }
    var more := s'.log[|s.log|..];
    assert s'.log == s.log + more;
    forall i, j | 0 <= i < j < |s'.log| && s'.log[i].LoggedIn? && s'.log[j].LoggedIn?
                  && !s'.log[j].call.force && NoCrash(s'.log, i, j)
      ensures Justified(pol, s'.log, i, j)
    {
      assert forall k | 0 <= k < |s.log| :: s'.log[k] == s.log[k];
      if j < |s.log| {
        assert NoCrash(s.log, i, j);
        JustifiedStays(pol, s.log, more, i, j);
      } else {
        var m := LastLogin(s.log).value;
        assert NoCrash(s.log, m, |s.log|);
        assert s.shared.cache == Some(s.log[m].token);
        assert s'.log[m] == s.log[m];
      }
    }
  }

  // ------------------------------------------------------------------ runs

  ghost predicate Everything(s: System, pol: Policy) {
    && Inv(s, pol) && Accounted(s) && SendsSpaced(pol, s.log) && Latest(s) && LoginsJustified(pol, s.log)
  }

  lemma StepKeepsEverything(s: System, pol: Policy, step: Step)
    requires pol.retries >= 1 && Everything(s, pol) && CanTake(s, step)
    ensures Everything(Take(s, pol, step), pol)
  {
    StepKeepsInv(s, pol, step);
    StepKeepsAccounted(s, pol, step);
    StepKeepsSendsSpaced(s, pol, step);
    StepKeepsLatest(s, pol, step);
    StepKeepsLoginsJustified(s, pol, step);
  }

  /** The state a sequence of steps reaches, or None when some step could not be taken. */
  ghost function Run(pol: Policy, init: System, steps: seq<Step>): (r: Option<System>)
    requires pol.retries >= 1 && Initial(init)
    ensures r.Some? ==> Everything(r.value, pol)
  {
    if steps == [] then Some(init)
    else
      match Run(pol, init, steps[..|steps| - 1])
      case None => None
      case Some(s) =>
        if !CanTake(s, steps[|steps| - 1]) then None
        else
          StepKeepsEverything(s, pol, steps[|steps| - 1]);
          Some(Take(s, pol, steps[|steps| - 1]))
  }

  // ------------------------------------------------------------------ the theorems

  /** At most one process has a login request open, whatever the interleaving. */
  lemma OneRequestAtATime(pol: Policy, init: System, steps: seq<Step>, p: Pid, q: Pid)
    requires pol.retries >= 1 && Initial(init) && Run(pol, init, steps).Some?
    ensures var s := Run(pol, init, steps).value;
            At(s, p).Requesting? && At(s, q).Requesting? ==> p == q
  {
    var s := Run(pol, init, steps).value;
    assert ProcOk(s.shared, pol, s.log, p, At(s, p)) && ProcOk(s.shared, pol, s.log, q, At(s, q));
  }

  /**
   Once a rejection is recorded, and as long as nobody forces it away, no process sends a login
   request before the cooldown is over.
   */
  lemma CooldownIsRespected(pol: Policy, init: System, steps: seq<Step>, i: nat, j: nat)
    requires pol.retries >= 1 && Initial(init) && Run(pol, init, steps).Some?
    requires var log := Run(pol, init, steps).value.log;
             i < j < |log| && log[i].Recorded? && log[j].Sent? && NoneForced(log, i, j)
    ensures var log := Run(pol, init, steps).value.log; log[j].at >= log[i].at + pol.cooldown
  {
    assert Spaced(pol, Run(pol, init, steps).value.log);
  }

  /** So a wrong PIN costs one rejected request a cooldown, however many processes start on it. */
  lemma WrongPinCostsOneRequest(pol: Policy, init: System, steps: seq<Step>, i: nat, j: nat)
    requires pol.retries >= 1 && Initial(init) && Run(pol, init, steps).Some?
    requires var log := Run(pol, init, steps).value.log;
             OnlyRejections(log) && i < j < |log| && log[i].Sent? && log[j].Sent?
    ensures var log := Run(pol, init, steps).value.log; log[j].at >= log[i].at + pol.cooldown
  {
    assert SendsSpaced(pol, Run(pol, init, steps).value.log);
  }

  /**
   Any number of refreshes naming the same dead token cause at most one successful login while the
   tokens minted for them stay usable: a second one, with no crash between, means that some token
   minted since the first had expired.  (A login is taken never to issue the dead token again.)
   */
  lemma OneLoginPerDeadToken(pol: Policy, init: System, steps: seq<Step>, dead: Token, i: nat, j: nat)
    requires pol.retries >= 1 && Initial(init) && Run(pol, init, steps).Some?
    requires var log := Run(pol, init, steps).value.log;
             && i < j < |log| && log[i].LoggedIn? && log[j].LoggedIn? && NoCrash(log, i, j)
             && log[i].call == Call(Some(dead), false) && log[j].call == Call(Some(dead), false)
             && !HasToken(log, dead)
    ensures var log := Run(pol, init, steps).value.log;
            exists k :: i <= k < j && log[k].LoggedIn? && !Usable(log[k].token, log[j].at, pol.margin)
  {
    var log := Run(pol, init, steps).value.log;
    assert Justified(pol, log, i, j);
    var k :| i <= k < j && log[k].LoggedIn?
      && (!Usable(log[k].token, log[j].at, pol.margin) || Some(log[k].token) == log[j].call.replacing);
    assert log[k].token != dead;
  }

  /** A refresh never hands the dead token back. */
  ghost predicate NeverDead(log: seq<Event>) {
    forall i | 0 <= i < |log| && log[i].Returned? && log[i].call.replacing == Some(log[i].token) ::
      HasToken(log, log[i].token)
  }

  lemma {:induction false} RefreshNeverReturnsTheDeadToken(pol: Policy, init: System, steps: seq<Step>)
    requires pol.retries >= 1 && Initial(init) && Run(pol, init, steps).Some?
    ensures NeverDead(Run(pol, init, steps).value.log)
  {
    if steps != [] {
      var before, step := steps[..|steps| - 1], steps[|steps| - 1];
      RefreshNeverReturnsTheDeadToken(pol, init, before);
      var s, s' := Run(pol, init, before).value, Run(pol, init, steps).value;
      if step.Act? {
        assert ProcOk(s.shared, pol, s.log, step.proc, At(s, step.proc));
        LogGrows(s.shared, At(s, step.proc), step.action, s.log);
      }
      var more := s'.log[|s.log|..];
      assert s'.log == s.log + more;
      forall i | 0 <= i < |s'.log| && s'.log[i].Returned? && s'.log[i].call.replacing == Some(s'.log[i].token)
        ensures HasToken(s'.log, s'.log[i].token)
      {
        if i < |s.log| {
          assert s'.log[i] == s.log[i];
        }
        TokensStay(s.log, more, s'.log[i].token);
      }
    }
  }

  // ------------------------------------------------------------------ what a call returns

  /** The call process `p` is in. */
  function CallOf(steps: seq<Step>, p: Pid): Option<Call> {
    if steps == [] then None
    else
      var last := steps[|steps| - 1];
      if last.Act? && last.proc == p && last.action.Begin? then Some(last.action.call)
      else CallOf(steps[..|steps| - 1], p)
  }

  /** The token its login was answered with. */
  function MintedBy(steps: seq<Step>, p: Pid): Option<Token> {
    if steps == [] then None
    else
      var before, last := steps[..|steps| - 1], steps[|steps| - 1];
      if !last.Act? || last.proc != p then MintedBy(before, p)
      else if last.action.Begin? then None
      else if last.action.Answer? && last.action.outcome.Success? then Some(last.action.outcome.token)
      else MintedBy(before, p)
  }

  /** The login requests it has sent. */
  function SendsOf(steps: seq<Step>, p: Pid): nat {
    if steps == [] then 0
    else
      var before, last := steps[..|steps| - 1], steps[|steps| - 1];
      if !last.Act? || last.proc != p then SendsOf(before, p)
      else if last.action.Begin? then 0
      else SendsOf(before, p) + if last.action.Send? then 1 else 0
  }

  /** The token the cache held when it looked, if that was unforced, usable and not the one being replaced. */
  ghost function ServedTo(pol: Policy, init: System, steps: seq<Step>, p: Pid): Option<Token>
    requires pol.retries >= 1 && Initial(init) && Run(pol, init, steps).Some?
  {
    if steps == [] then None
    else
      var before, last := steps[..|steps| - 1], steps[|steps| - 1];
      if !last.Act? || last.proc != p then ServedTo(pol, init, before, p)
      else if last.action.Begin? then None
      else if last.action.CheckCache? then Offered(Run(pol, init, before).value.shared, pol, CallOf(before, p))
      else ServedTo(pol, init, before, p)
  }

  function Offered(h: Shared, pol: Policy, call: Option<Call>): Option<Token> {
    if call.None? || call.value.force || h.cache.None? || h.cache == call.value.replacing then None
    else if h.cache.value.expiry.None? || h.now + pol.margin < h.cache.value.expiry.value then h.cache
    else None
  }

  predicate Blocked(h: Shared, pol: Policy) {
    h.cooldown.Some? && h.now < h.cooldown.value + pol.cooldown
  }

  /** Its login failed for good: blocked at the second look, refused, or transiently once too often. */
  ghost predicate FailedFor(pol: Policy, init: System, steps: seq<Step>, p: Pid)
    requires pol.retries >= 1 && Initial(init) && Run(pol, init, steps).Some?
  {
    steps != [] &&
    var before, last := steps[..|steps| - 1], steps[|steps| - 1];
    if !last.Act? || last.proc != p then FailedFor(pol, init, before, p)
    else
      match last.action
      case Begin(_) => false
      case Recheck => Blocked(Run(pol, init, before).value.shared, pol)
      case Answer(outcome) =>
        outcome.Rejection? || outcome.RateLimited? || (outcome.Transient? && SendsOf(before, p) >= pol.retries)
      case _ => FailedFor(pol, init, before, p)
  }

  /** It is inside a call. */
  ghost predicate Calling(pol: Policy, init: System, steps: seq<Step>, p: Pid)
    requires pol.retries >= 1 && Initial(init) && Run(pol, init, steps).Some?
  {
    steps != [] &&
    var before, last := steps[..|steps| - 1], steps[|steps| - 1];
    if !last.Act? || last.proc != p then Calling(pol, init, before, p)
    else
      match last.action
      case Begin(_) => true
      case CheckCooldown => !Blocked(Run(pol, init, before).value.shared, pol)
      case TimeOut => false
      case Release => false
      case Crash => false
      case _ => Calling(pol, init, before, p)
  }

  /** What the position of a process says about its own steps since it began, and about the files it wrote. */
  ghost predicate Told(h: Shared, pol: Policy, pc: Pc, calling: bool, call: Option<Call>,
                       minted: Option<Token>, served: Option<Token>, sends: nat, failed: bool) {
    && (!pc.Idle? <==> calling)
    && (!pc.Idle? ==> call == Some(pc.call))
    && (pc.Begun? || pc.Waiting? || pc.Locked? || pc.Rechecking? ==> sends == 0)
    && (pc.Attempting? ==> sends == pc.attempt - 1)
    && (pc.Requesting? ==> sends == pc.attempt)
    && (pc.Minted? || pc.Saving? ==> minted == Some(pc.token) && served.None? && !failed)
    && (pc.Saving? ==> h.cooldown.None?)
    && (pc.Refused? ==> minted.None? && served.None? && failed)
    && (pc.Leaving? ==>
          && pc.result == (if minted.Some? then minted else served)
          && (minted.Some? ==> served.None? && !failed && h.cooldown.None? && h.cache == minted)
          && (served.Some? ==> sends == 0 && !failed)
          && (minted.None? && served.None? ==> failed))
    && (!pc.Idle? && !pc.Minted? && !pc.Saving? && !pc.Refused? && !pc.Leaving? ==>
          minted.None? && served.None? && !failed)
  }

  ghost predicate Tells(pol: Policy, init: System, steps: seq<Step>, p: Pid)
    requires pol.retries >= 1 && Initial(init) && Run(pol, init, steps).Some?
  {
    var s := Run(pol, init, steps).value;
    Told(s.shared, pol, At(s, p), Calling(pol, init, steps, p), CallOf(steps, p), MintedBy(steps, p),
         ServedTo(pol, init, steps, p), SendsOf(steps, p), FailedFor(pol, init, steps, p))
  }

  /** A step of another process, or of the surroundings, leaves a process's facts standing. */
  lemma OtherStepTells(s: System, pol: Policy, step: Step, p: Pid, calling: bool, call: Option<Call>,
                       minted: Option<Token>, served: Option<Token>, sends: nat, failed: bool)
    requires Inv(s, pol) && CanTake(s, step) && (step.Act? ==> step.proc != p)
    requires Told(s.shared, pol, At(s, p), calling, call, minted, served, sends, failed)
    ensures var s' := Take(s, pol, step);
            At(s', p) == At(s, p) && Told(s'.shared, pol, At(s', p), calling, call, minted, served, sends, failed)
  {
    assert ProcOk(s.shared, pol, s.log, p, At(s, p));
    if step.Act? {
      assert ProcOk(s.shared, pol, s.log, step.proc, At(s, step.proc));
    }
  }

  /** The process's own step moves its facts as the step says. */
  lemma OwnStepTells(h: Shared, pol: Policy, p: Pid, pc: Pc, a: Action, call: Option<Call>,
                     minted: Option<Token>, served: Option<Token>, sends: nat, failed: bool, calling: bool)
    requires Enabled(h, pc, a) && Told(h, pol, pc, calling, call, minted, served, sends, failed)
    requires pc.Attempting? || pc.Requesting? ==> 1 <= pc.attempt <= pol.retries
    ensures var minted' := if a.Begin? then None
                           else if a.Answer? && a.outcome.Success? then Some(a.outcome.token) else minted;
            var served' := if a.Begin? then None else if a.CheckCache? then Offered(h, pol, call) else served;
            var sends' := if a.Begin? then 0 else if a.Send? then sends + 1 else sends;
            var failed' := if a.Begin? then false else if a.Recheck? then Blocked(h, pol)
                           else if a.Answer? then a.outcome.Rejection? || a.outcome.RateLimited?
                                                  || (a.outcome.Transient? && sends >= pol.retries)
                           else failed;
            var calling' := if a.Begin? then true else if a.CheckCooldown? then !Blocked(h, pol)
                            else if a.TimeOut? || a.Release? || a.Crash? then false else calling;
            Told(NextShared(h, pol, p, pc, a), pol, NextPc(h, pol, pc, a), calling',
                 if a.Begin? then Some(a.call) else call, minted', served', sends', failed')
  {
  }

  lemma {:induction false} EveryRunTells(pol: Policy, init: System, steps: seq<Step>, p: Pid)
    requires pol.retries >= 1 && Initial(init) && Run(pol, init, steps).Some?
    ensures Tells(pol, init, steps, p)
  {
    if steps != [] {
      var before, step := steps[..|steps| - 1], steps[|steps| - 1];
      EveryRunTells(pol, init, before, p);
      var s := Run(pol, init, before).value;
      var calling, call, minted := Calling(pol, init, before, p), CallOf(before, p), MintedBy(before, p);
      var served, sends, failed := ServedTo(pol, init, before, p), SendsOf(before, p), FailedFor(pol, init, before, p);
      if step.Act? && step.proc == p {
        assert ProcOk(s.shared, pol, s.log, p, At(s, p));
        OwnStepTells(s.shared, pol, p, At(s, p), step.action, call, minted, served, sends, failed, calling);
      } else {
        OtherStepTells(s, pol, step, p, calling, call, minted, served, sends, failed);
      }
    }
  }

  /**
   Every call that takes the lock and does not crash: on releasing it, it returns the token of its own
   login, which is then the cached one with no rejection on record; or else the cached token that it
   found unforced, usable and not the dead one, and then it sent no login request; or else its login
   failed for good and it returns nothing.
   */
  lemma ReturnsExactly(pol: Policy, init: System, steps: seq<Step>, p: Pid)
    requires pol.retries >= 1 && Initial(init) && Run(pol, init, steps + [Act(p, Release)]).Some?
    ensures Run(pol, init, steps).Some? && CallOf(steps, p).Some?
    ensures var s, log := Run(pol, init, steps).value, Run(pol, init, steps + [Act(p, Release)]).value.log;
            var minted, served := MintedBy(steps, p), ServedTo(pol, init, steps, p);
            if minted.Some? then
              && log == s.log + [Returned(CallOf(steps, p).value, minted.value)]
              && s.shared.cache == minted && s.shared.cooldown.None?
            else if served.Some? then
              log == s.log + [Returned(CallOf(steps, p).value, served.value)] && SendsOf(steps, p) == 0
            else log == s.log && FailedFor(pol, init, steps, p)
  {
    assert (steps + [Act(p, Release)])[..|steps|] == steps;
    EveryRunTells(pol, init, steps, p);
  }

  /**
   Inside a call exactly from its begin until it is blocked at the first look, times out, releases or
   crashes; and under the lock it goes on asking exactly while nothing was served, minted or failed.
   */
  lemma CallGoesOnExactly(pol: Policy, init: System, steps: seq<Step>, p: Pid)
    requires pol.retries >= 1 && Initial(init) && Run(pol, init, steps).Some?
    ensures var pc := At(Run(pol, init, steps).value, p);
            && (!pc.Idle? <==> Calling(pol, init, steps, p))
            && (pc.Attempting? || pc.Requesting? ==>
                  && MintedBy(steps, p).None? && ServedTo(pol, init, steps, p).None?
                  && !FailedFor(pol, init, steps, p) && SendsOf(steps, p) <= pol.retries)
            && (pc.Leaving? || pc.Minted? || pc.Saving? || pc.Refused? ==>
                  MintedBy(steps, p).Some? || ServedTo(pol, init, steps, p).Some? || FailedFor(pol, init, steps, p))
  {
    EveryRunTells(pol, init, steps, p);
    var s := Run(pol, init, steps).value;
    assert ProcOk(s.shared, pol, s.log, p, At(s, p));
  }

  // ------------------------------------------------------------------ what the files and the record hold

  function LastOf(steps: seq<Step>, p: Pid): Option<Action> {
    if steps == [] then None
    else
      var last := steps[|steps| - 1];
      if last.Act? && last.proc == p then Some(last.action) else LastOf(steps[..|steps| - 1], p)
  }

  lemma RefusedStep(h: Shared, pol: Policy, pc: Pc, a: Action)
    requires Enabled(h, pc, a)
    ensures NextPc(h, pol, pc, a).Refused? <==> a == Answer(Rejection)
  {
  }

  lemma RunStep(pol: Policy, init: System, before: seq<Step>, step: Step)
    requires pol.retries >= 1 && Initial(init) && Run(pol, init, before + [step]).Some?
    ensures Run(pol, init, before).Some? && CanTake(Run(pol, init, before).value, step)
    ensures Run(pol, init, before + [step]) == Some(Take(Run(pol, init, before).value, pol, step))
  {
    assert (before + [step])[..|before|] == before;
  }

  /** A rejection, and only that, is what a process goes on to record. */
  lemma {:induction false} RecordsExactly(pol: Policy, init: System, steps: seq<Step>, p: Pid)
    requires pol.retries >= 1 && Initial(init) && Run(pol, init, steps).Some?
    ensures At(Run(pol, init, steps).value, p).Refused? <==> LastOf(steps, p) == Some(Answer(Rejection))
  {
    if steps != [] {
      var before, step := steps[..|steps| - 1], steps[|steps| - 1];
      assert before + [step] == steps;
      RunStep(pol, init, before, step);
      RecordsExactly(pol, init, before, p);
      if step.Act? {
        RefusedStep(Run(pol, init, before).value.shared, pol, At(Run(pol, init, before).value, step.proc), step.action);
      }
    }
  }

  function Clock(init: System, steps: seq<Step>): int {
    if steps == [] then init.shared.now
    else Clock(init, steps[..|steps| - 1]) + if steps[|steps| - 1].Wait? then steps[|steps| - 1].delay else 0
  }

  /** The rejection on file: the last one recorded, unless a login or an operator has cleared it since. */
  function OnFile(init: System, steps: seq<Step>): Option<int> {
    if steps == [] then init.shared.cooldown
    else
      var before, last := steps[..|steps| - 1], steps[|steps| - 1];
      if last.ForceClear? || (last.Act? && last.action.ClearCooldown?) then None
      else if last.Act? && last.action.RecordRejection? then Some(Clock(init, before))
      else OnFile(init, before)
  }

  /** The token in the cache: the last one a process minted and saved. */
  function Cached(init: System, steps: seq<Step>): Option<Token> {
    if steps == [] then init.shared.cache
    else
      var before, last := steps[..|steps| - 1], steps[|steps| - 1];
      if last.Act? && last.action.Save? then MintedBy(before, last.proc) else Cached(init, before)
  }

  /** What an act adds to the record. */
  function Entry(a: Action, now: int, call: Option<Call>, minted: Option<Token>, served: Option<Token>): seq<Event> {
    match a
    case Send => [Sent(now)]
    case Answer(outcome) =>
      if !outcome.Success? then [Failed(outcome)] else if call.Some? then [LoggedIn(call.value, outcome.token, now)] else []
    case RecordRejection => [Recorded(now)]
    case Release =>
      var result := if minted.Some? then minted else served;
      if result.Some? && call.Some? then [Returned(call.value, result.value)] else []
    case Crash => [Crashed]
    case _ => []
  }

  ghost function Adds(pol: Policy, init: System, before: seq<Step>, last: Step): seq<Event>
    requires pol.retries >= 1 && Initial(init) && Run(pol, init, before).Some?
  {
    match last
    case ForceClear => [Forced]
    case Wait(_) => []
    case Act(p, a) => Entry(a, Clock(init, before), CallOf(before, p), MintedBy(before, p), ServedTo(pol, init, before, p))
  }

  ghost function Record(pol: Policy, init: System, steps: seq<Step>): seq<Event>
    requires pol.retries >= 1 && Initial(init) && Run(pol, init, steps).Some?
  {
    if steps == [] then []
    else Record(pol, init, steps[..|steps| - 1]) + Adds(pol, init, steps[..|steps| - 1], steps[|steps| - 1])
  }

  lemma ActWrites(h: Shared, pol: Policy, p: Pid, pc: Pc, a: Action, log: seq<Event>, calling: bool, call: Option<Call>,
                  minted: Option<Token>, served: Option<Token>, sends: nat, failed: bool)
    requires Enabled(h, pc, a) && Told(h, pol, pc, calling, call, minted, served, sends, failed)
    ensures var t := NextShared(h, pol, p, pc, a);
            && t.now == h.now && t.cache == (if a.Save? then minted else h.cache)
            && t.cooldown == (if a.ClearCooldown? then None else if a.RecordRejection? then Some(h.now) else h.cooldown)
    ensures NextLog(h, pc, a, log) == log + Entry(a, h.now, call, minted, served)
  {
    assert log + [] == log;
  }

  /** The clock, the two files and the record are what the steps say. */
  ghost predicate Written(pol: Policy, init: System, steps: seq<Step>)
    requires pol.retries >= 1 && Initial(init) && Run(pol, init, steps).Some?
  {
    var s := Run(pol, init, steps).value;
    && s.shared.now == Clock(init, steps) && s.shared.cooldown == OnFile(init, steps)
    && s.shared.cache == Cached(init, steps) && s.log == Record(pol, init, steps)
  }

  lemma StepWrites(pol: Policy, init: System, before: seq<Step>, step: Step)
    requires pol.retries >= 1 && Initial(init) && Run(pol, init, before + [step]).Some?
    requires Run(pol, init, before).Some? && Written(pol, init, before)
    ensures Written(pol, init, before + [step])
  {
    var all, s := before + [step], Run(pol, init, before).value;
    assert all[..|before|] == before && all[|before|] == step;
    RunStep(pol, init, before, step);
    match step
    case Act(p, a) =>
      EveryRunTells(pol, init, before, p);
      ActWrites(s.shared, pol, p, At(s, p), a, s.log, Calling(pol, init, before, p), CallOf(before, p), MintedBy(before, p),
                ServedTo(pol, init, before, p), SendsOf(before, p), FailedFor(pol, init, before, p));
    case _ =>
  }

  lemma {:induction false} FilesAreTheSteps(pol: Policy, init: System, steps: seq<Step>)
    requires pol.retries >= 1 && Initial(init) && Run(pol, init, steps).Some?
    ensures Written(pol, init, steps)
  {
    if steps != [] {
      var before, step := steps[..|steps| - 1], steps[|steps| - 1];
      assert before + [step] == steps;
      RunStep(pol, init, before, step);
      FilesAreTheSteps(pol, init, before);
      StepWrites(pol, init, before, step);
    }
  }

  // ------------------------------------------------------------------ runs from end to end

  /** What one process's steps make of the files, its position and the record, with nobody in between. */
  function Alone(h: Shared, pol: Policy, pc: Pc, p: Pid, log: seq<Event>, actions: seq<Action>): Option<(Shared, Pc, seq<Event>)>
    decreases |actions|
  {
    if actions == [] then Some((h, pc, log))
    else if !Enabled(h, pc, actions[0]) then None
    else
      Alone(NextShared(h, pol, p, pc, actions[0]), pol, NextPc(h, pol, pc, actions[0]), p, NextLog(h, pc, actions[0], log),
            actions[1..])
  }

  lemma OneAction(h: Shared, pol: Policy, pc: Pc, p: Pid, log: seq<Event>, a: Action, rest: seq<Action>)
    requires Enabled(h, pc, a)
    ensures Alone(h, pol, pc, p, log, [a] + rest) ==
            Alone(NextShared(h, pol, p, pc, a), pol, NextPc(h, pol, pc, a), p, NextLog(h, pc, a, log), rest)
  {
    assert ([a] + rest)[0] == a && ([a] + rest)[1..] == rest;
  }

  /** A call that finds nothing in the way: it takes the lock, looks twice and asks. */
  lemma LooksAndAsks(pol: Policy, p: Pid, start: Shared, call: Call) returns (h: Shared, pc: Pc, log: seq<Event>)
    requires start.lock.None? && start.cache.None? && start.cooldown.None?
    ensures Alone(start, pol, Idle, p, [], [Begin(call), CheckCooldown, Acquire, CheckCache, Recheck, Send]) == Some((h, pc, log))
    ensures h == start.(lock := Some(p)) && pc == Requesting(call, 1) && log == [Sent(start.now)]
  {
    h, pc, log := start, Idle, [];
    OneAction(h, pol, pc, p, log, Begin(call), [CheckCooldown, Acquire, CheckCache, Recheck, Send]);
    assert [Begin(call)] + [CheckCooldown, Acquire, CheckCache, Recheck, Send] == [Begin(call), CheckCooldown, Acquire, CheckCache, Recheck, Send];
    h, pc, log := NextShared(h, pol, p, pc, Begin(call)), NextPc(h, pol, pc, Begin(call)), NextLog(h, pc, Begin(call), log);
    OneAction(h, pol, pc, p, log, CheckCooldown, [Acquire, CheckCache, Recheck, Send]);
    assert [CheckCooldown] + [Acquire, CheckCache, Recheck, Send] == [CheckCooldown, Acquire, CheckCache, Recheck, Send];
    h, pc, log := NextShared(h, pol, p, pc, CheckCooldown), NextPc(h, pol, pc, CheckCooldown), NextLog(h, pc, CheckCooldown, log);
    OneAction(h, pol, pc, p, log, Acquire, [CheckCache, Recheck, Send]);
    assert [Acquire] + [CheckCache, Recheck, Send] == [Acquire, CheckCache, Recheck, Send];
    h, pc, log := NextShared(h, pol, p, pc, Acquire), NextPc(h, pol, pc, Acquire), NextLog(h, pc, Acquire, log);
    OneAction(h, pol, pc, p, log, CheckCache, [Recheck, Send]);
    assert [CheckCache] + [Recheck, Send] == [CheckCache, Recheck, Send];
    h, pc, log := NextShared(h, pol, p, pc, CheckCache), NextPc(h, pol, pc, CheckCache), NextLog(h, pc, CheckCache, log);
    OneAction(h, pol, pc, p, log, Recheck, [Send]);
    assert [Recheck] + [Send] == [Recheck, Send];
    h, pc, log := NextShared(h, pol, p, pc, Recheck), NextPc(h, pol, pc, Recheck), NextLog(h, pc, Recheck, log);
    OneAction(h, pol, pc, p, log, Send, []);
    assert [Send] + [] == [Send];
    h, pc, log := NextShared(h, pol, p, pc, Send), NextPc(h, pol, pc, Send), NextLog(h, pc, Send, log);
  }

  /** A login that succeeds is cached and returned, and clears a rejection. */
  lemma LoginEnds(pol: Policy, p: Pid, start: Shared, call: Call, t: Token) returns (h: Shared, pc: Pc, log: seq<Event>)
    requires start.lock == Some(p)
    ensures Alone(start, pol, Requesting(call, 1), p, [], [Answer(Success(t)), ClearCooldown, Save, Release]) == Some((h, pc, log))
    ensures h == start.(lock := None, cache := Some(t), cooldown := None) && pc == Idle
    ensures log == [LoggedIn(call, t, start.now), Returned(call, t)]
  {
    h, pc, log := start, Requesting(call, 1), [];
    OneAction(h, pol, pc, p, log, Answer(Success(t)), [ClearCooldown, Save, Release]);
    assert [Answer(Success(t))] + [ClearCooldown, Save, Release] == [Answer(Success(t)), ClearCooldown, Save, Release];
    h, pc, log := NextShared(h, pol, p, pc, Answer(Success(t))), NextPc(h, pol, pc, Answer(Success(t))), NextLog(h, pc, Answer(Success(t)), log);
    OneAction(h, pol, pc, p, log, ClearCooldown, [Save, Release]);
    assert [ClearCooldown] + [Save, Release] == [ClearCooldown, Save, Release];
    h, pc, log := NextShared(h, pol, p, pc, ClearCooldown), NextPc(h, pol, pc, ClearCooldown), NextLog(h, pc, ClearCooldown, log);
    OneAction(h, pol, pc, p, log, Save, [Release]);
    assert [Save] + [Release] == [Save, Release];
    h, pc, log := NextShared(h, pol, p, pc, Save), NextPc(h, pol, pc, Save), NextLog(h, pc, Save, log);
    OneAction(h, pol, pc, p, log, Release, []);
    assert [Release] + [] == [Release];
    h, pc, log := NextShared(h, pol, p, pc, Release), NextPc(h, pol, pc, Release), NextLog(h, pc, Release, log);
  }

  /** A rejected one is recorded. */
  lemma RejectionEnds(pol: Policy, p: Pid, start: Shared, call: Call) returns (h: Shared, pc: Pc, log: seq<Event>)
    requires start.lock == Some(p)
    ensures Alone(start, pol, Requesting(call, 1), p, [], [Answer(Rejection), RecordRejection, Release]) == Some((h, pc, log))
    ensures h == start.(lock := None, cooldown := Some(start.now)) && pc == Idle
    ensures log == [Failed(Rejection), Recorded(start.now)]
  {
    h, pc, log := start, Requesting(call, 1), [];
    OneAction(h, pol, pc, p, log, Answer(Rejection), [RecordRejection, Release]);
    assert [Answer(Rejection)] + [RecordRejection, Release] == [Answer(Rejection), RecordRejection, Release];
    h, pc, log := NextShared(h, pol, p, pc, Answer(Rejection)), NextPc(h, pol, pc, Answer(Rejection)), NextLog(h, pc, Answer(Rejection), log);
    OneAction(h, pol, pc, p, log, RecordRejection, [Release]);
    assert [RecordRejection] + [Release] == [RecordRejection, Release];
    h, pc, log := NextShared(h, pol, p, pc, RecordRejection), NextPc(h, pol, pc, RecordRejection), NextLog(h, pc, RecordRejection, log);
    OneAction(h, pol, pc, p, log, Release, []);
    assert [Release] + [] == [Release];
    h, pc, log := NextShared(h, pol, p, pc, Release), NextPc(h, pol, pc, Release), NextLog(h, pc, Release, log);
  }

  /** A call that waits in vain for a lock another holds gives up and changes nothing. */
  lemma WaitEnds(pol: Policy, p: Pid, start: Shared, call: Call) returns (h: Shared, pc: Pc, log: seq<Event>)
    requires start.lock.Some? && start.cooldown.None?
    ensures Alone(start, pol, Idle, p, [], [Begin(call), CheckCooldown, TimeOut]) == Some((h, pc, log))
    ensures h == start && pc == Idle && log == []
  {
    h, pc, log := start, Idle, [];
    OneAction(h, pol, pc, p, log, Begin(call), [CheckCooldown, TimeOut]);
    assert [Begin(call)] + [CheckCooldown, TimeOut] == [Begin(call), CheckCooldown, TimeOut];
    h, pc, log := NextShared(h, pol, p, pc, Begin(call)), NextPc(h, pol, pc, Begin(call)), NextLog(h, pc, Begin(call), log);
    OneAction(h, pol, pc, p, log, CheckCooldown, [TimeOut]);
    assert [CheckCooldown] + [TimeOut] == [CheckCooldown, TimeOut];
    h, pc, log := NextShared(h, pol, p, pc, CheckCooldown), NextPc(h, pol, pc, CheckCooldown), NextLog(h, pc, CheckCooldown, log);
    OneAction(h, pol, pc, p, log, TimeOut, []);
    assert [TimeOut] + [] == [TimeOut];
    h, pc, log := NextShared(h, pol, p, pc, TimeOut), NextPc(h, pol, pc, TimeOut), NextLog(h, pc, TimeOut, log);
  }

  /** A process may crash wherever it is, and the lock it held is free. */
  lemma CrashFrees(s: System, pol: Policy, p: Pid)
    requires Inv(s, pol)
    ensures CanTake(s, Act(p, Crash)) && At(Take(s, pol, Act(p, Crash)), p) == Idle
    ensures Take(s, pol, Act(p, Crash)).shared.lock == if Holds(At(s, p)) then None else s.shared.lock
  {
    assert ProcOk(s.shared, pol, s.log, p, At(s, p));
  }
}
