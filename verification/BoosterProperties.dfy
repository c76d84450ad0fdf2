/** What every run of the booster keeps. */
module BoosterProperties {
  import opened Wrappers
  import opened BoosterMachine

  // ----- The specification: the whole request history, read off the events -----

  datatype Interval = Interval(from: nat, until: nat) {
    predicate Covers(t: nat) {
      from <= t < until
    }
  }

  function Last(es: seq<Event>): Event
    requires es != []
  {
    es[|es| - 1]
  }

  function Front(es: seq<Event>): (r: seq<Event>)
    requires es != []
    ensures |r| < |es|
  {
    es[..|es| - 1]
  }

  function Clock(start: nat, es: seq<Event>): nat
    decreases |es|
  {
    if es == [] then start
    else Clock(start, Front(es)) + if Last(es).Tick? then Last(es).dt else 0
  }

  /** The milliseconds a request asks for; one that is not positive asks for 100. */
  function Milliseconds(durationMs: int): nat {
    if durationMs > 0 then durationMs else 100
  }

  /** Every timed request ever made, as the interval it asked for. */
  function Requests(start: nat, es: seq<Event>): seq<Interval>
    decreases |es|
  {
    if es == [] then []
    else
      var now := Clock(start, Front(es));
      Requests(start, Front(es)) +
      match Last(es)
      case SetBoost(kind, ms) =>
        if kind.OtherBoost? then [] else [Interval(now, now + 1_000_000 * Milliseconds(ms))]
      case _ => []
  }

  /** LAUNCH as of the last setMode, completed or not. */
  predicate LaunchStored(es: seq<Event>)
    decreases |es|
  {
    if es == [] then false
    else
      match Last(es)
      case SetModeStore(mode, enabled) =>
        if mode == Launch then enabled else LaunchStored(Front(es))
      case _ => LaunchStored(Front(es))
  }

  /** LAUNCH as of the last completed setMode. */
  predicate LaunchApplied(es: seq<Event>)
    decreases |es|
  {
    es != [] && if Last(es).SetModeApply? then LaunchStored(Front(es)) else LaunchApplied(Front(es))
  }

  ghost predicate Wanted(start: nat, es: seq<Event>) {
    || (exists r <- Requests(start, es) :: r.Covers(Clock(start, es)))
    || LaunchApplied(es)
  }

  lemma RunLast(s0: State, es: seq<Event>)
    requires es != [] && Run(s0, es).Some?
    ensures Run(s0, Front(es)).Some? && Enabled(Run(s0, Front(es)).value, Last(es))
    ensures Run(s0, es) == Some(Step(Run(s0, Front(es)).value, Last(es)))
  {}

  // ----- The single deadline refines the request history -----

  /** The deadline is the largest end of any request, or 0. */
  ghost predicate Collapses(s: State, requests: seq<Interval>) {
    && (forall r <- requests :: r.from <= s.now && r.until <= s.boostEnd)
    && (s.boostEnd == 0 || exists r <- requests :: r.until == s.boostEnd)
  }

  ghost predicate Refines(s0: State, es: seq<Event>, s: State) {
    && s.now == Clock(s0.now, es)
    && Collapses(s, Requests(s0.now, es))
    && (Launch in s.modes) == LaunchStored(es)
    && s.boostEn == LaunchApplied(es)
  }

  /**
    A timed request moves the deadline to its own end if that is later, notifying the thread,
    and changes nothing otherwise; no other boost changes anything.
   */
  lemma {:induction false} SetBoostIs(s: State, kind: Boost, ms: int)
    requires Enabled(s, SetBoost(kind, ms))
    ensures var t, end := Step(s, SetBoost(kind, ms)), s.now + 1_000_000 * Milliseconds(ms);
            if kind == Interaction || kind == DisplayUpdateImminent then
              && t.boostEnd == (if s.boostEnd < end then end else s.boostEnd)
              && t == s.(boostEnd := t.boostEnd, notified := t.notified, lost := t.lost)
              && t.notified == (s.notified || (s.boostEnd < end && s.location == Waiting))
              && t.lost == (s.lost || (s.boostEnd < end && s.location == Gap))
            else t == s
  {}

  lemma RequestCollapses(s: State, kind: Boost, ms: int, requests: seq<Interval>)
    requires Collapses(s, requests) && Enabled(s, SetBoost(kind, ms)) && !kind.OtherBoost?
    ensures Collapses(Step(s, SetBoost(kind, ms)),
                      requests + [Interval(s.now, s.now + 1_000_000 * Milliseconds(ms))])
  {
    var r := Interval(s.now, s.now + 1_000_000 * Milliseconds(ms));
    SetBoostIs(s, kind, ms);
    hide Milliseconds, Step;
    var all := requests + [r];
    assert r == all[|requests|] && forall q <- all :: q in requests || q == r;
    if s.boostEnd >= r.until && s.boostEnd != 0 {
      var q :| q in requests && q.until == s.boostEnd;
      assert q in all;
    }
  }

  lemma StepKeepsDeadline(s: State, e: Event)
    requires Enabled(s, e) && !e.SetBoost?
    ensures Step(s, e).boostEnd == s.boostEnd && Step(s, e).now >= s.now
  {
    hide EvaluateStep, BoostFor;
    if e.Evaluate? {
      EvaluateKeepsDeadline(s, e.writeOk);
    }
  }

  lemma EvaluateKeepsDeadline(s: State, writeOk: seq<bool>)
    requires |writeOk| == |s.boosters|
    ensures EvaluateStep(s, writeOk).boostEnd == s.boostEnd && EvaluateStep(s, writeOk).now == s.now
  {
    hide BoostAll;
  }

  lemma LaterCollapses(s: State, t: State, requests: seq<Interval>)
    requires Collapses(s, requests) && t.boostEnd == s.boostEnd && t.now >= s.now
    ensures Collapses(t, requests)
  {}

  lemma StepCollapses(s: State, e: Event, requests: seq<Interval>)
    requires Collapses(s, requests) && Enabled(s, e)
    ensures Collapses(Step(s, e), requests +
                                  if e.SetBoost? && !e.kind.OtherBoost?
                                  then [Interval(s.now, s.now + 1_000_000 * Milliseconds(e.durationMs))] else [])
  {
    hide Collapses, BoostFor, EvaluateStep, Milliseconds;
    if e.SetBoost? && !e.kind.OtherBoost? {
      RequestCollapses(s, e.kind, e.durationMs, requests);
    } else {
      assert requests + [] == requests;
      if e.SetBoost? {
        SetBoostIs(s, e.kind, e.durationMs);
      } else {
        StepKeepsDeadline(s, e);
      }
      LaterCollapses(s, Step(s, e), requests);
    }
  }

  lemma {:induction false} RunRefines(s0: State, es: seq<Event>)
    requires Initial(s0) && Run(s0, es).Some?
    ensures Refines(s0, es, Run(s0, es).value)
    decreases |es|
  {
    if es != [] {
      RunRefines(s0, Front(es));
      var mid := Run(s0, Front(es)).value;
      RunLast(s0, es);
      StepCollapses(mid, Last(es), Requests(s0.now, Front(es)));
      StepModes(mid, Last(es), es);
    }
  }

  lemma StepModes(s: State, e: Event, es: seq<Event>)
    requires es != [] && e == Last(es) && Enabled(s, e)
    requires (Launch in s.modes) == LaunchStored(Front(es)) && s.boostEn == LaunchApplied(Front(es))
    ensures (Launch in Step(s, e).modes) == LaunchStored(es) && Step(s, e).boostEn == LaunchApplied(es)
  {
    match e
    case SetModeStore(_, _) =>
    case SetModeApply =>
    case _ => assert Step(s, e).modes == s.modes && Step(s, e).boostEn == s.boostEn;
  }

  /** At any point of any run the single deadline and the flag say what the whole history says. */
  lemma {:induction false} DeadlineRefinesHistory(s0: State, es: seq<Event>)
    requires Initial(s0) && Run(s0, es).Some?
    ensures Run(s0, es).value.Active() <==> Wanted(s0.now, es)
  {
    RunRefines(s0, es);
    var s := Run(s0, es).value;
    var requests := Requests(s0.now, es);
    if s.boostEnd > s.now {
      var r :| r in requests && r.until == s.boostEnd;
      assert r.Covers(Clock(s0.now, es));
    }
  }

  /** Each evaluation that does not exit boosts exactly when the history wants it. */
  lemma {:induction false} EvaluationRefinesHistory(s0: State, es: seq<Event>, writeOk: seq<bool>)
    requires Initial(s0) && Run(s0, es + [Evaluate(writeOk)]).Some?
    ensures Run(s0, es).Some?
    ensures var s := Run(s0, es + [Evaluate(writeOk)]).value;
            if Run(s0, es).value.exit then s.location == Exited
            else s.location == Gap && (s.boosted <==> Wanted(s0.now, es))
  {
    assert Front(es + [Evaluate(writeOk)]) == es;
    DeadlineRefinesHistory(s0, es);
  }

  lemma StepRaisesDeadline(s: State, e: Event)
    requires Enabled(s, e)
    ensures s.boostEnd <= Step(s, e).boostEnd
  {
    match e
    case SetBoost(kind, ms) => assert s.boostEnd <= BoostFor(s, ms).boostEnd;
    case _ => assert Step(s, e).boostEnd == s.boostEnd;
  }

  /** boost_end_ never decreases between two points of a run. */
  lemma {:induction false} DeadlineNeverDecreases(s0: State, es: seq<Event>, fs: seq<Event>)
    requires Run(s0, es + fs).Some?
    ensures Run(s0, es).Some? && Run(s0, es).value.boostEnd <= Run(s0, es + fs).value.boostEnd
    decreases |fs|
  {
    if fs == [] {
      assert es + fs == es;
    } else {
      assert Front(es + fs) == es + Front(fs);
      RunLast(s0, es + fs);
      DeadlineNeverDecreases(s0, es, Front(fs));
      StepRaisesDeadline(Run(s0, es + Front(fs)).value, Last(es + fs));
    }
  }

  // ----- The unpredicated wait -----

  ghost predicate SeenActive(s: State) {
    s.seenEnd > s.seenAt || s.seenEn
  }

  ghost predicate UnchangedSinceSeen(s: State) {
    s.boostEnd == s.seenEnd && s.boostEn == s.seenEn && (s.exit ==> s.exitOwed)
  }

  ghost predicate Alternates(calls: seq<bool>) {
    forall i | 0 <= i < |calls| :: calls[i] == (i % 2 == 0)
  }

  ghost predicate Invariant(s: State) {
    && s.seenAt <= s.now
    && s.boosted == SeenActive(s)
    && s.wakeup == (if s.boosted && !s.seenEn then At(s.seenEnd) else Never)
    && (s.exitOwed ==> s.exit)
    && (s.location == Gap && !s.lost ==> UnchangedSinceSeen(s))
    && (s.location == Waiting && !s.lost && !s.notified ==> UnchangedSinceSeen(s))
    && Alternates(s.calls)
    && s.boosted == (|s.calls| % 2 == 1)
  }

  lemma InitialHoldsInvariant(s: State)
    requires Initial(s)
    ensures Invariant(s)
  {}

  lemma NotifyKeeps(s: State, t: State)
    requires Invariant(s) && s.location != Evaluating
    requires t == s.(boostEnd := t.boostEnd, boostEn := t.boostEn, exitOwed := t.exitOwed)
    requires t.exitOwed ==> t.exit
    ensures Invariant(t.Notify())
  {}

  lemma RequestKeeps(s: State, durationMs: int)
    requires Invariant(s) && s.location != Evaluating
    ensures Invariant(BoostFor(s, durationMs))
  {
    NotifyKeeps(s, s.(boostEnd := s.now + DurationNanos(durationMs)));
    hide Invariant, DurationNanos;
  }

  lemma EvaluateKeeps(s: State, writeOk: seq<bool>)
    requires Invariant(s) && |writeOk| == |s.boosters|
    ensures Invariant(EvaluateStep(s, writeOk))
  {
    hide BoostAll;
  }

  lemma StepKeepsInvariant(s: State, e: Event)
    requires Invariant(s) && Enabled(s, e)
    ensures Invariant(Step(s, e))
  {
    hide EvaluateStep, BoostFor, Alternates;
    match e
    case Evaluate(writeOk) => EvaluateKeeps(s, writeOk);
    case SetBoost(_, durationMs) =>
      if s.MutexFree() { RequestKeeps(s, durationMs); }
    case SetModeApply => NotifyExitOrMode(s, e);
    case NotifyExit => NotifyExitOrMode(s, e);
    case _ =>
  }

  lemma NotifyExitOrMode(s: State, e: Event)
    requires Invariant(s) && Enabled(s, e) && (e.SetModeApply? || e.NotifyExit?)
    ensures Invariant(Step(s, e))
  {
    hide Alternates;
  }

  lemma {:induction false} RunKeepsInvariant(s0: State, es: seq<Event>)
    requires Initial(s0) && Run(s0, es).Some?
    ensures Invariant(Run(s0, es).value)
    decreases |es|
  {
    if es == [] {
      InitialHoldsInvariant(s0);
    } else {
      RunKeepsInvariant(s0, Front(es));
      StepKeepsInvariant(Run(s0, Front(es)).value, Last(es));
    }
  }

  ghost predicate Reachable(s: State) {
    exists s0, es :: Initial(s0) && Run(s0, es) == Some(s)
  }

  lemma {:induction false} ReachableInvariant(s: State)
    requires Reachable(s)
    ensures Invariant(s)
  {
    var s0, es :| Initial(s0) && Run(s0, es) == Some(s);
    RunKeepsInvariant(s0, es);
  }

  /** If no notification fell in the gap before this wait, a sleeping thread misses nothing. */
  lemma {:induction false} WaitMissesNothing(s: State)
    requires Reachable(s) && s.location == Waiting && !s.lost
    ensures s.notified || UnchangedSinceSeen(s)
    ensures !s.notified && s.boosted && !s.boostEn ==> s.wakeup == At(s.boostEnd)
    ensures s.boosted != s.Active() ==> s.Due()
    ensures s.exit && !s.exitOwed ==> s.Due()
  {
    ReachableInvariant(s);
  }

  /**
    A boost held by the deadline alone is cancelled: sleeping until the deadline and
    then evaluating needs no notification and turns the boost off.
   */
  lemma {:induction false} TimedBoostIsCancelled(s: State, writeOk: seq<bool>) returns (es: seq<Event>)
    requires Reachable(s) && s.location == Waiting && !s.lost
    requires s.boosted && !s.boostEn && !s.exit && |writeOk| == |s.boosters|
    ensures forall e <- es :: e.Tick? || e == Wake(false) || e == Evaluate(writeOk)
    ensures Run(s, es).Some? && !Run(s, es).value.boosted
    ensures Run(s, es).value.calls == s.calls + [false]
    ensures Run(s, es).value.now == if s.boostEnd > s.now then s.boostEnd else s.now
  {
    ReachableInvariant(s);
    var tick := Tick(if s.boostEnd > s.now then s.boostEnd - s.now else 0);
    es := [tick, Wake(false), Evaluate(writeOk)];
    assert Front(es) == [tick, Wake(false)] && Front(Front(es)) == [tick] && Front([tick]) == [];
    assert Run(s, [tick]) == Some(Step(s, tick));
    assert Run(s, Front(es)).Some?;
  }

  /** A notified exit is seen: the very next wakeup is due and ends the thread. */
  lemma {:induction false} NotifiedExitIsSeen(s: State, writeOk: seq<bool>)
    requires Reachable(s) && s.location == Waiting && !s.lost
    requires s.exit && !s.exitOwed && |writeOk| == |s.boosters|
    ensures Run(s, [Wake(false), Evaluate(writeOk)]).Some?
    ensures Run(s, [Wake(false), Evaluate(writeOk)]).value.location == Exited
  {
    WaitMissesNothing(s);
    var es := [Wake(false), Evaluate(writeOk)];
    assert Front(es) == [Wake(false)] && Front([Wake(false)]) == [];
    assert Run(s, [Wake(false)]) == Some(Step(s, Wake(false)));
  }

  // ----- Exactly which notifications are lost -----

  /** The events that call notify_all in state s. */
  predicate Notifies(s: State, e: Event) {
    match e
    case SetBoost(kind, ms) => !kind.OtherBoost? && s.boostEnd < s.now + 1_000_000 * Milliseconds(ms)
    case SetModeApply => true
    case NotifyExit => true
    case _ => false
  }

  /** The thread's next wait: at once if it is in the gap. */
  function Settle(s: State): State {
    if s.location == Gap then Step(s, EnterWait) else s
  }

  /**
    A notification makes the thread's wait return if and only if it is sent while the
    thread is inside the wait, or the timer has expired anyway.
   */
  lemma {:induction false} NotificationReachesIff(s: State, e: Event)
    requires s.location == Gap || s.location == Waiting
    requires Enabled(s, e) && Notifies(s, e)
    ensures Settle(Step(s, e)).Due() <==> s.location == Waiting || s.TimerExpired()
  {
    assert Step(s, e).location == s.location;
  }

  /** What a notification leaves of the thread's next wait. */
  lemma NotifiedWait(s: State, e: Event)
    requires s.location == Gap || s.location == Waiting
    requires Enabled(s, e) && Notifies(s, e)
    ensures var t := Settle(Step(s, e));
            t.location == Waiting && t.wakeup == s.wakeup && t.notified == (s.location == Waiting)
  {
    assert Step(s, e).location == s.location && Step(s, e).wakeup == s.wakeup;
  }

  /** And it makes the wait return at all, be it by the timer later on, if and only if a timer is set besides. */
  lemma {:induction false} NotificationReachesEverIff(s: State, e: Event)
    requires s.location == Gap || s.location == Waiting
    requires Enabled(s, e) && Notifies(s, e)
    ensures (exists dt :: Step(Settle(Step(s, e)), Tick(dt)).Due()) <==> s.location == Waiting || s.wakeup.At?
  {
    NotifiedWait(s, e);
    DueEverIff(Settle(Step(s, e)));
  }

  lemma DueEverIff(s: State)
    requires s.location == Waiting
    ensures (exists dt :: Step(s, Tick(dt)).Due()) <==> s.notified || s.wakeup.At?
  {
    var dt := if s.wakeup.At? then s.wakeup.t else 0;
    assert Step(s, Tick(dt)).Due() <==> s.notified || s.wakeup.At?;
  }

  /** A wait without a notification returns by the clock alone if and only if the last evaluation left a timed boost. */
  lemma {:induction false} ClockWakesIff(s: State)
    requires Reachable(s) && s.location == Waiting && !s.notified
    ensures (exists dt :: Step(s, Tick(dt)).Due()) <==> s.boosted && !s.seenEn
  {
    ReachableInvariant(s);
    DueEverIff(s);
  }

  /** A run in which nobody calls and no wakeup is spurious. */
  predicate ClockOnly(es: seq<Event>) {
    forall e <- es :: e.Tick? || e == Wake(false) || e.Evaluate?
  }

  lemma {:induction false} SleepsForGood(s: State, es: seq<Event>)
    requires s.location == Waiting && !s.notified && s.wakeup == Never
    requires ClockOnly(es) && Run(s, es).Some?
    ensures var t := Run(s, es).value;
            t.location == Waiting && !t.notified && t.wakeup == Never && t.boosted == s.boosted
    decreases |es|
  {
    if es != [] {
      SleepsForGood(s, Front(es));
      assert Last(es) in es;
    }
  }

  /** Left alone until its timer and the deadline have both passed, the thread evaluates. */
  lemma EvaluatesLater(s: State) returns (es: seq<Event>, t: State)
    requires s.location == Waiting && s.wakeup.At?
    ensures ClockOnly(es) && Run(s, es) == Some(t)
    ensures t.location == (if s.exit then Exited else Gap)
    ensures !s.exit ==> t.boosted == s.boostEn
  {
    var tick, evaluate := Tick(s.wakeup.t + s.boostEnd), Evaluate(seq(|s.boosters|, _ => true));
    es := [tick, Wake(false), evaluate];
    assert Front(es) == [tick, Wake(false)] && Front(Front(es)) == [tick] && Front([tick]) == [];
    assert Run(s, [tick]) == Some(Step(s, tick));
    assert Run(s, Front(es)).Some?;
    t := Run(s, es).value;
  }

  /**
    A boost that nobody wants any more is cancelled without another call if and only if the
    last evaluation did not see the LAUNCH flag.
   */
  lemma {:induction false} StaleBoostCancelledIff(s: State)
    requires Reachable(s) && s.location == Waiting && !s.notified
    requires s.boosted && !s.boostEn && !s.exit
    ensures (exists es :: ClockOnly(es) && Run(s, es).Some? && !Run(s, es).value.boosted) <==> !s.seenEn
  {
    ReachableInvariant(s);
    if s.seenEn {
      forall es | ClockOnly(es) && Run(s, es).Some? ensures Run(s, es).value.boosted {
        SleepsForGood(s, es);
      }
    } else {
      var es, t := EvaluatesLater(s);
    }
  }

  /** An exit is seen without another call if and only if the last evaluation left a timed boost. */
  lemma {:induction false} ExitSeenIff(s: State)
    requires Reachable(s) && s.location == Waiting && !s.notified && s.exit
    ensures (exists es :: ClockOnly(es) && Run(s, es).Some? && Run(s, es).value.location == Exited)
            <==> s.boosted && !s.seenEn
  {
    ReachableInvariant(s);
    if s.wakeup.At? {
      var es, t := EvaluatesLater(s);
    } else {
      forall es | ClockOnly(es) && Run(s, es).Some? ensures Run(s, es).value.location != Exited {
        SleepsForGood(s, es);
      }
    }
  }

  /** The start state of a device with one booster. */
  const FRESH := State(0, 0, false, false, {}, false, false, Gap, false, Never, false,
                       [Booster(600, 1200, 600)], 0, 0, false, false, [])

  /** A boost requested before the first wait is wanted, yet nothing wakes the thread. */
  lemma {:induction false} RequestInGapIsLost()
    ensures var es := [SetBoost(Interaction, 50), EnterWait];
            var r := Run(FRESH, es);
            && Initial(FRESH) && r.Some? && Reachable(r.value)
            && Wanted(0, es) && r.value.location == Waiting && !r.value.boosted
            && forall dt :: !Step(r.value, Tick(dt)).Due()
  {
    var request := SetBoost(Interaction, 50);
    var es := [request, EnterWait];
    assert Front(es) == [request] && Front([request]) == [];
    assert Run(FRESH, [request]) == Some(Step(FRESH, request));
    assert Run(FRESH, es).Some?;
    DeadlineRefinesHistory(FRESH, es);
  }

  /** An exit stored and notified in the gap leaves the destructor's join without a wakeup. */
  lemma {:induction false} ExitInGapIsLost()
    ensures var es := [StoreExit, NotifyExit, EnterWait];
            var r := Run(FRESH, es);
            && Initial(FRESH) && r.Some? && Reachable(r.value)
            && r.value.exit && !r.value.exitOwed && r.value.location == Waiting
            && forall dt :: !Step(r.value, Tick(dt)).Due()
  {
    var es := [StoreExit, NotifyExit, EnterWait];
    assert Front(es) == [StoreExit, NotifyExit] && Front(Front(es)) == [StoreExit] && Front([StoreExit]) == [];
    assert Run(FRESH, [StoreExit]) == Some(Step(FRESH, StoreExit));
    assert Run(FRESH, Front(es)).Some?;
  }

  const LAUNCHED := FRESH.(boostEn := true, modes := {Launch}, boosted := true, boosters := [Booster(600, 1200, 1200)],
                           seenEn := true, calls := [true])

  const LAUNCH := [EnterWait, SetModeStore(Launch, true), SetModeApply, Wake(false), Evaluate([true])]

  lemma RunOne(s0: State, es: seq<Event>, s: State, e: Event)
    requires Run(s0, es) == Some(s) && Enabled(s, e)
    ensures Run(s0, es + [e]) == Some(Step(s, e))
  {
    assert Front(es + [e]) == es;
  }

  lemma RunLaunches()
    ensures Run(FRESH, LAUNCH) == Some(LAUNCHED)
  {
    var on := SetModeStore(Launch, true);
    var s1 := Step(FRESH, EnterWait);
    var s2 := Step(s1, on);
    var s3 := Step(s2, SetModeApply);
    var s4 := Step(s3, Wake(false));
    assert Step(s4, Evaluate([true])) == LAUNCHED;
    RunOne(FRESH, [], FRESH, EnterWait);
    RunOne(FRESH, [] + [EnterWait], s1, on);
    RunOne(FRESH, [] + [EnterWait] + [on], s2, SetModeApply);
    RunOne(FRESH, [] + [EnterWait] + [on] + [SetModeApply], s3, Wake(false));
    RunOne(FRESH, [] + [EnterWait] + [on] + [SetModeApply] + [Wake(false)], s4, Evaluate([true]));
    assert LAUNCH == [] + [EnterWait] + [on] + [SetModeApply] + [Wake(false)] + [Evaluate([true])];
  }

  /** LAUNCH switched off in the gap: nothing wakes the thread, and the devices stay at their maximum. */
  lemma {:induction false} LaunchOffInGapIsLost() returns (s: State)
    ensures Initial(FRESH)
    ensures Run(FRESH, LAUNCH + [SetModeStore(Launch, false)] + [SetModeApply] + [EnterWait]) == Some(s)
    ensures Reachable(s) && s.location == Waiting && s.boosted && !s.Active()
    ensures s.boosters == [Booster(600, 1200, 1200)]
    ensures forall dt :: !Step(s, Tick(dt)).Due()
    ensures forall es | ClockOnly(es) && Run(s, es).Some? :: Run(s, es).value.boosted
  {
    RunLaunches();
    var off := SetModeStore(Launch, false);
    var s1 := Step(LAUNCHED, off);
    var s2 := Step(s1, SetModeApply);
    s := Step(s2, EnterWait);
    RunOne(FRESH, LAUNCH, LAUNCHED, off);
    RunOne(FRESH, LAUNCH + [off], s1, SetModeApply);
    RunOne(FRESH, LAUNCH + [off] + [SetModeApply], s2, EnterWait);
    forall es | ClockOnly(es) && Run(s, es).Some? ensures Run(s, es).value.boosted {
      SleepsForGood(s, es);
    }
  }

  // ----- BoostAll and the minimum-frequency files -----

  /** Over any run, spurious wakeups included, the BoostAll calls are true, false, true, ... */
  lemma {:induction false} CallsAlternate(s0: State, es: seq<Event>)
    requires Initial(s0) && Run(s0, es).Some?
    ensures Alternates(Run(s0, es).value.calls)
    ensures var s := Run(s0, es).value; s.boosted == (s.calls != [] && s.calls[|s.calls| - 1])
  {
    RunKeepsInvariant(s0, es);
    LastCall(Run(s0, es).value);
  }

  lemma LastCall(s: State)
    requires Invariant(s)
    ensures Alternates(s.calls) && s.boosted == (s.calls != [] && s.calls[|s.calls| - 1])
  {}

  ghost predicate AllWritesOk(es: seq<Event>) {
    forall e <- es | e.Evaluate? :: forall i | 0 <= i < |e.writeOk| :: e.writeOk[i]
  }

  ghost predicate SameDevices(bs: seq<Booster>, cs: seq<Booster>) {
    && |bs| == |cs|
    && forall i | 0 <= i < |bs| :: cs[i] == bs[i].(minFile := cs[i].minFile)
  }

  /** With successful writes every file holds the value the last BoostAll asked for. */
  lemma {:induction false} FilesFollowCalls(s0: State, es: seq<Event>)
    requires Initial(s0) && Run(s0, es).Some? && AllWritesOk(es)
    ensures var s := Run(s0, es).value;
            && SameDevices(s0.boosters, s.boosters)
            && FilesSettled(s)
    decreases |es|
  {
    if es == [] {
      assert forall i | 0 <= i < |s0.boosters| :: s0.boosters[i] in s0.boosters;
    } else {
      FilesFollowCalls(s0, Front(es));
      RunLast(s0, es);
      StepFiles(s0.boosters, Run(s0, Front(es)).value, Last(es));
    }
  }

  /** What the file of a device holds while boosted and otherwise. */
  predicate Holds(b: Booster, en: bool) {
    b.minFile == if en then b.initialMax else b.initialMin
  }

  ghost predicate FilesSettled(s: State) {
    forall i | 0 <= i < |s.boosters| :: Holds(s.boosters[i], s.boosted)
  }

  lemma StepFiles(bs: seq<Booster>, s: State, e: Event)
    requires Enabled(s, e) && SameDevices(bs, s.boosters) && FilesSettled(s)
    requires e.Evaluate? ==> forall i | 0 <= i < |e.writeOk| :: e.writeOk[i]
    ensures SameDevices(bs, Step(s, e).boosters) && FilesSettled(Step(s, e))
  {
    if e.Evaluate? {
      assert Step(s, e) == EvaluateStep(s, e.writeOk);
    } else {
      assert Step(s, e).boosters == s.boosters && Step(s, e).boosted == s.boosted;
    }
  }

  /** One BoostAll sets a file right exactly when its write succeeds or the value was there before. */
  lemma {:induction false} FileSettledIff(bs: seq<Booster>, en: bool, writeOk: seq<bool>, i: nat)
    requires |writeOk| == |bs| && i < |bs|
    ensures Holds(BoostAll(bs, en, writeOk)[i], en) <==> writeOk[i] || Holds(bs[i], en)
    ensures SameDevices(bs, BoostAll(bs, en, writeOk))
  {}
}
