/**
  The DVFS booster of the power HAL: one deadline, one enable flag and one exit
  flag, shared under a mutex by the binder thread, the destructor and the booster
  thread. The booster thread sleeps in a timed condition wait that has no
  predicate, and its mutex is free between two iterations (the `Gap`).
  Every critical section is one step; the events carry all nondeterminism.
 */
module BoosterMachine {
  import opened Wrappers

  const DEFAULT_TIMEOUT_MS: nat := 100

  datatype Boost = DisplayUpdateImminent | Interaction | OtherBoost(id: nat)

  datatype Mode = Launch | OtherMode(id: nat)

  /** A wake-up point; `Never` is `time_point::max()`. */
  datatype Deadline = At(t: nat) | Never

  /**
    Where the booster thread is. It owns the mutex exactly in `Evaluating`.
    Without a usable booster the constructor starts no thread.
   */
  datatype Location = NotStarted | Gap | Waiting | Evaluating | Exited

  /** The files of one DVFS device: the two values read at start and the current minimum. */
  datatype Booster = Booster(initialMin: int, initialMax: int, minFile: int) {
    function Target(en: bool): int {
      if en then initialMax else initialMin
    }

    predicate Settled(en: bool) {
      minFile == Target(en)
    }
  }

  datatype State = State(
    now: nat,
    boostEnd: nat, boostEn: bool, exit: bool,
    modes: set<Mode>, inSetMode: bool,
    exitOwed: bool,              // the destructor stored exit_ but has not notified yet
    location: Location, boosted: bool, wakeup: Deadline, notified: bool,
    boosters: seq<Booster>,
    // History: what the last evaluation saw, whether a notification fell in the gap
    // since then, and the arguments of all BoostAll calls.
    seenAt: nat, seenEnd: nat, seenEn: bool, lost: bool, calls: seq<bool>
  ) {
    predicate MutexFree() {
      location != Evaluating
    }

    predicate Active() {
      boostEnd > now || boostEn
    }

    predicate TimerExpired() {
      wakeup.At? && wakeup.t <= now
    }

    /** The wait must return: this is not a spurious wakeup. */
    predicate Due() {
      location == Waiting && (notified || TimerExpired())
    }

    /** notify_all: it reaches the thread only inside the wait. */
    function Notify(): State {
      this.(notified := notified || location == Waiting, lost := lost || location == Gap)
    }
  }

  datatype Event =
    | Tick(dt: nat)
    | SetBoost(kind: Boost, durationMs: int)
    | SetModeStore(mode: Mode, enabled: bool)  // the caller updates mode_enabled_
    | SetModeApply                             // ... and then calls BoostEn
    | StoreExit                                // the destructor's critical section
    | NotifyExit                               // ... and its notification, outside the mutex
    | EnterWait
    | Wake(spurious: bool)
    | Evaluate(writeOk: seq<bool>)             // outcome of each booster's file write

  predicate Boosts(kind: Boost) {
    kind.DisplayUpdateImminent? || kind.Interaction?
  }

  /** The length of a timed request in clock ticks of one nanosecond. */
  function DurationNanos(durationMs: int): (d: nat)
    ensures d > 0
  {
    var ms := if durationMs <= 0 then DEFAULT_TIMEOUT_MS else durationMs;
    ms * 1_000_000
  }

  predicate Enabled(s: State, e: Event) {
    match e
    case Tick(_) => true
    case SetBoost(kind, _) => Boosts(kind) ==> s.MutexFree()
    case SetModeStore(_, _) => !s.inSetMode
    case SetModeApply => s.inSetMode && s.MutexFree()
    case StoreExit => s.MutexFree() && !s.exit
    case NotifyExit => s.exitOwed
    case EnterWait => s.location == Gap
    case Wake(spurious) => s.location == Waiting && (spurious || s.Due())
    case Evaluate(writeOk) => s.location == Evaluating && |writeOk| == |s.boosters|
  }

  function BoostFor(s: State, durationMs: int): State {
    var end := s.now + DurationNanos(durationMs);
    if s.boostEnd < end then s.(boostEnd := end).Notify() else s
  }

  function BoostAll(boosters: seq<Booster>, en: bool, writeOk: seq<bool>): (r: seq<Booster>)
    requires |writeOk| == |boosters|
    ensures |r| == |boosters|
  {
    seq(|boosters|, i requires 0 <= i < |boosters| =>
      if writeOk[i] then boosters[i].(minFile := boosters[i].Target(en)) else boosters[i])
  }

  function EvaluateStep(s: State, writeOk: seq<bool>): State
    requires |writeOk| == |s.boosters|
  {
    if s.exit then s.(location := Exited)
    else
      var active := s.Active();
      s.(boosted := active,
         boosters := if active != s.boosted then BoostAll(s.boosters, active, writeOk) else s.boosters,
         calls := if active != s.boosted then s.calls + [active] else s.calls,
         wakeup := if active && !s.boostEn then At(s.boostEnd) else Never,
         location := Gap,
         seenAt := s.now, seenEnd := s.boostEnd, seenEn := s.boostEn, lost := false)
  }

  function Step(s: State, e: Event): State
    requires Enabled(s, e)
  {
    match e
    case Tick(dt) => s.(now := s.now + dt)
    case SetBoost(kind, durationMs) => if Boosts(kind) then BoostFor(s, durationMs) else s
    case SetModeStore(mode, enabled) =>
      s.(modes := if enabled then s.modes + {mode} else s.modes - {mode}, inSetMode := true)
    case SetModeApply => s.(boostEn := Launch in s.modes, inSetMode := false).Notify()
    case StoreExit => s.(exit := true, exitOwed := true)
    case NotifyExit => s.(exitOwed := false).Notify()
    case EnterWait => s.(location := Waiting, notified := false)
    case Wake(_) => s.(location := Evaluating, notified := false)
    case Evaluate(writeOk) => EvaluateStep(s, writeOk)
  }

  /** The state after the constructor: every usable booster was written its own initial minimum. */
  predicate Initial(s: State) {
    && s.boostEnd == 0 && !s.boostEn && !s.exit && !s.exitOwed
    && s.modes == {} && !s.inSetMode
    && s.location == (if s.boosters == [] then NotStarted else Gap)
    && !s.boosted && s.wakeup == Never && !s.notified
    && (forall b <- s.boosters :: b.Settled(false))
    && s.seenAt == s.now && s.seenEnd == 0 && !s.seenEn && !s.lost && s.calls == []
  }

  /** The state after a run, or None when some event was not enabled. */
  function Run(s: State, es: seq<Event>): (r: Option<State>)
    decreases |es|
  {
    if es == [] then Some(s)
    else
      match Run(s, es[..|es| - 1])
      case None => None
      case Some(mid) =>
        var e := es[|es| - 1];
        if Enabled(mid, e) then Some(Step(mid, e)) else None
  }
}
