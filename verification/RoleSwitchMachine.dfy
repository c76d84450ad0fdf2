/**
  The Type-C role switch: any number of binder callers and one uevent worker share
  mRoleSwitchLock, mPartnerLock and mLock, and the partner-added condition variable.
  Thread 0 is the worker. A step is one action of one thread between two lock
  operations; who moves next is free.
 */
module RoleSwitchMachine {
  import opened Wrappers

  datatype Lock = RoleSwitch | Partner | Main

  datatype Location =
    | Idle
    // switchRole
    | WantRole(mode: bool)          // about to lock mRoleSwitchLock
    | InRole(mode: bool)
    // switchMode
    | WantPartner                   // the file is open
    | Armed                         // mPartnerLock held, mPartnerUp cleared, role not written yet
    | Blocked                       // in pthread_cond_timedwait, still queued
    | Woken                         // left the queue without a timeout, needs mPartnerLock back
    | TimedOut                      // left the queue by timeout, needs mPartnerLock back
    | NeedDual(written: bool)       // failed; about to call switchToDrp
    | Leaving(ok: bool, written: bool)  // about to return
    // switchRole, notifying userspace
    | WantMain(mode: bool, ok: bool)
    | InMain(mode: bool, ok: bool)
    // every other caller: only mLock
    | WantQuery | InQuery
    // the uevent worker
    | HandlerWantPartner | HandlerPartner
    | HandlerWantMain | HandlerMain | HandlerTryRole | HandlerRole

  /** What an observer of the role files, the uevents and the return values sees. */
  datatype Observation =
    | RoleWritten(t: nat)
    | PartnerHandled
    | TimeoutFired(t: nat)
    | DualWritten(t: nat)
    | Returned(t: nat, ok: bool)    // switchMode returned
    | ReadBack(t: nat, ok: bool)    // a data or power role was written and read back
    | Notified(t: nat, mode: bool, ok: bool)  // notifyRoleSwitchStatus, SUCCESS or ERROR

  datatype State = State(threads: seq<Location>, partnerUp: bool, log: seq<Observation>)

  datatype Choice =
    | StartSwitch(mode: bool) | StartQuery     // a binder call comes in
    | HandlePartner | HandleTypec              // the worker reads a record
    | Acquire
    | Finish(ok: bool)                         // the file operations of this location end
    | Timeout | Spurious                       // the condition wait ends without a signal
    | WriteDual
    | Return
    | Release

  function Holds(l: Location): set<Lock> {
    match l
    case InRole(_) | WantPartner | Blocked | Woken | TimedOut | NeedDual(_) | Leaving(_, _)
       | WantMain(_, _) => {RoleSwitch}
    case Armed => {RoleSwitch, Partner}
    case InMain(_, _) => {RoleSwitch, Main}
    case InQuery => {Main}
    case HandlerPartner => {Partner}
    case HandlerMain => {Main}
    case HandlerRole => {RoleSwitch}
    case _ => {}
  }

  /** The lock a blocking acquisition at this location waits for. */
  function Wants(l: Location): Option<Lock> {
    match l
    case WantRole(_) => Some(RoleSwitch)
    case WantPartner | Woken | TimedOut | HandlerWantPartner => Some(Partner)
    case WantMain(_, _) | WantQuery | HandlerWantMain => Some(Main)
    case _ => None
  }

  ghost predicate Free(s: State, lock: Lock) {
    forall u | 0 <= u < |s.threads| :: lock !in Holds(s.threads[u])
  }

  ghost predicate Enabled(s: State, t: nat, c: Choice) {
    && t < |s.threads|
    && var l := s.threads[t];
       match c
       case StartSwitch(_) | StartQuery => l == Idle && t != 0
       case HandlePartner | HandleTypec => l == Idle && t == 0
       case Acquire => Wants(l).Some? && Free(s, Wants(l).value)
       case Finish(_) => l.InRole? || l == Armed
       case Timeout | Spurious => l == Blocked
       case WriteDual => l.NeedDual? || l == HandlerRole
       case Return => l.Leaving?
       case Release => l.InMain? || l == InQuery || l == HandlerPartner || l == HandlerMain
                       || l == HandlerTryRole || l == HandlerRole
  }

  function Move(s: State, t: nat, l: Location): State
    requires t < |s.threads|
  {
    s.(threads := s.threads[t := l])
  }

  function Observe(s: State, o: Observation): State {
    s.(log := s.log + [o])
  }

  /** pthread_cond_signal; at most one thread is ever queued (see AtMostOneSwitch). */
  function Signal(s: State): (r: State)
    ensures |r.threads| == |s.threads|
  {
    s.(threads := seq(|s.threads|, u requires 0 <= u < |s.threads| =>
         if s.threads[u] == Blocked then Woken else s.threads[u]))
  }

  function AcquireStep(s: State, t: nat): State
    requires t < |s.threads|
  {
    match s.threads[t]
    case WantRole(mode) => Move(s, t, InRole(mode))
    case WantPartner => Move(s, t, Armed).(partnerUp := false)
    case Woken =>
      if s.partnerUp then Move(s, t, Leaving(true, true))
      else Move(s, t, Blocked)  // wait_again
    case TimedOut => Move(s, t, NeedDual(true))
    case WantMain(mode, ok) => Observe(Move(s, t, InMain(mode, ok)), Notified(t, mode, ok))
    case WantQuery => Move(s, t, InQuery)
    case HandlerWantPartner => Observe(Move(Signal(s).(partnerUp := true), t, HandlerPartner), PartnerHandled)
    case HandlerWantMain => Move(s, t, HandlerMain)
    case _ => s
  }

  function FinishStep(s: State, t: nat, ok: bool): State
    requires t < |s.threads|
  {
    match s.threads[t]
    case InRole(mode) =>
      if !mode then Observe(Move(s, t, WantMain(false, ok)), ReadBack(t, ok))
      else if ok then Move(s, t, WantPartner) else Move(s, t, NeedDual(false))
    case Armed =>
      if ok then Observe(Move(s, t, Blocked), RoleWritten(t)) else Move(s, t, NeedDual(false))
    case _ => s
  }

  ghost function Step(s: State, t: nat, c: Choice): State
    requires Enabled(s, t, c)
  {
    match c
    case StartSwitch(mode) => Move(s, t, WantRole(mode))
    case StartQuery => Move(s, t, WantQuery)
    case HandlePartner => Move(s, t, HandlerWantPartner)
    case HandleTypec => Move(s, t, HandlerWantMain)
    case Acquire => AcquireStep(s, t)
    case Finish(ok) => FinishStep(s, t, ok)
    case Timeout => Observe(Move(s, t, TimedOut), TimeoutFired(t))
    case Spurious => Move(s, t, Woken)
    case WriteDual =>
      if s.threads[t] == HandlerRole then Observe(s, DualWritten(t))
      else Observe(Move(s, t, Leaving(false, s.threads[t].written)), DualWritten(t))
    case Return => Observe(Move(s, t, WantMain(true, s.threads[t].ok)), Returned(t, s.threads[t].ok))
    case Release =>
      if s.threads[t] == HandlerMain then Move(s, t, HandlerTryRole)
      else if s.threads[t] == HandlerTryRole && Free(s, RoleSwitch) then Move(s, t, HandlerRole)
      else Move(s, t, Idle)
  }

  ghost predicate Initial(s: State) {
    && s.threads != [] && s.log == [] && !s.partnerUp
    && forall t | 0 <= t < |s.threads| :: s.threads[t] == Idle
  }

  datatype Event = Event(t: nat, c: Choice)

  ghost function Run(s: State, es: seq<Event>): (r: Option<State>)
    decreases |es|
  {
    if es == [] then Some(s)
    else
      match Run(s, es[..|es| - 1])
      case None => None
      case Some(mid) =>
        var e := es[|es| - 1];
        if Enabled(mid, e.t, e.c) then Some(Step(mid, e.t, e.c)) else None
  }

  ghost predicate Reachable(s: State) {
    exists s0, es :: Initial(s0) && Run(s0, es) == Some(s)
  }
}
