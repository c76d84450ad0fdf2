/** What every interleaving of the role switch keeps. */
module RoleSwitchProperties {
  import opened Wrappers
  import opened RoleSwitchMachine

  // ----- Mutual exclusion -----

  ghost predicate Exclusive(s: State) {
    forall t, u, lock | 0 <= t < u < |s.threads| ::
      !(lock in Holds(s.threads[t]) && lock in Holds(s.threads[u]))
  }

  predicate IsHandler(l: Location) {
    l.HandlerWantPartner? || l.HandlerPartner? || l.HandlerWantMain? || l.HandlerMain?
    || l.HandlerTryRole? || l.HandlerRole?
  }

  ghost predicate Roles(s: State) {
    && s.threads != []
    && forall t | 0 <= t < |s.threads| ::
         if t == 0 then s.threads[t] == Idle || IsHandler(s.threads[t]) else !IsHandler(s.threads[t])
  }

  /** A step changes only the moving thread, except that a signal takes threads off the queue. */
  lemma StepFrames(s: State, t: nat, c: Choice)
    requires Enabled(s, t, c)
    ensures var s' := Step(s, t, c);
            |s'.threads| == |s.threads| && OthersKept(s, t, s')
  {
    match c
    case Acquire => assert Step(s, t, c) == AcquireStep(s, t);
    case Finish(ok) => assert Step(s, t, c) == FinishStep(s, t, ok);
    case _ =>
  }

  /** Where a thread can be after a step of its own. */
  ghost predicate GoodMove(s: State, t: nat, s': State) {
    && t < |s.threads| == |s'.threads|
    && var l' := s'.threads[t];
       && GoodMoveLocks(s, t, l')
       && (if t == 0 then l' == Idle || IsHandler(l') else !IsHandler(l'))
  }

  ghost predicate GoodMoveLocks(s: State, t: nat, l': Location)
    requires t < |s.threads|
  {
    forall lock <- Holds(l') :: lock in Holds(s.threads[t]) || Free(s, lock)
  }

  lemma AcquireMovesWell(s: State, t: nat)
    requires Enabled(s, t, Acquire) && Roles(s)
    ensures GoodMove(s, t, AcquireStep(s, t))
  {}

  lemma FinishMovesWell(s: State, t: nat, ok: bool)
    requires Enabled(s, t, Finish(ok)) && Roles(s)
    ensures GoodMove(s, t, FinishStep(s, t, ok))
  {}

  /** A step of a thread adds a lock only if nobody holds it. */
  lemma StepMovesWell(s: State, t: nat, c: Choice)
    requires Enabled(s, t, c) && Roles(s)
    ensures GoodMove(s, t, Step(s, t, c))
  {
    hide AcquireStep, FinishStep;
    match c
    case Acquire => AcquireMovesWell(s, t);
    case Finish(ok) => FinishMovesWell(s, t, ok);
    case _ =>
  }

  ghost predicate OthersKept(s: State, t: nat, s': State)
    requires |s'.threads| == |s.threads|
  {
    forall u | 0 <= u < |s.threads| && u != t ::
      s'.threads[u] == s.threads[u] || (s.threads[u] == Blocked && s'.threads[u] == Woken)
  }

  lemma OtherHolds(s: State, t: nat, s': State, u: nat)
    requires |s'.threads| == |s.threads| && OthersKept(s, t, s') && u < |s.threads| && u != t
    ensures Holds(s'.threads[u]) == Holds(s.threads[u]) && IsHandler(s'.threads[u]) == IsHandler(s.threads[u])
    ensures s'.threads[u] == Idle <==> s.threads[u] == Idle
  {}

  lemma RolesUpdate(s: State, t: nat, s': State)
    requires Roles(s) && GoodMove(s, t, s') && OthersKept(s, t, s')
    ensures Roles(s')
  {
    hide GoodMoveLocks;
    forall u | 0 <= u < |s'.threads|
      ensures if u == 0 then s'.threads[u] == Idle || IsHandler(s'.threads[u]) else !IsHandler(s'.threads[u])
    {
      if u != t {
        OtherHolds(s, t, s', u);
      }
    }
  }

  /** A lock the moving thread holds afterwards is nobody else's. */
  lemma MoverAlone(s: State, t: nat, s': State, u: nat, lock: Lock)
    requires Exclusive(s) && GoodMove(s, t, s') && OthersKept(s, t, s')
    requires u < |s.threads| && u != t && lock in Holds(s'.threads[t])
    ensures lock !in Holds(s'.threads[u])
  {
    OtherHolds(s, t, s', u);
    assert GoodMoveLocks(s, t, s'.threads[t]);
    if lock in Holds(s.threads[t]) {
      NotShared(s, t, u, lock);
    } else {
      assert Free(s, lock);
    }
  }

  lemma NotShared(s: State, t: nat, u: nat, lock: Lock)
    requires Exclusive(s) && t < |s.threads| && u < |s.threads| && t != u && lock in Holds(s.threads[t])
    ensures lock !in Holds(s.threads[u])
  {
    var low, high := if t < u then t else u, if t < u then u else t;
    assert !(lock in Holds(s.threads[low]) && lock in Holds(s.threads[high]));
  }

  lemma ExclusiveUpdate(s: State, t: nat, s': State)
    requires Exclusive(s) && GoodMove(s, t, s') && OthersKept(s, t, s')
    ensures Exclusive(s')
  {
    hide Holds;
    forall u, v, lock | 0 <= u < v < |s'.threads|
      ensures !(lock in Holds(s'.threads[u]) && lock in Holds(s'.threads[v]))
    {
      if u == t {
        if lock in Holds(s'.threads[u]) { MoverAlone(s, t, s', v, lock); }
      } else if v == t {
        if lock in Holds(s'.threads[v]) { MoverAlone(s, t, s', u, lock); }
      } else {
        OtherHolds(s, t, s', u);
        OtherHolds(s, t, s', v);
      }
    }
  }

  lemma StepKeepsExclusive(s: State, t: nat, c: Choice)
    requires Exclusive(s) && Roles(s) && Enabled(s, t, c)
    ensures Exclusive(Step(s, t, c)) && Roles(Step(s, t, c))
  {
    StepFrames(s, t, c);
    StepMovesWell(s, t, c);
    ExclusiveUpdate(s, t, Step(s, t, c));
    RolesUpdate(s, t, Step(s, t, c));
  }

  /** From the lock to the role write mPartnerUp stays false. */
  ghost predicate ArmedCleared(s: State) {
    forall t | 0 <= t < |s.threads| && s.threads[t] == Armed :: !s.partnerUp
  }

  // ----- The story of one switch, read off the log -----

  /** Thread t wrote its role at i and has not returned since. */
  ghost predicate Open(log: seq<Observation>, t: nat, i: nat) {
    && i < |log| && log[i] == RoleWritten(t)
    && forall k | i < k < |log| :: !(log[k].Returned? && log[k].t == t)
  }

  ghost predicate OnlyPartner(log: seq<Observation>, from: nat) {
    forall k | from <= k < |log| :: log[k] == PartnerHandled
  }

  predicate InSwitch(l: Location) {
    l == Blocked || l == Woken || l == TimedOut || l == NeedDual(true) || (l.Leaving? && l.written)
  }

  /** What the log says since the role write at i, given where the thread is. */
  ghost predicate Told(s: State, l: Location, t: nat, i: nat) {
    match l
    case Blocked => i + 1 == |s.log| && !s.partnerUp
    case Woken => OnlyPartner(s.log, i + 1) && s.partnerUp == (i + 1 < |s.log|)
    case TimedOut | NeedDual(_) =>
      i + 1 < |s.log| && s.log[i + 1] == TimeoutFired(t) && OnlyPartner(s.log, i + 2)
    case Leaving(ok, _) =>
      && i + 1 < |s.log|
      && if ok then OnlyPartner(s.log, i + 1) else s.log[i + 1] == TimeoutFired(t)
    case _ => false
  }

  /** Thread t wrote "dual", and since then nothing was observed but partner records. */
  ghost predicate JustDual(log: seq<Observation>, t: nat) {
    exists d: nat | d < |log| :: log[d] == DualWritten(t) && OnlyPartner(log, d + 1)
  }

  /** A switch about to return true wrote its role, one about to return false wrote "dual". */
  ghost predicate LeaversSettled(s: State) {
    forall t | 0 <= t < |s.threads| && s.threads[t].Leaving? ::
      if s.threads[t].ok then s.threads[t].written else JustDual(s.log, t)
  }

  predicate By(o: Observation, t: nat) {
    o != PartnerHandled && o.t == t
  }

  /** The last thing observed of thread t. */
  ghost predicate LastOf(log: seq<Observation>, t: nat, o: Observation) {
    exists i: nat | i < |log| :: log[i] == o && forall k | i < k < |log| :: !By(log[k], t)
  }

  /** The outcome a notification of thread t has to carry. */
  function OutcomeOf(t: nat, mode: bool, ok: bool): Observation {
    if mode then Returned(t, ok) else ReadBack(t, ok)
  }

  /** Who is about to notify does so with the outcome it has just come to. */
  ghost predicate NotifiersSettled(s: State) {
    forall t | 0 <= t < |s.threads| && s.threads[t].WantMain? ::
      LastOf(s.log, t, OutcomeOf(t, s.threads[t].mode, s.threads[t].ok))
  }

  ghost predicate NotificationsTrue(log: seq<Observation>) {
    forall j | 0 <= j < |log| && log[j].Notified? ::
      LastOf(log[..j], log[j].t, OutcomeOf(log[j].t, log[j].mode, log[j].ok))
  }

  ghost predicate OpenTold(s: State) {
    && (forall t: nat, i: nat | Open(s.log, t, i) ::
          t < |s.threads| && InSwitch(s.threads[t]) && Told(s, s.threads[t], t, i))
    && (forall t | 0 <= t < |s.threads| && InSwitch(s.threads[t]) :: exists i: nat :: Open(s.log, t, i))
  }

  /**
    A return at j of a switch that wrote its role at i: it is true exactly when the first
    thing observed after the write is a handled partner record, and false exactly when it
    is the timeout; a true return follows nothing but partner records.
   */
  ghost predicate Outcome(log: seq<Observation>, i: nat, j: nat)
    requires i < j < |log| && log[j].Returned?
  {
    && i + 1 < j
    && (if log[j].ok then forall k | i < k < j :: log[k] == PartnerHandled
        else log[i + 1] == TimeoutFired(log[j].t))
  }

  ghost predicate WrittenThenReturned(log: seq<Observation>, i: nat, j: nat) {
    && i < j < |log| && log[j].Returned? && log[i] == RoleWritten(log[j].t)
    && forall k | i < k < j :: !(log[k].Returned? && log[k].t == log[j].t)
  }

  /** Every success has a role write to account for it, every failure a "dual". */
  ghost predicate Accounted(log: seq<Observation>, j: nat) {
    j < |log| && log[j].Returned? ==>
      if log[j].ok then exists i: nat :: WrittenThenReturned(log, i, j)
      else JustDual(log[..j], log[j].t)
  }

  ghost predicate Outcomes(log: seq<Observation>) {
    && (forall i: nat, j: nat | WrittenThenReturned(log, i, j) :: Outcome(log, i, j))
    && (forall j: nat :: Accounted(log, j))
  }

  ghost predicate Invariant(s: State) {
    Exclusive(s) && Roles(s) && ArmedCleared(s) && OpenTold(s) && LeaversSettled(s) && Outcomes(s.log)
    && NotifiersSettled(s) && NotificationsTrue(s.log)
  }

  /** At most one thread is between writing its role and returning. */
  lemma AtMostOneSwitch(s: State, t: nat, u: nat)
    requires Exclusive(s) && t < |s.threads| && u < |s.threads|
    requires RoleSwitch in Holds(s.threads[t]) && RoleSwitch in Holds(s.threads[u])
    ensures t == u
  {}

  lemma OutcomesExtend(log: seq<Observation>, o: Observation)
    requires Outcomes(log)
    requires o.Returned? ==>
               if o.ok then
                 && (exists i: nat :: Open(log, o.t, i))
                 && (forall i: nat | Open(log, o.t, i) :: i + 1 < |log| && OnlyPartner(log, i + 1))
               else
                 && JustDual(log, o.t)
                 && (forall i: nat | Open(log, o.t, i) :: i + 1 < |log| && log[i + 1] == TimeoutFired(o.t))
    ensures Outcomes(log + [o])
  {
    var log' := log + [o];
    forall i: nat, j: nat | WrittenThenReturned(log', i, j)
      ensures Outcome(log', i, j)
    {
      WrittenThenReturnedBefore(log, o, i, j);
      assert forall k | 0 <= k < |log| :: log'[k] == log[k];
      if j < |log| {
        assert Outcome(log, i, j);
      }
    }
    forall j: nat
      ensures Accounted(log', j)
    {
      if j < |log| {
        assert Accounted(log, j) && log'[j] == log[j] && log'[..j] == log[..j];
        if log[j].Returned? && log[j].ok {
          var i: nat :| WrittenThenReturned(log, i, j);
          assert WrittenThenReturned(log', i, j);
        }
      } else if j == |log| && o.Returned? && o.ok {
        var i: nat :| Open(log, o.t, i);
        assert WrittenThenReturned(log', i, j);
      } else if j == |log| {
        assert log'[..j] == log;
      }
    }
  }

  lemma WrittenThenReturnedBefore(log: seq<Observation>, o: Observation, i: nat, j: nat)
    requires WrittenThenReturned(log + [o], i, j)
    ensures if j < |log| then WrittenThenReturned(log, i, j) else o.Returned? && Open(log, o.t, i)
  {
    var log' := log + [o];
    assert log'[j] == if j < |log| then log[j] else o;
    forall k | i < k < j
      ensures !(log[k].Returned? && log[k].t == log'[j].t)
    {
      assert log'[k] == log[k];
    }
  }

  lemma StepKeepsOutcomes(s: State, t: nat, c: Choice)
    requires Invariant(s) && Enabled(s, t, c)
    ensures Outcomes(Step(s, t, c).log)
  {
    var s' := Step(s, t, c);
    OneObservation(s, t, c);
    if s'.log != s.log {
      OutcomesExtend(s.log, s'.log[|s.log|]);
    }
  }

  /** A step is observed at most once, and who returns was leaving. */
  lemma OneObservation(s: State, t: nat, c: Choice)
    requires Enabled(s, t, c)
    ensures var s' := Step(s, t, c);
            || s'.log == s.log
            || (|s'.log| == |s.log| + 1 && s'.log == s.log + [s'.log[|s.log|]]
                && (s'.log[|s.log|].Returned? ==>
                      c == Return && s'.log[|s.log|] == Returned(t, s.threads[t].ok)))
  {}

  lemma PartnerKeepsJustDual(log: seq<Observation>, t: nat)
    requires JustDual(log, t)
    ensures JustDual(log + [PartnerHandled], t)
  {
    var d: nat :| d < |log| && log[d] == DualWritten(t) && OnlyPartner(log, d + 1);
    assert (log + [PartnerHandled])[d] == DualWritten(t);
  }

  lemma StepKeepsLeavers(s: State, t: nat, c: Choice)
    requires Invariant(s) && Enabled(s, t, c)
    ensures LeaversSettled(Step(s, t, c))
  {
    var s' := Step(s, t, c);
    StepFrames(s, t, c);
    OneObservation(s, t, c);
    forall u | 0 <= u < |s'.threads| && s'.threads[u].Leaving?
      ensures if s'.threads[u].ok then s'.threads[u].written else JustDual(s'.log, u)
    {
      if u == t {
        LeavingStep(s, t, c);
        if !s'.threads[u].ok {
          assert s'.log[|s.log|] == DualWritten(t);
        }
      } else if !s'.threads[u].ok {
        OthersLogPartner(s, t, c, u);
        PartnerKeepsJustDual(s.log, u);
      }
    }
  }

  lemma LeavingStep(s: State, t: nat, c: Choice)
    requires Enabled(s, t, c) && Step(s, t, c).threads[t].Leaving?
    ensures var l := Step(s, t, c).threads[t];
            if l.ok then l.written else Step(s, t, c).log == s.log + [DualWritten(t)]
  {}

  /** While a thread holds the role lock, the others are observed handling records only. */
  lemma OthersLogPartner(s: State, t: nat, c: Choice, u: nat)
    requires Exclusive(s) && Enabled(s, t, c) && u < |s.threads| && u != t
    requires RoleSwitch in Holds(s.threads[u])
    ensures Step(s, t, c).log == s.log || Step(s, t, c).log == s.log + [PartnerHandled]
  {
    if RoleSwitch in Holds(s.threads[t]) {
      AtMostOneSwitch(s, t, u);
      assert false;
    }
  }

  lemma JustObserved(log: seq<Observation>, t: nat, o: Observation)
    ensures LastOf(log + [o], t, o)
  {
    assert (log + [o])[|log|] == o;
  }

  lemma RecordKeepsLast(log: seq<Observation>, t: nat, o: Observation)
    requires LastOf(log, t, o)
    ensures LastOf(log + [PartnerHandled], t, o)
  {
    var i: nat :| i < |log| && log[i] == o && forall k | i < k < |log| :: !By(log[k], t);
    assert (log + [PartnerHandled])[i] == o;
  }

  /** How a thread gets to the notification, and what is observed of that. */
  lemma ReachesNotification(s: State, t: nat, c: Choice)
    requires Enabled(s, t, c) && Step(s, t, c).threads[t].WantMain?
    ensures var l := Step(s, t, c).threads[t];
            Step(s, t, c).log == s.log + [OutcomeOf(t, l.mode, l.ok)]
  {}

  lemma StepKeepsNotifiers(s: State, t: nat, c: Choice)
    requires Invariant(s) && Enabled(s, t, c)
    ensures NotifiersSettled(Step(s, t, c))
  {
    var s' := Step(s, t, c);
    StepFrames(s, t, c);
    forall u | 0 <= u < |s'.threads| && s'.threads[u].WantMain?
      ensures LastOf(s'.log, u, OutcomeOf(u, s'.threads[u].mode, s'.threads[u].ok))
    {
      if u == t {
        ReachesNotification(s, t, c);
        JustObserved(s.log, t, OutcomeOf(t, s'.threads[t].mode, s'.threads[t].ok));
      } else {
        OthersLogPartner(s, t, c, u);
        RecordKeepsLast(s.log, u, OutcomeOf(u, s'.threads[u].mode, s'.threads[u].ok));
      }
    }
  }

  /** A notification is that of a thread which was about to make it. */
  lemma NotifiesWhatItWanted(s: State, t: nat, c: Choice, o: Observation)
    requires Enabled(s, t, c) && Step(s, t, c).log == s.log + [o] && o.Notified?
    ensures s.threads[t] == WantMain(o.mode, o.ok) && o.t == t
  {
    assert o == Step(s, t, c).log[|s.log|];
  }

  lemma StepKeepsNotifications(s: State, t: nat, c: Choice)
    requires Invariant(s) && Enabled(s, t, c)
    ensures NotificationsTrue(Step(s, t, c).log)
  {
    var s' := Step(s, t, c);
    OneObservation(s, t, c);
    forall j | 0 <= j < |s'.log| && s'.log[j].Notified?
      ensures LastOf(s'.log[..j], s'.log[j].t, OutcomeOf(s'.log[j].t, s'.log[j].mode, s'.log[j].ok))
    {
      assert s'.log[..j] == s.log[..j];
      if j < |s.log| {
        assert s'.log[j] == s.log[j];
      } else {
        NotifiesWhatItWanted(s, t, c, s'.log[j]);
        assert s.log[..j] == s.log;
      }
    }
  }

  lemma OpenBefore(log: seq<Observation>, o: Observation, t: nat, i: nat)
    requires Open(log + [o], t, i)
    ensures (i == |log| && o == RoleWritten(t)) || (Open(log, t, i) && !(o.Returned? && o.t == t))
  {
    var log' := log + [o];
    if i < |log| {
      assert log'[|log|] == o;
      forall k | i < k < |log|
        ensures !(log[k].Returned? && log[k].t == t)
      {
        assert log'[k] == log[k];
      }
    }
  }

  lemma OpenAfter(log: seq<Observation>, o: Observation, t: nat, i: nat)
    requires Open(log, t, i) && !(o.Returned? && o.t == t)
    ensures Open(log + [o], t, i)
  {}

  lemma StepKeepsOpenTold(s: State, t: nat, c: Choice)
    requires Invariant(s) && Enabled(s, t, c)
    ensures OpenTold(Step(s, t, c))
  {
    var s' := Step(s, t, c);
    forall u: nat, i: nat | Open(s'.log, u, i)
      ensures u < |s'.threads| && InSwitch(s'.threads[u]) && Told(s', s'.threads[u], u, i)
    {
      StepKeepsTold(s, t, c, u, i);
    }
    forall u | 0 <= u < |s'.threads| && InSwitch(s'.threads[u])
      ensures exists i: nat :: Open(s'.log, u, i)
    {
      StepKeepsOpen(s, t, c, u);
    }
  }

  lemma EntersSwitchByWriting(s: State, t: nat, c: Choice, u: nat)
    requires Enabled(s, t, c) && u < |s.threads|
    requires !InSwitch(s.threads[u]) && InSwitch(Step(s, t, c).threads[u])
    ensures u == t && s.threads[t] == Armed && c == Finish(true)
  {
    StepFrames(s, t, c);
  }

  lemma StepKeepsOpen(s: State, t: nat, c: Choice, u: nat)
    requires Invariant(s) && Enabled(s, t, c)
    requires u < |s.threads| && InSwitch(Step(s, t, c).threads[u])
    ensures exists i: nat :: Open(Step(s, t, c).log, u, i)
  {
    if InSwitch(s.threads[u]) {
      var i: nat :| Open(s.log, u, i);
      StaysOpen(s, t, c, u, i);
    } else {
      EntersSwitchByWriting(s, t, c, u);
      assert Open(Step(s, t, c).log, u, |s.log|);
    }
  }

  lemma StaysOpen(s: State, t: nat, c: Choice, u: nat, i: nat)
    requires Invariant(s) && Enabled(s, t, c) && u < |s.threads|
    requires InSwitch(s.threads[u]) && InSwitch(Step(s, t, c).threads[u]) && Open(s.log, u, i)
    ensures Open(Step(s, t, c).log, u, i)
  {
    var s' := Step(s, t, c);
    OneObservation(s, t, c);
    if s'.log != s.log {
      OpenAfter(s.log, s'.log[|s.log|], u, i);
    }
  }

  lemma StepKeepsTold(s: State, t: nat, c: Choice, u: nat, i: nat)
    requires Invariant(s) && Enabled(s, t, c) && Open(Step(s, t, c).log, u, i)
    ensures var s' := Step(s, t, c);
            u < |s'.threads| && InSwitch(s'.threads[u]) && Told(s', s'.threads[u], u, i)
  {
    var s' := Step(s, t, c);
    StepFrames(s, t, c);
    OneObservation(s, t, c);
    if s'.log == s.log {
      SilentStepKeepsTold(s, t, c, u, i);
    } else {
      var o := s'.log[|s.log|];
      OpenBefore(s.log, o, u, i);
      ObservedStepKeepsTold(s, t, c, o, u, i);
    }
  }

  lemma SilentStepKeepsTold(s: State, t: nat, c: Choice, u: nat, i: nat)
    requires Invariant(s) && Enabled(s, t, c) && Open(s.log, u, i) && Step(s, t, c).log == s.log
    ensures var s' := Step(s, t, c);
            u < |s'.threads| && InSwitch(s'.threads[u]) && Told(s', s'.threads[u], u, i)
  {
    StepFrames(s, t, c);
    if t != u {
      if s.threads[t] == WantPartner && c == Acquire { AtMostOneSwitch(s, t, u); }
      assert c == Acquire ==> s.threads[t] != HandlerWantPartner;
      assert Step(s, t, c).threads[u] == s.threads[u];
      assert Step(s, t, c).partnerUp == s.partnerUp;
    }
  }

  lemma ObservedStepKeepsTold(s: State, t: nat, c: Choice, o: Observation, u: nat, i: nat)
    requires Invariant(s) && Enabled(s, t, c) && Step(s, t, c).log == s.log + [o]
    requires (i == |s.log| && o == RoleWritten(u)) || (Open(s.log, u, i) && !(o.Returned? && o.t == u))
    ensures var s' := Step(s, t, c);
            u < |s'.threads| && InSwitch(s'.threads[u]) && Told(s', s'.threads[u], u, i)
  {
    assert o == Step(s, t, c).log[|s.log|];
    if i == |s.log| || t == u {
      OwnStepKeepsTold(s, t, c, o, u, i);
    } else {
      assert u < |s.threads| && RoleSwitch in Holds(s.threads[u]);
      OthersLogPartner(s, t, c, u);
      RecordKeepsTold(s, t, c, u, i);
    }
  }

  lemma OwnStepKeepsTold(s: State, t: nat, c: Choice, o: Observation, u: nat, i: nat)
    requires OpenTold(s) && Enabled(s, t, c) && Step(s, t, c).log == s.log + [o] && o == Step(s, t, c).log[|s.log|]
    requires (i == |s.log| && o == RoleWritten(u)) ||
             (t == u && Open(s.log, u, i) && !(o.Returned? && o.t == u))
    requires ArmedCleared(s)
    ensures var s' := Step(s, t, c);
            u < |s'.threads| && InSwitch(s'.threads[u]) && Told(s', s'.threads[u], u, i)
  {}

  lemma RecordKeepsTold(s: State, t: nat, c: Choice, u: nat, i: nat)
    requires OpenTold(s) && Open(s.log, u, i) && Enabled(s, t, c) && t != u
    requires Step(s, t, c).log == s.log + [PartnerHandled]
    ensures var s' := Step(s, t, c);
            u < |s'.threads| && InSwitch(s'.threads[u]) && Told(s', s'.threads[u], u, i)
  {
    assert Step(s, t, c).log[|s.log|] == PartnerHandled;
    assert c == Acquire && s.threads[t] == HandlerWantPartner;
    assert Step(s, t, c).threads[u] == if s.threads[u] == Blocked then Woken else s.threads[u];
  }

  lemma StepKeepsArmed(s: State, t: nat, c: Choice)
    requires Invariant(s) && Enabled(s, t, c)
    ensures ArmedCleared(Step(s, t, c))
  {
    var s' := Step(s, t, c);
    StepFrames(s, t, c);
    forall u | 0 <= u < |s'.threads| && s'.threads[u] == Armed
      ensures !s'.partnerUp
    {
      if u != t {
        assert Partner in Holds(s.threads[u]);
      }
    }
  }

  lemma StepKeepsInvariant(s: State, t: nat, c: Choice)
    requires Invariant(s) && Enabled(s, t, c)
    ensures Invariant(Step(s, t, c))
  {
    StepKeepsExclusive(s, t, c);
    StepKeepsArmed(s, t, c);
    StepKeepsOpenTold(s, t, c);
    StepKeepsLeavers(s, t, c);
    StepKeepsOutcomes(s, t, c);
    StepKeepsNotifiers(s, t, c);
    StepKeepsNotifications(s, t, c);
  }

  lemma {:induction false} RunKeepsInvariant(s0: State, es: seq<Event>)
    requires Initial(s0) && Run(s0, es).Some?
    ensures Invariant(Run(s0, es).value)
    decreases |es|
  {
    if es != [] {
      var front := es[..|es| - 1];
      RunKeepsInvariant(s0, front);
      StepKeepsInvariant(Run(s0, front).value, es[|es| - 1].t, es[|es| - 1].c);
    }
  }

  lemma {:induction false} ReachableInvariant(s: State)
    requires Reachable(s)
    ensures Invariant(s)
  {
    var s0, es :| Initial(s0) && Run(s0, es) == Some(s);
    RunKeepsInvariant(s0, es);
  }

  // ----- Theorems -----

  /** switchMode returns true only after its role write and a handled partner record. */
  lemma {:induction false} SuccessIsCaused(s: State, j: nat) returns (i: nat)
    requires Reachable(s) && j < |s.log| && s.log[j].Returned? && s.log[j].ok
    ensures i + 1 < j && s.log[i] == RoleWritten(s.log[j].t)
    ensures forall k | i < k < j :: s.log[k] == PartnerHandled
  {
    ReachableInvariant(s);
    assert Accounted(s.log, j);
    i :| WrittenThenReturned(s.log, i, j);
    assert Outcome(s.log, i, j);
  }

  /**
    When it returns false it has gone through switchToDrp: its own "dual" is the last thing
    observed before the return but for partner records.
   */
  lemma {:induction false} FailureWritesDual(s: State, j: nat) returns (d: nat)
    requires Reachable(s) && j < |s.log| && s.log[j].Returned? && !s.log[j].ok
    ensures d < j && s.log[d] == DualWritten(s.log[j].t)
    ensures forall k | d < k < j :: s.log[k] == PartnerHandled
  {
    ReachableInvariant(s);
    assert Accounted(s.log, j);
    var log, t := s.log[..j], s.log[j].t;
    d :| d < |log| && log[d] == DualWritten(t) && OnlyPartner(log, d + 1);
    forall k | d < k < j ensures s.log[k] == PartnerHandled {
      assert log[k] == s.log[k];
    }
  }

  /**
    Userspace is told the outcome: the last thing observed of a thread before it notifies is,
    for a mode switch, its return from switchMode with that outcome, and for a data or power
    switch its write and read-back.
   */
  lemma {:induction false} NotificationTells(s: State, j: nat) returns (i: nat)
    requires Reachable(s) && j < |s.log| && s.log[j].Notified?
    ensures var n := s.log[j];
            && i < j && s.log[i] == (if n.mode then Returned(n.t, n.ok) else ReadBack(n.t, n.ok))
            && forall k | i < k < j :: s.log[k] == PartnerHandled || s.log[k].t != n.t
  {
    ReachableInvariant(s);
    var n, log := s.log[j], s.log[..j];
    i :| i < |log| && log[i] == OutcomeOf(n.t, n.mode, n.ok) && forall k | i < k < |log| :: !By(log[k], n.t);
    forall k | i < k < j ensures s.log[k] == PartnerHandled || s.log[k].t != n.t {
      assert log[k] == s.log[k] && !By(log[k], n.t);
    }
  }

  /** What kind of switch a thread is serving, if any: a mode switch or another. */
  function ModeOf(l: Location): Option<bool> {
    match l
    case WantRole(mode) => Some(mode)
    case InRole(mode) => Some(mode)
    case WantPartner | Armed | Blocked | Woken | TimedOut | NeedDual(_) | Leaving(_, _) => Some(true)
    case WantMain(mode, _) => Some(mode)
    case InMain(mode, _) => Some(mode)
    case _ => None
  }

  /** From the call to the notification a thread serves the switch it was called for, whoever moves. */
  lemma {:induction false} ModeStays(s: State, t: nat, c: Choice, u: nat)
    requires Enabled(s, t, c) && u < |s.threads|
    ensures var before, after := ModeOf(s.threads[u]), ModeOf(Step(s, t, c).threads[u]);
            if u == t && c.StartSwitch? then after == Some(c.mode)
            else if u == t && s.threads[t].InMain? then after == None
            else after == before
  {
    StepFrames(s, t, c);
  }

  /** The worker goes on to the roles exactly if nobody holds the role lock when it tries. */
  lemma {:induction false} WorkerTriesTheLock(s: State)
    requires |s.threads| > 0 && s.threads[0] == HandlerMain
    ensures var s' := Step(s, 0, Release);
            && s'.threads[0] == HandlerTryRole && Enabled(s', 0, Release)
            && Step(s', 0, Release).threads[0] == if Free(s, RoleSwitch) then HandlerRole else Idle
  {
    var s' := Step(s, 0, Release);
    forall u | 0 <= u < |s.threads| ensures RoleSwitch in Holds(s'.threads[u]) <==> RoleSwitch in Holds(s.threads[u]) {
      assert u != 0 ==> s'.threads[u] == s.threads[u];
    }
    assert Free(s', RoleSwitch) <==> Free(s, RoleSwitch);
  }

  /** A switch that wrote its role succeeds if and only if a partner record beat the timeout. */
  lemma {:induction false} SwitchOutcomeIff(s: State, i: nat, j: nat)
    requires Reachable(s) && WrittenThenReturned(s.log, i, j)
    ensures i + 1 < j
    ensures s.log[j].ok <==> s.log[i + 1] == PartnerHandled
    ensures !s.log[j].ok <==> s.log[i + 1] == TimeoutFired(s.log[j].t)
  {
    ReachableInvariant(s);
    assert Outcome(s.log, i, j);
  }

  /**
    When the worker handles a partner record, a thread that has written its role and still
    has not returned is inside the wait, and leaves the queue with mPartnerUp set, unless
    its outcome is decided already.
   */
  lemma {:induction false} RecordFindsTheWait(s: State, t: nat)
    requires Reachable(s) && Enabled(s, 0, Acquire) && s.threads[0] == HandlerWantPartner
    requires t < |s.threads| && (exists i: nat :: Open(s.log, t, i))
    ensures var s' := Step(s, 0, Acquire);
            match s.threads[t]
            case Blocked | Woken => s'.threads[t] == Woken && s'.partnerUp
            case TimedOut | NeedDual(_) | Leaving(_, _) => s'.threads[t] == s.threads[t]
            case _ => false
  {
    ReachableInvariant(s);
    var i: nat :| Open(s.log, t, i);
  }

  /** Signals never wake a second thread: at most one thread is queued. */
  lemma {:induction false} OneWaiter(s: State, t: nat, u: nat)
    requires Reachable(s) && t < |s.threads| && u < |s.threads|
    requires s.threads[t] == Blocked && s.threads[u] == Blocked
    ensures t == u
  {
    ReachableInvariant(s);
  }

  /** A worker that writes "dual" does so outside every switchRole critical section. */
  lemma {:induction false} WorkerWritesDualAlone(s: State, t: nat)
    requires Reachable(s) && Enabled(s, 0, WriteDual) && 0 < t < |s.threads|
    ensures RoleSwitch !in Holds(s.threads[t])
  {
    ReachableInvariant(s);
    assert s.threads[0] == HandlerRole;
  }

  ghost predicate WaitsFor(s: State, t: nat, u: nat) {
    && t < |s.threads| && u < |s.threads|
    && Wants(s.threads[t]).Some? && Wants(s.threads[t]).value in Holds(s.threads[u])
  }

  /** Who holds mPartnerLock or mLock wants no other lock. */
  lemma {:induction false} InnerHolderWantsNothing(l: Location)
    requires Partner in Holds(l) || Main in Holds(l)
    ensures Wants(l) == None
  {}

  /** So whoever a waiting thread waits for waits at most for a thread that does not wait. */
  lemma {:induction false} WaitChainsEnd(s: State, t: nat, u: nat, v: nat)
    requires WaitsFor(s, t, u) && WaitsFor(s, u, v)
    ensures Wants(s.threads[v]) == None
  {
    InnerHolderWantsNothing(s.threads[v]);
  }

  /** The wait-for graph has no cycle, of whatever length. */
  lemma {:induction false} NoWaitCycle(s: State, cycle: seq<nat>)
    requires cycle != []
    ensures exists i | 0 <= i < |cycle| :: !WaitsFor(s, cycle[i], cycle[After(i, |cycle|)])
  {
    var n := |cycle|;
    var j := After(0, n);
    var k := After(j, n);
    if WaitsFor(s, cycle[0], cycle[j]) && WaitsFor(s, cycle[j], cycle[k]) {
      WaitChainsEnd(s, cycle[0], cycle[j], cycle[k]);
      assert !WaitsFor(s, cycle[k], cycle[After(k, n)]);
    }
  }

  function After(i: nat, n: nat): (j: nat)
    requires i < n
    ensures j < n
  {
    if i + 1 < n then i + 1 else 0
  }

  ghost predicate Stuck(s: State, t: nat)
    requires t < |s.threads|
  {
    Wants(s.threads[t]).Some? && !Free(s, Wants(s.threads[t]).value)
  }

  lemma Holder(s: State, t: nat) returns (u: nat)
    requires t < |s.threads| && Stuck(s, t)
    ensures WaitsFor(s, t, u)
  {
    u :| 0 <= u < |s.threads| && Wants(s.threads[t]).value in Holds(s.threads[u]);
  }

  /** No deadlock: while any thread is busy, some busy thread can take a step. */
  lemma {:induction false} SomeBusyThreadMoves(s: State, t: nat) returns (u: nat, c: Choice)
    requires Reachable(s) && t < |s.threads| && s.threads[t] != Idle
    ensures Enabled(s, u, c) && s.threads[u] != Idle
  {
    u := t;
    if Stuck(s, t) {
      u := Holder(s, t);
      if Stuck(s, u) {
        var v := Holder(s, u);
        WaitChainsEnd(s, t, u, v);
        u := v;
      }
    }
    c := match s.threads[u]
      case InRole(_) | Armed => Finish(true)
      case Blocked => Timeout
      case NeedDual(_) => WriteDual
      case Leaving(_, _) => Return
      case WantRole(_) | WantPartner | Woken | TimedOut | WantMain(_, _) | WantQuery
         | HandlerWantPartner | HandlerWantMain => Acquire
      case _ => Release;
  }

  // ----- A partner record that comes too late -----

  const ARM := [Event(1, StartSwitch(true)), Event(1, Acquire), Event(1, Finish(true))]
  const EXPIRE := [Event(1, Acquire), Event(1, Finish(true)), Event(1, Timeout)]
  const HANDLE := [Event(0, HandlePartner), Event(0, Acquire), Event(0, Release)]
  const GIVE_UP := [Event(1, Acquire), Event(1, WriteDual), Event(1, Return)]

  ghost predicate Goes(s: State, e: Event, s': State) {
    Enabled(s, e.t, e.c) && Step(s, e.t, e.c) == s'
  }

  lemma {:induction false} RunOne(s0: State, es: seq<Event>, e: Event, a: State, b: State)
    requires Run(s0, es) == Some(a) && Goes(a, e, b)
    ensures Run(s0, es + [e]) == Some(b)
  {
    assert (es + [e])[..|es|] == es;
  }

  lemma {:induction false} RunThree(s0: State, es: seq<Event>, es3: seq<Event>, a: State, b: State, c: State, d: State)
    requires Run(s0, es) == Some(a) && |es3| == 3
    requires Goes(a, es3[0], b) && Goes(b, es3[1], c) && Goes(c, es3[2], d)
    ensures Run(s0, es + es3) == Some(d)
  {
    hide Goes, Run;
    RunOne(s0, es, es3[0], a, b);
    RunOne(s0, es + [es3[0]], es3[1], b, c);
    RunOne(s0, es + [es3[0]] + [es3[1]], es3[2], c, d);
    assert es + [es3[0]] + [es3[1]] + [es3[2]] == es + es3;
  }

  const START := State([Idle, Idle], false, [])
  const OPENED := State([Idle, WantPartner], false, [])
  const EXPIRED := State([Idle, TimedOut], false, [RoleWritten(1), TimeoutFired(1)])
  const TOO_LATE := State([Idle, TimedOut], true, [RoleWritten(1), TimeoutFired(1), PartnerHandled])

  lemma {:induction false} RunArms()
    ensures Run(START, [] + ARM) == Some(OPENED)
  {
    var s1 := State([Idle, WantRole(true)], false, []);
    var s2 := State([Idle, InRole(true)], false, []);
    assert Goes(START, ARM[0], s1) && Goes(s1, ARM[1], s2) && Goes(s2, ARM[2], OPENED);
    RunThree(START, [], ARM, START, s1, s2, OPENED);
  }

  lemma {:induction false} RunExpires()
    ensures Run(START, [] + ARM + EXPIRE) == Some(EXPIRED)
  {
    RunArms();
    var s4 := State([Idle, Armed], false, []);
    var s5 := State([Idle, Blocked], false, [RoleWritten(1)]);
    assert Goes(OPENED, EXPIRE[0], s4) && Goes(s4, EXPIRE[1], s5) && Goes(s5, EXPIRE[2], EXPIRED);
    RunThree(START, [] + ARM, EXPIRE, OPENED, s4, s5, EXPIRED);
  }

  lemma HandlerSignalsNobody(s: State, s': State)
    requires s.threads == [HandlerWantPartner, TimedOut]
    requires s' == State([HandlerPartner, TimedOut], true, s.log + [PartnerHandled])
    ensures Goes(s, Event(0, Acquire), s')
  {
    assert Signal(s).threads == s.threads;
  }

  lemma {:induction false} RunHandles()
    ensures Run(START, [] + ARM + EXPIRE + HANDLE) == Some(TOO_LATE)
  {
    RunExpires();
    var s7 := State([HandlerWantPartner, TimedOut], false, EXPIRED.log);
    var s8 := State([HandlerPartner, TimedOut], true, TOO_LATE.log);
    assert Goes(EXPIRED, HANDLE[0], s7) && Goes(s8, HANDLE[2], TOO_LATE);
    HandlerSignalsNobody(s7, s8);
    RunThree(START, [] + ARM + EXPIRE, HANDLE, EXPIRED, s7, s8, TOO_LATE);
  }

  const FAILING := State([Idle, NeedDual(true)], true, TOO_LATE.log)
  const LEAVING := State([Idle, Leaving(false, true)], true, TOO_LATE.log + [DualWritten(1)])
  const FAILED := State([Idle, WantMain(true, false)], true, TOO_LATE.log + [DualWritten(1)] + [Returned(1, false)])

  lemma GivesUp()
    ensures Goes(TOO_LATE, GIVE_UP[0], FAILING)
    ensures Goes(FAILING, GIVE_UP[1], LEAVING)
    ensures Goes(LEAVING, GIVE_UP[2], FAILED)
  {}

  /**
    A partner record handled while the switch is still in its critical section does not
    make it succeed: the timeout has fired, so mPartnerUp is set and never looked at.
   */
  lemma {:induction false} LateRecordIsIgnored() returns (s: State)
    ensures Reachable(s) && s.partnerUp
    ensures s.log == [RoleWritten(1), TimeoutFired(1), PartnerHandled, DualWritten(1), Returned(1, false)]
  {
    RunHandles();
    GivesUp();
    s := FAILED;
    hide Goes, Run;
    RunThree(START, [] + ARM + EXPIRE + HANDLE, GIVE_UP, TOO_LATE, FAILING, LEAVING, FAILED);
    assert Initial(START);
  }
}
