/** What a call is answered, read off its request and the outcomes of its steps. */
module GadgetReplies {
  import opened Wrappers
  import opened GadgetPlan
  import opened GadgetPlanProperties
  import opened GadgetMachine
  import opened GadgetProperties
  import opened GadgetTheorems
  import opened GadgetRuns

  // ----- The supported combinations -----

  predicate Alone(f: GadgetFunction) {
    f == MTP || f == PTP || f == RNDIS || f == MIDI || f == NCM || f == ACCESSORY || f == AUDIO_SOURCE
  }

  /** ADB by itself; or one other function, or accessory with audio source, each with or without ADB. */
  ghost predicate Supported(fs: Functions) {
    var rest := fs - {ADB};
    || fs == {ADB}
    || rest == {ACCESSORY, AUDIO_SOURCE}
    || exists f :: Alone(f) && rest == {f}
  }

  lemma WithoutAdb(fs: Functions, rest: Functions)
    requires rest == fs - {ADB}
    ensures fs == rest || fs == rest + {ADB}
  {}

  lemma OneSupported(fs: Functions, f: GadgetFunction)
    requires Alone(f) && fs - {ADB} == {f}
    ensures ProductId(fs).Some?
  {
    WithoutAdb(fs, {f});
    assert {f} + {ADB} == {ADB, f};
  }

  lemma TwoSupported(fs: Functions)
    requires fs - {ADB} == {ACCESSORY, AUDIO_SOURCE}
    ensures ProductId(fs).Some?
  {
    WithoutAdb(fs, {ACCESSORY, AUDIO_SOURCE});
    assert {ACCESSORY, AUDIO_SOURCE} + {ADB} == {ADB, ACCESSORY, AUDIO_SOURCE};
  }

  lemma IsAlone(fs: Functions, f: GadgetFunction)
    requires Alone(f) && (fs == {f} || fs == {ADB, f})
    ensures Supported(fs)
  {
    assert fs - {ADB} == {f};
  }

  lemma {:induction false} SupportedIff(fs: Functions)
    ensures ProductId(fs).Some? <==> Supported(fs)
  {
    if ProductId(fs).Some? {
      if fs == {ACCESSORY, AUDIO_SOURCE} || fs == {ADB, ACCESSORY, AUDIO_SOURCE} {
        assert fs - {ADB} == {ACCESSORY, AUDIO_SOURCE};
      } else if fs != {ADB} {
        var f :| f in fs && f != ADB;
        IsAlone(fs, f);
      }
    }
    if Supported(fs) && fs != {ADB} {
      if fs - {ADB} == {ACCESSORY, AUDIO_SOURCE} {
        TwoSupported(fs);
      } else {
        var f :| Alone(f) && fs - {ADB} == {f};
        OneSupported(fs, f);
      }
    }
  }

  // ----- The outcomes of a call's steps, read off its events -----

  ghost predicate TornDownOk(es: seq<Event>) {
    exists removed :: ByService(ResetGadget(removed, true)) in es
  }

  predicate IdsWritten(es: seq<Event>) {
    ByService(Decide(true)) in es
  }

  predicate UdcWrittenDirectly(es: seq<Event>) {
    ByService(PullDirect(true)) in es
  }

  /** The outcomes of the setup's actions. */
  function Actions(es: seq<Event>): seq<bool>
    decreases |es|
  {
    if es == [] then []
    else
      var e := es[|es| - 1];
      Actions(es[..|es| - 1]) + if e.ByService? && e.s.DoAction? then [e.s.ok] else []
  }

  /** Nothing that can be refused was. */
  predicate Accepted(plan: seq<Action>, outcomes: seq<bool>) {
    && |outcomes| <= |plan|
    && forall i | 0 <= i < |outcomes| :: outcomes[i] || plan[i].EndPoint?
  }

  predicate PlanDone(r: Request, es: seq<Event>) {
    Accepted(r.plan, Actions(es)) && |Actions(es)| == |r.plan|
  }

  /** The ids of a supported combination were written after a teardown that succeeded. */
  ghost predicate SetupBegun(r: Request, es: seq<Event>) {
    TornDownOk(es) && r.functions != {} && r.supported && IdsWritten(es)
  }

  // ----- Where a call stands -----

  ghost predicate Fits(r: Request, es: seq<Event>, reply: Reply) {
    && (reply.viaMonitor <==> SetupBegun(r, es) && PlanDone(r, es) && FfsEnabled(r.functions))
    && (reply.viaMonitor ==> reply.status != CONFIGURATION_NOT_SUPPORTED)
    && (!reply.viaMonitor ==>
          reply.status ==
          if !TornDownOk(es) then ERROR
          else if r.functions == {} then SUCCESS
          else if !r.supported then CONFIGURATION_NOT_SUPPORTED
          else if SetupBegun(r, es) && PlanDone(r, es) && UdcWrittenDirectly(es) then SUCCESS
          else ERROR)
  }

  ghost predicate Replied(s: State, r: Request, es: seq<Event>, t: State) {
    if r.hasCallback
    then |t.replies| == |s.replies| + 1 && t.replies[..|s.replies|] == s.replies
         && t.replies[|s.replies|].call == t.call && Fits(r, es, t.replies[|s.replies|])
    else t.replies == s.replies
  }

  ghost predicate Before(es: seq<Event>) {
    !IdsWritten(es) && Actions(es) == [] && !UdcWrittenDirectly(es)
  }

  /** The events so far are those that lead to where the call stands, and if it ended it was answered by them. */
  ghost predicate Stands(s: State, r: Request, es: seq<Event>, t: State) {
    && t.call == s.call + 1 && t.request == r
    && (t.service != Idle ==> t.replies == s.replies)
    && match t.service
       case TearDown => !TornDownOk(es) && Before(es)
       case Stopping | Joining | TornDown => TornDownOk(es) && Before(es)
       case Configure(pc) =>
         SetupBegun(r, es) && !UdcWrittenDirectly(es) && Accepted(r.plan, Actions(es)) && pc == |Actions(es)|
       case WaitPullUp => SetupBegun(r, es) && PlanDone(r, es) && FfsEnabled(r.functions) && !UdcWrittenDirectly(es)
       case Idle =>
         && Replied(s, r, es, t)
         && (UdcWrittenDirectly(es) ==> t.applied && !t.running && t.monitor == NotRunning)
  }

  /** One more event, as far as the outcomes go. */
  lemma OneMoreHeard(es: seq<Event>, e: Event)
    ensures TornDownOk(es + [e]) <==> TornDownOk(es) || (e.ByService? && e.s.ResetGadget? && e.s.ok)
    ensures IdsWritten(es + [e]) <==> IdsWritten(es) || e == ByService(Decide(true))
    ensures UdcWrittenDirectly(es + [e]) <==> UdcWrittenDirectly(es) || e == ByService(PullDirect(true))
    ensures Actions(es + [e]) == if e.ByService? && e.s.DoAction? then Actions(es) + [e.s.ok] else Actions(es)
  {
    var es' := es + [e];
    assert es'[..|es|] == es;
    assert forall x :: x in es' <==> x in es || x == e;
    if TornDownOk(es) {
      var removed :| ByService(ResetGadget(removed, true)) in es;
      assert ByService(ResetGadget(removed, true)) in es';
    }
    if e.ByService? && e.s.ResetGadget? && e.s.ok {
      assert e == ByService(ResetGadget(e.s.removed, true));
    }
  }

  /** The end of a call, with its status. */
  lemma EndStands(s: State, r: Request, es: seq<Event>, t: State, u: State, status: Status, viaMonitor: bool)
    requires t.call == s.call + 1 && t.request == r && t.replies == s.replies
    requires u == t.End(status, viaMonitor)
    requires Fits(r, es, Reply(t.call, status, viaMonitor))
    requires UdcWrittenDirectly(es) ==> t.applied && !t.running && t.monitor == NotRunning
    ensures Stands(s, r, es, u)
  {
    hide Fits, UdcWrittenDirectly;
  }

  lemma CallStands(s: State, r: Request)
    ensures Stands(s, r, [ByService(Call(r))], CallStep(s, r))
  {
    OneMoreHeard([], ByService(Call(r)));
    assert [] + [ByService(Call(r))] == [ByService(Call(r))];
  }

  lemma ResetStands(s: State, r: Request, es: seq<Event>, t: State, removed: set<string>, ok: bool)
    requires Stands(s, r, es, t) && t.service == TearDown
    ensures Stands(s, r, es + [ByService(ResetGadget(removed, ok))], ResetStep(t, removed, ok))
  {
    OneMoreHeard(es, ByService(ResetGadget(removed, ok)));
    hide TornDownOk, IdsWritten, UdcWrittenDirectly, Actions;
  }

  lemma StopStands(s: State, r: Request, es: seq<Event>, t: State)
    requires Stands(s, r, es, t) && t.service == Stopping
    ensures Stands(s, r, es + [ByService(StopMonitor)], StopStep(t))
  {
    OneMoreHeard(es, ByService(StopMonitor));
    hide TornDownOk, IdsWritten, UdcWrittenDirectly, Actions;
  }

  lemma JoinStands(s: State, r: Request, es: seq<Event>, t: State)
    requires Stands(s, r, es, t) && t.service == Joining
    ensures Stands(s, r, es + [ByService(Join)], JoinStep(t))
  {
    OneMoreHeard(es, ByService(Join));
    hide TornDownOk, IdsWritten, UdcWrittenDirectly, Actions;
  }

  lemma DecideStands(s: State, r: Request, es: seq<Event>, t: State, ok: bool)
    requires Stands(s, r, es, t) && t.service == TornDown
    ensures Stands(s, r, es + [ByService(Decide(ok))], DecideStep(t, ok))
  {
    var es' := es + [ByService(Decide(ok))];
    OneMoreHeard(es, ByService(Decide(ok)));
    hide TornDownOk, IdsWritten, UdcWrittenDirectly, Actions;
    if r.functions == {} {
      EndStands(s, r, es', t, DecideStep(t, ok), SUCCESS, false);
    } else if !r.supported {
      EndStands(s, r, es', t, DecideStep(t, ok), CONFIGURATION_NOT_SUPPORTED, false);
    } else if !ok {
      EndStands(s, r, es', t, DecideStep(t, ok), ERROR, false);
    }
  }

  lemma AcceptedMore(plan: seq<Action>, outcomes: seq<bool>, ok: bool)
    requires Accepted(plan, outcomes) && |outcomes| < |plan|
    ensures Accepted(plan, outcomes + [ok]) <==> ok || plan[|outcomes|].EndPoint?
  {
    assert (outcomes + [ok])[|outcomes|] == ok;
    assert forall i | 0 <= i < |outcomes| :: (outcomes + [ok])[i] == outcomes[i];
  }

  /** A setup under way. */
  ghost predicate InSetup(s: State, r: Request, es: seq<Event>, t: State) {
    && t.call == s.call + 1 && t.request == r && t.replies == s.replies
    && SetupBegun(r, es) && !UdcWrittenDirectly(es)
    && t.service == Configure(|Actions(es)|) && Accepted(r.plan, Actions(es))
  }

  lemma Configuring(s: State, r: Request, es: seq<Event>, t: State)
    requires t.service.Configure?
    ensures Stands(s, r, es, t) <==> InSetup(s, r, es, t)
  {
    hide SetupBegun, UdcWrittenDirectly, Actions, Accepted;
  }

  lemma ActStands(s: State, r: Request, es: seq<Event>, t: State, ok: bool)
    requires Stands(s, r, es, t) && Reachable(t) && ServiceEnabled(t, DoAction(ok))
    ensures Stands(s, r, es + [ByService(DoAction(ok))], ActStep(t, t.service.pc, ok))
  {
    hide Stands, Reachable, ActStep;
    if ok || t.request.plan[t.service.pc].EndPoint? {
      ActGoesOn(s, r, es, t, ok);
    } else {
      ActEnds(s, r, es, t, ok);
    }
  }

  lemma ActGoesOn(s: State, r: Request, es: seq<Event>, t: State, ok: bool)
    requires Stands(s, r, es, t) && Reachable(t) && ServiceEnabled(t, DoAction(ok))
    requires ok || t.request.plan[t.service.pc].EndPoint?
    ensures Stands(s, r, es + [ByService(DoAction(ok))], ActStep(t, t.service.pc, ok))
  {
    var es', t' := es + [ByService(DoAction(ok))], ActStep(t, t.service.pc, ok);
    OneMoreHeard(es, ByService(DoAction(ok)));
    ActOutcome(t, ok);
    ActProgress(t, t.service.pc, ok);
    Configuring(s, r, es, t);
    Configuring(s, r, es', t');
    AcceptedMore(r.plan, Actions(es), ok);
    hide TornDownOk, IdsWritten, UdcWrittenDirectly, Actions, Accepted, ActStep, Reachable, Stands;
  }

  lemma ActEnds(s: State, r: Request, es: seq<Event>, t: State, ok: bool)
    requires Stands(s, r, es, t) && Reachable(t) && ServiceEnabled(t, DoAction(ok))
    requires !ok && !t.request.plan[t.service.pc].EndPoint?
    ensures Stands(s, r, es + [ByService(DoAction(ok))], ActStep(t, t.service.pc, ok))
  {
    var es' := es + [ByService(DoAction(ok))];
    OneMoreHeard(es, ByService(DoAction(ok)));
    ActFails(t, ok);
    Configuring(s, r, es, t);
    AcceptedMore(r.plan, Actions(es), ok);
    hide TornDownOk, IdsWritten, UdcWrittenDirectly, Actions, Accepted, ActStep, Reachable, Stands;
    EndStands(s, r, es', t.(orphans := t.config.endpoints), ActStep(t, t.service.pc, ok), ERROR, false);
  }

  lemma ActFails(t: State, ok: bool)
    requires Reachable(t) && ServiceEnabled(t, DoAction(ok)) && !ok && !t.request.plan[t.service.pc].EndPoint?
    ensures ActStep(t, t.service.pc, ok) == t.(orphans := t.config.endpoints).End(ERROR, false)
  {
    hide Reachable;
  }

  /** An action goes on exactly if the system accepts it or there is nothing to accept. */
  lemma ActOutcome(t: State, ok: bool)
    requires Reachable(t) && ServiceEnabled(t, DoAction(ok))
    ensures var a, t' := t.request.plan[t.service.pc], ActStep(t, t.service.pc, ok);
            t'.service == if ok || a.EndPoint? then Configure(t.service.pc + 1) else Idle
  {
    AcceptedActionSucceeds(t);
    hide Reachable;
  }

  lemma PullDirectStands(s: State, r: Request, es: seq<Event>, t: State, ok: bool)
    requires Stands(s, r, es, t) && Reachable(t) && ServiceEnabled(t, PullDirect(ok))
    ensures Stands(s, r, es + [ByService(PullDirect(ok))], PullDirectStep(t, ok))
  {
    NotRunningInSetup(t);
    SetUpFits(s, r, es, t, ok);
    hide Stands, Reachable, ServiceEnabled, Fits, UdcWrittenDirectly, Actions;
    var es', status := es + [ByService(PullDirect(ok))], if ok then SUCCESS else ERROR;
    EndStands(s, r, es', if ok then t.(applied := true) else t, PullDirectStep(t, ok), status, false);
  }

  /** A setup that went through is answered by the write of the UDC. */
  lemma SetUpFits(s: State, r: Request, es: seq<Event>, t: State, ok: bool)
    requires Stands(s, r, es, t) && ServiceEnabled(t, PullDirect(ok))
    ensures var es' := es + [ByService(PullDirect(ok))];
            && t.call == s.call + 1 && t.request == r && t.replies == s.replies
            && Fits(r, es', Reply(t.call, if ok then SUCCESS else ERROR, false))
            && UdcWrittenDirectly(es') == ok
  {
    var es' := es + [ByService(PullDirect(ok))];
    OneMoreHeard(es, ByService(PullDirect(ok)));
    Configuring(s, r, es, t);
    hide Stands, TornDownOk, IdsWritten, UdcWrittenDirectly, Actions, Accepted;
    DirectFits(r, es', Reply(t.call, if ok then SUCCESS else ERROR, false));
  }

  lemma DirectFits(r: Request, es: seq<Event>, reply: Reply)
    requires SetupBegun(r, es) && PlanDone(r, es) && !FfsEnabled(r.functions)
    requires !reply.viaMonitor && reply.status == if UdcWrittenDirectly(es) then SUCCESS else ERROR
    ensures Fits(r, es, reply)
  {
    hide TornDownOk, IdsWritten, PlanDone;
  }

  lemma NotRunningInSetup(t: State)
    requires Reachable(t) && t.service.Configure?
    ensures !t.running && t.monitor == NotRunning
  {
    ReachableInvariant(t);
  }

  lemma StartStands(s: State, r: Request, es: seq<Event>, t: State)
    requires Stands(s, r, es, t) && ServiceEnabled(t, Start)
    ensures Stands(s, r, es + [ByService(Start)], StartStep(t))
  {
    OneMoreHeard(es, ByService(Start));
    hide TornDownOk, IdsWritten, UdcWrittenDirectly, Actions;
  }

  lemma WaitStands(s: State, r: Request, es: seq<Event>, t: State, timedOut: bool)
    requires Stands(s, r, es, t) && t.service == WaitPullUp
    ensures Stands(s, r, es + [ByService(WaitReturn(timedOut))], WaitStep(t))
  {
    OneMoreHeard(es, ByService(WaitReturn(timedOut)));
    hide TornDownOk, IdsWritten, UdcWrittenDirectly, Actions, Accepted;
    EndStands(s, r, es + [ByService(WaitReturn(timedOut))], t, WaitStep(t), if t.pullup then SUCCESS else ERROR, true);
  }

  lemma SameOutcomes(r: Request, es: seq<Event>, fs: seq<Event>, reply: Reply)
    requires TornDownOk(fs) == TornDownOk(es) && IdsWritten(fs) == IdsWritten(es)
    requires UdcWrittenDirectly(fs) == UdcWrittenDirectly(es) && Actions(fs) == Actions(es)
    ensures Fits(r, fs, reply) == Fits(r, es, reply)
  {}

  lemma MonitorStands(s: State, r: Request, es: seq<Event>, t: State, e: MonitorEvent)
    requires Stands(s, r, es, t) && MonitorEnabled(t, e)
    ensures Stands(s, r, es + [ByMonitor(e)], MonitorStep(t, e))
  {
    var es' := es + [ByMonitor(e)];
    OneMoreHeard(es, ByMonitor(e));
    MonitorKeepsCall(t, e);
    if t.service == Idle && r.hasCallback {
      SameOutcomes(r, es, es', t.replies[|s.replies|]);
    }
    hide TornDownOk, IdsWritten, UdcWrittenDirectly, Actions, Accepted, Fits, MonitorStep;
  }

  lemma ServiceStands(s: State, r: Request, es: seq<Event>, t: State, e: ServiceEvent)
    requires Stands(s, r, es, t) && Reachable(t) && ServiceEnabled(t, e) && !e.Call?
    ensures Stands(s, r, es + [ByService(e)], ServiceStep(t, e))
  {
    hide Stands, Reachable, ResetStep, DecideStep, ActStep, PullDirectStep, WaitStep, StopStep, JoinStep, StartStep;
    match e
    case ResetGadget(removed, ok) => ResetStands(s, r, es, t, removed, ok);
    case StopMonitor => StopStands(s, r, es, t);
    case Join => JoinStands(s, r, es, t);
    case Decide(ok) => DecideStands(s, r, es, t, ok);
    case DoAction(ok) => ActStands(s, r, es, t, ok);
    case PullDirect(ok) => PullDirectStands(s, r, es, t, ok);
    case Start => StartStands(s, r, es, t);
    case WaitReturn(timedOut) => WaitStands(s, r, es, t, timedOut);
  }

  lemma {:induction false} DuringCallStands(s: State, r: Request, es: seq<Event>, t: State)
    requires Reachable(s) && Faithful(r) && s.service == Idle && DuringCall(s, r, es, t)
    ensures Stands(s, r, es, t)
    decreases |es|
  {
    hide Stands, Faithful, Step, Enabled, Reachable;
    var front, e := es[..|es| - 1], es[|es| - 1];
    assert es == front + [e];
    if front == [] {
      assert Run(s, front) == Some(s);
      CallStands(s, r);
      CallArrivesCarrying(s, r);
      assert es == [e];
    } else {
      var mid := Run(s, front).value;
      assert front[0] == es[0] && forall i | 1 <= i < |front| :: front[i] == es[i];
      DuringCallStands(s, r, front, mid);
      DuringCallCarries(s, r, front, mid);
      OneStands(s, r, front, mid, e);
    }
  }

  lemma OneStands(s: State, r: Request, es: seq<Event>, t: State, e: Event)
    requires Stands(s, r, es, t) && Reachable(t) && Enabled(t, e) && !IsCall(e)
    ensures Stands(s, r, es + [e], Step(t, e))
  {
    hide Stands, Reachable;
    match e
    case ByService(x) => ServiceStands(s, r, es, t, x);
    case ByMonitor(x) => MonitorStands(s, r, es, t, x);
  }

  // ----- The answer -----

  /**
    The answer to a mask, from the outcomes of the call's steps. It waited for the monitor
    exactly if a FunctionFS function of a supported combination was set up; without the wait
    it is SUCCESS for an empty mask, or for a setup that went through up to the UDC;
    not-supported for an unsupported mask; and ERROR for everything that was refused.
   */
  ghost predicate IsAnswer(r: Request, es: seq<Event>, reply: Reply) {
    var fs, torn := r.functions, TornDownOk(es);
    var setUp := torn && Supported(fs) && IdsWritten(es) && PlanDone(r, es);
    && (reply.viaMonitor <==> setUp && FfsEnabled(fs))
    && (reply.status == SUCCESS && !reply.viaMonitor <==>
          (torn && fs == {}) || (setUp && !FfsEnabled(fs) && UdcWrittenDirectly(es)))
    && (reply.status == CONFIGURATION_NOT_SUPPORTED <==> torn && fs != {} && !Supported(fs))
    && (reply.status == ERROR && !reply.viaMonitor <==>
          || !torn
          || (Supported(fs) && (!IdsWritten(es) || !PlanDone(r, es)))
          || (setUp && !FfsEnabled(fs) && !UdcWrittenDirectly(es)))
  }

  lemma FitsIsAnswer(r: Request, es: seq<Event>, reply: Reply)
    requires Fits(r, es, reply) && r.supported == Supported(r.functions)
    ensures IsAnswer(r, es, reply)
  {
    NothingIsUnsupported();
    hide TornDownOk, IdsWritten, UdcWrittenDirectly, PlanDone, Supported, FfsEnabled;
  }

  lemma NothingIsUnsupported()
    ensures !Supported({})
  {}

  lemma TakeReply(s: State, r: Request, es: seq<Event>, t: State) returns (reply: Reply)
    requires Stands(s, r, es, t) && t.service == Idle && r.hasCallback
    ensures t.replies == s.replies + [reply] && reply.call == s.call + 1 && Fits(r, es, reply)
  {
    hide Fits, UdcWrittenDirectly;
    reply := t.replies[|s.replies|];
    assert t.replies == s.replies + [reply];
  }

  /** A call that came with a callback and has ended was answered once, as its mask and its steps decide. */
  lemma {:induction false} CallIsAnswered(s: State, r: Request, es: seq<Event>, t: State) returns (reply: Reply)
    requires Reachable(s) && s.service == Idle && Faithful(r) && r.hasCallback
    requires DuringCall(s, r, es, t) && t.service == Idle
    ensures t.replies == s.replies + [reply] && reply.call == s.call + 1 && IsAnswer(r, es, reply)
  {
    DuringCallStands(s, r, es, t);
    SupportedIff(r.functions);
    hide Reachable, DuringCall, Stands, Supported, IsAnswer, Fits, ProductId;
    reply := TakeReply(s, r, es, t);
    FitsIsAnswer(r, es, reply);
  }

  /** A setup without FunctionFS functions that was answered with SUCCESS is also marked as applied. */
  lemma {:induction false} DirectSetupIsApplied(s: State, r: Request, es: seq<Event>, t: State)
    requires Reachable(s) && s.service == Idle && Faithful(r)
    requires DuringCall(s, r, es, t) && t.service == Idle && UdcWrittenDirectly(es)
    ensures t.applied && !t.running
  {
    DuringCallStands(s, r, es, t);
  }

  /** After the wait the pull-up flag is the answer. */
  lemma {:induction false} WaitIsAnswered(s: State, timedOut: bool)
    requires Reachable(s) && ServiceEnabled(s, WaitReturn(timedOut))
    ensures WaitStep(s).replies == s.replies + [Reply(s.call, if s.pullup then SUCCESS else ERROR, true)]
    ensures !timedOut ==> s.pullup
  {
    ReachableInvariant(s);
  }

  /** A call under way never gets stuck: the service can go on, or the monitor it joins can. */
  lemma {:induction false} CallNeverSticks(s: State) returns (e: Event)
    requires Reachable(s) && s.service != Idle
    ensures Enabled(s, e) && !IsCall(e)
  {
    ReachableInvariant(s);
    match s.service
    case TearDown => e := ByService(ResetGadget(FunctionLinks(s.config.links).Keys, true));
    case Stopping => e := ByService(StopMonitor);
    case Joining =>
      e := match s.monitor
        case Scan(_, _) => ByMonitor(Look(true))
        case PullUp => ByMonitor(WriteUdc(true))
        case Deliver => ByMonitor(DeliverPullUp)
        case Epoll => ByMonitor(ReadEvent)
        case _ => ByService(Join);
    case TornDown => e := ByService(Decide(true));
    case Configure(pc) =>
      e := ByService(if pc < |s.request.plan| then DoAction(true)
                     else if FfsEnabled(s.request.functions) then Start else PullDirect(true));
    case WaitPullUp => e := ByService(WaitReturn(true));
  }
}
