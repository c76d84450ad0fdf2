/**
  Runs of the function switch seen as wholes: how they are put together, what the monitor
  alone can do, what one call can do, and which calls have been replied to.
 */
module GadgetRuns {
  import opened Wrappers
  import opened GadgetPlan
  import opened GadgetPlanProperties
  import opened GadgetMachine
  import opened GadgetProperties
  import opened GadgetTheorems

  // ----- Putting runs together -----

  lemma RunSnoc(s: State, es: seq<Event>, t: State, e: Event)
    requires Run(s, es) == Some(t) && Enabled(t, e)
    ensures Run(s, es + [e]) == Some(Step(t, e))
  {
    hide Enabled, Step;
    assert (es + [e])[..|es|] == es;
  }

  lemma {:induction false} RunAppend(s: State, es: seq<Event>, t: State, fs: seq<Event>)
    requires Run(s, es) == Some(t)
    ensures Run(s, es + fs) == Run(t, fs)
    decreases |fs|
  {
    hide Enabled, Step;
    if fs == [] {
      assert es + fs == es;
    } else {
      var front := fs[..|fs| - 1];
      RunAppend(s, es, t, front);
      assert (es + fs)[..|es + fs| - 1] == es + front;
      assert (es + fs)[|es + fs| - 1] == fs[|fs| - 1];
    }
  }

  /** A run of the monitor thread alone. */
  ghost predicate MonitorRun(s: State, es: seq<Event>, t: State) {
    (forall e <- es :: e.ByMonitor?) && Run(s, es) == Some(t)
  }

  lemma MonitorRunEmpty(s: State)
    ensures MonitorRun(s, [], s)
  {}

  lemma MonitorRunSnoc(s: State, es: seq<Event>, t: State, e: MonitorEvent)
    requires MonitorRun(s, es, t) && MonitorEnabled(t, e)
    ensures MonitorRun(s, es + [ByMonitor(e)], MonitorStep(t, e))
  {
    RunSnoc(s, es, t, ByMonitor(e));
  }

  lemma MonitorRunAppend(s: State, es: seq<Event>, t: State, fs: seq<Event>, u: State)
    requires MonitorRun(s, es, t) && MonitorRun(t, fs, u)
    ensures MonitorRun(s, es + fs, u)
  {
    RunAppend(s, es, t, fs);
  }

  // ----- A pull-up by the monitor that is still running -----

  /** What no step of a live monitor changes. */
  ghost predicate SameOutside(s: State, t: State) {
    && t.config == s.config && t.service == s.service && t.request == s.request
    && t.running == s.running && t.eventCounter == s.eventCounter
  }

  predicate Live(m: Monitor) {
    m != NotRunning && m != Stopped
  }

  lemma OneStep(s: State, e: MonitorEvent) returns (es: seq<Event>, t: State)
    requires MonitorEnabled(s, e)
    ensures MonitorRun(s, es, t) && t == MonitorStep(s, e)
  {
    MonitorRunEmpty(s);
    MonitorRunSnoc(s, [], s, e);
    es, t := [] + [ByMonitor(e)], MonitorStep(s, e);
  }

  lemma ScanToEpoll(s: State) returns (es: seq<Event>, t: State)
    requires s.monitor.Scan?
    ensures MonitorRun(s, es, t) && SameOutside(s, t) && t.monitor == Epoll
  {
    hide MonitorRun;
    es, t := OneStep(s, Look(false));
    if t.monitor == PullUp {
      var mid := t;
      var fs;
      fs, t := OneStep(mid, WriteUdc(false));
      MonitorRunAppend(s, es, mid, fs, t);
      es := es + fs;
    }
  }

  /** Wherever it is, a live monitor can get back to its wait for events. */
  lemma ToEpoll(s: State) returns (es: seq<Event>, t: State)
    requires Live(s.monitor)
    ensures MonitorRun(s, es, t) && SameOutside(s, t) && t.monitor == Epoll
  {
    hide MonitorRun;
    match s.monitor
    case Scan(_, _) => es, t := ScanToEpoll(s);
    case PullUp => es, t := OneStep(s, WriteUdc(false));
    case Deliver => es, t := OneStep(s, DeliverPullUp);
    case Epoll =>
      MonitorRunEmpty(s);
      es, t := [], s;
  }

  /** A scan that finds everything readable. */
  lemma {:induction false} LooksAll(s: State, k: nat) returns (es: seq<Event>, t: State)
    requires s.monitor == Scan(false, 0) && k <= |s.config.endpoints|
    ensures MonitorRun(s, es, t) && SameOutside(s, t) && t.writeUdc == s.writeUdc && t.monitor == Scan(false, k)
  {
    if k == 0 {
      MonitorRunEmpty(s);
      es, t := [], s;
    } else {
      var mid;
      es, mid := LooksAll(s, k - 1);
      var fs;
      fs, t := OneStep(mid, Look(true));
      MonitorRunAppend(s, es, mid, fs, t);
      es := es + fs;
    }
  }

  /** From its wait, a monitor that sees an endpoint gone expects to pull up again. */
  lemma SeesMissing(s: State) returns (es: seq<Event>, t: State)
    requires s.monitor == Epoll && s.config.endpoints != []
    ensures MonitorRun(s, es, t) && SameOutside(s, t) && t.monitor == Epoll && t.writeUdc
  {
    hide MonitorRun;
    var mid;
    es, mid := OneStep(s, Inotify);
    var fs;
    fs, t := OneStep(mid, Look(false));
    MonitorRunAppend(s, es, mid, fs, t);
    es := es + fs;
  }

  /** And when it sees all of them back, it can pull up and deliver that. */
  lemma PullsUp(s: State) returns (es: seq<Event>, t: State)
    requires s.monitor == Epoll && s.writeUdc
    ensures MonitorRun(s, es, t) && SameOutside(s, t) && t.monitor == Epoll && t.applied
  {
    hide MonitorRun;
    var a, fs;
    es, a := OneStep(s, Inotify);
    var b;
    fs, b := LooksAll(a, |a.config.endpoints|);
    MonitorRunAppend(s, es, a, fs, b);
    es := es + fs;
    var c;
    fs, c := OneStep(b, Look(true));
    MonitorRunAppend(s, es, b, fs, c);
    es := es + fs;
    var d;
    fs, d := OneStep(c, WriteUdc(true));
    MonitorRunAppend(s, es, c, fs, d);
    es := es + fs;
    fs, t := OneStep(d, DeliverPullUp);
    MonitorRunAppend(s, es, d, fs, t);
    es := es + fs;
  }

  lemma LivePullsUp(s: State) returns (es: seq<Event>, t: State)
    requires Live(s.monitor) && s.config.endpoints != []
    ensures MonitorRun(s, es, t) && SameOutside(s, t) && t.monitor == Epoll && t.applied
  {
    hide MonitorRun;
    var a, b, fs;
    es, a := ToEpoll(s);
    fs, b := SeesMissing(a);
    MonitorRunAppend(s, es, a, fs, b);
    es := es + fs;
    fs, t := PullsUp(b);
    MonitorRunAppend(s, es, b, fs, t);
    es := es + fs;
  }

  // ----- The applied flag during a call -----

  predicate IsCall(e: Event) {
    e.ByService? && e.s.Call?
  }

  /** The call of r arrives in s, and t is reached before any other call. */
  ghost predicate DuringCall(s: State, r: Request, es: seq<Event>, t: State) {
    && es != [] && es[0] == ByService(Call(r))
    && (forall i | 1 <= i < |es| :: !IsCall(es[i]))
    && Run(s, es) == Some(t)
  }

  /** The service tears the old configuration down or sets the new one up. */
  predicate Switching(service: Service) {
    service != Idle && service != WaitPullUp
  }

  /** While the service is switching there is no monitor, and the flag is as it was cleared. */
  ghost predicate Unapplied(s: State) {
    Switching(s.service) ==>
      !s.running && s.monitor == NotRunning && s.service != Joining && !s.applied
  }

  lemma ServiceKeepsUnapplied(s: State, e: ServiceEvent)
    requires Unapplied(s) && ServiceEnabled(s, e) && !e.Call?
    ensures Unapplied(ServiceStep(s, e))
  {
    hide Act;
  }

  lemma StepKeepsUnapplied(s: State, e: Event)
    requires Unapplied(s) && Enabled(s, e) && !IsCall(e)
    ensures Unapplied(Step(s, e))
  {
    match e
    case ByService(x) => ServiceKeepsUnapplied(s, x);
    case ByMonitor(x) => MonitorKeepsCall(s, x);
  }

  lemma {:induction false} DuringCallUnapplied(s: State, r: Request, es: seq<Event>, t: State)
    requires s.service == Idle && !s.running && s.monitor == NotRunning && DuringCall(s, r, es, t)
    ensures Unapplied(t)
    decreases |es|
  {
    var front, e := es[..|es| - 1], es[|es| - 1];
    if front == [] {
      assert Run(s, front) == Some(s);
    } else {
      var mid := Run(s, front).value;
      assert front[0] == es[0] && forall i | 1 <= i < |front| :: front[i] == es[i];
      hide Unapplied, Enabled, Step;
      DuringCallUnapplied(s, r, front, mid);
      StepKeepsUnapplied(mid, e);
    }
  }

  /** A monitor is started only with endpoints to watch, and keeps them. */
  lemma {:induction false} RunningHasEndpoints(s0: State, es: seq<Event>)
    requires Initial(s0) && AllFaithful(es) && Run(s0, es).Some? && Run(s0, es).value.running
    ensures Run(s0, es).value.config.endpoints != []
    decreases |es|
  {
    var front, e := es[..|es| - 1], es[|es| - 1];
    assert AllFaithful(front);
    var mid := Run(s0, front).value;
    assert Reachable(mid);
    if e == ByService(Start) {
      StartHasEndpoints(mid);
    } else {
      StaysRunning(mid, e);
      RunningHasEndpoints(s0, front);
      EndpointsFixedWhileRunning(mid, e);
    }
  }

  lemma StartHasEndpoints(s: State)
    requires Reachable(s) && ServiceEnabled(s, Start)
    ensures StartStep(s).config.endpoints != []
  {
    EndpointsExactIff(s);
    EndpointsIffFfs(s.request.functions, "");
    PlanFollowsOrder(s.request.functions, "");
  }

  lemma StaysRunning(s: State, e: Event)
    requires Enabled(s, e) && e != ByService(Start) && Step(s, e).running
    ensures s.running && e != ByService(Join)
  {
    match e
    case ByService(x) =>
      if x.Call? {
        assert CallStep(s, x.request).running == s.running;
      } else if !x.Join? {
        ServiceProgress(s, x);
      }
    case ByMonitor(x) => MonitorKeepsCall(s, x);
  }

  /** The service's part of a teardown that has to stop a waiting monitor. */
  lemma TearsDown(s: State, es: seq<Event>, t: State) returns (fs: seq<Event>, u: State)
    requires Run(s, es) == Some(t) && t.service == TearDown && t.running && t.monitor == Epoll && t.eventCounter == 0
    ensures es <= fs && forall i | |es| <= i < |fs| :: !IsCall(fs[i])
    ensures Run(s, fs) == Some(u) && u.service == TornDown && u.applied == t.applied
  {
    var removed := FunctionLinks(t.config.links).Keys;
    fs, u := OneMore(s, es, t, ByService(ResetGadget(removed, true)));
    fs, u := OneMore(s, fs, u, ByService(StopMonitor));
    fs, u := OneMore(s, fs, u, ByMonitor(ReadEvent));
    fs, u := OneMore(s, fs, u, ByService(Join));
  }

  lemma OneMore(s: State, es: seq<Event>, t: State, e: Event) returns (fs: seq<Event>, u: State)
    requires Run(s, es) == Some(t) && Enabled(t, e)
    ensures fs == es + [e] && Run(s, fs) == Some(u) && u == Step(t, e)
  {
    RunSnoc(s, es, t, e);
    fs, u := es + [e], Step(t, e);
  }

  lemma CallArrives(s: State, r: Request) returns (t: State)
    requires Protocol(s) && s.service == Idle && s.running && s.config.endpoints != []
    ensures Run(s, [ByService(Call(r))]) == Some(t)
    ensures t.service == TearDown && t.running && Live(t.monitor) && t.eventCounter == 0
    ensures t.config.endpoints != []
  {
    t := CallStep(s, r);
    RunSnoc(s, [], s, ByService(Call(r)));
    assert [] + [ByService(Call(r))] == [ByService(Call(r))];
  }

  lemma FirstIsTheCall(call: Event, fs: seq<Event>, es: seq<Event>)
    requires [call] + fs <= es && (forall e <- fs :: e.ByMonitor?)
    requires forall i | |[call] + fs| <= i < |es| :: !IsCall(es[i])
    ensures es != [] && es[0] == call && forall i | 1 <= i < |es| :: !IsCall(es[i])
  {
    assert es[0] == ([call] + fs)[0];
    forall i | 1 <= i < |es| ensures !IsCall(es[i]) {
      if i <= |fs| {
        assert es[i] == ([call] + fs)[i] == fs[i - 1];
        assert fs[i - 1] in fs;
      }
    }
  }

  lemma LateDelivery(s: State, r: Request) returns (es: seq<Event>, t: State)
    requires Protocol(s) && s.service == Idle && s.running && s.config.endpoints != []
    ensures DuringCall(s, r, es, t) && t.service == TornDown && t.applied
  {
    hide Run, Protocol, IsCall, Live;
    var call := ByService(Call(r));
    var called := CallArrives(s, r);
    var fs, delivered := LivePullsUp(called);
    RunAppend(s, [call], called, fs);
    es, t := TearsDown(s, [call] + fs, delivered);
    FirstIsTheCall(call, fs, es);
  }

  /**
    The flag is cleared when a call arrives; it can be set again by the time the old
    configuration is torn down if and only if a monitor was running then.
   */
  lemma {:induction false} AppliedAgainIff(s: State, r: Request)
    requires Reachable(s) && s.service == Idle
    ensures (exists es, t :: DuringCall(s, r, es, t) && t.service == TornDown && t.applied) <==> s.running
  {
    ReachableInvariant(s);
    if s.running {
      var s0, es0 :| Initial(s0) && AllFaithful(es0) && Run(s0, es0) == Some(s);
      RunningHasEndpoints(s0, es0);
      var es, t := LateDelivery(s, r);
    } else {
      forall es, t | DuringCall(s, r, es, t) ensures !(t.service == TornDown && t.applied) {
        DuringCallUnapplied(s, r, es, t);
      }
    }
  }

  /** Without a monitor at the call the flag stays cleared through the whole teardown and setup. */
  lemma {:induction false} NoMonitorNoLateFlag(s: State, r: Request, es: seq<Event>, t: State)
    requires Reachable(s) && s.service == Idle && !s.running
    requires DuringCall(s, r, es, t) && Switching(t.service)
    ensures !t.applied
  {
    ReachableInvariant(s);
    DuringCallUnapplied(s, r, es, t);
  }

  /** A run in which it happens: ADB is set up, and its monitor pulls up while the next call tears it down. */
  lemma {:induction false} FlagSetDuringTeardown(r: Request) returns (s: State, es: seq<Event>, t: State)
    ensures Reachable(s) && DuringCall(s, r, es, t) && t.service == TornDown && t.applied
  {
    assert AllFaithful([]) && Run(START, []) == Some(START) && Initial(START);
    var adb := Request({ADB}, false, Plan({ADB}, ""), true);
    s := BeginSetup(START, adb);
    s := SetupAdvances(s, |adb.plan|);
    ReachableStep(s, ByService(Start));
    s := StartStep(s);
    AppliedAgainIff(s, r);
    es, t :| DuringCall(s, r, es, t) && t.service == TornDown && t.applied;
  }

  // ----- The endpoints a call starts its monitor with -----

  /** The endpoints that are registered when a call arrives and that its teardown will not clear. */
  function Surviving(s: State): seq<string> {
    if s.running then [] else s.config.endpoints
  }

  /** Where the call of r that arrived in s has got to, as far as those endpoints go. */
  ghost predicate Carries(s: State, r: Request, t: State) {
    && (Switching(t.service) ==> t.request == r)
    && match t.service
       case TearDown | Stopping => t.running == s.running && (!s.running ==> t.orphans == s.config.endpoints)
       case Joining => s.running
       case TornDown | Configure(_) => t.orphans == Surviving(s)
       case _ => true
  }

  lemma ResetCarries(s: State, r: Request, t: State, removed: set<string>, ok: bool)
    requires Carries(s, r, t) && t.service == TearDown
    ensures Carries(s, r, ResetStep(t, removed, ok))
  {}

  lemma StopCarries(s: State, r: Request, t: State)
    requires Carries(s, r, t) && t.service == Stopping
    ensures Carries(s, r, StopStep(t))
  {}

  lemma JoinCarries(s: State, r: Request, t: State)
    requires Carries(s, r, t) && t.service == Joining
    ensures Carries(s, r, JoinStep(t))
  {}

  lemma DecideCarries(s: State, r: Request, t: State, ok: bool)
    requires Carries(s, r, t) && t.service == TornDown
    ensures Carries(s, r, DecideStep(t, ok))
  {
    IdleCarries(s, r, t.End(SUCCESS, false));
    IdleCarries(s, r, t.End(CONFIGURATION_NOT_SUPPORTED, false));
    IdleCarries(s, r, t.End(ERROR, false));
    assert Carries(s, r, t.(config := t.config.(count := 0), service := Configure(0)));
    hide Carries;
  }

  lemma IdleCarries(s: State, r: Request, t: State)
    requires t.service == Idle
    ensures Carries(s, r, t)
  {}

  lemma ActCarries(s: State, r: Request, t: State, pc: nat, ok: bool)
    requires Carries(s, r, t) && t.service == Configure(pc) && pc < |t.request.plan|
    ensures Carries(s, r, ActStep(t, pc, ok))
  {
    ActStepOutcome(t, pc, ok);
    hide ActStep, Act;
  }

  lemma EndCarries(s: State, r: Request, t: State, ok: bool)
    ensures Carries(s, r, PullDirectStep(t, ok)) && Carries(s, r, WaitStep(t)) && Carries(s, r, StartStep(t))
  {}

  lemma ServiceCarries(s: State, r: Request, t: State, e: ServiceEvent)
    requires Carries(s, r, t) && ServiceEnabled(t, e) && !e.Call?
    ensures Carries(s, r, ServiceStep(t, e))
  {
    hide Carries, ResetStep, DecideStep, ActStep, PullDirectStep, WaitStep, StopStep, JoinStep, StartStep;
    match e
    case ResetGadget(removed, ok) => ResetCarries(s, r, t, removed, ok);
    case StopMonitor => StopCarries(s, r, t);
    case Join => JoinCarries(s, r, t);
    case Decide(ok) => DecideCarries(s, r, t, ok);
    case DoAction(ok) => ActCarries(s, r, t, t.service.pc, ok);
    case PullDirect(ok) => EndCarries(s, r, t, ok);
    case Start => EndCarries(s, r, t, true);
    case WaitReturn(_) => EndCarries(s, r, t, true);
  }

  lemma LookKeepsOrphans(t: State, readable: bool)
    requires t.monitor.Scan?
    ensures LookStep(t, readable).orphans == t.orphans
  {}

  lemma MonitorCarries(s: State, r: Request, t: State, e: MonitorEvent)
    requires Carries(s, r, t) && MonitorEnabled(t, e)
    ensures Carries(s, r, MonitorStep(t, e))
  {
    MonitorKeepsCall(t, e);
    if e.Look? {
      LookKeepsOrphans(t, e.readable);
    }
    hide LookStep;
    assert MonitorStep(t, e).orphans == t.orphans;
  }

  lemma StepCarries(s: State, r: Request, t: State, e: Event)
    requires Carries(s, r, t) && Enabled(t, e) && !IsCall(e)
    ensures Carries(s, r, Step(t, e))
  {
    hide Carries;
    match e
    case ByService(x) => ServiceCarries(s, r, t, x);
    case ByMonitor(x) => MonitorCarries(s, r, t, x);
  }

  lemma CallCarries(s: State, r: Request)
    requires Configured(s) && s.service == Idle
    ensures Carries(s, r, CallStep(s, r))
  {}

  lemma {:induction false} DuringCallCarries(s: State, r: Request, es: seq<Event>, t: State)
    requires Reachable(s) && Faithful(r) && s.service == Idle && DuringCall(s, r, es, t)
    ensures Reachable(t) && Carries(s, r, t)
    decreases |es|
  {
    hide Carries, Invariant, Faithful, Step, Enabled;
    var front, e := es[..|es| - 1], es[|es| - 1];
    if front == [] {
      assert Run(s, front) == Some(s);
      ReachableStep(s, e);
      CallArrivesCarrying(s, r);
    } else {
      var mid := Run(s, front).value;
      assert front[0] == es[0] && forall i | 1 <= i < |front| :: front[i] == es[i];
      DuringCallCarries(s, r, front, mid);
      ReachableStep(mid, e);
      StepCarries(s, r, mid, e);
    }
  }

  lemma CallArrivesCarrying(s: State, r: Request)
    requires Reachable(s) && s.service == Idle
    ensures Step(s, ByService(Call(r))) == CallStep(s, r) && Carries(s, r, CallStep(s, r))
  {
    ReachableInvariant(s);
    hide Carries, Protocol, Watching, Answered;
    CallCarries(s, r);
  }

  /**
    A call starts its monitor with its own endpoints behind those registered when it arrived,
    unless a monitor was running then: the list is exactly its own if and only if a monitor
    was running or nothing was registered.
   */
  lemma {:induction false} EndpointsAtCallIff(s: State, r: Request, es: seq<Event>, t: State)
    requires Reachable(s) && s.service == Idle && Faithful(r)
    requires DuringCall(s, r, es, t) && ServiceEnabled(t, Start)
    ensures t.config.endpoints == Surviving(s) + GrantedEndpoints(r.functions, ORDER)
    ensures t.config.endpoints == GrantedEndpoints(r.functions, ORDER) <==> s.running || s.config.endpoints == []
  {
    DuringCallCarries(s, r, es, t);
    EndpointsExactIff(t);
    hide GrantedEndpoints, Run, Reachable;
  }

  // ----- One reply for every call -----

  /** For each call of a run, whether it came with a callback. */
  function Callbacks(es: seq<Event>): seq<bool>
    decreases |es|
  {
    if es == [] then []
    else
      var e := es[|es| - 1];
      Callbacks(es[..|es| - 1]) + if IsCall(e) then [e.s.request.hasCallback] else []
  }

  /** The numbers, from 1, of the calls with a callback. */
  function Expecting(callbacks: seq<bool>): seq<nat>
    decreases |callbacks|
  {
    if callbacks == [] then []
    else
      Expecting(callbacks[..|callbacks| - 1]) + if callbacks[|callbacks| - 1] then [|callbacks|] else []
  }

  function RepliedTo(replies: seq<Reply>): seq<nat>
    decreases |replies|
  {
    if replies == [] then [] else RepliedTo(replies[..|replies| - 1]) + [replies[|replies| - 1].call]
  }

  /** Replied to are the calls with a callback, in order, but for the one being served. */
  ghost predicate RepliesFit(s: State, callbacks: seq<bool>) {
    && |callbacks| == s.call
    && if s.service == Idle then RepliedTo(s.replies) == Expecting(callbacks)
       else callbacks != [] && s.request.hasCallback == callbacks[|callbacks| - 1]
            && RepliedTo(s.replies) == Expecting(callbacks[..|callbacks| - 1])
  }

  lemma CallFits(s: State, r: Request, callbacks: seq<bool>)
    requires RepliesFit(s, callbacks) && s.service == Idle
    ensures RepliesFit(CallStep(s, r), callbacks + [r.hasCallback])
  {
    assert (callbacks + [r.hasCallback])[..|callbacks|] == callbacks;
  }

  lemma ProgressFits(s: State, t: State, callbacks: seq<bool>)
    requires RepliesFit(s, callbacks) && s.service != Idle && Progress(s, t)
    ensures RepliesFit(t, callbacks)
  {
    if t.service == Idle && s.request.hasCallback {
      assert t.replies[..|t.replies| - 1] == s.replies;
    }
  }

  lemma StepFits(s: State, e: Event, callbacks: seq<bool>)
    requires RepliesFit(s, callbacks) && Enabled(s, e)
    ensures RepliesFit(Step(s, e), callbacks + if IsCall(e) then [e.s.request.hasCallback] else [])
  {
    assert callbacks + [] == callbacks;
    hide RepliesFit, Progress;
    match e
    case ByService(x) =>
      if x.Call? {
        CallFits(s, x.request, callbacks);
      } else {
        ServiceProgress(s, x);
        ProgressFits(s, ServiceStep(s, x), callbacks);
      }
    case ByMonitor(x) =>
      MonitorKeepsCall(s, x);
      SameFits(s, MonitorStep(s, x), callbacks);
  }

  lemma SameFits(s: State, t: State, callbacks: seq<bool>)
    requires RepliesFit(s, callbacks) && SameCall(s, t)
    ensures RepliesFit(t, callbacks)
  {}

  lemma {:induction false} RunFits(s0: State, es: seq<Event>)
    requires Initial(s0) && Run(s0, es).Some?
    ensures RepliesFit(Run(s0, es).value, Callbacks(es))
    decreases |es|
  {
    if es != [] {
      hide RepliesFit, Enabled, Step;
      var front, e := es[..|es| - 1], es[|es| - 1];
      RunFits(s0, front);
      StepFits(Run(s0, front).value, e, Callbacks(front));
    }
  }

  /**
    Whenever the service is idle, the calls replied to are exactly those that came with a
    callback, each once and in their order.
   */
  lemma {:induction false} OneReplyPerCall(s0: State, es: seq<Event>)
    requires Initial(s0) && Run(s0, es).Some? && Run(s0, es).value.service == Idle
    ensures RepliedTo(Run(s0, es).value.replies) == Expecting(Callbacks(es))
  {
    RunFits(s0, es);
  }

  /** The numbers a call without a callback does not have, and every other call has once. */
  lemma {:induction false} ExpectingIff(callbacks: seq<bool>)
    ensures forall n :: n in Expecting(callbacks) <==> 0 < n <= |callbacks| && callbacks[n - 1]
    ensures forall i, j | 0 <= i < j < |Expecting(callbacks)| :: Expecting(callbacks)[i] < Expecting(callbacks)[j]
    decreases |callbacks|
  {
    if callbacks != [] {
      var front := callbacks[..|callbacks| - 1];
      ExpectingIff(front);
      var numbers := Expecting(front);
      forall i | 0 <= i < |numbers| ensures numbers[i] < |callbacks| {
        assert numbers[i] in numbers;
      }
    }
  }
}
