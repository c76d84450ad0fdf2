/** The promises of the function switch, for every run of the two threads. */
module GadgetTheorems {
  import opened Wrappers
  import opened GadgetPlan
  import opened GadgetPlanProperties
  import opened GadgetMachine
  import opened GadgetProperties

  // ----- Causality of SUCCESS -----

  lemma NoPullUpNoSuccess(s: State)
    requires Invariant(s) && s.service == WaitPullUp
    ensures !s.pullup ==> Reply(s.call, SUCCESS, true) !in WaitStep(s).replies
  {
    if !s.pullup {
      assert WaitStep(s).replies == s.replies + [Reply(s.call, ERROR, true)];
    }
  }

  /**
    A SUCCESS reported by waitForPullUp comes from the monitor this very call started: it
    wrote the UDC right after a scan that found every registered endpoint readable.
   */
  lemma {:induction false} SuccessIsCaused(s: State, timedOut: bool) returns (k: nat)
    requires Reachable(s) && ServiceEnabled(s, WaitReturn(timedOut))
    requires Reply(s.call, SUCCESS, true) in WaitStep(s).replies
    ensures s.running && s.monitorCall == s.call
    ensures k < |s.log| && s.log[k] == UdcWritten && EndsWith(s.log[..k], Accesses(s.config.endpoints))
  {
    ReachableInvariant(s);
    NoPullUpNoSuccess(s);
    k :| k < |s.log| && s.log[k] == UdcWritten;
  }

  /** No pull-up of an earlier configuration survives: without a monitor gadgetPullup is false. */
  lemma {:induction false} PullUpNeedsMonitor(s: State)
    requires Reachable(s) && s.pullup
    ensures s.running && UdcWritten in s.log
  {
    ReachableInvariant(s);
  }

  // ----- One monitor run -----

  /**
    writeUdc is false exactly when a UDC write has succeeded and no scan since then found
    an endpoint missing; the one moment excepted is between the write and its delivery.
   */
  lemma {:induction false} WriteUdcIff(s: State)
    requires Reachable(s) && s.running && s.monitor != Deliver
    ensures !s.writeUdc <==> PulledUp(s.log)
  {
    ReachableInvariant(s);
  }

  /** Two successful pull-ups of one monitor run are separated by an observed disappearance. */
  lemma {:induction false} PullUpsSeparated(s: State, i: nat, k: nat) returns (m: nat)
    requires Reachable(s) && s.running && i < k < |s.log| && s.log[i] == UdcWritten && s.log[k] == UdcWritten
    ensures i < m < k && s.log[m].Access? && !s.log[m].readable
  {
    ReachableInvariant(s);
    assert MissingAfter(s.log[..k], i);
    var m' :| i < m' < k && m' >= 0 && s.log[..k][m'].Access? && !s.log[..k][m'].readable;
    m := m';
  }

  // ----- Shutdown -----

  /**
    The eventfd counter is 100 exactly while the service joins a monitor that has not read
    it, and 0 otherwise; a live monitor always has a callback to call; one that stopped is
    being joined.
   */
  lemma {:induction false} ShutdownProtocol(s: State)
    requires Reachable(s)
    ensures s.eventCounter == if s.service == Joining && s.monitor != Stopped then 100 else 0
    ensures s.monitor != NotRunning ==> s.callbackSet
    ensures s.monitor == Stopped ==> s.service == Joining
    ensures s.service == TornDown || s.service.Configure? ==> s.monitor == NotRunning && s.eventCounter == 0
  {
    ReachableInvariant(s);
  }

  /** The endpoint list a monitor scans never changes under it. */
  lemma {:induction false} EndpointsFixedWhileRunning(s: State, e: Event)
    requires Reachable(s) && Enabled(s, e) && s.running && e != ByService(Join)
    ensures Step(s, e).config.endpoints == s.config.endpoints
  {
    ReachableInvariant(s);
    match e
    case ByService(x) =>
      assert !x.DoAction? && !x.Decide?;
    case ByMonitor(x) => MonitorStepKeeps(s, x);
  }

  // ----- Links and endpoints -----

  lemma {:induction false} RunFaithful(s0: State, es: seq<Event>)
    requires Initial(s0) && AllFaithful(es) && Run(s0, es).Some?
    ensures Run(s0, es).value.service != Idle ==> Faithful(Run(s0, es).value.request)
    decreases |es|
  {
    if es != [] {
      var front, e := es[..|es| - 1], es[|es| - 1];
      RunFaithful(s0, front);
      var mid := Run(s0, front).value;
      if e.ByService? && e.s.Call? {
        assert e in es;
        assert Run(s0, es).value == CallStep(mid, e.s.request);
      } else {
        RequestStays(mid, e);
      }
    }
  }

  /**
    A step of a call keeps the call and its request; if it ends the call, the call is
    replied to exactly if it has a callback, and otherwise there is no reply.
   */
  ghost predicate Progress(s: State, t: State) {
    && t.request == s.request && t.call == s.call
    && if t.service == Idle && s.request.hasCallback
       then |t.replies| == |s.replies| + 1 && t.replies[..|s.replies|] == s.replies
            && t.replies[|s.replies|].call == s.call
       else t.replies == s.replies
  }

  lemma EndProgress(s: State, t: State, status: Status, viaMonitor: bool)
    requires t.request == s.request && t.call == s.call && t.replies == s.replies
    ensures Progress(s, t.End(status, viaMonitor)) && t.End(status, viaMonitor).running == t.running
  {}

  lemma ResetProgress(s: State, removed: set<string>, ok: bool)
    ensures Progress(s, ResetStep(s, removed, ok)) && ResetStep(s, removed, ok).running == s.running
  {
    EndProgress(s, s.(config := s.config.(links := s.config.links - removed)), ERROR, false);
  }

  lemma DecideProgress(s: State, ok: bool)
    ensures Progress(s, DecideStep(s, ok)) && DecideStep(s, ok).running == s.running
  {
    EndProgress(s, s, SUCCESS, false);
    EndProgress(s, s, CONFIGURATION_NOT_SUPPORTED, false);
    EndProgress(s, s, ERROR, false);
    assert var t := s.(config := s.config.(count := 0), service := Configure(0));
           Progress(s, t) && t.running == s.running;
    hide Progress;
  }

  lemma ActProgress(s: State, pc: nat, ok: bool)
    requires pc < |s.request.plan|
    ensures Progress(s, ActStep(s, pc, ok)) && ActStep(s, pc, ok).running == s.running
  {
    EndProgress(s, s.(orphans := s.config.endpoints), ERROR, false);
    hide Act;
  }

  lemma PullDirectProgress(s: State, ok: bool)
    ensures Progress(s, PullDirectStep(s, ok)) && PullDirectStep(s, ok).running == s.running
  {
    EndProgress(s, s.(applied := true), SUCCESS, false);
    EndProgress(s, s, ERROR, false);
    hide Progress;
  }

  lemma WaitProgress(s: State)
    ensures Progress(s, WaitStep(s)) && WaitStep(s).running == s.running
  {
    EndProgress(s, s, if s.pullup then SUCCESS else ERROR, true);
  }

  lemma ThreadProgress(s: State)
    ensures s.service == Stopping ==> Progress(s, StopStep(s)) && StopStep(s).running == s.running
    ensures Progress(s, JoinStep(s))
    ensures Progress(s, StartStep(s))
  {}

  lemma ServiceProgress(s: State, e: ServiceEvent)
    requires ServiceEnabled(s, e) && !e.Call?
    ensures s.service != Idle && Progress(s, ServiceStep(s, e))
    ensures !e.Start? && !e.Join? ==> ServiceStep(s, e).running == s.running
  {
    hide ResetStep, DecideStep, ActStep, PullDirectStep, WaitStep, StopStep, JoinStep, StartStep, Progress;
    match e
    case ResetGadget(removed, ok) => ResetProgress(s, removed, ok);
    case Decide(ok) => DecideProgress(s, ok);
    case DoAction(ok) => ActProgress(s, s.service.pc, ok);
    case PullDirect(ok) => PullDirectProgress(s, ok);
    case WaitReturn(_) => WaitProgress(s);
    case _ => ThreadProgress(s);
  }

  /** What the monitor's steps leave to the service. */
  ghost predicate SameCall(s: State, t: State) {
    && t.request == s.request && t.service == s.service && t.call == s.call
    && t.replies == s.replies && t.running == s.running
  }

  lemma LookKeepsCall(s: State, readable: bool)
    requires s.monitor.Scan?
    ensures SameCall(s, LookStep(s, readable))
  {}

  lemma MonitorKeepsCall(s: State, e: MonitorEvent)
    requires MonitorEnabled(s, e)
    ensures SameCall(s, MonitorStep(s, e))
  {
    hide LookStep;
    match e
    case Look(readable) => LookKeepsCall(s, readable);
    case _ =>
  }

  lemma RequestStays(s: State, e: Event)
    requires Enabled(s, e) && !(e.ByService? && e.s.Call?)
    ensures Step(s, e).request == s.request && (s.service == Idle ==> Step(s, e).service == Idle)
  {
    match e
    case ByService(x) => ServiceProgress(s, x);
    case ByMonitor(x) => MonitorKeepsCall(s, x);
  }

  lemma {:induction false} ReachableFaithful(s: State) returns (rndis: string)
    requires Reachable(s) && s.service != Idle
    ensures s.request.plan == Plan(s.request.functions, rndis)
  {
    var s0, es :| Initial(s0) && AllFaithful(es) && Run(s0, es) == Some(s);
    RunFaithful(s0, es);
    rndis :| s.request.plan == Plan(s.request.functions, rndis);
  }

  /**
    Whatever came before, a setup that gets through its plan leaves exactly the links
    function0 .. function(k-1), one per granted function in the fixed order.
   */
  lemma {:induction false} SetupLinksExactly(s: State) returns (rndis: string)
    requires Reachable(s) && s.service == Configure(|s.request.plan|)
    ensures Numbered(FunctionLinks(s.config.links), GrantedNames(s.request.functions, rndis, ORDER))
  {
    ReachableInvariant(s);
    rndis := ReachableFaithful(s);
    assert s.request.plan[..|s.request.plan|] == s.request.plan;
    PlanFollowsOrder(s.request.functions, rndis);
  }

  /** Everything else in the configuration directory stays as it was at the start of the run. */
  lemma {:induction false} OtherEntriesUntouched(s0: State, es: seq<Event>)
    requires Initial(s0) && AllFaithful(es) && Run(s0, es).Some?
    ensures OtherLinks(Run(s0, es).value.config.links) == OtherLinks(s0.config.links)
  {
    RunKeeps(s0, es);
  }

  /**
    When the monitor starts, its list is this call's endpoints if and only if no earlier
    setup failed after registering endpoints since the last monitor reset.
   */
  lemma {:induction false} EndpointsExactIff(s: State)
    requires Reachable(s) && ServiceEnabled(s, Start)
    ensures s.config.endpoints == s.orphans + GrantedEndpoints(s.request.functions, ORDER)
    ensures s.config.endpoints == GrantedEndpoints(s.request.functions, ORDER) <==> s.orphans == []
  {
    ReachableInvariant(s);
    var rndis := ReachableFaithful(s);
    assert s.request.plan[..|s.request.plan|] == s.request.plan;
    PlanFollowsOrder(s.request.functions, rndis);
  }

  /** A failing setup adds exactly the endpoints it had registered to those left behind. */
  lemma {:induction false} FailedSetupLeaves(s: State, ok: bool)
    requires Reachable(s) && ServiceEnabled(s, DoAction(ok))
    requires Act(s.config, s.request.plan[s.service.pc], ok).None?
    ensures ActStep(s, s.service.pc, ok).orphans == s.orphans + EndpointsOf(s.request.plan[..s.service.pc])
  {
    ReachableInvariant(s);
  }

  /** Linking fails only when the system refuses it, never because a name is taken. */
  lemma {:induction false} AcceptedActionSucceeds(s: State)
    requires Reachable(s) && ServiceEnabled(s, DoAction(true))
    ensures ActStep(s, s.service.pc, true).service == Configure(s.service.pc + 1)
  {
    ReachableInvariant(s);
    NextNameFree(s.config, LinksOf(s.request.plan[..s.service.pc]));
  }

  /** One more action after a plan that led to r. */
  function Extend(r: (Config, Option<nat>), a: Action): (Config, Option<nat>) {
    if r.1.None? then r
    else
      match Act(r.0, a, r.1.value > 0)
      case None => (r.0, None)
      case Some(c) => (c, Some(if Fallible(a) && r.1.value > 0 then r.1.value - 1 else r.1.value))
  }

  lemma RunPlanSnoc(c: Config, p: seq<Action>, a: Action, b: nat)
    ensures RunPlan(c, p + [a], b) == Extend(RunPlan(c, p, b), a)
  {
    hide Fallible;
    RunPlanSplit(c, p, [a], b);
    assert [a][1..] == [];
  }

  /** A setup that started in s stands where k actions of its plan lead. */
  ghost predicate Follows(s: State, t: State, k: nat, r: (Config, Option<nat>))
    requires s.service.Configure?
  {
    && t.config == r.0 && t.request == s.request
    && t.service == (if r.1.Some? then Configure(s.service.pc + k) else Idle)
    && (r.1.None? ==> t.orphans == t.config.endpoints)
  }

  lemma FollowsAt(s: State, t: State, k: nat, r: (Config, Option<nat>))
    requires s.service.Configure? && Follows(s, t, k, r) && r.1.Some?
    ensures t.service == Configure(s.service.pc + k) && t.request == s.request
  {}

  lemma StillFollows(s: State, t: State, k: nat, r: (Config, Option<nat>), a: Action)
    requires s.service.Configure? && 0 < k && Follows(s, t, k - 1, r) && r.1.None?
    ensures Follows(s, t, k, Extend(r, a))
  {}

  lemma ActStepOutcome(t: State, pc: nat, ok: bool)
    requires pc < |t.request.plan|
    ensures var t' := ActStep(t, pc, ok);
            && t'.request == t.request
            && match Act(t.config, t.request.plan[pc], ok)
               case None => t'.config == t.config && t'.orphans == t.config.endpoints && t'.service == Idle
               case Some(c) => t'.config == c && t'.service == Configure(pc + 1) && t'.orphans == t.orphans
  {
    hide Act;
  }

  lemma ActionFollows(s: State, t: State, k: nat, r: (Config, Option<nat>), ok: bool)
    requires s.service.Configure? && s.service.pc + k < |s.request.plan|
    requires r.1.Some? && ok == (r.1.value > 0) && Follows(s, t, k, r)
    ensures Follows(s, ActStep(t, s.service.pc + k, ok), k + 1, Extend(r, s.request.plan[s.service.pc + k]))
  {
    hide Act, Fallible, ActStep;
    ActStepOutcome(t, s.service.pc + k, ok);
  }

  lemma SetupBegins(s: State, b: nat)
    requires s.service.Configure?
    ensures Run(s, []) == Some(s) && Follows(s, s, 0, RunPlan(s.config, [], b))
  {}

  lemma SliceSnoc(plan: seq<Action>, i: nat, j: nat)
    requires i <= j < |plan|
    ensures plan[i..j + 1] == plan[i..j] + [plan[j]]
  {}

  /**
    The steps of a setup carry out the plan: with a system that accepts the next b fallible
    actions, k actions lead where the plan's first k lead, and a refused one ends the call
    with what was configured so far left in place.
   */
  lemma {:induction false} SetupStepsRunPlan(s: State, k: nat, b: nat) returns (es: seq<Event>)
    requires s.service.Configure? && s.service.pc + k <= |s.request.plan|
    ensures forall e <- es :: e.ByService? && e.s.DoAction?
    ensures Run(s, es).Some?
    ensures Follows(s, Run(s, es).value, k, RunPlan(s.config, s.request.plan[s.service.pc..s.service.pc + k], b))
  {
    hide *;
    var pc, plan := s.service.pc, s.request.plan;
    if k == 0 {
      SetupBegins(s, b);
      es := [];
      assert plan[pc..pc] == [];
    } else {
      es := SetupStepsRunPlan(s, k - 1, b);
      var t, done, a := Run(s, es).value, plan[pc..pc + k - 1], plan[pc + k - 1];
      SliceSnoc(plan, pc, pc + k - 1);
      RunPlanSnoc(s.config, done, a, b);
      var r := RunPlan(s.config, done, b);
      if r.1.Some? {
        FollowsAt(s, t, k - 1, r);
        ActionFollows(s, t, k - 1, r, r.1.value > 0);
        es := OneMoreAction(s, es, t, r.1.value > 0);
      } else {
        StillFollows(s, t, k, r, a);
      }
    }
  }

  lemma OneMoreAction(s: State, es: seq<Event>, t: State, ok: bool) returns (fs: seq<Event>)
    requires Run(s, es) == Some(t) && t.service.Configure? && t.service.pc < |t.request.plan|
    ensures fs == es + [ByService(DoAction(ok))] && Run(s, fs) == Some(ActStep(t, t.service.pc, ok))
  {
    hide ActStep;
    fs := es + [ByService(DoAction(ok))];
    assert fs[..|fs| - 1] == es;
  }

  // ----- A run that starts a monitor with somebody else's endpoints -----

  lemma {:induction false} ReachableStep(s: State, e: Event)
    requires Reachable(s) && Enabled(s, e)
    requires e.ByService? && e.s.Call? ==> Faithful(e.s.request)
    ensures Reachable(Step(s, e))
  {
    var s0, es :| Initial(s0) && AllFaithful(es) && Run(s0, es) == Some(s);
    var es' := es + [e];
    assert es'[..|es'| - 1] == es;
    assert AllFaithful(es');
    assert Run(s0, es') == Some(Step(s, e));
  }

  /** An idle service without a monitor can begin any supported setup; what was left behind stays. */
  lemma BeginSetup(s: State, r: Request) returns (t: State)
    requires Reachable(s) && s.service == Idle && !s.running
    requires Faithful(r) && r.supported && r.functions != {}
    ensures Reachable(t) && t.service == Configure(0) && t.request == r && t.orphans == s.orphans && !t.running
  {
    ReachableStep(s, ByService(Call(r)));
    t := CallStep(s, r);
    var removed := FunctionLinks(t.config.links).Keys;
    ReachableStep(t, ByService(ResetGadget(removed, true)));
    t := ResetStep(t, removed, true);
    ReachableStep(t, ByService(StopMonitor));
    t := StopStep(t);
    ReachableStep(t, ByService(Decide(true)));
    t := DecideStep(t, true);
  }

  lemma SetupStep(s: State) returns (t: State)
    requires Reachable(s) && ServiceEnabled(s, DoAction(true))
    ensures Reachable(t) && t.service == Configure(s.service.pc + 1)
    ensures t.request == s.request && t.orphans == s.orphans && t.running == s.running
  {
    AcceptedActionSucceeds(s);
    ReachableStep(s, ByService(DoAction(true)));
    t := ActStep(s, s.service.pc, true);
  }

  /** With an accepting system a setup can go through any number of its remaining actions. */
  lemma {:induction false} SetupAdvances(s: State, k: nat) returns (t: State)
    requires Reachable(s) && s.service.Configure? && s.service.pc + k <= |s.request.plan|
    ensures Reachable(t) && t.service == Configure(s.service.pc + k)
    ensures t.request == s.request && t.orphans == s.orphans && t.running == s.running
  {
    if k == 0 {
      t := s;
    } else {
      t := SetupAdvances(s, k - 1);
      t := SetupStep(t);
    }
  }

  lemma FailSetup(s: State) returns (t: State)
    requires Reachable(s) && ServiceEnabled(s, DoAction(false)) && Fallible(s.request.plan[s.service.pc])
    ensures Reachable(t) && t.service == Idle && t.running == s.running
    ensures t.orphans == s.orphans + EndpointsOf(s.request.plan[..s.service.pc])
  {
    ReachableStep(s, ByService(DoAction(false)));
    FailedSetupLeaves(s, false);
    t := ActStep(s, s.service.pc, false);
  }

  lemma PlanOfAdbAndMtp()
    ensures var plan := Plan({ADB, MTP}, "");
            |plan| == 11 && plan[6] == UseOsDesc && EndpointsOf(plan[..6]) == EndpointsFor(MTP)
  {
    assert Plan({ADB, MTP}, "") == MTP_PLAN + ADB_PLAN;
    assert Plan({ADB, MTP}, "")[..6] == MTP_PLAN;
    ReadFfs(MTP_PLAN, "ffs.mtp", EndpointsFor(MTP));
  }

  const START := State(Config(map[], [], [], 0), Idle, Request({}, false, [], false), false, false, false, false, 0,
                       NotRunning, false, 0, 0, [], [], [])

  lemma FailAdbAndMtp() returns (s: State)
    ensures Reachable(s) && s.service == Idle && !s.running && s.orphans == EndpointsFor(MTP)
  {
    assert AllFaithful([]) && Run(START, []) == Some(START) && Initial(START);
    PlanOfAdbAndMtp();
    s := BeginSetup(START, Request({ADB, MTP}, false, Plan({ADB, MTP}, ""), true));
    s := SetupAdvances(s, 6);
    s := FailSetup(s);
  }

  /**
    A setup of ADB and MTP that fails at adb's first action, followed by a setup of ADB alone:
    the monitor of the second would also wait for the endpoints of MTP.
   */
  lemma {:induction false} StaleEndpoints() returns (s: State)
    ensures Reachable(s) && ServiceEnabled(s, Start) && s.request.functions == {ADB}
    ensures s.config.endpoints == EndpointsFor(MTP) + EndpointsFor(ADB)
  {
    s := FailAdbAndMtp();
    var adb := Request({ADB}, false, Plan({ADB}, ""), true);
    s := BeginSetup(s, adb);
    s := SetupAdvances(s, |adb.plan|);
    EndpointsExactIff(s);
    OnlyAdbGranted();
  }

  lemma OnlyAdbGranted()
    ensures GrantedEndpoints({ADB}, ORDER) == EndpointsFor(ADB)
  {
    NoEndpoints({ADB}, ORDER[..7]);
    assert ORDER == ORDER[..7] + [ADB];
    GrantedSnoc({ADB}, "", ORDER[..7], ADB);
  }
}
