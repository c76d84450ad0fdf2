/** What every run of the function switch and the monitor keeps. */
module GadgetProperties {
  import opened Wrappers
  import opened GadgetPlan
  import opened GadgetPlanProperties
  import opened GadgetMachine

  // ----- The shutdown protocol -----

  ghost predicate Protocol(s: State) {
    && s.running == (s.monitor != NotRunning)
    && (s.running ==> s.callbackSet)
    && (s.monitor == Stopped ==> s.service == Joining)
    && s.eventCounter == (if s.service == Joining && s.monitor != Stopped then STOP else 0)
    && (s.service == Joining || s.service == WaitPullUp ==> s.running)
    && (s.service == TornDown || s.service.Configure? ==> !s.running)
    && (s.service == WaitPullUp ==> s.monitorCall == s.call && s.request.hasCallback)
    && (s.pullup || s.monitor == Deliver ==> s.running && UdcWritten in s.log)
    && (s.service.Configure? ==> s.service.pc <= |s.request.plan|)
  }

  // ----- What a monitor run sees -----

  function Accesses(endpoints: seq<string>): (r: seq<Observation>)
    ensures |r| == |endpoints|
  {
    seq(|endpoints|, i requires 0 <= i < |endpoints| => Access(endpoints[i], true))
  }

  ghost predicate EndsWith(log: seq<Observation>, tail: seq<Observation>) {
    |tail| <= |log| && log[|log| - |tail|..] == tail
  }

  ghost predicate MissingAfter(log: seq<Observation>, i: int) {
    exists k | i < k < |log| :: k >= 0 && log[k].Access? && !log[k].readable
  }

  /** A UDC write succeeded and no scan since then found an endpoint missing. */
  ghost predicate PulledUp(log: seq<Observation>) {
    exists i: nat | i < |log| :: log[i] == UdcWritten && !MissingAfter(log, i)
  }

  /** Right before each successful write a scan found every registered endpoint readable. */
  ghost predicate WritesFollowScans(log: seq<Observation>, endpoints: seq<string>) {
    forall i: nat | i < |log| && log[i] == UdcWritten :: EndsWith(log[..i], Accesses(endpoints))
  }

  ghost predicate WritesSeparated(log: seq<Observation>) {
    forall i: nat, k: nat | i < k < |log| && log[i] == UdcWritten && log[k] == UdcWritten ::
      MissingAfter(log[..k], i)
  }

  ghost predicate Watching(s: State) {
    s.running ==>
      && WritesFollowScans(s.log, s.config.endpoints)
      && WritesSeparated(s.log)
      && (match s.monitor
          case Scan(first, j) =>
            && j <= |s.config.endpoints| && EndsWith(s.log, Accesses(s.config.endpoints[..j]))
            && (first ==> s.writeUdc)
          case PullUp => s.writeUdc && EndsWith(s.log, Accesses(s.config.endpoints))
          case Deliver => s.writeUdc && s.log != [] && s.log[|s.log| - 1] == UdcWritten
          case _ => true)
      && (s.monitor != Deliver ==> (s.writeUdc <==> !PulledUp(s.log)))
  }

  lemma PulledUpAppend(log: seq<Observation>, o: Observation)
    ensures PulledUp(log + [o]) <==>
            o == UdcWritten || (PulledUp(log) && !(o.Access? && !o.readable))
  {
    var log' := log + [o];
    forall i: nat | i < |log|
      ensures MissingAfter(log', i) <==> MissingAfter(log, i) || (o.Access? && !o.readable)
    {
      MissingAppend(log, o, i);
    }
    if o == UdcWritten {
      assert log'[|log|] == UdcWritten && !MissingAfter(log', |log|);
    }
    if PulledUp(log) && !(o.Access? && !o.readable) {
      var i: nat :| i < |log| && log[i] == UdcWritten && !MissingAfter(log, i);
      assert log'[i] == UdcWritten && !MissingAfter(log', i);
    }
    if PulledUp(log') && o != UdcWritten {
      var i: nat :| i < |log'| && log'[i] == UdcWritten && !MissingAfter(log', i);
      assert log[i] == UdcWritten && !MissingAfter(log, i);
    }
  }

  lemma JustWritten(log: seq<Observation>)
    requires log != [] && log[|log| - 1] == UdcWritten
    ensures PulledUp(log)
  {
    assert !MissingAfter(log, |log| - 1);
  }

  lemma MissingAppend(log: seq<Observation>, o: Observation, i: nat)
    requires i < |log|
    ensures MissingAfter(log + [o], i) <==> MissingAfter(log, i) || (o.Access? && !o.readable)
  {
    var log' := log + [o];
    if MissingAfter(log, i) {
      var k :| i < k < |log| && k >= 0 && log[k].Access? && !log[k].readable;
      assert log'[k] == log[k];
    }
    if o.Access? && !o.readable {
      assert log'[|log|] == o;
    }
  }

  lemma WritesAppend(log: seq<Observation>, o: Observation, endpoints: seq<string>)
    requires WritesFollowScans(log, endpoints) && WritesSeparated(log)
    requires o == UdcWritten ==> EndsWith(log, Accesses(endpoints)) && !PulledUp(log)
    ensures WritesFollowScans(log + [o], endpoints) && WritesSeparated(log + [o])
  {
    var log' := log + [o];
    forall i: nat | i < |log'| && log'[i] == UdcWritten
      ensures EndsWith(log'[..i], Accesses(endpoints))
    {
      assert log'[..i] == log[..i];
      if i == |log| { assert log[..i] == log; }
    }
    forall i: nat, k: nat | i < k < |log'| && log'[i] == UdcWritten && log'[k] == UdcWritten
      ensures MissingAfter(log'[..k], i)
    {
      assert log'[..k] == log[..k];
      if k == |log| { assert log[..k] == log; }
    }
  }

  lemma AccessExtends(log: seq<Observation>, endpoints: seq<string>, j: nat)
    requires j < |endpoints| && EndsWith(log, Accesses(endpoints[..j]))
    ensures EndsWith(log + [Access(endpoints[j], true)], Accesses(endpoints[..j + 1]))
  {
    assert Accesses(endpoints[..j + 1]) == Accesses(endpoints[..j]) + [Access(endpoints[j], true)];
  }

  // ----- Links and endpoints -----

  ghost predicate Prepared(c: Config, done: seq<Action>, orphans: seq<string>) {
    && Numbered(FunctionLinks(c.links), LinksOf(done)) && c.count == |LinksOf(done)|
    && c.endpoints == orphans + EndpointsOf(done)
  }

  ghost predicate Configured(s: State) {
    && (s.service == Stopping || s.service == Joining || s.service == TornDown ==>
          FunctionLinks(s.config.links) == map[])
    && (!s.running && !s.service.Configure? ==> s.config.endpoints == s.orphans)
    && (s.service.Configure? && s.service.pc <= |s.request.plan| ==>
          Prepared(s.config, s.request.plan[..s.service.pc], s.orphans))
  }

  lemma ActPrepares(c: Config, plan: seq<Action>, pc: nat, ok: bool, orphans: seq<string>)
    requires pc < |plan| && Prepared(c, plan[..pc], orphans)
    ensures Act(c, plan[pc], ok).Some? ==>
              var c' := Act(c, plan[pc], ok).value;
              Prepared(c', plan[..pc + 1], orphans) && OtherLinks(c'.links) == OtherLinks(c.links)
  {
    hide LinksOf, EndpointsOf, Numbered, Act, FunctionLinks, OtherLinks;
    assert plan[..pc + 1] == plan[..pc] + [plan[pc]];
    ReadSnoc(plan[..pc], plan[pc]);
    var names, eps := LinksOf(plan[..pc]), EndpointsOf(plan[..pc]);
    assert names + [] == names && eps + [] == eps;
    if plan[pc].EndPoint? {
      assert orphans + eps + [plan[pc].path] == orphans + (eps + [plan[pc].path]);
    }
    if Act(c, plan[pc], ok).Some? {
      ActExtends(c, plan[pc], ok, LinksOf(plan[..pc]));
    }
  }

  lemma ResetClears(links: map<string, string>, removed: set<string>)
    requires removed <= FunctionLinks(links).Keys
    ensures OtherLinks(links - removed) == OtherLinks(links)
    ensures removed == FunctionLinks(links).Keys ==> FunctionLinks(links - removed) == map[]
  {}

  lemma NothingPrepared(c: Config, orphans: seq<string>, plan: seq<Action>)
    requires FunctionLinks(c.links) == map[] && c.count == 0 && c.endpoints == orphans
    ensures Prepared(c, plan[..0], orphans)
  {
    assert plan[..0] == [];
  }

  ghost predicate NeedsMonitorForEndpoints(r: Request) {
    !FfsEnabled(r.functions) ==> EndpointsOf(r.plan) == []
  }

  lemma FaithfulNeedsMonitor(r: Request)
    requires Faithful(r)
    ensures NeedsMonitorForEndpoints(r)
  {
    var rndis :| r.plan == Plan(r.functions, rndis);
    EndpointsIffFfs(r.functions, rndis);
  }

  // ----- Replies -----

  ghost predicate Answered(s: State) {
    && (forall i, k | 0 <= i < k < |s.replies| :: s.replies[i].call < s.replies[k].call)
    && (forall r <- s.replies :: 0 < r.call <= s.call)
    && (s.service != Idle ==> 0 < s.call && forall r <- s.replies :: r.call < s.call)
    && (s.service == Idle && 0 < s.call && s.request.hasCallback ==>
          s.replies != [] && s.replies[|s.replies| - 1].call == s.call)
  }

  lemma EndAnswers(s: State, status: Status, viaMonitor: bool)
    requires Answered(s) && s.service != Idle
    ensures Answered(s.End(status, viaMonitor))
  {
    var s' := s.End(status, viaMonitor);
    if s.request.hasCallback {
      var r := Reply(s.call, status, viaMonitor);
      assert s'.replies == s.replies + [r];
      forall i, k | 0 <= i < k < |s'.replies|
        ensures s'.replies[i].call < s'.replies[k].call
      {
        if k == |s.replies| { assert s.replies[i] in s.replies; }
      }
    }
  }

  // ----- Every step keeps the invariant -----

  ghost predicate Invariant(s: State) {
    && Protocol(s) && Watching(s) && Configured(s) && Answered(s)
    && (s.service != Idle ==> NeedsMonitorForEndpoints(s.request))
  }

  lemma CallKeeps(s: State, request: Request)
    requires Invariant(s) && s.service == Idle && NeedsMonitorForEndpoints(request)
    ensures Invariant(CallStep(s, request))
  {}

  lemma ResetKeeps(s: State, removed: set<string>, ok: bool)
    requires Invariant(s) && ServiceEnabled(s, ResetGadget(removed, ok))
    ensures Invariant(ResetStep(s, removed, ok))
    ensures OtherLinks(ResetStep(s, removed, ok).config.links) == OtherLinks(s.config.links)
  {
    ResetClears(s.config.links, removed);
    if !ok {
      EndAnswers(s.(config := s.config.(links := s.config.links - removed)), ERROR, false);
    }
  }

  lemma StopKeeps(s: State)
    requires Invariant(s) && s.service == Stopping
    ensures Invariant(StopStep(s))
  {}

  lemma JoinKeeps(s: State)
    requires Invariant(s) && s.service == Joining && s.monitor == Stopped
    ensures Invariant(JoinStep(s))
  {}

  lemma ActConfigures(s: State, ok: bool)
    requires Configured(s) && Protocol(s) && ServiceEnabled(s, DoAction(ok))
    ensures Configured(ActStep(s, s.service.pc, ok))
    ensures OtherLinks(ActStep(s, s.service.pc, ok).config.links) == OtherLinks(s.config.links)
  {
    ActPrepares(s.config, s.request.plan, s.service.pc, ok, s.orphans);
  }

  lemma DecideConfigures(s: State, ok: bool)
    requires Configured(s) && Protocol(s) && s.service == TornDown
    ensures Configured(DecideStep(s, ok))
  {
    NothingPrepared(s.config.(count := 0), s.orphans, s.request.plan);
  }

  lemma DecideAnswers(s: State, ok: bool)
    requires Answered(s) && s.service == TornDown
    ensures Answered(DecideStep(s, ok))
  {
    if s.request.functions == {} {
      EndAnswers(s, SUCCESS, false);
    } else if !s.request.supported {
      EndAnswers(s, CONFIGURATION_NOT_SUPPORTED, false);
    } else if !ok {
      EndAnswers(s, ERROR, false);
    }
  }

  lemma DecideKeeps(s: State, ok: bool)
    requires Invariant(s) && s.service == TornDown
    ensures Invariant(DecideStep(s, ok))
  {
    DecideConfigures(s, ok);
    DecideAnswers(s, ok);
  }

  lemma ActKeeps(s: State, ok: bool)
    requires Invariant(s) && ServiceEnabled(s, DoAction(ok))
    ensures Invariant(ActStep(s, s.service.pc, ok))
    ensures OtherLinks(ActStep(s, s.service.pc, ok).config.links) == OtherLinks(s.config.links)
  {
    ActConfigures(s, ok);
    EndAnswers(s.(orphans := s.config.endpoints), ERROR, false);
  }

  lemma PullDirectKeeps(s: State, ok: bool)
    requires Invariant(s) && ServiceEnabled(s, PullDirect(ok))
    ensures Invariant(PullDirectStep(s, ok))
  {
    assert s.request.plan[..|s.request.plan|] == s.request.plan;
    EndAnswers(s.(applied := true), SUCCESS, false);
    EndAnswers(s, ERROR, false);
  }

  lemma StartKeeps(s: State)
    requires Invariant(s) && ServiceEnabled(s, Start)
    ensures Invariant(StartStep(s))
  {
    assert s.config.endpoints[..0] == [];
  }

  lemma WaitKeeps(s: State)
    requires Invariant(s) && s.service == WaitPullUp
    ensures Invariant(WaitStep(s))
  {
    EndAnswers(s, if s.pullup then SUCCESS else ERROR, true);
  }

  lemma LookWatches(s: State, readable: bool)
    requires Watching(s) && s.running && s.monitor.Scan?
    ensures Watching(LookStep(s, readable))
  {
    hide WritesFollowScans, WritesSeparated, PulledUp, EndsWith;
    var endpoints, j := s.config.endpoints, s.monitor.next;
    if j < |endpoints| {
      PulledUpAppend(s.log, Access(endpoints[j], readable));
      WritesAppend(s.log, Access(endpoints[j], readable), endpoints);
      AccessExtends(s.log, endpoints, j);
    } else {
      assert endpoints[..j] == endpoints;
    }
  }

  lemma LookKeepsProtocol(s: State, readable: bool)
    requires Protocol(s) && s.monitor.Scan?
    ensures Protocol(LookStep(s, readable))
  {
    if s.monitor.next < |s.config.endpoints| {
      assert LookStep(s, readable).log == s.log + [Access(s.config.endpoints[s.monitor.next], readable)];
    }
  }

  /** What the links and replies depend on; no scan touches it. */
  ghost predicate SameService(s: State, t: State) {
    && s.config == t.config && s.service == t.service && s.request == t.request && s.orphans == t.orphans
    && s.running == t.running && s.replies == t.replies && s.call == t.call
  }

  lemma SameServiceKeeps(s: State, t: State)
    requires SameService(s, t) && Configured(s) && Answered(s)
    ensures Configured(t) && Answered(t)
  {}

  lemma LookKeeps(s: State, readable: bool)
    requires Invariant(s) && s.monitor.Scan?
    ensures Invariant(LookStep(s, readable))
  {
    hide Protocol, Watching, Configured, Answered;
    LookKeepsProtocol(s, readable);
    LookWatches(s, readable);
    SameServiceKeeps(s, LookStep(s, readable));
  }

  lemma WriteKeeps(s: State, ok: bool)
    requires Invariant(s) && s.monitor == PullUp
    ensures Invariant(WriteStep(s, ok))
  {
    var o := if ok then UdcWritten else UdcFailed;
    PulledUpAppend(s.log, o);
    WritesAppend(s.log, o, s.config.endpoints);
  }

  lemma DeliverKeeps(s: State)
    requires Invariant(s) && s.monitor == Deliver
    ensures Invariant(DeliverStep(s))
  {
    JustWritten(s.log);
  }

  lemma InotifyKeeps(s: State)
    requires Invariant(s) && s.monitor == Epoll
    ensures Invariant(s.(monitor := Scan(false, 0)))
  {
    assert s.config.endpoints[..0] == [];
  }

  lemma ReadKeeps(s: State)
    requires Invariant(s) && s.monitor == Epoll && s.eventCounter > 0
    ensures Invariant(ReadStep(s))
  {}

  lemma MonitorStepKeeps(s: State, e: MonitorEvent)
    requires Invariant(s) && MonitorEnabled(s, e)
    ensures Invariant(MonitorStep(s, e)) && MonitorStep(s, e).config == s.config
  {
    match e
    case Look(readable) => LookKeeps(s, readable);
    case WriteUdc(ok) => WriteKeeps(s, ok);
    case DeliverPullUp => DeliverKeeps(s);
    case Inotify => InotifyKeeps(s);
    case ReadEvent => ReadKeeps(s);
  }

  lemma ServiceStepKeeps(s: State, e: ServiceEvent)
    requires Invariant(s) && ServiceEnabled(s, e)
    requires e.Call? ==> NeedsMonitorForEndpoints(e.request)
    ensures Invariant(ServiceStep(s, e))
  {
    match e
    case Call(request) => CallKeeps(s, request);
    case ResetGadget(removed, ok) => ResetKeeps(s, removed, ok);
    case StopMonitor => StopKeeps(s);
    case Join => JoinKeeps(s);
    case Decide(ok) => DecideKeeps(s, ok);
    case DoAction(ok) => ActKeeps(s, ok);
    case PullDirect(ok) => PullDirectKeeps(s, ok);
    case Start => StartKeeps(s);
    case WaitReturn(_) => WaitKeeps(s);
  }

  /** Entries of configs/b.1 that are not function links are never touched. */
  lemma ServiceStepKeepsOthers(s: State, e: ServiceEvent)
    requires Invariant(s) && ServiceEnabled(s, e)
    ensures OtherLinks(ServiceStep(s, e).config.links) == OtherLinks(s.config.links)
  {
    match e
    case ResetGadget(removed, ok) => ResetKeeps(s, removed, ok);
    case DoAction(ok) => ActKeeps(s, ok);
    case _ => assert ServiceStep(s, e).config.links == s.config.links;
  }

  lemma StepKeeps(s: State, e: Event)
    requires Invariant(s) && Enabled(s, e)
    requires e.ByService? && e.s.Call? ==> NeedsMonitorForEndpoints(e.s.request)
    ensures Invariant(Step(s, e))
    ensures OtherLinks(Step(s, e).config.links) == OtherLinks(s.config.links)
  {
    match e
    case ByService(x) =>
      ServiceStepKeeps(s, x);
      ServiceStepKeepsOthers(s, x);
    case ByMonitor(x) => MonitorStepKeeps(s, x);
  }

  lemma InitialHolds(s: State)
    requires Initial(s)
    ensures Invariant(s)
  {}

  lemma {:induction false} RunKeeps(s0: State, es: seq<Event>)
    requires Initial(s0) && AllFaithful(es) && Run(s0, es).Some?
    ensures Invariant(Run(s0, es).value)
    ensures OtherLinks(Run(s0, es).value.config.links) == OtherLinks(s0.config.links)
    decreases |es|
  {
    if es == [] {
      InitialHolds(s0);
    } else {
      var front, e := es[..|es| - 1], es[|es| - 1];
      RunKeeps(s0, front);
      if e.ByService? && e.s.Call? {
        FaithfulNeedsMonitor(e.s.request);
      }
      StepKeeps(Run(s0, front).value, e);
    }
  }

  lemma {:induction false} ReachableInvariant(s: State)
    requires Reachable(s)
    ensures Invariant(s)
  {
    var s0, es :| Initial(s0) && AllFaithful(es) && Run(s0, es) == Some(s);
    RunKeeps(s0, es);
  }
}
