/**
  setCurrentUsbFunctions and the FunctionFS monitor as two threads: the service thread,
  one call at a time, and the monitor thread it starts and stops. Every step is one file
  operation, one scan access or one critical section; the events carry the outcomes.
 */
module GadgetMachine {
  import opened Wrappers
  import opened GadgetPlan
  import opened GadgetPlanProperties

  const STOP: nat := 100

  datatype Status = SUCCESS | ERROR | CONFIGURATION_NOT_SUPPORTED

  /** Where the service thread is inside setCurrentUsbFunctions. */
  datatype Service =
    | Idle
    | TearDown            // resetGadget
    | Stopping            // about to test isMonitorRunning
    | Joining             // MonitorFfs.reset has written the eventfd
    | TornDown
    | Configure(pc: nat)  // setupFunctions, before action pc of the plan
    | WaitPullUp          // waitForPullUp

  /** Where the monitor thread is. */
  datatype Monitor =
    | NotRunning
    | Scan(first: bool, next: nat)  // about to access endpoint `next`
    | PullUp                        // all readable; about to write the UDC
    | Deliver                       // UDC written; about to lock mLock
    | Epoll
    | Stopped

  datatype Observation =
    | Access(path: string, readable: bool)
    | UdcWritten
    | UdcFailed

  /** One setCurrentUsbFunctionsCb. */
  datatype Reply = Reply(call: nat, status: Status, viaMonitor: bool)

  /** One call, with what the service computes from its function mask. */
  datatype Request = Request(functions: Functions, hasCallback: bool, plan: seq<Action>, supported: bool)

  /** The plan and the support test are those of the mask, for some value of the RNDIS property. */
  ghost predicate Faithful(r: Request) {
    && (exists rndis :: r.plan == Plan(r.functions, rndis))
    && r.supported == ProductId(r.functions).Some?
  }

  datatype State = State(
    config: Config,
    service: Service, request: Request, applied: bool,
    running: bool, callbackSet: bool, pullup: bool, eventCounter: nat,
    monitor: Monitor, writeUdc: bool,
    // History: the number of this call, the call that started the monitor, what that monitor
    // saw, all replies, and the endpoints failed setups left since the last monitor reset.
    call: nat, monitorCall: nat, log: seq<Observation>, replies: seq<Reply>, orphans: seq<string>
  ) {
    function End(status: Status, viaMonitor: bool): State {
      this.(service := Idle,
            replies := if request.hasCallback then replies + [Reply(call, status, viaMonitor)] else replies)
    }

    /** End of a setup that failed: whatever endpoints are registered stay behind. */
    function Abort(): State {
      this.(orphans := config.endpoints).End(ERROR, false)
    }
  }

  /** Steps of the service thread. */
  datatype ServiceEvent =
    | Call(request: Request)
    | ResetGadget(removed: set<string>, ok: bool)
    | StopMonitor
    | Join
    | Decide(vidPidWritten: bool)
    | DoAction(ok: bool)
    | PullDirect(ok: bool)
    | Start
    | WaitReturn(timedOut: bool)

  /** Steps of the monitor thread. */
  datatype MonitorEvent =
    | Look(readable: bool)
    | WriteUdc(ok: bool)
    | DeliverPullUp
    | Inotify
    | ReadEvent

  datatype Event = ByService(s: ServiceEvent) | ByMonitor(m: MonitorEvent)

  ghost predicate ServiceEnabled(s: State, e: ServiceEvent) {
    match e
    case Call(_) => s.service == Idle
    case ResetGadget(removed, ok) =>
      && s.service == TearDown
      && removed <= FunctionLinks(s.config.links).Keys
      && (ok ==> removed == FunctionLinks(s.config.links).Keys)
    case StopMonitor => s.service == Stopping
    case Join => s.service == Joining && s.monitor == Stopped
    case Decide(_) => s.service == TornDown
    case DoAction(_) => s.service.Configure? && s.service.pc < |s.request.plan|
    case PullDirect(_) => s.service == Configure(|s.request.plan|) && !FfsEnabled(s.request.functions)
    case Start => s.service == Configure(|s.request.plan|) && FfsEnabled(s.request.functions)
    case WaitReturn(timedOut) => s.service == WaitPullUp && (timedOut || s.pullup)
  }

  predicate MonitorEnabled(s: State, e: MonitorEvent) {
    match e
    case Look(_) => s.monitor.Scan?
    case WriteUdc(_) => s.monitor == PullUp
    case DeliverPullUp => s.monitor == Deliver
    case Inotify => s.monitor == Epoll
    case ReadEvent => s.monitor == Epoll && s.eventCounter > 0
  }

  function CallStep(s: State, request: Request): State {
    s.(request := request, applied := false, call := s.call + 1, service := TearDown)
  }

  function ResetStep(s: State, removed: set<string>, ok: bool): State {
    var t := s.(config := s.config.(links := s.config.links - removed));
    if ok then t.(service := Stopping) else t.End(ERROR, false)
  }

  function StopStep(s: State): State {
    if s.running then s.(eventCounter := s.eventCounter + STOP, service := Joining) else s.(service := TornDown)
  }

  function JoinStep(s: State): State {
    s.(running := false, monitor := NotRunning, config := s.config.(endpoints := []), orphans := [],
       pullup := false, callbackSet := false, service := TornDown)
  }

  function DecideStep(s: State, vidPidWritten: bool): State {
    if s.request.functions == {} then s.End(SUCCESS, false)
    else if !s.request.supported then s.End(CONFIGURATION_NOT_SUPPORTED, false)
    else if !vidPidWritten then s.End(ERROR, false)
    else s.(config := s.config.(count := 0), service := Configure(0))
  }

  function ActStep(s: State, pc: nat, ok: bool): State
    requires pc < |s.request.plan|
  {
    match Act(s.config, s.request.plan[pc], ok)
    case None => s.Abort()
    case Some(c) => s.(config := c, service := Configure(pc + 1))
  }

  function PullDirectStep(s: State, ok: bool): State {
    if ok then s.(applied := true).End(SUCCESS, false) else s.End(ERROR, false)
  }

  function StartStep(s: State): State {
    s.(callbackSet := true, running := true, monitor := Scan(true, 0), writeUdc := true, log := [],
       monitorCall := s.call, service := if s.request.hasCallback then WaitPullUp else Idle)
  }

  function WaitStep(s: State): State {
    s.End(if s.pullup then SUCCESS else ERROR, true)
  }

  ghost function ServiceStep(s: State, e: ServiceEvent): State
    requires ServiceEnabled(s, e)
  {
    match e
    case Call(request) => CallStep(s, request)
    case ResetGadget(removed, ok) => ResetStep(s, removed, ok)
    case StopMonitor => StopStep(s)
    case Join => JoinStep(s)
    case Decide(vidPidWritten) => DecideStep(s, vidPidWritten)
    case DoAction(ok) => ActStep(s, s.service.pc, ok)
    case PullDirect(ok) => PullDirectStep(s, ok)
    case Start => StartStep(s)
    case WaitReturn(_) => WaitStep(s)
  }

  /** One access of a scan; a missing endpoint ends the scan, the last readable one decides. */
  function LookStep(s: State, readable: bool): State
    requires s.monitor.Scan?
  {
    var j, first := s.monitor.next, s.monitor.first;
    if j < |s.config.endpoints| then
      var t := s.(log := s.log + [Access(s.config.endpoints[j], readable)]);
      if readable then t.(monitor := Scan(first, j + 1))
      else t.(monitor := Epoll, writeUdc := true)
    else if first || s.writeUdc then s.(monitor := PullUp)
    else s.(monitor := Epoll)
  }

  function WriteStep(s: State, ok: bool): State {
    if ok then s.(log := s.log + [UdcWritten], monitor := Deliver)
    else s.(log := s.log + [UdcFailed], monitor := Epoll)
  }

  function DeliverStep(s: State): State {
    s.(applied := true, pullup := true, writeUdc := false, monitor := Epoll)
  }

  function ReadStep(s: State): State {
    s.(eventCounter := 0, monitor := if s.eventCounter == STOP then Stopped else Epoll)
  }

  function MonitorStep(s: State, e: MonitorEvent): State
    requires MonitorEnabled(s, e)
  {
    match e
    case Look(readable) => LookStep(s, readable)
    case WriteUdc(ok) => WriteStep(s, ok)
    case DeliverPullUp => DeliverStep(s)
    case Inotify => s.(monitor := Scan(false, 0))
    case ReadEvent => ReadStep(s)
  }

  ghost predicate Enabled(s: State, e: Event) {
    match e
    case ByService(x) => ServiceEnabled(s, x)
    case ByMonitor(x) => MonitorEnabled(s, x)
  }

  ghost function Step(s: State, e: Event): State
    requires Enabled(s, e)
  {
    match e
    case ByService(x) => ServiceStep(s, x)
    case ByMonitor(x) => MonitorStep(s, x)
  }

  ghost predicate Initial(s: State) {
    && s.service == Idle && !s.running && !s.callbackSet && !s.pullup && s.eventCounter == 0
    && s.monitor == NotRunning && s.config.endpoints == [] && s.orphans == []
    && s.call == 0 && s.replies == [] && !s.applied
  }

  ghost function Run(s: State, es: seq<Event>): (r: Option<State>)
    decreases |es|
  {
    if es == [] then Some(s)
    else
      match Run(s, es[..|es| - 1])
      case None => None
      case Some(mid) =>
        var e := es[|es| - 1];
        if Enabled(mid, e) then Some(Step(mid, e)) else None
  }

  ghost predicate AllFaithful(es: seq<Event>) {
    forall e <- es | e.ByService? && e.s.Call? :: Faithful(e.s.request)
  }

  ghost predicate Reachable(s: State) {
    exists s0, es :: Initial(s0) && AllFaithful(es) && Run(s0, es) == Some(s)
  }
}
