/**
  The objects behind the function switch: the monitor with its lists and its thread's
  locals, and the gadget service with the configfs directory. Outcomes of system calls
  are parameters; `accepted` is how many of the next fallible setup calls succeed.
 */
module UsbGadget {
  import opened Wrappers
  import opened GadgetPlan
  import opened GadgetPlanProperties
  import GM = GadgetMachine
  import GP = GadgetProperties
  import GR = GadgetRuns

  class MonitorFfs {
    var endpointList: seq<string>
    var watches: seq<string>
    var monitorRunning: bool
    var callbackSet: bool
    var gadgetPullup: bool
    var applied: bool
    var eventCounter: nat
    // The monitor thread's locals, and what it has seen since it was started.
    var writeUdc: bool
    var stopMonitor: bool
    ghost var log: seq<GM.Observation>

    constructor ()
      ensures endpointList == [] && watches == [] && !monitorRunning && !callbackSet
      ensures !gadgetPullup && !applied && eventCounter == 0 && !stopMonitor
    {
      endpointList, watches, monitorRunning, callbackSet := [], [], false, false;
      gadgetPullup, applied, eventCounter := false, false, 0;
      writeUdc, stopMonitor, log := true, false, [];
    }

    /** The monitor thread between two events. */
    ghost predicate Watching()
      reads this
    {
      && GP.WritesFollowScans(log, endpointList) && GP.WritesSeparated(log)
      && (writeUdc <==> !GP.PulledUp(log))
    }

    /** The object is what the machine's state shows of the monitor. */
    ghost predicate Shows(s: GM.State)
      reads this
    {
      && s.config.endpoints == endpointList && s.config.watches == watches
      && s.running == monitorRunning && s.callbackSet == callbackSet
      && s.pullup == gadgetPullup && s.applied == applied && s.eventCounter == eventCounter
      && (monitorRunning ==>
            && s.writeUdc == writeUdc && s.log == log
            && stopMonitor == (s.monitor == GM.Stopped))
    }

    method AddEndPoint(ep: string)
      modifies `endpointList
      ensures endpointList == old(endpointList) + [ep]
    {
      endpointList := endpointList + [ep];
    }

    method RegisterFunctionsAppliedCallback()
      modifies `callbackSet
      ensures callbackSet
    {
      callbackSet := true;
    }

    /** The new thread starts with writeUdc set and nothing seen. */
    method StartMonitor()
      requires callbackSet
      modifies `monitorRunning, `writeUdc, `stopMonitor, `log
      ensures monitorRunning && !stopMonitor && log == [] && Watching()
      ensures forall s: GM.State | old(Shows(s)) :: Shows(GM.StartStep(s))
    {
      monitorRunning := true;
      writeUdc, stopMonitor, log := true, false, [];
    }

    /**
      One scan of the endpoint list, stopping at the first one that cannot be read. In any
      state of the machine that the object shows it is a run of the monitor's accesses.
     */
    method Scan(readable: seq<bool>, ghost first: bool, ghost s: GM.State)
      returns (present: bool, ghost es: seq<GM.Event>)
      requires |readable| == |endpointList| && monitorRunning && Shows(s) && s.monitor == GM.Scan(first, 0)
      requires GP.WritesFollowScans(log, endpointList) && GP.WritesSeparated(log)
      modifies `log
      ensures present <==> forall r <- readable :: r
      ensures GP.WritesFollowScans(log, endpointList) && GP.WritesSeparated(log)
      ensures present ==> log == old(log) + GP.Accesses(endpointList)
      ensures GP.PulledUp(log) <==> GP.PulledUp(old(log)) && present
      ensures GR.MonitorRun(s, es, if present then s.(log := log, monitor := GM.Scan(first, |endpointList|))
                                   else s.(log := log, monitor := GM.Epoll, writeUdc := true))
    {
      hide GR.MonitorRun, GP.WritesFollowScans, GP.WritesSeparated, GP.PulledUp;
      present, es := true, [];
      ghost var before := log;
      GR.MonitorRunEmpty(s);
      assert s.(log := log, monitor := GM.Scan(first, 0)) == s;
      for j := 0 to |endpointList|
        invariant present && forall k | 0 <= k < j :: readable[k]
        invariant log == before + GP.Accesses(endpointList[..j])
        invariant GP.WritesFollowScans(log, endpointList) && GP.WritesSeparated(log)
        invariant GP.PulledUp(log) <==> GP.PulledUp(before)
        invariant GR.MonitorRun(s, es, s.(log := log, monitor := GM.Scan(first, j)))
      {
        ghost var seen := GM.Access(endpointList[j], readable[j]);
        GP.WritesAppend(log, seen, endpointList);
        GP.PulledUpAppend(log, seen);
        LookIs(s, first, j, log, readable[j]);
        GR.MonitorRunSnoc(s, es, s.(log := log, monitor := GM.Scan(first, j)), GM.Look(readable[j]));
        es := es + [GM.ByMonitor(GM.Look(readable[j]))];
        log := log + [seen];
        if !readable[j] {
          present := false;
          assert readable[j] in readable;
          return;
        }
        assert GP.Accesses(endpointList[..j + 1]) == GP.Accesses(endpointList[..j]) + [seen];
      }
      assert endpointList[..|endpointList|] == endpointList;
    }

    static lemma LookIs(s: GM.State, first: bool, j: nat, log: seq<GM.Observation>, readable: bool)
      requires j < |s.config.endpoints|
      ensures var t := s.(log := log, monitor := GM.Scan(first, j));
              var log' := log + [GM.Access(s.config.endpoints[j], readable)];
              GM.MonitorStep(t, GM.Look(readable)) ==
              if readable then s.(log := log', monitor := GM.Scan(first, j + 1))
              else s.(log := log', monitor := GM.Epoll, writeUdc := true)
    {}

    /** Write the UDC and, if that succeeds, deliver the pull-up under mLock. */
    method TryPullUp(udcOk: bool, ghost s: GM.State) returns (ghost es: seq<GM.Event>, ghost t: GM.State)
      requires GP.WritesFollowScans(log, endpointList) && GP.WritesSeparated(log) && !GP.PulledUp(log)
      requires writeUdc && callbackSet && GP.EndsWith(log, GP.Accesses(endpointList))
      requires monitorRunning && Shows(s) && s.monitor == GM.PullUp
      modifies `log, `applied, `gadgetPullup, `writeUdc
      ensures Watching() && writeUdc == !udcOk
      ensures applied == (old(applied) || udcOk) && gadgetPullup == (old(gadgetPullup) || udcOk)
      ensures log == old(log) + [if udcOk then GM.UdcWritten else GM.UdcFailed]
      ensures GR.MonitorRun(s, es, t) && Shows(t) && t.monitor == GM.Epoll
    {
      ghost var seen := if udcOk then GM.UdcWritten else GM.UdcFailed;
      GP.WritesAppend(log, seen, endpointList);
      GP.PulledUpAppend(log, seen);
      es, t := PullUpRun(s, udcOk);
      log := log + [seen];
      if udcOk {
        applied := true;
        gadgetPullup := true;
        writeUdc := false;
      }
    }

    static lemma PullUpRun(s: GM.State, udcOk: bool) returns (es: seq<GM.Event>, t: GM.State)
      requires s.monitor == GM.PullUp
      ensures GR.MonitorRun(s, es, t)
      ensures t == if udcOk
                   then s.(log := s.log + [GM.UdcWritten], applied := true, pullup := true, writeUdc := false,
                           monitor := GM.Epoll)
                   else s.(log := s.log + [GM.UdcFailed], monitor := GM.Epoll)
    {
      es, t := GR.OneStep(s, GM.WriteUdc(udcOk));
      if udcOk {
        var mid, fs := t, [];
        fs, t := GR.OneStep(mid, GM.DeliverPullUp);
        GR.MonitorRunAppend(s, es, mid, fs, t);
        es := es + fs;
      }
    }

    /** startMonitorFd before its loop: pull up at once if every endpoint is already there. */
    method FirstScan(readable: seq<bool>, udcOk: bool, ghost s: GM.State)
      returns (ghost es: seq<GM.Event>, ghost t: GM.State)
      requires |readable| == |endpointList| && Watching() && writeUdc && callbackSet
      requires monitorRunning && Shows(s) && s.monitor == GM.Scan(true, 0)
      modifies `log, `applied, `gadgetPullup, `writeUdc
      ensures Watching()
      ensures !writeUdc <==> udcOk && forall r <- readable :: r
      ensures gadgetPullup == (old(gadgetPullup) || !writeUdc)
      ensures GR.MonitorRun(s, es, t) && Shows(t) && t.monitor == GM.Epoll
    {
      var descriptorWritten;
      descriptorWritten, es := Scan(readable, true, s);
      if descriptorWritten {
        assert log[|old(log)|..] == GP.Accesses(endpointList);
        ghost var fs, u := EndScan(s.(log := log, monitor := GM.Scan(true, |endpointList|)));
        GR.MonitorRunAppend(s, es, s.(log := log, monitor := GM.Scan(true, |endpointList|)), fs, u);
        es := es + fs;
        fs, t := TryPullUp(udcOk, u);
        GR.MonitorRunAppend(s, es, u, fs, t);
        es := es + fs;
      } else {
        t := s.(log := log, monitor := GM.Epoll, writeUdc := true);
      }
    }

    /** After the last access the monitor goes for the UDC or back to its wait. */
    static lemma EndScan(s: GM.State) returns (es: seq<GM.Event>, t: GM.State)
      requires s.monitor.Scan? && s.monitor.next == |s.config.endpoints|
      ensures GR.MonitorRun(s, es, t)
      ensures t == s.(monitor := if s.monitor.first || s.writeUdc then GM.PullUp else GM.Epoll)
    {
      es, t := GR.OneStep(s, GM.Look(true));
    }

    /**
      One inotify event: note a disappearance, or pull up again once everything is back.
      Afterwards writeUdc is false exactly if all endpoints were readable and the gadget
      either was pulled up already or is now.
     */
    method OnInotify(readable: seq<bool>, udcOk: bool, ghost s: GM.State)
      returns (ghost es: seq<GM.Event>, ghost t: GM.State)
      requires |readable| == |endpointList| && Watching() && callbackSet
      requires monitorRunning && Shows(s) && s.monitor == GM.Epoll
      modifies `log, `applied, `gadgetPullup, `writeUdc
      ensures Watching()
      ensures !writeUdc <==> (forall r <- readable :: r) && (!old(writeUdc) || udcOk)
      ensures gadgetPullup == (old(gadgetPullup) || (old(writeUdc) && !writeUdc))
      ensures GR.MonitorRun(s, es, t) && Shows(t) && t.monitor == GM.Epoll
    {
      hide GR.MonitorRun;
      ghost var a, fs;
      es, a := GR.OneStep(s, GM.Inotify);
      assert a == s.(monitor := GM.Scan(false, 0));
      var descriptorPresent;
      descriptorPresent, fs := Scan(readable, false, a);
      t := if descriptorPresent then a.(log := log, monitor := GM.Scan(false, |endpointList|))
           else a.(log := log, monitor := GM.Epoll, writeUdc := true);
      GR.MonitorRunAppend(s, es, a, fs, t);
      es := es + fs;
      if descriptorPresent {
        ghost var mid := t;
        fs, t := EndScan(mid);
        GR.MonitorRunAppend(s, es, mid, fs, t);
        es := es + fs;
      }
      if !descriptorPresent && !writeUdc {
        writeUdc := true;
      } else if descriptorPresent && writeUdc {
        assert log[|old(log)|..] == GP.Accesses(endpointList);
        ghost var mid := t;
        fs, t := TryPullUp(udcOk, mid);
        GR.MonitorRunAppend(s, es, mid, fs, t);
        es := es + fs;
      }
    }

    /** A readable eventfd: the read takes the counter, and 100 ends the thread. */
    method OnEventFd()
      requires eventCounter > 0
      modifies `eventCounter, `stopMonitor
      ensures eventCounter == 0 && stopMonitor == (old(stopMonitor) || old(eventCounter) == 100)
      ensures forall s: GM.State | old(Shows(s)) && GM.MonitorEnabled(s, GM.ReadEvent) ::
                Shows(GM.MonitorStep(s, GM.ReadEvent))
    {
      var flag := eventCounter;
      eventCounter := 0;
      if flag == 100 {
        stopMonitor := true;
      }
    }

    /** reset up to the join, with the test of tearDownGadget before it. */
    method SignalStop()
      modifies `eventCounter
      ensures eventCounter == old(eventCounter) + if monitorRunning then 100 else 0
      ensures forall s: GM.State | old(Shows(s)) && GM.ServiceEnabled(s, GM.StopMonitor) ::
                Shows(GM.ServiceStep(s, GM.StopMonitor))
    {
      if monitorRunning {
        eventCounter := eventCounter + 100;
      }
    }

    /** reset after the join; mWatchFd keeps its entries. */
    method FinishReset()
      requires monitorRunning ==> stopMonitor
      modifies `monitorRunning, `endpointList, `gadgetPullup, `callbackSet
      ensures !monitorRunning && endpointList == [] && !gadgetPullup && !callbackSet
      ensures forall s: GM.State | old(Shows(s)) && GM.ServiceEnabled(s, GM.Join) ::
                Shows(GM.ServiceStep(s, GM.Join))
    {
      if monitorRunning {
        monitorRunning := false;
      }
      endpointList := [];
      gadgetPullup := false;
      callbackSet := false;
    }
  }

  class UsbGadget {
    const monitor: MonitorFfs
    var links: map<string, string>  // configs/b.1
    var functionCount: nat
    var accepted: nat
    var replies: seq<GM.Status>  // setCurrentUsbFunctionsCb

    constructor (monitor: MonitorFfs, links: map<string, string>)
      ensures this.monitor == monitor && this.links == links && replies == []
    {
      this.monitor := monitor;
      this.links := links;
      functionCount := 0;
      accepted := 0;
      replies := [];
    }

    ghost function View(): Config
      reads this, monitor
    {
      Config(links, monitor.endpointList, monitor.watches, functionCount)
    }

    /**
      Whether the fields are where a plan leads from configuration c with budget b: there,
      with the rest of the budget, if it succeeds; else with the same links and lists.
     */
    ghost predicate Reached(c: Config, plan: seq<Action>, b: nat, ok: bool)
      reads this, monitor
    {
      var r := RunPlan(c, plan, b);
      && ok == r.1.Some?
      && (ok ==> View() == r.0 && accepted == r.1.value)
      && links == r.0.links && monitor.endpointList == r.0.endpoints && monitor.watches == r.0.watches
    }

    method SystemCall() returns (ok: bool)
      modifies `accepted
      ensures ok == (old(accepted) > 0) && accepted == if ok then old(accepted) - 1 else 0
    {
      ok := accepted > 0;
      if ok {
        accepted := accepted - 1;
      }
    }

    method UseOsDesc() returns (ok: bool)
      modifies `accepted
      ensures Reached(old(View()), [GadgetPlan.UseOsDesc], old(accepted), ok)
    {
      ok := SystemCall();
      RunOne(old(View()), GadgetPlan.UseOsDesc, old(accepted));
    }

    method AddInotifyFd(dir: string) returns (ok: bool)
      modifies `accepted, monitor`watches
      ensures Reached(old(View()), [Watch(dir)], old(accepted), ok)
    {
      ok := SystemCall();
      if ok {
        monitor.watches := monitor.watches + [dir];
      }
      RunOne(old(View()), Watch(dir), old(accepted));
    }

    /** symlink fails when the system refuses it or the name exists. */
    method LinkFunction(target: string) returns (ok: bool)
      modifies `links, `functionCount, `accepted
      ensures Reached(old(View()), [Link(target)], old(accepted), ok)
      ensures functionCount == old(functionCount) + 1
    {
      var name := LinkName(functionCount);
      functionCount := functionCount + 1;
      if name in links {
        ok := false;
      } else {
        ok := SystemCall();
        if ok {
          links := links[name := FUNCTIONS_PATH + target];
        }
      }
      RunOne(old(View()), Link(target), old(accepted));
    }

    /** One FunctionFS function with its link and its first two endpoints. */
    method AddFfs(dir: string, target: string, ep1: string, ep2: string) returns (ok: bool)
      modifies `links, `functionCount, `accepted, monitor`watches, monitor`endpointList
      ensures Reached(old(View()), FfsPlan(dir, target, ep1, ep2), old(accepted), ok)
    {
      hide RunPlan, LinkName;
      ghost var c, b, plan := View(), accepted, FfsPlan(dir, target, ep1, ep2);
      ghost var p1, p2, p3 := [GadgetPlan.UseOsDesc], [Watch(dir)], [Link(target)];
      ghost var p4 := [EndPoint(ep1), EndPoint(ep2)];
      assert plan == p1 + (p2 + (p3 + p4));
      RunPlanSplit(c, p1, p2 + (p3 + p4), b);
      ok := UseOsDesc();
      if !ok { return; }
      RunPlanSplit(View(), p2, p3 + p4, accepted);
      ok := AddInotifyFd(dir);
      if !ok { return; }
      RunPlanSplit(View(), p3, p4, accepted);
      ok := LinkFunction(target);
      if !ok { return; }
      RunTwoEndPoints(View(), ep1, ep2, accepted);
      monitor.AddEndPoint(ep1);
      monitor.AddEndPoint(ep2);
    }

    static function FfsPlan(dir: string, target: string, ep1: string, ep2: string): seq<Action> {
      [GadgetPlan.UseOsDesc, Watch(dir), Link(target), EndPoint(ep1), EndPoint(ep2)]
    }

    static lemma RunTwoEndPoints(c: Config, ep1: string, ep2: string, b: nat)
      ensures RunPlan(c, [EndPoint(ep1), EndPoint(ep2)], b) == (c.(endpoints := c.endpoints + [ep1] + [ep2]), Some(b))
    {
      assert [EndPoint(ep1), EndPoint(ep2)] == [EndPoint(ep1)] + [EndPoint(ep2)];
      RunPlanSplit(c, [EndPoint(ep1)], [EndPoint(ep2)], b);
      RunOne(c, EndPoint(ep1), b);
      RunOne(c.(endpoints := c.endpoints + [ep1]), EndPoint(ep2), b);
    }

    /** A FunctionFS function with a third endpoint. */
    method AddFfsThree(dir: string, target: string, ep1: string, ep2: string, ep3: string) returns (ok: bool)
      modifies `links, `functionCount, `accepted, monitor`watches, monitor`endpointList
      ensures Reached(old(View()), FfsPlan(dir, target, ep1, ep2) + [EndPoint(ep3)], old(accepted), ok)
    {
      RunPlanSplit(View(), FfsPlan(dir, target, ep1, ep2), [EndPoint(ep3)], accepted);
      ok := AddFfs(dir, target, ep1, ep2);
      if !ok { return; }
      RunOne(View(), EndPoint(ep3), accepted);
      monitor.AddEndPoint(ep3);
    }

    /** MTP, or else PTP. */
    method AddMedia(fs: Functions) returns (ok: bool)
      modifies `links, `functionCount, `accepted, monitor`watches, monitor`endpointList
      ensures Reached(old(View()), MediaPlan(fs), old(accepted), ok)
    {
      ok := true;
      if MTP in fs {
        MediaPlans();
        ok := AddFfsThree("/dev/usb-ffs/mtp/", "ffs.mtp",
                          "/dev/usb-ffs/mtp/ep1", "/dev/usb-ffs/mtp/ep2", "/dev/usb-ffs/mtp/ep3");
      } else if PTP in fs {
        MediaPlans();
        ok := AddFfsThree("/dev/usb-ffs/ptp/", "ffs.ptp",
                          "/dev/usb-ffs/ptp/ep1", "/dev/usb-ffs/ptp/ep2", "/dev/usb-ffs/ptp/ep3");
      }
    }

    static lemma MediaPlans()
      ensures MTP_PLAN == FfsPlan("/dev/usb-ffs/mtp/", "ffs.mtp", "/dev/usb-ffs/mtp/ep1", "/dev/usb-ffs/mtp/ep2") +
                          [EndPoint("/dev/usb-ffs/mtp/ep3")]
      ensures PTP_PLAN == FfsPlan("/dev/usb-ffs/ptp/", "ffs.ptp", "/dev/usb-ffs/ptp/ep1", "/dev/usb-ffs/ptp/ep2") +
                          [EndPoint("/dev/usb-ffs/ptp/ep3")]
    {}

    method LinkIf(fs: Functions, f: GadgetFunction, target: string) returns (ok: bool)
      modifies `links, `functionCount, `accepted
      ensures Reached(old(View()), GadgetPlan.LinkIf(fs, f, target), old(accepted), ok)
    {
      ok := true;
      if f in fs {
        ok := LinkFunction(target);
      }
    }

    /** addGenericAndroidFunctions: the media function, then the optional links in the fixed order. */
    method AddGenericAndroidFunctions(fs: Functions, rndis: string) returns (ok: bool)
      modifies `links, `functionCount, `accepted, monitor`watches, monitor`endpointList
      ensures Reached(old(View()), GenericPlan(fs, rndis), old(accepted), ok)
    {
      ghost var c, b := View(), accepted;
      ghost var midi := GadgetPlan.LinkIf(fs, MIDI, "midi.gs5");
      ghost var accessory := GadgetPlan.LinkIf(fs, ACCESSORY, "accessory.gs2");
      ghost var audio := GadgetPlan.LinkIf(fs, AUDIO_SOURCE, "audio_source.gs3");
      ghost var net, ncm := GadgetPlan.LinkIf(fs, RNDIS, RndisName(rndis)), GadgetPlan.LinkIf(fs, NCM, "ncm.gs6");
      ghost var tail4 := net + ncm;
      ghost var tail3 := audio + tail4;
      ghost var tail2 := accessory + tail3;
      ghost var tail1 := midi + tail2;
      assert GenericPlan(fs, rndis) == MediaPlan(fs) + tail1;
      RunPlanSplit(c, MediaPlan(fs), tail1, b);
      ok := AddMedia(fs);
      if !ok { return; }
      RunPlanSplit(View(), midi, tail2, accepted);
      ok := LinkIf(fs, MIDI, "midi.gs5");
      if !ok { return; }
      RunPlanSplit(View(), accessory, tail3, accepted);
      ok := LinkIf(fs, ACCESSORY, "accessory.gs2");
      if !ok { return; }
      RunPlanSplit(View(), audio, tail4, accepted);
      ok := LinkIf(fs, AUDIO_SOURCE, "audio_source.gs3");
      if !ok { return; }
      RunPlanSplit(View(), net, ncm, accepted);
      ok := LinkIf(fs, RNDIS, if rndis != "" then rndis else "gsi.rndis");
      if !ok { return; }
      ok := LinkIf(fs, NCM, "ncm.gs6");
    }

    method AddAdb() returns (ok: bool)
      modifies `links, `functionCount, `accepted, monitor`watches, monitor`endpointList
      ensures Reached(old(View()), ADB_PLAN, old(accepted), ok)
    {
      assert ADB_PLAN == FfsPlan("/dev/usb-ffs/adb/", "ffs.adb", "/dev/usb-ffs/adb/ep1", "/dev/usb-ffs/adb/ep2");
      ok := AddFfs("/dev/usb-ffs/adb/", "ffs.adb", "/dev/usb-ffs/adb/ep1", "/dev/usb-ffs/adb/ep2");
    }

    /**
      setupFunctions up to the wait. Success means the whole plan was carried out; the
      monitor is started exactly if a FunctionFS function is requested, otherwise the
      UDC was written directly and the call is replied to at once.
     */
    method SetupFunctions(fs: Functions, rndis: string, hasCallback: bool, accepts: nat, udcOk: bool) returns (ok: bool)
      requires !monitor.monitorRunning
      modifies this, monitor
      ensures var r := RunPlan(old(View()).(count := 0), Plan(fs, rndis), accepts);
              && ok == (r.1.Some? && (FfsEnabled(fs) || udcOk))
              && links == r.0.links && monitor.endpointList == r.0.endpoints && monitor.watches == r.0.watches
      ensures monitor.monitorRunning == (ok && FfsEnabled(fs))
      ensures monitor.monitorRunning ==> monitor.callbackSet && monitor.Watching() && monitor.writeUdc
      ensures monitor.gadgetPullup == old(monitor.gadgetPullup)
      ensures monitor.applied == (old(monitor.applied) || (ok && !FfsEnabled(fs)))
      ensures replies == old(replies) + if ok && !FfsEnabled(fs) && hasCallback then [GM.SUCCESS] else []
    {
      functionCount := 0;
      accepted := accepts;
      ghost var c := View();
      RunPlanSplit(c, GenericPlan(fs, rndis), AdbPlan(fs), accepts);
      ok := AddGenericAndroidFunctions(fs, rndis);
      if !ok { return; }
      if ADB in fs {
        ok := AddAdb();
        if !ok { return; }
      }
      if !(MTP in fs || PTP in fs || ADB in fs) {
        if !udcOk { return false; }
        monitor.applied := true;
        if hasCallback {
          replies := replies + [GM.SUCCESS];
        }
        return;
      }
      monitor.RegisterFunctionsAppliedCallback();
      monitor.StartMonitor();
    }

    /** The rest of setupFunctions: when waitForPullUp returns, the flag decides the reply. */
    method ReplyAfterWait(hasCallback: bool, ghost s: GM.State, ghost timedOut: bool)
      requires monitor.Shows(s) && GM.ServiceEnabled(s, GM.WaitReturn(timedOut)) && s.request.hasCallback == hasCallback
      modifies `replies
      ensures monitor.Shows(GM.WaitStep(s))
      ensures var reply := if monitor.gadgetPullup then GM.SUCCESS else GM.ERROR;
              && replies == old(replies) + (if hasCallback then [reply] else [])
              && GM.WaitStep(s).replies == s.replies + (if hasCallback then [GM.Reply(s.call, reply, true)] else [])
    {
      if hasCallback {
        var pullup := monitor.gadgetPullup;
        replies := replies + [if pullup then GM.SUCCESS else GM.ERROR];
      }
    }

    /** The entries of configs/b.1 whose name contains "function", removed one by one. */
    method UnlinkFunctions(isOpen: bool, listing: seq<string>, removable: seq<bool>)
      returns (failed: bool, ghost removed: set<string>)
      requires |removable| == |listing| && (set n | n in listing) == links.Keys
      requires forall i, k | 0 <= i < k < |listing| :: listing[i] != listing[k]
      modifies `links
      ensures links == old(links) - removed && removed <= FunctionLinks(old(links)).Keys
      ensures !failed ==> removed == FunctionLinks(old(links)).Keys && FunctionLinks(links) == map[]
      ensures !isOpen ==> links == old(links)
      ensures !failed <==> isOpen && forall i | 0 <= i < |listing| && IsFunctionLink(listing[i]) :: removable[i]
    {
      removed := {};
      if !isOpen {
        return true, removed;
      }
      for i := 0 to |listing|
        invariant removed == set k | 0 <= k < i && IsFunctionLink(listing[k]) :: listing[k]
        invariant forall k | 0 <= k < i && IsFunctionLink(listing[k]) :: removable[k]
        invariant links == old(links) - removed
      {
        assert listing[i] in listing;
        var found := Strstr(listing[i]);
        if found {
          if !removable[i] {
            return true, removed;
          }
          links := links - {listing[i]};
          removed := removed + {listing[i]};
        }
      }
      failed := false;
      assert removed == FunctionLinks(old(links)).Keys;
    }

    /** strstr(name, "function") as a search from the left. */
    static method Strstr(name: string) returns (found: bool)
      ensures found <==> IsFunctionLink(name)
    {
      for i := 0 to |name|
        invariant forall k: nat | k < i :: !OccursAt(name, k)
      {
        if i + |FUNCTION_NAME| <= |name| && name[i..i + |FUNCTION_NAME|] == FUNCTION_NAME {
          assert OccursAt(name, i);
          return true;
        }
      }
      return false;
    }

    static lemma RunOne(c: Config, a: Action, b: nat)
      ensures RunPlan(c, [a], b) ==
              match Act(c, a, b > 0)
              case None => (c, None)
              case Some(c') => (c', Some(if Fallible(a) then b - 1 else b))
    {
      assert [a][1..] == [];
    }
  }
}
