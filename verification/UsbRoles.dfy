/**
  The role switch object: the flag and the waiting threads that switchMode and the uevent
  worker update under mPartnerLock, one method for each critical section.
 */
module UsbRoles {
  import M = RoleSwitchMachine

  class Usb {
    var partnerUp: bool
    // The condition variable's queue and the lock owners, by where each thread stands.
    var threads: seq<M.Location>
    // What the role files, the uevents and the return values show.
    var log: seq<M.Observation>

    ghost function View(): M.State
      reads this
    {
      M.State(threads, partnerUp, log)
    }

    constructor (callers: nat)
      ensures M.Initial(View()) && |threads| == callers + 1
    {
      partnerUp, threads, log := false, seq(callers + 1, _ => M.Idle), [];
    }

    /** switchMode takes mPartnerLock and forgets an earlier partner. */
    method ClearPartnerUp(t: nat)
      requires M.Enabled(View(), t, M.Acquire) && threads[t] == M.WantPartner
      modifies this
      ensures View() == M.Step(old(View()), t, M.Acquire)
      ensures !partnerUp && threads[t] == M.Armed && log == old(log)
    {
      threads := threads[t := M.Armed];
      partnerUp := false;
    }

    /** The write of the role string, and the wait it leads to; the wait gives up the lock. */
    method WriteRole(t: nat, written: bool)
      requires M.Enabled(View(), t, M.Finish(written)) && threads[t] == M.Armed
      modifies this
      ensures View() == M.Step(old(View()), t, M.Finish(written))
      ensures threads[t] == if written then M.Blocked else M.NeedDual(false)
      ensures log == old(log) + if written then [M.RoleWritten(t)] else []
    {
      if written {
        threads := threads[t := M.Blocked];
        log := log + [M.RoleWritten(t)];
      } else {
        threads := threads[t := M.NeedDual(false)];
      }
    }

    /** The wait has the lock back: a timeout fails, a wakeup without a partner waits again. */
    method WaitReturns(t: nat) returns (roleSwitch: bool, waitsAgain: bool)
      requires M.Enabled(View(), t, M.Acquire) && threads[t] in {M.Woken, M.TimedOut}
      modifies this
      ensures View() == M.Step(old(View()), t, M.Acquire)
      ensures roleSwitch <==> old(threads[t]) == M.Woken && old(partnerUp)
      ensures waitsAgain <==> old(threads[t]) == M.Woken && !old(partnerUp)
    {
      roleSwitch, waitsAgain := false, false;
      if threads[t] == M.TimedOut {
        threads := threads[t := M.NeedDual(true)];
      } else if !partnerUp {
        waitsAgain := true;
        threads := threads[t := M.Blocked];
      } else {
        roleSwitch := true;
        threads := threads[t := M.Leaving(true, true)];
      }
    }

    /** switchMode failed: back to dual role. */
    method SwitchToDrp(t: nat)
      requires M.Enabled(View(), t, M.WriteDual) && threads[t].NeedDual?
      modifies this
      ensures View() == M.Step(old(View()), t, M.WriteDual)
      ensures log == old(log) + [M.DualWritten(t)]
    {
      log := log + [M.DualWritten(t)];
      threads := threads[t := M.Leaving(false, threads[t].written)];
    }

    /** The end of switchMode. */
    method Return(t: nat) returns (roleSwitch: bool)
      requires M.Enabled(View(), t, M.Return)
      modifies this
      ensures View() == M.Step(old(View()), t, M.Return)
      ensures log == old(log) + [M.Returned(t, roleSwitch)]
    {
      roleSwitch := threads[t].ok;
      threads := threads[t := M.WantMain(true, roleSwitch)];
      log := log + [M.Returned(t, roleSwitch)];
    }

    /** switchRole's own branch: a data or power role is written and read back. */
    method WriteAndReadBack(t: nat, written: bool, readBack: bool) returns (roleSwitch: bool)
      requires M.Enabled(View(), t, M.Finish(written && readBack)) && threads[t] == M.InRole(false)
      modifies this
      ensures roleSwitch == (written && readBack)
      ensures View() == M.Step(old(View()), t, M.Finish(roleSwitch))
      ensures log == old(log) + [M.ReadBack(t, roleSwitch)]
    {
      roleSwitch := false;
      if written {
        if readBack {
          roleSwitch := true;
        }
      }
      threads := threads[t := M.WantMain(false, roleSwitch)];
      log := log + [M.ReadBack(t, roleSwitch)];
    }

    /** The notification under mLock, with the status made of the outcome. */
    method NotifyStatus(t: nat)
      requires M.Enabled(View(), t, M.Acquire) && threads[t].WantMain?
      modifies this
      ensures View() == M.Step(old(View()), t, M.Acquire)
      ensures log == old(log) + [M.Notified(t, old(threads[t]).mode, old(threads[t]).ok)]
    {
      var l := threads[t];
      threads := threads[t := M.InMain(l.mode, l.ok)];
      log := log + [M.Notified(t, l.mode, l.ok)];
    }

    /** The worker's critical section for a partner-added record. */
    method PartnerAdded(t: nat)
      requires M.Enabled(View(), t, M.Acquire) && threads[t] == M.HandlerWantPartner
      modifies this
      ensures View() == M.Step(old(View()), t, M.Acquire)
      ensures partnerUp && log == old(log) + [M.PartnerHandled]
    {
      partnerUp := true;
      var queue := threads;
      for u := 0 to |threads|
        invariant |queue| == |threads| && threads == old(threads) && partnerUp && log == old(log)
        invariant forall v | 0 <= v < u :: queue[v] == if threads[v] == M.Blocked then M.Woken else threads[v]
        invariant forall v | u <= v < |threads| :: queue[v] == threads[v]
      {
        if queue[u] == M.Blocked {
          queue := queue[u := M.Woken];
        }
      }
      assert queue == M.Signal(old(View())).threads;
      threads := queue[t := M.HandlerPartner];
      log := log + [M.PartnerHandled];
    }
  }
}
