/**
  The objects behind the booster steps: sysfs files, frequency devices, the booster
  itself and the power service. Each method is one critical section of the service
  and does to the fields what the corresponding step does to the state.
  System calls that may fail take their outcome as a parameter.
 */
module GloDroidPower {
  import M = BoosterMachine

  class SysfsIntFile {
    var initialValue: int
    var lastValue: int
    var valid: bool
    var content: int  // the file itself

    constructor (content: int, readable: bool)
      ensures this.content == content && valid == readable && lastValue == -1
      ensures initialValue == if readable then content else -1
    {
      this.content := content;
      initialValue := if readable then content else -1;
      lastValue := -1;
      valid := readable;
    }

    method Write(value: int, accepted: bool) returns (ok: bool)
      modifies this`lastValue, this`content
      ensures ok == (valid && accepted)
      ensures ok ==> content == value && lastValue == value
      ensures !ok ==> content == old(content) && lastValue == old(lastValue)
    {
      if !valid { return false; }
      if !accepted { return false; }
      content := value;
      lastValue := value;
      return true;
    }
  }

  class DevFreq {
    const minFreq: SysfsIntFile
    const maxFreq: SysfsIntFile
    const valid: bool

    ghost predicate Ready()
      reads minFreq
    {
      valid && minFreq.valid
    }

    ghost function View(): M.Booster
      reads minFreq, maxFreq
    {
      M.Booster(minFreq.initialValue, maxFreq.initialValue, minFreq.content)
    }

    /** A usable device starts with its minimum file holding the minimum read from it. */
    constructor (min: SysfsIntFile, max: SysfsIntFile, accepted: bool)
      requires min != max
      modifies min
      ensures minFreq == min && maxFreq == max
      ensures valid == (min.valid && max.valid && accepted)
      ensures min.valid == old(min.valid) && min.initialValue == old(min.initialValue)
      ensures valid ==> View().Settled(false)
    {
      minFreq := min;
      maxFreq := max;
      var ok := false;
      if min.valid && max.valid {
        ok := min.Write(min.initialValue, accepted);
      }
      valid := ok;
    }

    method Boost(en: bool, accepted: bool)
      requires Ready() && minFreq != maxFreq
      modifies minFreq`content, minFreq`lastValue
      ensures View() == if accepted then old(View()).(minFile := old(View()).Target(en)) else old(View())
    {
      var _ := minFreq.Write(if en then maxFreq.initialValue else minFreq.initialValue, accepted);
    }
  }

  class GloDroidPower {
    var now: nat  // steady_clock
    var boosterList: seq<DevFreq>
    var boostEnd: nat
    var boostEn: bool
    var exit: bool
    var exitOwed: bool
    // The booster thread: where it is, its two locals, and whether its wait was notified.
    var location: M.Location
    var boosted: bool
    var wakeup: M.Deadline
    var notified: bool
    // History
    ghost var seenAt: nat
    ghost var seenEnd: nat
    ghost var seenEn: bool
    ghost var lost: bool
    ghost var calls: seq<bool>

    ghost function Files(): set<SysfsIntFile>
      reads `boosterList
    {
      (set d | d in boosterList :: d.minFreq) + (set d | d in boosterList :: d.maxFreq)
    }

    ghost predicate Valid()
      reads `boosterList, Files()
    {
      && (forall d <- boosterList :: d.Ready() && d.minFreq != d.maxFreq)
      && (forall i, j | 0 <= i < |boosterList| && 0 <= j < |boosterList| && i != j ::
            boosterList[i].minFreq != boosterList[j].minFreq && boosterList[i].minFreq != boosterList[j].maxFreq)
    }

    ghost function Boosters(): (r: seq<M.Booster>)
      reads `boosterList, Files()
      ensures |r| == |boosterList|
    {
      var devices, files := boosterList, Files();
      seq(|devices|, i requires 0 <= i < |devices| && devices[i].minFreq in files && devices[i].maxFreq in files
                       reads files => devices[i].View())
    }

    ghost function View(modes: set<M.Mode>, inSetMode: bool): M.State
      reads this, Files()
    {
      M.State(now, boostEnd, boostEn, exit, modes, inSetMode, exitOwed, location, boosted, wakeup,
              notified, Boosters(), seenAt, seenEnd, seenEn, lost, calls)
    }

    /** Of all devices the sysfs search found, the usable ones are kept, in order. */
    constructor (start: nat, found: seq<DevFreq>)
      requires forall i, j | 0 <= i < |found| && 0 <= j < |found| && i != j ::
                 found[i].minFreq != found[j].minFreq && found[i].minFreq != found[j].maxFreq
      requires forall d <- found :: d.minFreq != d.maxFreq && (d.valid ==> d.minFreq.valid && d.View().Settled(false))
      ensures Valid() && M.Initial(View({}, false)) && now == start
      ensures forall d :: d in boosterList <==> d in found && d.valid
    {
      now := start;
      boostEnd, boostEn, exit, exitOwed := 0, false, false, false;
      boosted, wakeup, notified := false, M.Never, false;
      seenAt, seenEnd, seenEn, lost, calls := start, 0, false, false, [];
      location := M.NotStarted;
      boosterList := [];
      new;
      ghost var where := Collect(found);
      Usable(found, where);
      hide Valid;
      if boosterList != [] {
        location := M.Gap;
      }
    }

    /** What is kept of devices with files of their own is in order to be boosted. */
    lemma Usable(found: seq<DevFreq>, where: seq<nat>)
      requires forall i, j | 0 <= i < |found| && 0 <= j < |found| && i != j ::
                 found[i].minFreq != found[j].minFreq && found[i].minFreq != found[j].maxFreq
      requires forall d <- found :: d.minFreq != d.maxFreq && (d.valid ==> d.minFreq.valid && d.View().Settled(false))
      requires forall d :: d in boosterList <==> d in found && d.valid
      requires |where| == |boosterList|
      requires forall k | 0 <= k < |where| :: where[k] < |found| && boosterList[k] == found[where[k]]
      requires forall k, l | 0 <= k < l < |where| :: where[k] < where[l]
      ensures Valid() && forall b <- Boosters() :: b.Settled(false)
    {
      forall b <- Boosters() ensures b.Settled(false) {
        var k :| 0 <= k < |boosterList| && Boosters()[k] == b;
        assert boosterList[k] in found;
      }
    }

    /** The usable devices, in order; the result tells where each was found. */
    method Collect(found: seq<DevFreq>) returns (ghost where: seq<nat>)
      requires boosterList == []
      modifies `boosterList
      ensures forall d :: d in boosterList <==> d in found && d.valid
      ensures |where| == |boosterList|
      ensures forall k | 0 <= k < |where| :: where[k] < |found| && boosterList[k] == found[where[k]]
      ensures forall k, l | 0 <= k < l < |where| :: where[k] < where[l]
    {
      where := [];
      for i := 0 to |found|
        invariant forall d :: d in boosterList <==> d in found[..i] && d.valid
        invariant |where| == |boosterList|
        invariant forall k | 0 <= k < |where| :: where[k] < i && boosterList[k] == found[where[k]]
        invariant forall k, l | 0 <= k < l < |where| :: where[k] < where[l]
      {
        assert found[..i + 1] == found[..i] + [found[i]];
        if found[i].valid {
          boosterList := boosterList + [found[i]];
          where := where + [i];
        }
      }
    }

    method Notify()
      modifies `notified, `lost
      ensures notified == (old(notified) || location == M.Waiting)
      ensures lost == (old(lost) || location == M.Gap)
      ensures forall modes, b :: View(modes, b) == old(View(modes, b)).Notify()
    {
      if location == M.Waiting {
        notified := true;
      }
      lost := lost || location == M.Gap;
    }

    /** A later end, and its notification. */
    method Postpone(end: nat)
      modifies `boostEnd, `notified, `lost
      ensures forall modes, b :: View(modes, b) == old(View(modes, b)).(boostEnd := end).Notify()
    {
      boostEnd := end;
      Notify();
    }

    method BoostFor(timeoutMs: int, ghost modes: set<M.Mode>, ghost inSetMode: bool)
      requires location != M.Evaluating
      modifies `boostEnd, `notified, `lost
      ensures View(modes, inSetMode) == M.BoostFor(old(View(modes, inSetMode)), timeoutMs)
    {
      var timeout := timeoutMs;
      if timeout <= 0 {
        timeout := M.DEFAULT_TIMEOUT_MS;
      }
      var end: nat := now + timeout * 1_000_000;
      if boostEnd < end {
        Postpone(end);
      }
    }

    method BoostEn(en: bool)
      requires location != M.Evaluating
      modifies `boostEn, `notified, `lost
      ensures forall modes, b :: View(modes, b) == old(View(modes, b)).(boostEn := en).Notify()
    {
      boostEn := en;
      Notify();
    }

    /** The destructor's critical section. */
    method StoreExit(ghost modes: set<M.Mode>, ghost inSetMode: bool)
      requires location != M.Evaluating && !exit
      modifies `exit, `exitOwed
      ensures View(modes, inSetMode) == M.Step(old(View(modes, inSetMode)), M.StoreExit)
    {
      exit := true;
      exitOwed := true;
    }

    /** The destructor's notification, with the mutex already released. */
    method NotifyExit(ghost modes: set<M.Mode>, ghost inSetMode: bool)
      requires exitOwed
      modifies `exitOwed, `notified, `lost
      ensures View(modes, inSetMode) == M.Step(old(View(modes, inSetMode)), M.NotifyExit)
    {
      exitOwed := false;
      Notify();
    }

    method BoostAll(en: bool, writeOk: seq<bool>)
      requires Valid() && |writeOk| == |boosterList|
      modifies set d | d in boosterList :: d.minFreq
      ensures Valid() && Boosters() == M.BoostAll(old(Boosters()), en, writeOk)
    {
      for i := 0 to |boosterList|
        invariant Valid()
        invariant forall k | 0 <= k < i :: boosterList[k].View() == M.BoostAll(old(Boosters()), en, writeOk)[k]
        invariant forall k | i <= k < |boosterList| :: boosterList[k].View() == old(Boosters())[k]
      {
        assert boosterList[i] in boosterList;
        boosterList[i].Boost(en, writeOk[i]);
      }
    }

    /** The two branches of an evaluation: BoostAll runs only on a change. */
    method SetBoosted(boostActive: bool, writeOk: seq<bool>)
      requires Valid() && |writeOk| == |boosterList|
      modifies `boosted, `calls, set d | d in boosterList :: d.minFreq
      ensures Valid() && boosted == boostActive
      ensures calls == if boostActive != old(boosted) then old(calls) + [boostActive] else old(calls)
      ensures Boosters() == if boostActive != old(boosted)
                            then M.BoostAll(old(Boosters()), boostActive, writeOk) else old(Boosters())
    {
      if boostActive {
        if !boosted {
          boosted := true;
          calls := calls + [boosted];
          BoostAll(boosted, writeOk);
        }
      }
      if !boostActive {
        if boosted {
          boosted := false;
          calls := calls + [boosted];
          BoostAll(boosted, writeOk);
        }
      }
    }

    /** ThreadFn, from the lock to the blocked wait. */
    method EnterWait(ghost modes: set<M.Mode>, ghost inSetMode: bool)
      requires location == M.Gap
      modifies `location, `notified
      ensures View(modes, inSetMode) == M.Step(old(View(modes, inSetMode)), M.EnterWait)
    {
      location := M.Waiting;
      notified := false;
    }

    /** The wait returns with the mutex held. */
    method Wake(spurious: bool, ghost modes: set<M.Mode>, ghost inSetMode: bool)
      requires M.Enabled(View(modes, inSetMode), M.Wake(spurious))
      modifies `location, `notified
      ensures View(modes, inSetMode) == M.Step(old(View(modes, inSetMode)), M.Wake(spurious))
    {
      location := M.Evaluating;
      notified := false;
    }

    /** The end of an evaluation: set the timer and release the mutex. */
    method Rearm(boostActive: bool)
      modifies `location, `wakeup, `seenAt, `seenEnd, `seenEn, `lost
      ensures Boosters() == old(Boosters())
      ensures wakeup == (if boostActive && !boostEn then M.At(boostEnd) else M.Never)
      ensures location == M.Gap && seenAt == now && seenEnd == boostEnd && seenEn == boostEn && !lost
    {
      if boostActive && !boostEn {
        wakeup := M.At(boostEnd);
      } else {
        wakeup := M.Never;
      }
      location := M.Gap;
      seenAt, seenEnd, seenEn, lost := now, boostEnd, boostEn, false;
    }

    /** An evaluation that does not exit. */
    method Process(writeOk: seq<bool>, ghost modes: set<M.Mode>, ghost inSetMode: bool)
      requires Valid() && location == M.Evaluating && !exit && |writeOk| == |boosterList|
      modifies `location, `boosted, `wakeup, `seenAt, `seenEnd, `seenEn, `lost, `calls,
               set d | d in boosterList :: d.minFreq
      ensures Valid()
      ensures View(modes, inSetMode) == M.EvaluateStep(old(View(modes, inSetMode)), writeOk)
    {
      var boostActive := boostEnd > now || boostEn;
      SetBoosted(boostActive, writeOk);
      Rearm(boostActive);
    }

    /** ThreadFn, from the return of the wait to the release of the mutex. */
    method Evaluate(writeOk: seq<bool>, ghost modes: set<M.Mode>, ghost inSetMode: bool)
      requires Valid() && location == M.Evaluating && |writeOk| == |boosterList|
      modifies `location, `boosted, `wakeup, `seenAt, `seenEnd, `seenEn, `lost, `calls,
               set d | d in boosterList :: d.minFreq
      ensures Valid()
      ensures View(modes, inSetMode) == M.Step(old(View(modes, inSetMode)), M.Evaluate(writeOk))
    {
      if exit {
        location := M.Exited;
      } else {
        Process(writeOk, modes, inSetMode);
      }
    }
  }

  class Power {
    const gdPower: GloDroidPower
    var modeEnabled: set<M.Mode>

    constructor (gdPower: GloDroidPower)
      ensures this.gdPower == gdPower && modeEnabled == {}
    {
      this.gdPower := gdPower;
      modeEnabled := {};
    }

    ghost function View(): M.State
      reads this, gdPower, gdPower.Files()
    {
      gdPower.View(modeEnabled, false)
    }

    method SetMode(mode: M.Mode, enabled: bool)
      requires gdPower.location != M.Evaluating
      modifies this, gdPower`boostEn, gdPower`notified, gdPower`lost
      ensures View() == M.Step(M.Step(old(View()), M.SetModeStore(mode, enabled)), M.SetModeApply)
    {
      if enabled {
        modeEnabled := modeEnabled + {mode};
      } else {
        modeEnabled := modeEnabled - {mode};
      }
      gdPower.BoostEn(M.Launch in modeEnabled);
      assert gdPower.Boosters() == old(gdPower.Boosters());
    }

    method SetBoost(kind: M.Boost, durationMs: int)
      requires gdPower.location != M.Evaluating
      modifies gdPower`boostEnd, gdPower`notified, gdPower`lost
      ensures View() == M.Step(old(View()), M.SetBoost(kind, durationMs))
    {
      if kind.DisplayUpdateImminent? || kind.Interaction? {
        gdPower.BoostFor(durationMs, modeEnabled, false);
      }
    }
  }
}
