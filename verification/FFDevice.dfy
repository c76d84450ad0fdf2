/**
  The force-feedback vibrator: a device object that keeps the id of the effect it uploaded
  last, over a driver that may refuse an upload, a removal or a play event.
 */
module FFDevice {
  import opened Wrappers

  const NO_EFFECT := -1

  /** What the driver holds: the replay length of each effect, and the effects it was told to play. */
  datatype State = State(last: int, effects: map<int, nat>, played: seq<int>)

  /** A call, with what the driver answers to each request it may make. */
  datatype Call =
    | Vibrate(duration: int, removed: bool, uploaded: Option<int>, started: bool)
    | Off(removed: bool)

  /** static_cast<uint16_t> of an int. */
  function Truncate(n: int): (r: nat)
    ensures r < 0x1_0000
    ensures r == n <==> 0 <= n < 0x1_0000
  {
    n % 0x1_0000
  }

  // ----- What a call does -----

  function AfterOff(s: State, removed: bool): State {
    if s.last == NO_EFFECT then s
    else State(NO_EFFECT, if removed then s.effects - {s.last} else s.effects, s.played)
  }

  /** The driver gives an uploaded effect an id of 16 bits that is not in use. */
  predicate MayAnswer(s: State, call: Call) {
    call.Vibrate? && call.uploaded.Some? ==>
      0 <= call.uploaded.value < 0x8000 && call.uploaded.value !in AfterOff(s, call.removed).effects
  }

  function After(s: State, call: Call): State {
    match call
    case Off(removed) => AfterOff(s, removed)
    case Vibrate(duration, removed, uploaded, started) =>
      var off := AfterOff(s, removed);
      match uploaded
      case None => off
      case Some(id) =>
        State(id, off.effects[id := Truncate(duration)], if started then off.played + [id] else off.played)
  }

  class Driver {
    var effects: map<int, nat>
    var played: seq<int>

    constructor ()
      ensures effects == map[] && played == []
    {
      effects, played := map[], [];
    }
  }

  class Device {
    var lastEffectId: int
    const driver: Driver

    ghost function View(): State
      reads this, driver
    {
      State(lastEffectId, driver.effects, driver.played)
    }

    constructor (driver: Driver)
      ensures this.driver == driver && lastEffectId == NO_EFFECT
    {
      this.driver := driver;
      lastEffectId := NO_EFFECT;
    }

    method TurnOff(removed: bool)
      modifies this, driver
      ensures View() == After(old(View()), Off(removed))
    {
      if lastEffectId == NO_EFFECT {
        return;
      }
      if removed {
        driver.effects := driver.effects - {lastEffectId};
      }
      lastEffectId := NO_EFFECT;
    }

    method Vibrate(duration: int, removed: bool, uploaded: Option<int>, started: bool)
      requires MayAnswer(View(), Call.Vibrate(duration, removed, uploaded, started))
      modifies this, driver
      ensures View() == After(old(View()), Call.Vibrate(duration, removed, uploaded, started))
    {
      TurnOff(removed);
      var length := Truncate(duration);
      if uploaded.None? {
        return;
      }
      var id := uploaded.value;
      driver.effects := driver.effects[id := length];
      lastEffectId := id;
      var code := Truncate(id);
      if started {
        driver.played := driver.played + [code];
      }
    }
  }

  // ----- Runs of calls -----

  const INITIAL := State(NO_EFFECT, map[], [])

  /** The state after the first n calls. */
  function Reached(calls: seq<Call>, n: nat): State
    requires n <= |calls|
  {
    if n == 0 then INITIAL else After(Reached(calls, n - 1), calls[n - 1])
  }

  predicate PossibleAt(calls: seq<Call>, n: nat)
    requires n < |calls|
  {
    MayAnswer(Reached(calls, n), calls[n])
  }

  predicate Possible(calls: seq<Call>) {
    forall n | 0 <= n < |calls| :: PossibleAt(calls, n)
  }

  /** The effect a call tries to remove and the driver keeps, if any. */
  function Refused(s: State, call: Call): set<int> {
    if s.last != NO_EFFECT && !call.removed then {s.last} else {}
  }

  /** The effects kept against the device's will by the first n calls. */
  function Kept(calls: seq<Call>, n: nat): set<int>
    requires n <= |calls|
  {
    if n == 0 then {} else Kept(calls, n - 1) + Refused(Reached(calls, n - 1), calls[n - 1])
  }

  /** The number of removals the driver refused. */
  function Refusals(calls: seq<Call>, n: nat): nat
    requires n <= |calls|
  {
    if n == 0 then 0 else Refusals(calls, n - 1) + |Refused(Reached(calls, n - 1), calls[n - 1])|
  }

  function Own(s: State): set<int> {
    if s.last == NO_EFFECT then {} else {s.last}
  }

  /** The driver holds the kept effects and the device's own, which are different ones. */
  predicate Apart(s: State, kept: set<int>) {
    s.effects.Keys == kept + Own(s) && kept !! Own(s) && NO_EFFECT !in kept
  }

  lemma OffKeepsApart(s: State, kept: set<int>, removed: bool)
    requires Apart(s, kept)
    ensures var off := AfterOff(s, removed);
            && off.effects.Keys == kept + Refused(s, Off(removed)) && off.last == NO_EFFECT
            && Apart(off, kept + Refused(s, Off(removed)))
  {
    if s.last != NO_EFFECT && removed {
      assert (s.effects - {s.last}).Keys == s.effects.Keys - {s.last};
    }
  }

  lemma UploadKeepsApart(effects: map<int, nat>, kept: set<int>, id: int, length: nat, played: seq<int>)
    requires effects.Keys == kept && NO_EFFECT !in kept && id >= 0 && id !in kept
    ensures Apart(State(id, effects[id := length], played), kept)
  {
    assert effects[id := length].Keys == kept + {id};
  }

  lemma RefusedIsNew(s: State, kept: set<int>, call: Call)
    requires Apart(s, kept)
    ensures |kept + Refused(s, call)| == |kept| + |Refused(s, call)|
  {
    assert kept !! Refused(s, call);
  }

  lemma CallKeepsApart(s: State, kept: set<int>, call: Call)
    requires Apart(s, kept) && MayAnswer(s, call)
    ensures Apart(After(s, call), kept + Refused(s, call))
  {
    OffKeepsApart(s, kept, call.removed);
    if call.Vibrate? && call.uploaded.Some? {
      var off, id := AfterOff(s, call.removed), call.uploaded.value;
      UploadKeepsApart(off.effects, kept + Refused(s, call), id, Truncate(call.duration), After(s, call).played);
    }
  }

  lemma {:induction false} KeptStaysApart(calls: seq<Call>, n: nat)
    requires n <= |calls| && Possible(calls)
    ensures Apart(Reached(calls, n), Kept(calls, n))
  {
    if n == 0 {
      assert Apart(INITIAL, {});
    } else {
      hide Apart, After, MayAnswer, Refused;
      assert PossibleAt(calls, n - 1);
      KeptStaysApart(calls, n - 1);
      CallKeepsApart(Reached(calls, n - 1), Kept(calls, n - 1), calls[n - 1]);
    }
  }

  lemma {:induction false} KeptCounts(calls: seq<Call>, n: nat)
    requires n <= |calls| && Possible(calls)
    ensures |Kept(calls, n)| == Refusals(calls, n)
  {
    hide Apart, Possible, Refused;
    if n > 0 {
      KeptCounts(calls, n - 1);
      KeptStaysApart(calls, n - 1);
      RefusedIsNew(Reached(calls, n - 1), Kept(calls, n - 1), calls[n - 1]);
    }
  }

  /**
    Conservation over any run: the driver holds the device's last effect and, besides it, one
    effect for every removal that was refused. So nothing leaks exactly when none was.
   */
  lemma {:induction false} NothingLeaksIff(calls: seq<Call>, n: nat)
    requires n <= |calls| && Possible(calls)
    ensures var s := Reached(calls, n);
            && |s.effects| == |Own(s)| + Refusals(calls, n)
            && (s.effects.Keys == Own(s) <==> Refusals(calls, n) == 0)
  {
    KeptStaysApart(calls, n);
    KeptCounts(calls, n);
    var s := Reached(calls, n);
    assert |s.effects| == |s.effects.Keys| == |Kept(calls, n)| + |Own(s)|;
    if s.effects.Keys == Own(s) {
      assert |Kept(calls, n)| == 0;
    }
  }

  /** With every removal granted the driver holds at most one effect, the device's own. */
  lemma {:induction false} AtMostOneEffect(calls: seq<Call>, n: nat)
    requires n <= |calls| && Possible(calls)
    requires forall k | 0 <= k < n :: calls[k].removed
    ensures Reached(calls, n).effects.Keys == Own(Reached(calls, n)) && |Reached(calls, n).effects| <= 1
  {
    NoRefusals(calls, n);
    NothingLeaksIff(calls, n);
  }

  lemma {:induction false} NoRefusals(calls: seq<Call>, n: nat)
    requires n <= |calls| && forall k | 0 <= k < n :: calls[k].removed
    ensures Refusals(calls, n) == 0
  {
    if n > 0 {
      NoRefusals(calls, n - 1);
    }
  }

  /** A kept effect stays for good: no later call removes it. */
  lemma {:induction false} KeptForGood(calls: seq<Call>, m: nat, n: nat, id: int)
    requires m <= n <= |calls| && Possible(calls) && id in Kept(calls, m)
    ensures id in Reached(calls, n).effects && Reached(calls, n).last != id
    decreases n - m
  {
    KeptStaysApart(calls, n);
    KeptGrows(calls, m, n);
  }

  lemma {:induction false} KeptGrows(calls: seq<Call>, m: nat, n: nat)
    requires m <= n <= |calls|
    ensures Kept(calls, m) <= Kept(calls, n)
  {
    if m < n {
      KeptGrows(calls, m, n - 1);
    }
  }

  /** An uploaded effect runs for the requested time exactly when that fits in 16 bits. */
  lemma {:induction false} LengthIsExactIff(s: State, call: Call)
    requires call.Vibrate? && call.uploaded.Some? && MayAnswer(s, call)
    ensures var after := After(s, call);
            && after.last in after.effects
            && (after.effects[after.last] == call.duration <==> 0 <= call.duration <= 65535)
            && after.last == call.uploaded.value
            && after.played == s.played + if call.started then [after.last] else []
  {}

  /** Without an upload nothing is held as the device's own and nothing is played. */
  lemma {:induction false} NothingUploaded(s: State, call: Call)
    requires call.Off? || call.uploaded.None?
    ensures var after := After(s, call);
            && after.last == -1 && after.played == s.played
            && (forall id <- after.effects :: id in s.effects && after.effects[id] == s.effects[id])
            && (forall id <- s.effects :: id in after.effects || (id == s.last && call.removed))
  {}

  /** A vibration of one tick more than 16 bits hold is uploaded with length 0. */
  lemma {:induction false} LongVibrationIsCut()
    ensures var call := Call.Vibrate(65536, true, Some(0), true);
            var after := After(INITIAL, call);
            MayAnswer(INITIAL, call) && after.last == 0 && after.effects == map[0 := 0]
  {
    assert 65536 % 0x1_0000 == 0;
  }

  /** A vibration whose removal is refused leaves its effect with nobody to remove it. */
  lemma {:induction false} RefusedOffLeaks()
    ensures var calls := [Call.Vibrate(100, true, Some(0), true), Off(false)];
            Possible(calls) && Reached(calls, 2).last == NO_EFFECT && 0 in Reached(calls, 2).effects
  {
    var calls := [Call.Vibrate(100, true, Some(0), true), Off(false)];
    assert Reached(calls, 0) == INITIAL;
    assert Reached(calls, 1) == After(INITIAL, calls[0]);
    assert Reached(calls, 2) == After(Reached(calls, 1), calls[1]);
    assert PossibleAt(calls, 0) && PossibleAt(calls, 1);
  }
}
