/**
  What a requested set of USB functions asks of configfs: the ordered actions of
  addGenericAndroidFunctions and addAdb, and what each action does to the links,
  the watch list and the endpoint list.
 */
module GadgetPlan {
  import opened Wrappers
  import Decimal

  datatype GadgetFunction = ADB | ACCESSORY | MTP | MIDI | PTP | RNDIS | AUDIO_SOURCE | NCM | OtherBit(bit: nat)

  /** The 64-bit function mask as the set of its bits. */
  type Functions = set<GadgetFunction>

  datatype Action =
    | UseOsDesc
    | Watch(dir: string)
    | Link(target: string)
    | EndPoint(path: string)

  const FUNCTIONS_PATH := "/config/usb_gadget/g1/functions/"
  const FUNCTION_NAME := "function"

  const MTP_PLAN := [UseOsDesc, Watch("/dev/usb-ffs/mtp/"), Link("ffs.mtp"), EndPoint("/dev/usb-ffs/mtp/ep1"),
                     EndPoint("/dev/usb-ffs/mtp/ep2"), EndPoint("/dev/usb-ffs/mtp/ep3")]
  const PTP_PLAN := [UseOsDesc, Watch("/dev/usb-ffs/ptp/"), Link("ffs.ptp"), EndPoint("/dev/usb-ffs/ptp/ep1"),
                     EndPoint("/dev/usb-ffs/ptp/ep2"), EndPoint("/dev/usb-ffs/ptp/ep3")]
  const ADB_PLAN := [UseOsDesc, Watch("/dev/usb-ffs/adb/"), Link("ffs.adb"), EndPoint("/dev/usb-ffs/adb/ep1"),
                     EndPoint("/dev/usb-ffs/adb/ep2")]

  function MediaPlan(fs: Functions): seq<Action> {
    if MTP in fs then MTP_PLAN else if PTP in fs then PTP_PLAN else []
  }

  function LinkIf(fs: Functions, f: GadgetFunction, name: string): seq<Action> {
    if f in fs then [Link(name)] else []
  }

  /** The vendor's RNDIS function, or the default one when the property is empty. */
  function RndisName(property: string): string {
    if property != "" then property else "gsi.rndis"
  }

  function GenericPlan(fs: Functions, rndis: string): seq<Action> {
    MediaPlan(fs) + LinkIf(fs, MIDI, "midi.gs5") + LinkIf(fs, ACCESSORY, "accessory.gs2")
    + LinkIf(fs, AUDIO_SOURCE, "audio_source.gs3") + LinkIf(fs, RNDIS, RndisName(rndis)) + LinkIf(fs, NCM, "ncm.gs6")
  }

  function AdbPlan(fs: Functions): seq<Action> {
    if ADB in fs then ADB_PLAN else []
  }

  function Plan(fs: Functions, rndis: string): seq<Action> {
    GenericPlan(fs, rndis) + AdbPlan(fs)
  }

  predicate FfsEnabled(fs: Functions) {
    MTP in fs || PTP in fs || ADB in fs
  }

  /** validateAndSetVidPid: the product id of each supported combination. */
  function ProductId(fs: Functions): Option<string> {
    if fs == {MTP} then Some("0x4ee1")
    else if fs == {ADB, MTP} then Some("0x4ee2")
    else if fs == {RNDIS} then Some("0x4ee3")
    else if fs == {ADB, RNDIS} then Some("0x4ee4")
    else if fs == {PTP} then Some("0x4ee5")
    else if fs == {ADB, PTP} then Some("0x4ee6")
    else if fs == {ADB} then Some("0x4ee7")
    else if fs == {MIDI} then Some("0x4ee8")
    else if fs == {ADB, MIDI} then Some("0x4ee9")
    else if fs == {NCM} then Some("0x4eeb")
    else if fs == {ADB, NCM} then Some("0x4eec")
    else if fs == {ACCESSORY} then Some("0x2d00")
    else if fs == {ADB, ACCESSORY} then Some("0x2d01")
    else if fs == {AUDIO_SOURCE} then Some("0x2d02")
    else if fs == {ADB, AUDIO_SOURCE} then Some("0x2d03")
    else if fs == {ACCESSORY, AUDIO_SOURCE} then Some("0x2d04")
    else if fs == {ADB, ACCESSORY, AUDIO_SOURCE} then Some("0x2d05")
    else None
  }

  // ----- What the actions do -----

  /** configs/b.1 as name -> target, the monitor's lists, and *functionCount. */
  datatype Config = Config(links: map<string, string>, endpoints: seq<string>, watches: seq<string>, count: nat)

  function LinkName(index: nat): string {
    FUNCTION_NAME + Decimal.NatText(index)
  }

  /** One action; None when it fails, which leaves the configuration as it is. */
  function Act(c: Config, a: Action, ok: bool): Option<Config> {
    match a
    case UseOsDesc => if ok then Some(c) else None
    case Watch(dir) => if ok then Some(c.(watches := c.watches + [dir])) else None
    case Link(f) =>
      if ok && LinkName(c.count) !in c.links
      then Some(c.(links := c.links[LinkName(c.count) := FUNCTIONS_PATH + f], count := c.count + 1))
      else None
    case EndPoint(path) => Some(c.(endpoints := c.endpoints + [path]))
  }

  predicate Fallible(a: Action) {
    !a.EndPoint?
  }

  /**
    The outcome of running actions when exactly the next `budget` fallible ones are
    accepted by the system: the configuration reached and the budget left, or None
    when an action failed.
   */
  function RunPlan(c: Config, plan: seq<Action>, budget: nat): (Config, Option<nat>)
    decreases |plan|
  {
    if plan == [] then (c, Some(budget))
    else
      match Act(c, plan[0], budget > 0)
      case None => (c, None)
      case Some(c') => RunPlan(c', plan[1..], if Fallible(plan[0]) then budget - 1 else budget)
  }

  lemma {:induction false} RunPlanSplit(c: Config, p: seq<Action>, q: seq<Action>, budget: nat)
    ensures var mid := RunPlan(c, p, budget);
            RunPlan(c, p + q, budget) == if mid.1.Some? then RunPlan(mid.0, q, mid.1.value) else mid
    decreases |p|
  {
    if p == [] {
      assert p + q == q;
    } else {
      assert (p + q)[1..] == p[1..] + q;
      match Act(c, p[0], budget > 0)
      case None =>
      case Some(c') => RunPlanSplit(c', p[1..], q, if Fallible(p[0]) then budget - 1 else budget);
    }
  }

  // ----- Reading a plan -----

  function LinksOf(plan: seq<Action>): (r: seq<string>)
    decreases |plan|
  {
    if plan == [] then []
    else
      var front := LinksOf(plan[..|plan| - 1]);
      var a := plan[|plan| - 1];
      if a.Link? then front + [a.target] else front
  }

  function EndpointsOf(plan: seq<Action>): (r: seq<string>)
    decreases |plan|
  {
    if plan == [] then []
    else
      var front := EndpointsOf(plan[..|plan| - 1]);
      var a := plan[|plan| - 1];
      if a.EndPoint? then front + [a.path] else front
  }

  lemma {:induction false} ReadSplit(p: seq<Action>, q: seq<Action>)
    ensures LinksOf(p + q) == LinksOf(p) + LinksOf(q)
    ensures EndpointsOf(p + q) == EndpointsOf(p) + EndpointsOf(q)
    decreases |q|
  {
    if q == [] {
      assert p + q == p;
    } else {
      var front := q[..|q| - 1];
      assert (p + q)[..|p + q| - 1] == p + front;
      ReadSplit(p, front);
    }
  }

  // ----- The fixed order -----

  const ORDER := [MTP, PTP, MIDI, ACCESSORY, AUDIO_SOURCE, RNDIS, NCM, ADB]

  /** Every requested function gets a link, except that PTP yields its slot to MTP. */
  predicate Granted(fs: Functions, f: GadgetFunction) {
    f in fs && !(f == PTP && MTP in fs)
  }

  function FunctionName(f: GadgetFunction, rndis: string): string {
    match f
    case MTP => "ffs.mtp"
    case PTP => "ffs.ptp"
    case MIDI => "midi.gs5"
    case ACCESSORY => "accessory.gs2"
    case AUDIO_SOURCE => "audio_source.gs3"
    case RNDIS => if rndis == "" then "gsi.rndis" else rndis
    case NCM => "ncm.gs6"
    case ADB => "ffs.adb"
    case OtherBit(_) => ""
  }

  function NameIfGranted(fs: Functions, rndis: string, f: GadgetFunction): seq<string> {
    if Granted(fs, f) then [FunctionName(f, rndis)] else []
  }

  function GrantedNames(fs: Functions, rndis: string, order: seq<GadgetFunction>): (r: seq<string>)
    decreases |order|
  {
    if order == [] then []
    else GrantedNames(fs, rndis, order[..|order| - 1]) + NameIfGranted(fs, rndis, order[|order| - 1])
  }

  function EndpointsFor(f: GadgetFunction): seq<string> {
    match f
    case MTP => ["/dev/usb-ffs/mtp/ep1", "/dev/usb-ffs/mtp/ep2", "/dev/usb-ffs/mtp/ep3"]
    case PTP => ["/dev/usb-ffs/ptp/ep1", "/dev/usb-ffs/ptp/ep2", "/dev/usb-ffs/ptp/ep3"]
    case ADB => ["/dev/usb-ffs/adb/ep1", "/dev/usb-ffs/adb/ep2"]
    case _ => []
  }

  function EndpointsIfGranted(fs: Functions, f: GadgetFunction): seq<string> {
    if Granted(fs, f) then EndpointsFor(f) else []
  }

  function GrantedEndpoints(fs: Functions, order: seq<GadgetFunction>): (r: seq<string>)
    decreases |order|
  {
    if order == [] then []
    else GrantedEndpoints(fs, order[..|order| - 1]) + EndpointsIfGranted(fs, order[|order| - 1])
  }
}
