module GadgetPlanProperties {
  import opened GadgetPlan
  import Decimal

  lemma ReadLinkIf(fs: Functions, f: GadgetFunction, name: string)
    ensures LinksOf(LinkIf(fs, f, name)) == if f in fs then [name] else []
    ensures EndpointsOf(LinkIf(fs, f, name)) == []
  {
    if f in fs {
      assert LinkIf(fs, f, name)[..0] == [];
    }
  }

  /** One more action of a plan. */
  lemma ReadSnoc(front: seq<Action>, a: Action)
    ensures LinksOf(front + [a]) == LinksOf(front) + if a.Link? then [a.target] else []
    ensures EndpointsOf(front + [a]) == EndpointsOf(front) + if a.EndPoint? then [a.path] else []
  {
    assert (front + [a])[..|front|] == front;
  }

  lemma ReadHead(a: Action, b: Action, name: string)
    requires a == UseOsDesc && b.Watch?
    ensures LinksOf([a, b, Link(name)]) == [name] && EndpointsOf([a, b, Link(name)]) == []
  {
    hide LinksOf, EndpointsOf;
    ReadNothing();
    ReadSnoc([], a);
    assert [] + [a] == [a];
    ReadSnoc([a], b);
    assert [a] + [b] == [a, b];
    ReadSnoc([a, b], Link(name));
    assert [a, b] + [Link(name)] == [a, b, Link(name)];
  }

  lemma ReadNothing()
    ensures LinksOf([]) == [] && EndpointsOf([]) == []
  {}

  lemma {:induction false} ReadFfs(plan: seq<Action>, name: string, eps: seq<string>)
    requires |plan| == 3 + |eps| && plan[0] == UseOsDesc && plan[1].Watch? && plan[2] == Link(name)
    requires forall i | 0 <= i < |eps| :: plan[3 + i] == EndPoint(eps[i])
    ensures LinksOf(plan) == [name] && EndpointsOf(plan) == eps
    decreases |eps|
  {
    hide LinksOf, EndpointsOf;
    if eps == [] {
      assert plan == [plan[0], plan[1], Link(name)];
      ReadHead(plan[0], plan[1], name);
    } else {
      var k := |eps| - 1;
      var front, eps' := plan[..3 + k], eps[..k];
      assert plan[3 + k] == EndPoint(eps[k]);
      ReadFfs(front, name, eps');
      ReadSnoc(front, plan[3 + k]);
      assert plan == front + [plan[3 + k]];
      assert eps == eps' + [eps[k]];
    }
  }

  /** The plan reads as the granted functions of a prefix of the order. */
  ghost predicate Reads(plan: seq<Action>, fs: Functions, rndis: string, order: seq<GadgetFunction>) {
    LinksOf(plan) == GrantedNames(fs, rndis, order) && EndpointsOf(plan) == GrantedEndpoints(fs, order)
  }

  lemma GrantedSnoc(fs: Functions, rndis: string, order: seq<GadgetFunction>, f: GadgetFunction)
    ensures GrantedNames(fs, rndis, order + [f]) == GrantedNames(fs, rndis, order) + NameIfGranted(fs, rndis, f)
    ensures GrantedEndpoints(fs, order + [f]) == GrantedEndpoints(fs, order) + EndpointsIfGranted(fs, f)
  {
    assert (order + [f])[..|order|] == order;
  }

  lemma ReadsPlus(plan: seq<Action>, fs: Functions, rndis: string, order: seq<GadgetFunction>,
                  more: seq<Action>, f: GadgetFunction)
    requires Reads(plan, fs, rndis, order)
    requires LinksOf(more) == NameIfGranted(fs, rndis, f) && EndpointsOf(more) == EndpointsIfGranted(fs, f)
    ensures Reads(plan + more, fs, rndis, order + [f])
  {
    ReadSplit(plan, more);
    GrantedSnoc(fs, rndis, order, f);
  }

  lemma ReadsMedia(fs: Functions, rndis: string)
    ensures Reads(MediaPlan(fs), fs, rndis, [MTP, PTP])
  {
    ReadFfs(MTP_PLAN, "ffs.mtp", EndpointsFor(MTP));
    ReadFfs(PTP_PLAN, "ffs.ptp", EndpointsFor(PTP));
    GrantedSnoc(fs, rndis, [], MTP);
    GrantedSnoc(fs, rndis, [MTP], PTP);
    assert [] + [MTP] == [MTP] && [MTP] + [PTP] == [MTP, PTP];
  }

  lemma ReadsPlusLink(plan: seq<Action>, fs: Functions, rndis: string, order: seq<GadgetFunction>, f: GadgetFunction)
    requires Reads(plan, fs, rndis, order) && f != PTP && EndpointsFor(f) == []
    ensures Reads(plan + LinkIf(fs, f, FunctionName(f, rndis)), fs, rndis, order + [f])
  {
    ReadLinkIf(fs, f, FunctionName(f, rndis));
    ReadsPlus(plan, fs, rndis, order, LinkIf(fs, f, FunctionName(f, rndis)), f);
  }

  lemma ReadsGeneric(fs: Functions, rndis: string)
    ensures Reads(GenericPlan(fs, rndis), fs, rndis, ORDER[..7])
  {
    hide Reads, MediaPlan, LinkIf;
    ReadsMedia(fs, rndis);
    var p2, o2 := MediaPlan(fs), [MTP, PTP];
    ReadsPlusLink(p2, fs, rndis, o2, MIDI);
    var p3, o3 := p2 + LinkIf(fs, MIDI, "midi.gs5"), o2 + [MIDI];
    ReadsPlusLink(p3, fs, rndis, o3, ACCESSORY);
    var p4, o4 := p3 + LinkIf(fs, ACCESSORY, "accessory.gs2"), o3 + [ACCESSORY];
    ReadsPlusLink(p4, fs, rndis, o4, AUDIO_SOURCE);
    var p5, o5 := p4 + LinkIf(fs, AUDIO_SOURCE, "audio_source.gs3"), o4 + [AUDIO_SOURCE];
    ReadsPlusLink(p5, fs, rndis, o5, RNDIS);
    var p6, o6 := p5 + LinkIf(fs, RNDIS, RndisName(rndis)), o5 + [RNDIS];
    ReadsPlusLink(p6, fs, rndis, o6, NCM);
    assert ORDER[..7] == o6 + [NCM];
  }

  /**
    The branches of the two setup functions link exactly the granted functions, in the
    fixed order, and register exactly their endpoints.
   */
  lemma {:induction false} PlanFollowsOrder(fs: Functions, rndis: string)
    ensures LinksOf(Plan(fs, rndis)) == GrantedNames(fs, rndis, ORDER)
    ensures EndpointsOf(Plan(fs, rndis)) == GrantedEndpoints(fs, ORDER)
  {
    ReadsGeneric(fs, rndis);
    ReadFfs(ADB_PLAN, "ffs.adb", EndpointsFor(ADB));
    ReadsPlus(GenericPlan(fs, rndis), fs, rndis, ORDER[..7], AdbPlan(fs), ADB);
    assert ORDER == ORDER[..7] + [ADB];
  }

  lemma {:induction false} NoEndpoints(fs: Functions, order: seq<GadgetFunction>)
    ensures GrantedEndpoints(fs, order) == [] <==> forall f <- order :: EndpointsIfGranted(fs, f) == []
    decreases |order|
  {
    if order != [] {
      var front, last := order[..|order| - 1], order[|order| - 1];
      NoEndpoints(fs, front);
      assert forall f :: f in order <==> f in front || f == last;
    }
  }

  /** A setup registers endpoints, and so needs the monitor, exactly for the FunctionFS functions. */
  lemma {:induction false} EndpointsIffFfs(fs: Functions, rndis: string)
    ensures EndpointsOf(Plan(fs, rndis)) != [] <==> FfsEnabled(fs)
  {
    PlanFollowsOrder(fs, rndis);
    NoEndpoints(fs, ORDER);
    hide Plan, GrantedEndpoints;
    assert MTP in ORDER && PTP in ORDER && ADB in ORDER;
    assert EndpointsIfGranted(fs, MTP) != [] <==> MTP in fs;
    assert EndpointsIfGranted(fs, PTP) != [] <==> PTP in fs && MTP !in fs;
    assert EndpointsIfGranted(fs, ADB) != [] <==> ADB in fs;
  }

  // ----- The links a prefix of a plan has made -----

  /** strstr: the name contains "function". */
  ghost predicate IsFunctionLink(name: string) {
    exists i: nat :: OccursAt(name, i)
  }

  predicate OccursAt(name: string, i: nat) {
    i + |FUNCTION_NAME| <= |name| && name[i..i + |FUNCTION_NAME|] == FUNCTION_NAME
  }

  ghost function FunctionLinks(links: map<string, string>): map<string, string> {
    map n | n in links && IsFunctionLink(n) :: links[n]
  }

  ghost function OtherLinks(links: map<string, string>): map<string, string> {
    map n | n in links && !IsFunctionLink(n) :: links[n]
  }

  /** function0, function1, ... pointing at the named functions in order, and nothing else. */
  ghost predicate Numbered(links: map<string, string>, names: seq<string>) {
    && (forall i | 0 <= i < |names| :: LinkName(i) in links && links[LinkName(i)] == FUNCTIONS_PATH + names[i])
    && (forall n <- links :: exists i: nat | i < |names| :: n == LinkName(i))
  }

  lemma LinkNameContains(i: nat)
    ensures IsFunctionLink(LinkName(i))
  {
    assert OccursAt(LinkName(i), 0);
  }

  lemma LinkNameInjective(i: nat, j: nat)
    requires LinkName(i) == LinkName(j)
    ensures i == j
  {
    assert LinkName(i)[|FUNCTION_NAME|..] == Decimal.NatText(i);
    assert LinkName(j)[|FUNCTION_NAME|..] == Decimal.NatText(j);
    Decimal.NatTextInjective(i, j);
  }

  /** A next index is always free, so a link fails only when the system refuses it. */
  lemma NextNameFree(c: Config, names: seq<string>)
    requires Numbered(FunctionLinks(c.links), names) && c.count == |names|
    ensures LinkName(c.count) !in c.links
  {
    LinkNameContains(c.count);
    if LinkName(c.count) in c.links {
      assert LinkName(c.count) in FunctionLinks(c.links);
      var i: nat :| i < |names| && LinkName(c.count) == LinkName(i);
      LinkNameInjective(c.count, i);
      assert false;
    }
  }

  lemma LinkExtends(links: map<string, string>, names: seq<string>, target: string)
    requires Numbered(FunctionLinks(links), names) && LinkName(|names|) !in links
    ensures var links' := links[LinkName(|names|) := FUNCTIONS_PATH + target];
            && Numbered(FunctionLinks(links'), names + [target])
            && OtherLinks(links') == OtherLinks(links)
  {
    LinkNameContains(|names|);
    NumberedExtends(FunctionLinks(links), names, target);
    hide Numbered, LinkName, IsFunctionLink;
    var name := LinkName(|names|);
    assert FunctionLinks(links[name := FUNCTIONS_PATH + target])
        == FunctionLinks(links)[name := FUNCTIONS_PATH + target];
  }

  lemma ActExtends(c: Config, a: Action, ok: bool, names: seq<string>)
    requires Numbered(FunctionLinks(c.links), names) && c.count == |names|
    requires Act(c, a, ok).Some?
    ensures var c' := Act(c, a, ok).value;
            var names' := if a.Link? then names + [a.target] else names;
            && Numbered(FunctionLinks(c'.links), names') && c'.count == |names'|
            && OtherLinks(c'.links) == OtherLinks(c.links)
            && c'.endpoints == (if a.EndPoint? then c.endpoints + [a.path] else c.endpoints)
  {
    hide Numbered, LinkName, FunctionLinks, OtherLinks;
    if a.Link? {
      NextNameFree(c, names);
      LinkExtends(c.links, names, a.target);
    }
  }

  lemma NumberedExtends(links: map<string, string>, names: seq<string>, target: string)
    requires Numbered(links, names)
    ensures Numbered(links[LinkName(|names|) := FUNCTIONS_PATH + target], names + [target])
  {
    var links' := links[LinkName(|names|) := FUNCTIONS_PATH + target];
    var names' := names + [target];
    forall i | 0 <= i < |names'|
      ensures LinkName(i) in links' && links'[LinkName(i)] == FUNCTIONS_PATH + names'[i]
    {
      if i < |names| && LinkName(i) == LinkName(|names|) {
        LinkNameInjective(i, |names|);
      }
    }
    forall n | n in links'
      ensures exists i: nat | i < |names'| :: n == LinkName(i)
    {
      if n in links {
        var i: nat :| i < |names| && n == LinkName(i);
        assert i < |names'|;
      } else {
        assert |names| < |names'| && n == LinkName(|names|);
      }
    }
  }

  /** Numbered links, by the paths they have in configfs. */
  lemma {:induction false} NumberedIs(links: map<string, string>, names: seq<string>, i: nat)
    requires Numbered(FunctionLinks(links), names) && i < |names|
    ensures var name := "function" + Decimal.NatText(i);
            name in links && links[name] == "/config/usb_gadget/g1/functions/" + names[i]
  {
    assert LinkName(i) == "function" + Decimal.NatText(i);
    assert LinkName(i) in FunctionLinks(links);
  }

  /** An entry is a function link if and only if its name contains "function". */
  lemma {:induction false} FunctionLinkIff(name: string)
    ensures IsFunctionLink(name) <==> exists before, after :: name == before + "function" + after
  {
    if IsFunctionLink(name) {
      var i: nat :| OccursAt(name, i);
      assert name == name[..i] + "function" + name[i + 8..];
    }
    if exists before, after :: name == before + "function" + after {
      var before, after :| name == before + "function" + after;
      assert OccursAt(name, |before|);
    }
  }

  // ----- The watched directories -----

  function WatchesOf(plan: seq<Action>): seq<string>
    decreases |plan|
  {
    if plan == [] then []
    else
      var front, a := plan[..|plan| - 1], plan[|plan| - 1];
      WatchesOf(front) + if a.Watch? then [a.dir] else []
  }

  lemma {:induction false} WatchesSplit(p: seq<Action>, q: seq<Action>)
    ensures WatchesOf(p + q) == WatchesOf(p) + WatchesOf(q)
    decreases |q|
  {
    if q == [] {
      assert p + q == p;
    } else {
      var front := q[..|q| - 1];
      assert (p + q)[..|p + q| - 1] == p + front;
      WatchesSplit(p, front);
    }
  }

  lemma WatchesSnoc(front: seq<Action>, a: Action)
    ensures WatchesOf(front + [a]) == WatchesOf(front) + if a.Watch? then [a.dir] else []
  {
    assert (front + [a])[..|front|] == front;
  }

  lemma {:induction false} NoWatches(plan: seq<Action>)
    requires forall a <- plan :: !a.Watch?
    ensures WatchesOf(plan) == []
    decreases |plan|
  {
    if plan != [] {
      NoWatches(plan[..|plan| - 1]);
    }
  }

  /** The one directory of a FunctionFS function. */
  lemma FfsWatches(plan: seq<Action>, dir: string)
    requires |plan| >= 2 && plan[0] == UseOsDesc && plan[1] == Watch(dir)
    requires forall i | 2 <= i < |plan| :: !plan[i].Watch?
    ensures WatchesOf(plan) == [dir]
  {
    assert plan == [plan[0]] + [plan[1]] + plan[2..];
    WatchesSplit([plan[0]] + [plan[1]], plan[2..]);
    WatchesSnoc([plan[0]], plan[1]);
    assert [] + [plan[0]] == [plan[0]];
    WatchesSnoc([], plan[0]);
    NoWatches(plan[2..]);
  }

  lemma WatchesPlusLink(plan: seq<Action>, fs: Functions, f: GadgetFunction, name: string)
    ensures WatchesOf(plan + LinkIf(fs, f, name)) == WatchesOf(plan)
  {
    WatchesSplit(plan, LinkIf(fs, f, name));
    NoWatches(LinkIf(fs, f, name));
  }

  lemma GenericWatches(fs: Functions, rndis: string)
    ensures WatchesOf(GenericPlan(fs, rndis)) == WatchesOf(MediaPlan(fs))
  {
    hide WatchesOf, MediaPlan, LinkIf, RndisName;
    var p1 := MediaPlan(fs);
    WatchesPlusLink(p1, fs, MIDI, "midi.gs5");
    var p2 := p1 + LinkIf(fs, MIDI, "midi.gs5");
    WatchesPlusLink(p2, fs, ACCESSORY, "accessory.gs2");
    var p3 := p2 + LinkIf(fs, ACCESSORY, "accessory.gs2");
    WatchesPlusLink(p3, fs, AUDIO_SOURCE, "audio_source.gs3");
    var p4 := p3 + LinkIf(fs, AUDIO_SOURCE, "audio_source.gs3");
    WatchesPlusLink(p4, fs, RNDIS, RndisName(rndis));
    var p5 := p4 + LinkIf(fs, RNDIS, RndisName(rndis));
    WatchesPlusLink(p5, fs, NCM, "ncm.gs6");
  }

  lemma FfsPlansWatch()
    ensures WatchesOf(MTP_PLAN) == ["/dev/usb-ffs/mtp/"]
    ensures WatchesOf(PTP_PLAN) == ["/dev/usb-ffs/ptp/"]
    ensures WatchesOf(ADB_PLAN) == ["/dev/usb-ffs/adb/"]
  {
    hide WatchesOf;
    FfsWatches(MTP_PLAN, "/dev/usb-ffs/mtp/");
    FfsWatches(PTP_PLAN, "/dev/usb-ffs/ptp/");
    FfsWatches(ADB_PLAN, "/dev/usb-ffs/adb/");
  }

  /** A setup watches exactly the directories of its FunctionFS functions, in the fixed order. */
  lemma {:induction false} PlanWatches(fs: Functions, rndis: string)
    ensures WatchesOf(Plan(fs, rndis)) ==
            (if MTP in fs then ["/dev/usb-ffs/mtp/"] else if PTP in fs then ["/dev/usb-ffs/ptp/"] else [])
            + if ADB in fs then ["/dev/usb-ffs/adb/"] else []
  {
    NoWatches([]);
    FfsPlansWatch();
    GenericWatches(fs, rndis);
    WatchesSplit(GenericPlan(fs, rndis), AdbPlan(fs));
    hide WatchesOf, GenericPlan;
  }

  /** A plan that is carried out adds its directories to the watch list, and nothing else. */
  lemma {:induction false} RunPlanWatches(c: Config, plan: seq<Action>, budget: nat)
    requires RunPlan(c, plan, budget).1.Some?
    ensures RunPlan(c, plan, budget).0.watches == c.watches + WatchesOf(plan)
    decreases |plan|
  {
    hide LinkName;
    if plan == [] {
      assert c.watches + [] == c.watches;
    } else {
      var a := plan[0];
      var c' := Act(c, a, budget > 0).value;
      RunPlanWatches(c', plan[1..], if Fallible(a) then budget - 1 else budget);
      assert plan == [a] + plan[1..] && [] + [a] == [a];
      WatchesSplit([a], plan[1..]);
      WatchesSnoc([], a);
      assert c'.watches == c.watches + WatchesOf([a]);
      assert c.watches + WatchesOf([a]) + WatchesOf(plan[1..]) == c.watches + (WatchesOf([a]) + WatchesOf(plan[1..]));
    }
  }
}
