/**
  The Type-C port listing: a fold over /sys/class/typec, the role files of each port, and
  the read-back test of a data or power role switch.
 */
module TypeCPorts {
  import opened Wrappers

  datatype Status = SUCCESS | ERROR | UNRECOGNIZED_ROLE

  datatype PowerRole = NoPower | Source | Sink
  datatype DataRole = NoData | Host | Device
  datatype PortMode = NoMode | Ufp | Dfp | Drp | AudioAccessory | DebugAccessory

  /** A tagged role; reading a field under another tag aborts the process. */
  datatype PortRole = Power(power: PowerRole) | Data(data: DataRole) | Mode(mode: PortMode)

  // ----- The directory fold -----

  datatype Entry = Entry(name: string, isLink: bool)

  const PARTNER := "-partner"

  predicate OccursAt(s: string, p: string, i: nat) {
    i + |p| <= |s| && s[i..i + |p|] == p
  }

  ghost predicate Contains(s: string, p: string) {
    exists i: nat :: OccursAt(s, p, i)
  }

  /** std::string::find. */
  method Find(s: string, p: string) returns (found: bool)
    ensures found <==> Contains(s, p)
  {
    for i := 0 to |s| + 1
      invariant forall k: nat | k < i :: !OccursAt(s, p, k)
    {
      if i + |p| <= |s| && s[i..i + |p|] == p {
        assert OccursAt(s, p, i);
        return true;
      }
    }
    return false;
  }

  function SkipDashes(s: string): string {
    if s != [] && s[0] == '-' then SkipDashes(s[1..]) else s
  }

  function UntilDash(s: string): string {
    if s == [] || s[0] == '-' then [] else [s[0]] + UntilDash(s[1..])
  }

  /** strtok(name, "-"): leading dashes are skipped, the token ends at the next one. */
  function FirstToken(s: string): string {
    UntilDash(SkipDashes(s))
  }

  /** "port0-partner" and its like name port0. */
  lemma {:induction false} PartnerNamesPort(port: string, rest: string)
    requires port != [] && '-' !in port
    ensures FirstToken(port + "-partner" + rest) == port
  {
    var s := port + "-partner" + rest;
    assert s[0] == port[0] && port[0] in port;
    assert s == port + ("-" + ("partner" + rest));
    TokenStops(port, "partner" + rest);
  }

  lemma {:induction false} TokenStops(token: string, rest: string)
    requires '-' !in token
    ensures UntilDash(token + ("-" + rest)) == token
  {
    var s := token + ("-" + rest);
    if token != [] {
      assert s[0] == token[0] && token[0] in token && s[1..] == token[1..] + ("-" + rest);
      TokenStops(token[1..], rest);
    }
  }

  ghost predicate IsPlain(e: Entry, port: string) {
    e.isLink && !Contains(e.name, PARTNER) && e.name == port
  }

  ghost predicate IsPartner(e: Entry, port: string) {
    e.isLink && Contains(e.name, PARTNER) && FirstToken(e.name) == port
  }

  /** The port map a listing stands for, whatever its order. */
  ghost predicate IsPortMap(names: map<string, bool>, entries: seq<Entry>) {
    && (forall port :: port in names <==> exists e <- entries :: IsPlain(e, port) || IsPartner(e, port))
    && (forall port <- names :: names[port] <==> exists e <- entries :: IsPartner(e, port))
  }

  /** getTypeCPortNamesHelper: a partner entry overwrites, a plain entry only adds. */
  method GetTypeCPortNames(entries: seq<Entry>) returns (names: map<string, bool>)
    ensures IsPortMap(names, entries)
  {
    names := map[];
    for i := 0 to |entries|
      invariant IsPortMap(names, entries[..i])
    {
      var e := entries[i];
      ghost var before := names;
      if e.isLink {
        var partner := Find(e.name, PARTNER);
        if !partner {
          if e.name !in names {
            names := names[e.name := false];
          }
        } else {
          names := names[FirstToken(e.name) := true];
        }
      }
      assert entries[..i + 1] == entries[..i] + [e];
      FoldStep(before, names, entries[..i], e);
    }
    assert entries[..|entries|] == entries;
  }

  lemma FoldStep(names: map<string, bool>, names': map<string, bool>, entries: seq<Entry>, e: Entry)
    requires IsPortMap(names, entries)
    requires names' == if !e.isLink then names
                       else if Contains(e.name, PARTNER) then names[FirstToken(e.name) := true]
                       else if e.name in names then names else names[e.name := false]
    ensures IsPortMap(names', entries + [e])
  {
    var entries' := entries + [e];
    forall port
      ensures (exists x <- entries' :: IsPartner(x, port)) <==>
              (exists x <- entries :: IsPartner(x, port)) || IsPartner(e, port)
      ensures (exists x <- entries' :: IsPlain(x, port) || IsPartner(x, port)) <==>
              (exists x <- entries :: IsPlain(x, port) || IsPartner(x, port)) || IsPlain(e, port) || IsPartner(e, port)
    {
      assert e in entries';
      assert forall x :: x in entries' <==> x in entries || x == e;
    }
  }

  /** The map does not depend on the order of the directory. */
  lemma {:induction false} OrderInsensitive(names: map<string, bool>, names': map<string, bool>,
                                            entries: seq<Entry>, entries': seq<Entry>)
    requires multiset(entries) == multiset(entries')
    requires IsPortMap(names, entries) && IsPortMap(names', entries')
    ensures names == names'
  {
    assert forall e :: e in entries <==> e in multiset(entries);
    assert forall e :: e in entries' <==> e in multiset(entries');
  }

  /** Dashes in front of a name do not count. */
  lemma {:induction false} DashesSkipped(s: string)
    ensures FirstToken("-" + s) == FirstToken(s)
  {
    assert ("-" + s)[1..] == s;
  }

  /** A link of the port's name is a port; one with "-partner" behind the name makes it a connected one. */
  lemma {:induction false} LinksNamePorts(names: map<string, bool>, entries: seq<Entry>, port: string)
    requires IsPortMap(names, entries) && port != "" && '-' !in port
    ensures Entry(port, true) in entries ==> port in names
    ensures Entry(port + "-partner", true) in entries ==> port in names && names[port]
  {
    PlainName(port);
    PartnerNamesPort(port, "");
    var partner := port + "-partner";
    assert partner + "" == partner;
    assert OccursAt(partner, PARTNER, |port|);
    if Entry(port, true) in entries {
      assert IsPlain(Entry(port, true), port);
    }
    if Entry(partner, true) in entries {
      assert IsPartner(Entry(partner, true), port);
    }
  }

  lemma PlainName(name: string)
    requires '-' !in name
    ensures !Contains(name, PARTNER)
  {
    forall i: nat ensures !OccursAt(name, PARTNER, i) {
      if i + |PARTNER| <= |name| {
        assert name[i] in name && name[i..i + |PARTNER|][0] == name[i];
      }
    }
  }

  lemma {:induction false} SkipsToText(s: string, k: nat)
    requires k < |s| && s[k] != '-'
    ensures SkipDashes(s) != [] && SkipDashes(s)[0] != '-'
  {
    if s[0] == '-' {
      SkipsToText(s[1..], k - 1);
    }
  }

  lemma PartnerHasToken(name: string)
    requires Contains(name, PARTNER)
    ensures FirstToken(name) != ""
  {
    var i: nat :| OccursAt(name, PARTNER, i);
    assert name[i + 1] == name[i..i + |PARTNER|][1] == 'p';
    SkipsToText(name, i + 1);
  }

  /** No port has an empty name, as no directory entry has. */
  lemma {:induction false} PortsAreNamed(names: map<string, bool>, entries: seq<Entry>)
    requires IsPortMap(names, entries) && forall e <- entries :: e.name != ""
    ensures "" !in names
  {
    hide Contains, FirstToken;
    forall e <- entries ensures !IsPlain(e, "") && !IsPartner(e, "") {
      if Contains(e.name, PARTNER) {
        PartnerHasToken(e.name);
      }
    }
  }

  // ----- Role files -----

  predicate IsSpace(c: char) {
    c == ' ' || '\t' <= c <= '\r'
  }

  function TrimLeft(s: string): string {
    if s != [] && IsSpace(s[0]) then TrimLeft(s[1..]) else s
  }

  function TrimRight(s: string): string
    decreases |s|
  {
    if s != [] && IsSpace(s[|s| - 1]) then TrimRight(s[..|s| - 1]) else s
  }

  function Trim(s: string): string {
    TrimRight(TrimLeft(s))
  }

  /** std::string::find of one character. */
  function IndexOf(s: string, c: char, from: nat): (r: Option<nat>)
    requires from <= |s|
    ensures r.Some? ==> from <= r.value < |s| && s[r.value] == c && forall k | from <= k < r.value :: s[k] != c
    ensures r.None? ==> forall k | from <= k < |s| :: s[k] != c
    decreases |s| - from
  {
    if from == |s| then None
    else if s[from] == c then Some(from)
    else IndexOf(s, c, from + 1)
  }

  lemma FirstIndex(s: string, c: char, at: nat)
    requires at < |s| && s[at] == c && forall k | 0 <= k < at :: s[k] != c
    ensures IndexOf(s, c, 0) == Some(at)
  {
    var r := IndexOf(s, c, 0);
    assert r.Some? && r.value <= at;
  }

  /**
    extractRole: the text between the first '[' and the first ']'. When the ']' comes first
    the length wraps around and the rest of the string is taken.
   */
  function ExtractRole(s: string): string {
    var first, last := IndexOf(s, '[', 0), IndexOf(s, ']', 0);
    if first.None? || last.None? then s
    else if last.value > first.value then s[first.value + 1..last.value]
    else s[first.value + 1..]
  }

  /** The kernel marks the active role with brackets. */
  lemma {:induction false} ExtractsActive(before: string, role: string, after: string)
    requires '[' !in before && ']' !in before && ']' !in role
    ensures ExtractRole(before + "[" + role + "]" + after) == role
  {
    var s := before + "[" + role + "]" + after;
    var end := |before| + 1 + |role|;
    assert forall k | 0 <= k < |before| :: s[k] == before[k] && before[k] in before;
    assert forall k | |before| < k < end :: s[k] == role[k - |before| - 1] && role[k - |before| - 1] in role;
    FirstIndex(s, '[', |before|);
    FirstIndex(s, ']', end);
    assert s[|before| + 1..end] == role;
  }

  /** With the brackets the wrong way round, everything behind the opening one is taken. */
  lemma {:induction false} BracketsReversed(before: string, middle: string, rest: string)
    requires '[' !in before && ']' !in before && '[' !in middle
    ensures ExtractRole(before + "]" + middle + "[" + rest) == rest
  {
    var s := before + "]" + middle + "[" + rest;
    var open := |before| + 1 + |middle|;
    assert forall k | 0 <= k < |before| :: s[k] == before[k] && before[k] in before;
    assert forall k | |before| < k < open :: s[k] == middle[k - |before| - 1] && middle[k - |before| - 1] in middle;
    FirstIndex(s, ']', |before|);
    FirstIndex(s, '[', open);
    assert s[open + 1..] == rest;
  }

  /** What is written to a role file to ask for a role. */
  function RoleText(role: PortRole): string {
    match role
    case Power(Source) => "source"
    case Power(Sink) => "sink"
    case Data(Host) => "host"
    case Data(Device) => "device"
    case Mode(Ufp) => "sink"
    case Mode(Dfp) => "source"
    case _ => "none"
  }

  /** A mode is asked for by the power role that goes with it. */
  lemma {:induction false} RequestedTexts(role: PortRole)
    ensures RoleText(role) == "source" <==> role == Power(Source) || role == Mode(Dfp)
    ensures RoleText(role) == "sink" <==> role == Power(Sink) || role == Mode(Ufp)
    ensures RoleText(role) == "host" <==> role == Data(Host)
    ensures RoleText(role) == "device" <==> role == Data(Device)
    ensures RoleText(role) in {"source", "sink", "host", "device", "none"}
  {
    assert "source"[0] == 's' && "sink"[1] == 'i' && "host"[0] == 'h' && "device"[0] == 'd' && "none"[0] == 'n';
  }

  /** What getCurrentRoleHelper makes of a role text, starting from the NONE role of a tag. */
  function RoleOf(text: string, none: PortRole): (Status, PortRole) {
    if text == "source" then (SUCCESS, Power(Source))
    else if text == "sink" then (SUCCESS, Power(Sink))
    else if text == "host" then (SUCCESS, if none.Data? then Data(Host) else Mode(Dfp))
    else if text == "device" then (SUCCESS, if none.Data? then Data(Device) else Mode(Ufp))
    else if text == "none" then (SUCCESS, none)
    else (UNRECOGNIZED_ROLE, none)
  }

  /** sysfs: the contents of the files that can be read. */
  type Files = map<string, string>

  const TYPEC := "/sys/class/typec/"

  function RoleFile(port: string, role: PortRole): string {
    TYPEC + port + if role.Power? then "/power_role" else "/data_role"
  }

  function AccessoryFile(port: string): string {
    TYPEC + port + "-partner/accessory_mode"
  }

  function NoneOf(role: PortRole): PortRole {
    match role
    case Power(_) => Power(NoPower)
    case Data(_) => Data(NoData)
    case Mode(_) => Mode(NoMode)
  }

  function ReadRole(files: Files, port: string, none: PortRole): (Status, PortRole) {
    if RoleFile(port, none) !in files then (ERROR, none)
    else RoleOf(ExtractRole(Trim(files[RoleFile(port, none)])), none)
  }

  /** getCurrentRoleHelper. */
  function CurrentRole(files: Files, port: string, connected: bool, role: PortRole): (r: (Status, PortRole))
    ensures !connected ==> r == (SUCCESS, NoneOf(role))
  {
    var none := NoneOf(role);
    if !connected then (SUCCESS, none)
    else if none.Mode? then
      if AccessoryFile(port) !in files then (ERROR, none)
      else
        var accessory := Trim(files[AccessoryFile(port)]);
        if accessory == "analog_audio" then (SUCCESS, Mode(AudioAccessory))
        else if accessory == "debug" then (SUCCESS, Mode(DebugAccessory))
        else ReadRole(files, port, none)
    else ReadRole(files, port, none)
  }

  /** switchRole's test on the file after a data or power role was written to it. */
  predicate ReadsBack(content: string, role: PortRole) {
    ExtractRole(Trim(content)) == RoleText(role)
  }

  /** A switch that read back as requested is what getCurrentRoleHelper then reports. */
  lemma {:induction false} ReadBackIsCurrent(files: Files, port: string, role: PortRole)
    requires !role.Mode? && RoleFile(port, role) in files && ReadsBack(files[RoleFile(port, role)], role)
    ensures CurrentRole(files, port, true, role) == (SUCCESS, role)
  {
    assert RoleFile(port, NoneOf(role)) == RoleFile(port, role);
  }

  // ----- Port status -----

  datatype PortStatus = PortStatus(
    portName: string, power: PowerRole, data: DataRole, mode: PortMode,
    canChangeMode: bool, canChangeData: bool, canChangePower: bool)

  datatype Listing =
    | Listed(ports: seq<PortStatus>)
    | Failed
    | Aborted  // a role was read under the wrong tag

  function CanSwitch(files: Files, port: string): bool {
    var path := TYPEC + port + "-partner/supports_usb_power_delivery";
    path in files && Trim(files[path]) == "yes"
  }

  /** The status of one port, if its three roles can be read. */
  function StatusOf(files: Files, port: string, connected: bool): (r: Listing)
    ensures r.Listed? ==> |r.ports| == 1 && r.ports[0].portName == port
  {
    var (s1, power) := CurrentRole(files, port, connected, Power(NoPower));
    if s1 != SUCCESS then Failed else if !power.Power? then Aborted
    else
      var (s2, data) := CurrentRole(files, port, connected, Data(NoData));
      if s2 != SUCCESS then Failed else if !data.Data? then Aborted
      else
        var (s3, mode) := CurrentRole(files, port, connected, Mode(NoMode));
        if s3 != SUCCESS then Failed else if !mode.Mode? then Aborted
        else
          var can := connected && CanSwitch(files, port);
          Listed([PortStatus(port, power.power, data.data, mode.mode, true, can, can)])
  }

  // ----- When a port cannot be listed -----

  /** The role named in a file, if the file can be read. */
  function TextAt(files: Files, file: string): Option<string> {
    if file in files then Some(ExtractRole(Trim(files[file]))) else None
  }

  predicate NamesPower(text: string) {
    text == "source" || text == "sink"
  }

  predicate NamesData(text: string) {
    text == "host" || text == "device"
  }

  predicate NamesRole(text: string) {
    NamesPower(text) || NamesData(text) || text == "none"
  }

  /** The power file names a data role, or else names another while the data file names a power role. */
  predicate Aborts(files: Files, port: string, connected: bool) {
    var power, data := TextAt(files, RoleFile(port, Power(NoPower))), TextAt(files, RoleFile(port, Data(NoData)));
    && connected && power.Some? && NamesRole(power.value)
    && (NamesData(power.value) || (data.Some? && NamesPower(data.value)))
  }

  /** A file is missing or names no role, and no earlier one made the process abort. */
  predicate Fails(files: Files, port: string, connected: bool) {
    var power, data := TextAt(files, RoleFile(port, Power(NoPower))), TextAt(files, RoleFile(port, Data(NoData)));
    && connected
    && if power.None? || !NamesRole(power.value) then true
       else if NamesData(power.value) then false
       else data.None? || !NamesRole(data.value) || (!NamesPower(data.value) && AccessoryFile(port) !in files)
  }

  lemma PowerRoleIs(files: Files, port: string)
    ensures var text := TextAt(files, RoleFile(port, Power(NoPower)));
            var r := CurrentRole(files, port, true, Power(NoPower));
            && (r.0 == SUCCESS <==> text.Some? && NamesRole(text.value))
            && (r.0 == SUCCESS ==> (r.1.Power? <==> !NamesData(text.value)))
  {
    hide Trim, ExtractRole, RoleFile;
  }

  lemma DataRoleIs(files: Files, port: string)
    ensures var text := TextAt(files, RoleFile(port, Data(NoData)));
            var r := CurrentRole(files, port, true, Data(NoData));
            && (r.0 == SUCCESS <==> text.Some? && NamesRole(text.value))
            && (r.0 == SUCCESS ==> (r.1.Data? <==> !NamesPower(text.value)))
  {
    hide Trim, ExtractRole, RoleFile;
  }

  /** The mode is read from the data file, so that it comes out wrong only where the data role did. */
  lemma ModeRoleIs(files: Files, port: string)
    requires var text := TextAt(files, RoleFile(port, Data(NoData)));
             text.Some? && NamesRole(text.value) && !NamesPower(text.value)
    ensures var r := CurrentRole(files, port, true, Mode(NoMode));
            && (r.0 == SUCCESS <==> AccessoryFile(port) in files)
            && (r.0 == SUCCESS ==> r.1.Mode?)
  {
    assert RoleFile(port, Mode(NoMode)) == RoleFile(port, Data(NoData));
    hide Trim, ExtractRole, RoleFile, AccessoryFile;
  }

  /** Exactly which role files make the listing of a port abort the process, and which make it fail. */
  lemma {:induction false} StatusEndsIff(files: Files, port: string, connected: bool)
    ensures StatusOf(files, port, connected) == Aborted <==> Aborts(files, port, connected)
    ensures StatusOf(files, port, connected) == Failed <==> Fails(files, port, connected)
  {
    if connected {
      PowerRoleIs(files, port);
      DataRoleIs(files, port);
      hide CurrentRole, RoleFile, AccessoryFile, TextAt;
      var data := TextAt(files, RoleFile(port, Data(NoData)));
      if data.Some? && NamesRole(data.value) && !NamesPower(data.value) {
        ModeRoleIs(files, port);
      }
    }
  }

  lemma PlainText(s: string)
    requires s != [] && !IsSpace(s[0]) && !IsSpace(s[|s| - 1]) && '[' !in s
    ensures ExtractRole(Trim(s)) == s
  {
    assert Trim(s) == s;
    var first := IndexOf(s, '[', 0);
    assert first.None? by {
      assert forall k | 0 <= k < |s| :: s[k] in s;
    }
  }

  /** A port whose power file reads "host" aborts the process. */
  lemma {:induction false} DataRoleInPowerFileAborts(port: string)
    ensures var files := map[RoleFile(port, Power(NoPower)) := "host"];
            StatusOf(files, port, true) == Aborted
  {
    PlainText("host");
    StatusEndsIff(map[RoleFile(port, Power(NoPower)) := "host"], port, true);
  }

  // ----- What the files of a listed port say -----

  /** Spaces, tabs, line feeds, vertical tabs, form feeds and carriage returns. */
  predicate Blank(s: string) {
    forall c <- s :: c as int == 32 || 9 <= c as int <= 13
  }

  /** A text with white space behind it only. */
  predicate Says(content: string, text: string) {
    && text <= content && Blank(content[|text|..])
    && text != "" && !Blank([text[0]]) && !Blank([text[|text| - 1]])
  }

  /** A role file, with its role plain or in brackets among others. */
  ghost predicate Marks(content: string, role: string) {
    || (Says(content, role) && '[' !in role)
    || exists before, after :: Bracketed(content, before, role, after)
  }

  predicate Bracketed(content: string, before: string, role: string, after: string) {
    && content == before + "[" + role + "]" + after
    && '[' !in before && ']' !in before && ']' !in role
  }

  lemma BlankIsSpace(s: string)
    ensures Blank(s) <==> forall c <- s :: IsSpace(c)
  {
    assert forall c: char :: IsSpace(c) <==> c as int == 32 || 9 <= c as int <= 13;
  }

  lemma {:induction false} TrimLeftKeeps(s: string, rest: string)
    requires rest != "" && !IsSpace(rest[0])
    ensures TrimLeft(s + rest) == TrimLeft(s) + rest
  {
    if s == "" {
      assert s + rest == rest;
    } else {
      assert (s + rest)[0] == s[0] && (s + rest)[1..] == s[1..] + rest;
      if IsSpace(s[0]) {
        TrimLeftKeeps(s[1..], rest);
      }
    }
  }

  lemma {:induction false} TrimRightKeeps(rest: string, s: string)
    requires rest != "" && !IsSpace(rest[|rest| - 1])
    ensures TrimRight(rest + s) == rest + TrimRight(s)
    decreases |s|
  {
    if s == "" {
      assert rest + s == rest;
    } else {
      var all := rest + s;
      assert all[|all| - 1] == s[|s| - 1] && all[..|all| - 1] == rest + s[..|s| - 1];
      if IsSpace(s[|s| - 1]) {
        TrimRightKeeps(rest, s[..|s| - 1]);
      }
    }
  }

  lemma {:induction false} TrimRightBlank(s: string)
    requires forall c <- s :: IsSpace(c)
    ensures TrimRight(s) == ""
    decreases |s|
  {
    if s != "" {
      assert s[|s| - 1] in s;
      TrimRightBlank(s[..|s| - 1]);
    }
  }

  lemma {:induction false} SaysTrimmed(content: string, text: string)
    requires Says(content, text)
    ensures Trim(content) == text
  {
    var end := content[|text|..];
    BlankIsSpace(end);
    BlankIsSpace([text[0]]);
    BlankIsSpace([text[|text| - 1]]);
    assert content == "" + content && content == text + end && content[0] == text[0];
    TrimLeftKeeps("", content);
    TrimRightKeeps(text, end);
    TrimRightBlank(end);
  }

  lemma TrimLeftIn(s: string)
    ensures forall c :: c in TrimLeft(s) ==> c in s
  {}

  lemma {:induction false} MarksExtracted(content: string, role: string)
    requires Marks(content, role)
    ensures ExtractRole(Trim(content)) == role
  {
    if Says(content, role) && '[' !in role {
      SaysTrimmed(content, role);
      NoBracket(role);
    } else {
      var before, after :| Bracketed(content, before, role, after);
      BracketedExtracted(content, before, role, after);
    }
  }

  lemma BracketedExtracted(content: string, before: string, role: string, after: string)
    requires Bracketed(content, before, role, after)
    ensures ExtractRole(Trim(content)) == role
  {
    hide ExtractRole, TrimLeft, TrimRight;
    var core, left, right := "[" + role + "]", TrimLeft(before), TrimRight(after);
    assert content == before + (core + after);
    TrimLeftKeeps(before, core + after);
    assert left + (core + after) == (left + core) + after;
    TrimRightKeeps(left + core, after);
    TrimLeftIn(before);
    ExtractsActive(left, role, right);
    assert (left + core) + right == left + "[" + role + "]" + right;
  }

  lemma NoBracket(s: string)
    requires '[' !in s
    ensures ExtractRole(s) == s
  {
    assert IndexOf(s, '[', 0).None? by {
      assert forall k | 0 <= k < |s| :: s[k] in s;
    }
  }

  /** A data or power switch succeeds exactly if the file it wrote then marks the role it asked for. */
  lemma {:induction false} ReadsBackIff(content: string, text: string, role: PortRole)
    requires Marks(content, text)
    ensures ReadsBack(content, role) <==> text == RoleText(role)
  {
    MarksExtracted(content, text);
  }

  /**
    A listed connected port has the roles its files mark, the accessory texts deciding the
    mode before the data role does, and can switch both roles if its partner's
    power-delivery file says "yes".
   */
  lemma {:induction false} ListedStatusIs(ports: seq<PortStatus>, names: map<string, bool>, files: Files, s: PortStatus,
                                          power: string, data: string, accessory: string)
    requires IsListing(ports, names, files) && s in ports && names[s.portName]
    requires var dir := "/sys/class/typec/" + s.portName;
             && dir + "/power_role" in files && Marks(files[dir + "/power_role"], power)
             && dir + "/data_role" in files && Marks(files[dir + "/data_role"], data)
             && dir + "-partner/accessory_mode" in files && Says(files[dir + "-partner/accessory_mode"], accessory)
    ensures power == "source" || power == "sink" || power == "none"
    ensures s.power == if power == "source" then Source else if power == "sink" then Sink else NoPower
    ensures data == "host" || data == "device" || data == "none"
    ensures s.data == if data == "host" then Host else if data == "device" then Device else NoData
    ensures s.mode == if accessory == "analog_audio" then AudioAccessory
                      else if accessory == "debug" then DebugAccessory
                      else if data == "host" then Dfp else if data == "device" then Ufp else NoMode
    ensures s.canChangeMode
    ensures var file := "/sys/class/typec/" + s.portName + "-partner/supports_usb_power_delivery";
            && (file !in files ==> !s.canChangeData && !s.canChangePower)
            && (file in files ==> forall answer | Says(files[file], answer) ::
                  s.canChangeData == s.canChangePower == (answer == "yes"))
  {
    StatusFromTexts(files, s, power, data, accessory);
  }

  lemma StatusFromTexts(files: Files, s: PortStatus, power: string, data: string, accessory: string)
    requires StatusOf(files, s.portName, true) == Listed([s])
    requires var dir := "/sys/class/typec/" + s.portName;
             && dir + "/power_role" in files && Marks(files[dir + "/power_role"], power)
             && dir + "/data_role" in files && Marks(files[dir + "/data_role"], data)
             && dir + "-partner/accessory_mode" in files && Says(files[dir + "-partner/accessory_mode"], accessory)
    ensures power == "source" || power == "sink" || power == "none"
    ensures s.power == if power == "source" then Source else if power == "sink" then Sink else NoPower
    ensures data == "host" || data == "device" || data == "none"
    ensures s.data == if data == "host" then Host else if data == "device" then Device else NoData
    ensures s.mode == if accessory == "analog_audio" then AudioAccessory
                      else if accessory == "debug" then DebugAccessory
                      else if data == "host" then Dfp else if data == "device" then Ufp else NoMode
    ensures s.canChangeMode
    ensures var file := "/sys/class/typec/" + s.portName + "-partner/supports_usb_power_delivery";
            && (file !in files ==> !s.canChangeData && !s.canChangePower)
            && (file in files ==> forall answer | Says(files[file], answer) ::
                  s.canChangeData == s.canChangePower == (answer == "yes"))
  {
    var port := s.portName;
    PowerFromText(files, port, power);
    DataFromText(files, port, data);
    ModeFromTexts(files, port, data, accessory);
    CanSwitchFromText(files, port);
    hide CurrentRole, CanSwitch, Marks, Says;
    assert [s][0] == s;
  }

  lemma PowerFromText(files: Files, port: string, power: string)
    requires var file := "/sys/class/typec/" + port + "/power_role"; file in files && Marks(files[file], power)
    ensures CurrentRole(files, port, true, Power(NoPower)) == RoleOf(power, Power(NoPower))
  {
    var file := "/sys/class/typec/" + port + "/power_role";
    assert RoleFile(port, Power(NoPower)) == file;
    MarksExtracted(files[file], power);
    hide Trim, ExtractRole, Marks, RoleOf, RoleFile;
  }

  lemma DataFromText(files: Files, port: string, data: string)
    requires var file := "/sys/class/typec/" + port + "/data_role"; file in files && Marks(files[file], data)
    ensures CurrentRole(files, port, true, Data(NoData)) == RoleOf(data, Data(NoData))
  {
    var file := "/sys/class/typec/" + port + "/data_role";
    assert RoleFile(port, Data(NoData)) == file;
    MarksExtracted(files[file], data);
    hide Trim, ExtractRole, Marks, RoleOf, RoleFile;
  }

  lemma ModeFromTexts(files: Files, port: string, data: string, accessory: string)
    requires var file := "/sys/class/typec/" + port + "/data_role"; file in files && Marks(files[file], data)
    requires var file := "/sys/class/typec/" + port + "-partner/accessory_mode";
             file in files && Says(files[file], accessory)
    ensures CurrentRole(files, port, true, Mode(NoMode)) ==
            if accessory == "analog_audio" then (SUCCESS, Mode(AudioAccessory))
            else if accessory == "debug" then (SUCCESS, Mode(DebugAccessory))
            else RoleOf(data, Mode(NoMode))
  {
    var dataFile := "/sys/class/typec/" + port + "/data_role";
    var accessoryFile := "/sys/class/typec/" + port + "-partner/accessory_mode";
    assert RoleFile(port, Mode(NoMode)) == dataFile && AccessoryFile(port) == accessoryFile;
    MarksExtracted(files[dataFile], data);
    SaysTrimmed(files[accessoryFile], accessory);
    hide Trim, ExtractRole, Marks, Says, RoleOf, RoleFile, AccessoryFile;
  }

  lemma CanSwitchFromText(files: Files, port: string)
    ensures var file := "/sys/class/typec/" + port + "-partner/supports_usb_power_delivery";
            && (file !in files ==> !CanSwitch(files, port))
            && (file in files ==> forall answer | Says(files[file], answer) ::
                  CanSwitch(files, port) == (answer == "yes"))
  {
    var file := "/sys/class/typec/" + port + "-partner/supports_usb_power_delivery";
    assert TYPEC + port + "-partner/supports_usb_power_delivery" == file;
    if file in files {
      forall answer | Says(files[file], answer) ensures Trim(files[file]) == answer {
        SaysTrimmed(files[file], answer);
      }
    }
    hide Trim, Says;
  }

  const FAKE_PORT := PortStatus("port", Sink, Device, Drp, false, false, false)

  ghost predicate Lists(ports: seq<PortStatus>, name: string) {
    exists s <- ports :: s.portName == name
  }

  lemma ListsOneMore(ports: seq<PortStatus>, s: PortStatus, name: string)
    ensures Lists(ports + [s], name) <==> Lists(ports, name) || s.portName == name
  {
    assert s in ports + [s];
    assert forall x :: x in ports + [s] <==> x in ports || x == s;
  }

  /** One status a key, each the one its files give. */
  ghost predicate IsListing(ports: seq<PortStatus>, names: map<string, bool>, files: Files) {
    && |ports| == |names|
    && (forall name :: Lists(ports, name) <==> name in names)
    && (forall s <- ports :: s.portName in names && StatusOf(files, s.portName, names[s.portName]) == Listed([s]))
  }

  const BLANK := PortStatus("", NoPower, NoData, NoMode, false, false, false)

  /**
    A listing that ended early: the vector was already sized for every key, the ports before
    the one that could not be read are filled in, each once, and those after it keep their empty name.
   */
  ghost predicate CutShort(ports: seq<PortStatus>, names: map<string, bool>, files: Files, at: nat, end: Listing) {
    && at < |ports| == |names|
    && ports[at].portName in names
    && StatusOf(files, ports[at].portName, names[ports[at].portName]) == end
    && (forall k | 0 <= k < at ::
         ports[k].portName in names &&
         StatusOf(files, ports[k].portName, names[ports[k].portName]) == Listed([ports[k]]))
    && (forall k, l | 0 <= k < l <= at :: ports[k].portName != ports[l].portName)
    && (forall k | at < k < |ports| :: ports[k].portName == "")
  }

  /** getPortStatusHelper. Without the directory there is one fake port. */
  method GetPortStatus(entries: Option<seq<Entry>>, files: Files)
    returns (listing: Listing, ports: seq<PortStatus>, ghost names: map<string, bool>)
    ensures entries.None? ==> listing == Listed([PortStatus("port", Sink, Device, Drp, false, false, false)])
    ensures listing.Listed? ==> listing.ports == ports
    ensures entries.Some? ==> IsPortMap(names, entries.value)
    ensures entries.Some? && listing.Listed? ==> IsListing(ports, names, files)
    ensures entries.Some? && !listing.Listed? ==> exists at :: CutShort(ports, names, files, at, listing)
    ensures entries.Some? ==>
              (listing.Listed? <==> forall p <- names :: !Aborts(files, p, names[p]) && !Fails(files, p, names[p]))
    ensures entries.Some? && listing.Aborted? ==> exists p <- names :: Aborts(files, p, names[p])
    ensures entries.Some? && listing.Failed? ==> exists p <- names :: Fails(files, p, names[p])
  {
    names := map[];
    match entries
    case None =>
      ports := [FAKE_PORT];
      listing := Listed(ports);
    case Some(dir) =>
      var found := GetTypeCPortNames(dir);
      names := found;
      listing, ports := ListPorts(found, files);
      OutcomeOf(found, files, ports, listing);
  }

  lemma OutcomeOf(names: map<string, bool>, files: Files, ports: seq<PortStatus>, listing: Listing)
    requires listing.Listed? ==> IsListing(ports, names, files)
    requires !listing.Listed? ==> exists at :: CutShort(ports, names, files, at, listing)
    ensures listing.Listed? <==> forall p <- names :: !Aborts(files, p, names[p]) && !Fails(files, p, names[p])
    ensures listing.Aborted? ==> exists p <- names :: Aborts(files, p, names[p])
    ensures listing.Failed? ==> exists p <- names :: Fails(files, p, names[p])
  {
    hide StatusOf, Aborts, Fails;
    forall p <- names
      ensures StatusOf(files, p, names[p]) == Aborted <==> Aborts(files, p, names[p])
      ensures StatusOf(files, p, names[p]) == Failed <==> Fails(files, p, names[p])
    {
      StatusEndsIff(files, p, names[p]);
    }
    if listing.Listed? {
      forall p <- names ensures StatusOf(files, p, names[p]).Listed? {
        assert Lists(ports, p);
      }
    } else {
      var at: nat :| CutShort(ports, names, files, at, listing);
      assert ports[at].portName in names;
    }
  }

  /** Whether a listing can end in a given way, in some order of the map, is decided by the files alone. */
  lemma {:induction false} ListingMayEndIff(names: map<string, bool>, files: Files)
    ensures (exists ports, at :: CutShort(ports, names, files, at, Aborted)) <==>
            exists p <- names :: Aborts(files, p, names[p])
    ensures (exists ports, at :: CutShort(ports, names, files, at, Failed)) <==>
            exists p <- names :: Fails(files, p, names[p])
  {
    hide StatusOf, Aborts, Fails;
    forall p <- names
      ensures StatusOf(files, p, names[p]) == Aborted <==> Aborts(files, p, names[p])
      ensures StatusOf(files, p, names[p]) == Failed <==> Fails(files, p, names[p])
    {
      StatusEndsIff(files, p, names[p]);
    }
    forall p <- names | !StatusOf(files, p, names[p]).Listed?
      ensures exists ports, at :: CutShort(ports, names, files, at, StatusOf(files, p, names[p]))
    {
      var _ := CutShortAt(names, files, p);
    }
  }

  /** A port that ends a listing may come first, and then all others stay without a name. */
  lemma CutShortAt(names: map<string, bool>, files: Files, p: string) returns (ports: seq<PortStatus>)
    requires p in names && !StatusOf(files, p, names[p]).Listed?
    ensures CutShort(ports, names, files, 0, StatusOf(files, p, names[p]))
    ensures |names| >= 2 ==> Lists(ports, "")
  {
    hide StatusOf;
    ports := [BLANK.(portName := p)] + seq(|names| - 1, _ => BLANK);
    assert ports[0].portName == p;
    if |names| >= 2 {
      assert ports[1] in ports && ports[1].portName == "";
    }
  }

  /** Statuses of different ports, each the one its files give. */
  ghost predicate Statuses(ports: seq<PortStatus>, names: map<string, bool>, files: Files) {
    && (forall k | 0 <= k < |ports| ::
         ports[k].portName in names &&
         StatusOf(files, ports[k].portName, names[ports[k].portName]) == Listed([ports[k]]))
    && (forall k, l | 0 <= k < l < |ports| :: ports[k].portName != ports[l].portName)
  }

  lemma StatusesOneMore(ports: seq<PortStatus>, names: map<string, bool>, files: Files, port: string)
    requires Statuses(ports, names, files) && port in names && !Lists(ports, port)
    requires StatusOf(files, port, names[port]).Listed?
    ensures Statuses(ports + StatusOf(files, port, names[port]).ports, names, files)
  {
    var one := StatusOf(files, port, names[port]).ports[0];
    assert StatusOf(files, port, names[port]) == Listed([one]);
    hide StatusOf;
    assert forall k | 0 <= k < |ports| :: ports[k] in ports;
  }

  lemma StatusesCutShort(ports: seq<PortStatus>, names: map<string, bool>, files: Files, port: string, rest: nat)
    requires Statuses(ports, names, files) && port in names && !Lists(ports, port)
    requires !StatusOf(files, port, names[port]).Listed? && |ports| + 1 + rest == |names|
    ensures CutShort(ports + [BLANK.(portName := port)] + seq(rest, _ => BLANK), names, files, |ports|,
                     StatusOf(files, port, names[port]))
  {
    hide StatusOf;
    var all := ports + [BLANK.(portName := port)] + seq(rest, _ => BLANK);
    assert all[|ports|].portName == port;
    assert forall k | 0 <= k < |ports| :: all[k] == ports[k] && ports[k] in ports;
  }

  /** The loop over the map. The ports come in the hash map's order, which may be any. */
  method ListPorts(names: map<string, bool>, files: Files) returns (listing: Listing, ports: seq<PortStatus>)
    ensures listing.Listed? ==> listing.ports == ports && IsListing(ports, names, files)
    ensures !listing.Listed? ==> exists at :: CutShort(ports, names, files, at, listing)
  {
    hide StatusOf, CutShort;
    var left := names.Keys;
    ports := [];
    while left != {}
      invariant left <= names.Keys && |ports| + |left| == |names.Keys|
      invariant forall name :: Lists(ports, name) <==> name in names && name !in left
      invariant Statuses(ports, names, files)
    {
      var port :| port in left;
      var one := StatusOf(files, port, names[port]);
      ghost var before := ports;
      if !one.Listed? {
        StatusesCutShort(ports, names, files, port, |left| - 1);
        ports := ports + [BLANK.(portName := port)] + seq(|left| - 1, _ => BLANK);
        return one, ports;
      }
      StatusesOneMore(ports, names, files, port);
      assert one.ports == [one.ports[0]];
      ports := ports + [one.ports[0]];
      left := left - {port};
      forall name ensures Lists(ports, name) <==> Lists(before, name) || name == port {
        ListsOneMore(before, one.ports[0], name);
      }
    }
    listing := Listed(ports);
  }

  /** Two listings of one directory hold the same statuses, whatever the orders. */
  lemma {:induction false} ListingsAgree(ports: seq<PortStatus>, ports': seq<PortStatus>,
                                               names: map<string, bool>, files: Files)
    requires IsListing(ports, names, files) && IsListing(ports', names, files)
    ensures forall s :: s in ports <==> s in ports'
  {
    SameStatuses(ports, ports', names, files);
    SameStatuses(ports', ports, names, files);
  }

  lemma SameStatuses(ports: seq<PortStatus>, ports': seq<PortStatus>, names: map<string, bool>, files: Files)
    requires IsListing(ports, names, files) && IsListing(ports', names, files)
    ensures forall s <- ports :: s in ports'
  {
    forall s <- ports ensures s in ports' {
      assert Lists(ports', s.portName);
      var s' :| s' in ports' && s'.portName == s.portName;
      assert Listed([s]) == Listed([s']);
      assert [s][0] == [s'][0];
    }
  }

  /** An unconnected port is listed with no roles and no data or power switch. */
  lemma {:induction false} UnconnectedHasNoRoles(files: Files, port: string)
    ensures StatusOf(files, port, false) ==
            Listed([PortStatus(port, NoPower, NoData, NoMode, true, false, false)])
  {}

  ghost predicate GoesDual(ports: seq<PortStatus>, partners: set<string>, port: string) {
    port !in partners && Lists(ports, port)
  }

  /**
    The worker's reaction to a Type-C record: every port of the vector without a partner goes
    back to dual role, unless a role switch holds the lock.
   */
  method SwitchDisconnectedToDual(ports: seq<PortStatus>, partners: set<string>, lockAcquired: bool)
    returns (written: seq<string>)
    ensures !lockAcquired ==> written == []
    ensures lockAcquired ==> forall p :: p in written <==> GoesDual(ports, partners, p)
  {
    written := [];
    if !lockAcquired {
      return;
    }
    for i := 0 to |ports|
      invariant forall p :: p in written <==> p !in partners && Lists(ports[..i], p)
    {
      assert ports[..i + 1] == ports[..i] + [ports[i]];
      forall p ensures Lists(ports[..i + 1], p) <==> Lists(ports[..i], p) || ports[i].portName == p {
        ListsOneMore(ports[..i], ports[i], p);
      }
      if ports[i].portName !in partners {
        written := written + [ports[i].portName];
      }
    }
    assert ports[..|ports|] == ports;
  }

  /** A listing cut short names a port "" exactly if it ended before its last port. */
  lemma CutShortNamesNoPort(ports: seq<PortStatus>, names: map<string, bool>, files: Files, at: nat, end: Listing)
    requires "" !in names && CutShort(ports, names, files, at, end)
    ensures Lists(ports, "") <==> at + 1 < |ports|
  {
    hide StatusOf;
    if at + 1 < |ports| {
      assert ports[at + 1] in ports && ports[at + 1].portName == "";
    } else {
      forall s <- ports ensures s.portName != "" {
        var k :| 0 <= k < |ports| && ports[k] == s;
        CutShortNames(ports, names, files, at, end, k);
      }
    }
  }

  lemma CutShortNames(ports: seq<PortStatus>, names: map<string, bool>, files: Files, at: nat, end: Listing, k: nat)
    requires CutShort(ports, names, files, at, end) && k <= at
    ensures ports[k].portName in names
  {}

  /**
    A listing can fail and leave a port without a name if and only if there are two ports or
    more and the role files of one of them make it fail.
   */
  lemma {:induction false} NamelessPortIff(names: map<string, bool>, files: Files)
    requires "" !in names
    ensures (exists ports, at :: CutShort(ports, names, files, at, Failed) && Lists(ports, "")) <==>
            |names| >= 2 && exists p <- names :: Fails(files, p, names[p])
  {
    if exists ports, at :: CutShort(ports, names, files, at, Failed) && Lists(ports, "") {
      var ports, at :| CutShort(ports, names, files, at, Failed) && Lists(ports, "");
      NamelessNeedsTwo(names, files, ports, at);
    }
    if |names| >= 2 && exists p <- names :: Fails(files, p, names[p]) {
      var p :| p in names && Fails(files, p, names[p]);
      StatusEndsIff(files, p, names[p]);
      hide StatusOf, Fails;
      var ports := CutShortAt(names, files, p);
      assert CutShort(ports, names, files, 0, Failed) && Lists(ports, "");
    }
  }

  lemma NamelessNeedsTwo(names: map<string, bool>, files: Files, ports: seq<PortStatus>, at: nat)
    requires "" !in names && CutShort(ports, names, files, at, Failed) && Lists(ports, "")
    ensures |names| >= 2 && exists p <- names :: Fails(files, p, names[p])
  {
    CutShortNamesNoPort(ports, names, files, at, Failed);
    hide StatusOf, Fails;
    CutShortNames(ports, names, files, at, Failed, at);
    StatusEndsIff(files, ports[at].portName, names[ports[at].portName]);
  }

  /**
    The worker's whole reaction to a Type-C record. It writes to the port of no name only
    under a condition on the directory and the files: a port fails, and another one is there.
   */
  method HandleTypec(entries: Option<seq<Entry>>, files: Files, partners: set<string>, lockAcquired: bool)
    returns (written: seq<string>, ghost listing: Listing, ghost names: map<string, bool>)
    requires entries.Some? ==> forall e <- entries.value :: e.name != ""
    ensures entries.Some? ==> IsPortMap(names, entries.value)
    ensures entries.Some? ==>
              (listing.Listed? <==> forall p <- names :: !Aborts(files, p, names[p]) && !Fails(files, p, names[p]))
    ensures !lockAcquired ==> written == []
    ensures lockAcquired && entries.None? ==>
              forall p :: p in written <==> p !in partners && p == FAKE_PORT.portName
    ensures listing.Aborted? ==> written == []
    ensures lockAcquired && entries.Some? && listing.Listed? ==>
              forall p :: p in written <==> p !in partners && p in names
    ensures listing.Failed? ==> forall p <- written :: p !in partners && (p == "" || p in names)
    ensures "" in written ==>
              && lockAcquired && "" !in partners
              && |names| >= 2 && exists p <- names :: Fails(files, p, names[p])
  {
    var found, ports;
    found, ports, names := GetPortStatus(entries, files);
    listing := found;
    if found.Aborted? {
      return [], listing, names;
    }
    written := SwitchDisconnectedToDual(ports, partners, lockAcquired);
    match entries
    case None =>
      FakePortOnly();
    case Some(dir) =>
      PortsAreNamed(names, dir);
      WrittenAreNamed(names, files, ports, listing);
  }

  lemma FakePortOnly()
    ensures forall p :: Lists([FAKE_PORT], p) <==> p == FAKE_PORT.portName
  {
    assert FAKE_PORT in [FAKE_PORT];
  }

  lemma WrittenAreNamed(names: map<string, bool>, files: Files, ports: seq<PortStatus>, listing: Listing)
    requires "" !in names
    requires listing.Listed? ==> IsListing(ports, names, files)
    requires !listing.Listed? ==> listing.Failed? && exists at :: CutShort(ports, names, files, at, listing)
    ensures forall p :: Lists(ports, p) ==> p == "" || p in names
    ensures Lists(ports, "") ==> |names| >= 2 && exists p <- names :: Fails(files, p, names[p])
  {
    hide StatusOf, Fails;
    if listing.Failed? {
      var at: nat :| CutShort(ports, names, files, at, listing);
      forall s <- ports ensures s.portName == "" || s.portName in names {
        var k: nat :| k < |ports| && ports[k] == s;
        if k <= at {
          CutShortNames(ports, names, files, at, listing, k);
        }
      }
      if Lists(ports, "") {
        NamelessNeedsTwo(names, files, ports, at);
      }
    }
  }

  /** And under that condition some order of the map makes it write there. */
  lemma {:induction false} WorkerMayWriteToNoPortIff(names: map<string, bool>, files: Files, partners: set<string>)
    requires "" !in names
    ensures (exists ports, at :: CutShort(ports, names, files, at, Failed) && GoesDual(ports, partners, "")) <==>
            "" !in partners && |names| >= 2 && exists p <- names :: Fails(files, p, names[p])
  {
    NamelessPortIff(names, files);
    hide CutShort, Fails, Lists;
    if "" !in partners && |names| >= 2 && exists p <- names :: Fails(files, p, names[p]) {
      var ports, at :| CutShort(ports, names, files, at, Failed) && Lists(ports, "");
      assert GoesDual(ports, partners, "");
    }
  }
}
