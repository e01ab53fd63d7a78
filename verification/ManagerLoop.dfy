/** The manager object: every command it handles is a legal run of the state machine. */
module ManagerLoop {
  import opened Wrappers
  import opened Devices
  import opened Manager
  import A = Autoconnect

  /** What an autoconnect attempt learns from outside. */
  datatype Answer = Answer(used: A.Usage, visible: seq<string>, fate: Fate)

  /** A command together with the outcomes of the outside steps it takes. */
  datatype Command =
    | LinkAdded(name: string, scan: Option<seq<Link>>, answer: Answer)
    | LinkRemoved(name: string)
    | LinkChanged(scan: Option<seq<Link>>)
    | WifiTick(answers: string -> Answer)
    | RefreshTick(scan: Option<seq<Link>>, answers: string -> Answer)
    | AddConnection(profile: Profile, stored: bool)
    | DeleteConnection(id: string, tornDown: bool, erased: bool)
    | ActivateConnection(id: string, fate: Fate)
    | DeactivateConnection(id: string, tornDown: bool)
    | ConnectWifi(device: string, ssid: string, stored: bool, fate: Fate)
    | ForgetWifi(ssid: string)
    | Reload(config: Option<seq<string>>)

  function WifiId(ssid: string): string { "wifi-" + ssid }

  /** The steps a command can be made of. */
  predicate MadeOf(c: Command, t: Step) {
    match c
    case LinkAdded(_, scan, _) => t.Raising? || (t.Rescanned? && scan == Some(t.links))
    case LinkRemoved(name) => t == Unplugged(name)
    case LinkChanged(scan) => t.Rescanned? && scan == Some(t.links)
    case WifiTick(_) => t.Raising?
    case RefreshTick(scan, _) => t.Raising? || (t.Rescanned? && scan == Some(t.links))
    case AddConnection(p, stored) => stored && t == Saved(p)
    case DeleteConnection(id, _, erased) => (t.Lowering? && t.id == id) || (erased && t == Dropped(id))
    case ActivateConnection(id, _) => t.Raising? && t.id == id
    case DeactivateConnection(id, _) => t.Lowering? && t.id == id
    case ConnectWifi(_, ssid, stored, _) =>
      stored && ((t.Raising? && t.id == WifiId(ssid)) || (t.Saved? && t.profile.id == WifiId(ssid)))
    case ForgetWifi(ssid) => t == Dropped(WifiId(ssid))
    case Reload(config) => t.Reconfigured? && config == Some(t.unmanaged)
  }

  /** The commands that can end profile `p` on device `d`. */
  predicate CanEnd(s: State, c: Command, d: string, p: string) {
    match c
    case LinkAdded(_, scan, _) => scan.Some? && (!Reports(scan.value, d) || d in s.unmanaged)
    case LinkRemoved(name) => name == d
    case LinkChanged(scan) => scan.Some? && (!Reports(scan.value, d) || d in s.unmanaged)
    case RefreshTick(scan, _) => scan.Some? && (!Reports(scan.value, d) || d in s.unmanaged)
    case DeleteConnection(id, _, _) => id == p
    case DeactivateConnection(id, _) => id == p
    case _ => false
  }

  // ---- What each command does ------------------------------------------------------------

  function ScanSteps(scan: Option<seq<Link>>): seq<Step> {
    if scan.Some? then [Rescanned(scan.value)] else []
  }

  /** The profile an attempt on the named device settles on: the device must be known, free, idle and have a carrier. */
  function AutoChoice(s: State, name: string, answer: Answer): Option<Profile> {
    if name !in s.devices then None
    else
      var d := s.devices[name];
      if d.activeConnection.Some? || d.state !in {Disconnected, Unavailable} || !d.carrier then None
      else
        var sorted := A.RecentFirst(s.connections, answer.used);
        if d.kind == WiFi then A.SelectWifi(sorted, answer.visible) else A.SelectWired(d, sorted)
  }

  predicate Attempts(t: Step, p: Profile, answer: Answer) {
    t.Raising? && t.id == p.id && t.fate == answer.fate
  }

  ghost predicate TriesOnce(s: State, name: string, answer: Answer, ts: seq<Step>) {
    var p := AutoChoice(s, name, answer);
    if p.None? then ts == [] else |ts| == 1 && Legal(s, ts[0]) && Attempts(ts[0], p.value, answer)
  }

  /** What an attempt on a name would activate, and how that would go. */
  type Chooser = (State, string) -> Option<(string, Fate)>

  function Choosing(answers: string -> Answer): Chooser {
    (s: State, name: string) =>
      var p := AutoChoice(s, name, answers(name));
      if p.Some? then Some((p.value.id, answers(name).fate)) else None
  }

  predicate Takes(t: Step, what: (string, Fate)) { t.Raising? && t.id == what.0 && t.fate == what.1 }

  ghost predicate TriesBy(s: State, name: string, choose: Chooser, ts: seq<Step>) {
    var p := choose(s, name);
    if p.None? then ts == [] else |ts| == 1 && Legal(s, ts[0]) && Takes(ts[0], p.value)
  }

  /** One attempt on each name in turn: an activation of what is chosen, or nothing. */
  ghost predicate SweepsBy(s: State, names: seq<string>, choose: Chooser, ts: seq<Step>)
    decreases |names|
  {
    if names == [] then ts == []
    else
      var p := choose(s, names[0]);
      if p.None? then SweepsBy(s, names[1..], choose, ts)
      else
        && ts != [] && Legal(s, ts[0]) && Takes(ts[0], p.value)
        && SweepsBy(Next(s, ts[0]), names[1..], choose, ts[1..])
  }

  /** An attempt on each of the names, in whatever order the hash map yields them. */
  ghost predicate SweepsAll(s: State, names: set<string>, answers: string -> Answer, ts: seq<Step>) {
    exists order: seq<string> ::
      |order| == |names| && (forall n :: n in order <==> n in names) && SweepsBy(s, order, Choosing(answers), ts)
  }

  function WifiNames(s: State): set<string> {
    set d | d in s.devices && s.devices[d].kind == WiFi && s.devices[d].state != Unmanaged
  }

  function UsersOf(s: State, id: string): set<string> {
    set d | d in s.active && s.active[d].profile == id
  }

  /** Exactly the steps a command takes. */
  ghost predicate Does(s: State, c: Command, ts: seq<Step>)
    requires LegalRun(s, ts)
  {
    match c
    case LinkAdded(name, scan, answer) =>
      exists more :: ts == ScanSteps(scan) + more && LegalRun(s, ScanSteps(scan))
                     && TriesOnce(Run(s, ScanSteps(scan)), name, answer, more)
    case LinkRemoved(name) => ts == [Unplugged(name)]
    case LinkChanged(scan) => ts == ScanSteps(scan)
    case WifiTick(answers) => SweepsAll(s, WifiNames(s), answers, ts)
    case RefreshTick(scan, answers) =>
      exists more :: ts == ScanSteps(scan) + more && LegalRun(s, ScanSteps(scan))
                     && SweepsAll(Run(s, ScanSteps(scan)), Run(s, ScanSteps(scan)).devices.Keys, answers, more)
    case AddConnection(p, stored) => ts == if stored then [Saved(p)] else []
    case DeleteConnection(id, tornDown, erased) =>
      var n := if UsersOf(s, id) != {} then 1 else 0;
      && |ts| == n + (if erased then 1 else 0)
      && (n == 1 ==> ts[0].Lowering? && ts[0].id == id && ts[0].tornDown == tornDown)
      && (erased ==> ts[n] == Dropped(id))
    case ActivateConnection(id, fate) => |ts| == 1 && ts[0].Raising? && ts[0].id == id && ts[0].fate == fate
    case DeactivateConnection(id, tornDown) =>
      |ts| == 1 && ts[0].Lowering? && ts[0].id == id && ts[0].tornDown == tornDown
    case ConnectWifi(device, ssid, stored, fate) =>
      if stored then
        |ts| == 2 && ts[0] == Saved(WifiProfile(device, ssid))
        && ts[1].Raising? && ts[1].id == WifiId(ssid) && ts[1].fate == fate
      else ts == []
    case ForgetWifi(ssid) => ts == [Dropped(WifiId(ssid))]
    case Reload(config) => ts == if config.Some? then [Reconfigured(config.value)] else []
  }

  function WifiProfile(device: string, ssid: string): Profile {
    Profile(WifiId(ssid), WiFi, Some(device), true, 0, Some(ssid))
  }

  ghost predicate Carries(s: State, c: Command, ts: seq<Step>, s': State) {
    LegalRun(s, ts) && Run(s, ts) == s' && Does(s, c, ts)
  }

  lemma {:induction false} SweepsRaise(s: State, names: seq<string>, choose: Chooser, ts: seq<Step>)
    requires SweepsBy(s, names, choose, ts)
    ensures LegalRun(s, ts) && forall t <- ts :: t.Raising?
    decreases |names|
  {
    if names != [] {
      if choose(s, names[0]).None? {
        SweepsRaise(s, names[1..], choose, ts);
      } else {
        SweepsRaise(Next(s, ts[0]), names[1..], choose, ts[1..]);
        assert ts == [ts[0]] + ts[1..];
      }
    }
  }

  lemma SweepOne(s: State, name: string, choose: Chooser, ts: seq<Step>)
    requires TriesBy(s, name, choose, ts)
    ensures SweepsBy(s, [name], choose, ts)
  {
    if ts != [] { assert SweepsBy(Next(s, ts[0]), [], choose, ts[1..]); }
  }

  lemma SweepTakes(s: State, names: seq<string>, choose: Chooser, t: Step, later: seq<Step>)
    requires names != [] && choose(s, names[0]).Some? && Legal(s, t) && Takes(t, choose(s, names[0]).value)
    requires SweepsBy(Next(s, t), names[1..], choose, later)
    ensures SweepsBy(s, names, choose, [t] + later)
  {
    assert ([t] + later)[0] == t && ([t] + later)[1..] == later;
  }

  lemma RunHead(s: State, ts: seq<Step>, end: State)
    requires ts != [] && LegalRun(s, ts) && Run(s, ts) == end
    ensures LegalRun(Next(s, ts[0]), ts[1..]) && Run(Next(s, ts[0]), ts[1..]) == end
  {
  }

  /** A sweep extended by one more name. */
  lemma {:induction false} SweepExtends(
    s: State, names: seq<string>, choose: Chooser, ts: seq<Step>, end: State, name: string, more: seq<Step>)
    requires SweepsBy(s, names, choose, ts) && LegalRun(s, ts) && Run(s, ts) == end && TriesBy(end, name, choose, more)
    ensures SweepsBy(s, names + [name], choose, ts + more)
    decreases |names|
  {
    if names == [] {
      assert names + [name] == [name] && ts + more == more;
      SweepOne(s, name, choose, more);
    } else {
      var longer := names + [name];
      assert longer[0] == names[0] && longer[1..] == names[1..] + [name];
      if choose(s, names[0]).None? {
        SweepExtends(s, names[1..], choose, ts, end, name, more);
      } else {
        RunHead(s, ts, end);
        SweepExtends(Next(s, ts[0]), names[1..], choose, ts[1..], end, name, more);
        SweepTakes(s, longer, choose, ts[0], ts[1..] + more);
        assert ts + more == [ts[0]] + (ts[1..] + more);
      }
    }
  }

  lemma SweepsAllRaise(s: State, names: set<string>, answers: string -> Answer, ts: seq<Step>)
    requires SweepsAll(s, names, answers, ts)
    ensures LegalRun(s, ts) && forall t <- ts :: t.Raising?
  {
    var order: seq<string> :| SweepsBy(s, order, Choosing(answers), ts);
    SweepsRaise(s, order, Choosing(answers), ts);
  }

  lemma RefreshIsMadeOf(s: State, c: Command, ts: seq<Step>)
    requires c.RefreshTick? && LegalRun(s, ts) && Does(s, c, ts)
    ensures forall t <- ts :: MadeOf(c, t)
  {
    var first := ScanSteps(c.scan);
    var more: seq<Step> :| ts == first + more && LegalRun(s, first)
                && SweepsAll(Run(s, first), Run(s, first).devices.Keys, c.answers, more);
    SweepsAllRaise(Run(s, first), Run(s, first).devices.Keys, c.answers, more);
  }

  lemma AddedIsMadeOf(s: State, c: Command, ts: seq<Step>)
    requires c.LinkAdded? && LegalRun(s, ts) && Does(s, c, ts)
    ensures forall t <- ts :: MadeOf(c, t)
  {
    var first := ScanSteps(c.scan);
    var more: seq<Step> :| ts == first + more && LegalRun(s, first) && TriesOnce(Run(s, first), c.name, c.answer, more);
    assert forall t <- more :: t.Raising?;
  }

  lemma CommandIsMadeOf(s: State, c: Command, ts: seq<Step>)
    requires LegalRun(s, ts) && Does(s, c, ts)
    ensures forall t <- ts :: MadeOf(c, t)
  {
    match c
    case LinkAdded(_, _, _) => AddedIsMadeOf(s, c, ts);
    case WifiTick(answers) => SweepsAllRaise(s, WifiNames(s), answers, ts);
    case RefreshTick(_, _) => RefreshIsMadeOf(s, c, ts);
    case _ =>
  }

  lemma {:induction false} UnmanagedStays(s: State, ts: seq<Step>, c: Command)
    requires LegalRun(s, ts) && !c.Reload? && forall t <- ts :: MadeOf(c, t)
    ensures Run(s, ts).unmanaged == s.unmanaged
    decreases |ts|
  {
    if ts != [] {
      assert ts[0] in ts && forall t <- ts[1..] :: t in ts;
      UnmanagedStays(Next(s, ts[0]), ts[1..], c);
    }
  }

  /** A command that cannot end a connection contains no step that does. */
  lemma {:induction false} HarmlessSteps(s: State, c: Command, ts: seq<Step>, d: string, p: string)
    requires LegalRun(s, ts) && (forall t <- ts :: MadeOf(c, t)) && !CanEnd(s, c, d, p)
    ensures !EndsSomewhere(s, ts, d, p)
    decreases |ts|
  {
    if ts != [] {
      assert ts[0] in ts && forall t <- ts[1..] :: t in ts;
      if c.Reload? {
        assert !Ends(s, ts[0], d, p);
      } else {
        UnmanagedStays(s, [ts[0]], c);
      }
      HarmlessSteps(Next(s, ts[0]), c, ts[1..], d, p);
    }
  }

  lemma StepsAreSafe(s: State, c: Command, ts: seq<Step>)
    requires Inv(s) && LegalRun(s, ts) && forall t <- ts :: MadeOf(c, t)
    ensures Inv(Run(s, ts))
    ensures forall d, p :: Holds(s, d, p) && !CanEnd(s, c, d, p) ==> Holds(Run(s, ts), d, p)
  {
    RunsKeepInv(s, ts);
    forall d, p | Holds(s, d, p) && !CanEnd(s, c, d, p) ensures Holds(Run(s, ts), d, p) {
      HarmlessSteps(s, c, ts, d, p);
      ConnectionIsStable(s, ts, d, p);
    }
  }

  /** Every command keeps the invariant, and leaves alone every connection it cannot end. */
  lemma CommandIsSafe(s: State, c: Command, ts: seq<Step>, s': State)
    requires Inv(s) && Carries(s, c, ts, s')
    ensures Inv(s')
    ensures forall d, p :: Holds(s, d, p) && !CanEnd(s, c, d, p) ==> Holds(s', d, p)
  {
    CommandIsMadeOf(s, c, ts);
    StepsAreSafe(s, c, ts);
  }

  lemma SweepIsSafe(s: State, names: set<string>, answers: string -> Answer, ts: seq<Step>)
    requires Inv(s) && SweepsAll(s, names, answers, ts)
    ensures LegalRun(s, ts) && Inv(Run(s, ts))
    ensures forall d, p :: Holds(s, d, p) ==> Holds(Run(s, ts), d, p)
  {
    SweepsAllRaise(s, names, answers, ts);
    StepsAreSafe(s, WifiTick(answers), ts);
    assert forall d, p :: !CanEnd(s, WifiTick(answers), d, p);
  }

  ghost predicate Carried(s: State, c: Command, s': State) {
    exists ts :: Carries(s, c, ts, s')
  }

  /** The states between commands, each reached by carrying out the next one. */
  ghost predicate History(commands: seq<Command>, seen: seq<State>) {
    |seen| == |commands| + 1 && forall k :: 0 <= k < |commands| ==> Carried(seen[k], commands[k], seen[k + 1])
  }

  lemma NextInHistory(s: State, c: Command, s': State)
    requires Inv(s) && Carried(s, c, s')
    ensures Inv(s')
    ensures forall d, p :: Holds(s, d, p) && !CanEnd(s, c, d, p) ==> Holds(s', d, p)
  {
    var ts :| Carries(s, c, ts, s');
    CommandIsSafe(s, c, ts, s');
  }

  lemma HoldsOn(s: State, c: Command, s': State, d: string, p: string)
    requires Inv(s) && Carried(s, c, s') && Holds(s, d, p) && !CanEnd(s, c, d, p)
    ensures Holds(s', d, p)
  {
    NextInHistory(s, c, s');
  }

  /** Every state of every history is sound. */
  lemma {:induction false} HistoryIsSound(commands: seq<Command>, seen: seq<State>, k: nat)
    requires History(commands, seen) && Inv(seen[0]) && k < |seen|
    ensures Inv(seen[k])
  {
    if k > 0 {
      HistoryIsSound(commands, seen, k - 1);
      assert Carried(seen[k - 1], commands[k - 1], seen[k - 1 + 1]);
      NextInHistory(seen[k - 1], commands[k - 1], seen[k]);
    }
  }

  lemma HoldsOnEverywhere(commands: seq<Command>, seen: seq<State>, d: string, p: string)
    requires History(commands, seen) && Inv(seen[0])
    ensures forall k :: 0 <= k < |commands| && Holds(seen[k], d, p) && !CanEnd(seen[k], commands[k], d, p) ==>
              Holds(seen[k + 1], d, p)
  {
    forall k | 0 <= k < |commands| && Holds(seen[k], d, p) && !CanEnd(seen[k], commands[k], d, p)
      ensures Holds(seen[k + 1], d, p) {
      HistoryIsSound(commands, seen, k);
      HoldsOn(seen[k], commands[k], seen[k + 1], d, p);
    }
  }

  lemma {:induction false} Persists(
    commands: seq<Command>, seen: seq<State>, first: nat, last: nat, d: string, p: string)
    requires |seen| == |commands| + 1 && first <= last <= |commands| && Holds(seen[first], d, p)
    requires forall k :: 0 <= k < |commands| && Holds(seen[k], d, p) && !CanEnd(seen[k], commands[k], d, p) ==>
               Holds(seen[k + 1], d, p)
    requires forall k :: first <= k < last ==> !CanEnd(seen[k], commands[k], d, p)
    ensures Holds(seen[last], d, p)
    decreases last
  {
    if first < last { Persists(commands, seen, first, last - 1, d, p); }
  }

  /** Over any stretch of commands none of which can end it, a connection stays up. */
  lemma StaysUp(commands: seq<Command>, seen: seq<State>, first: nat, last: nat, d: string, p: string)
    requires History(commands, seen) && Inv(seen[0]) && first <= last <= |commands| && Holds(seen[first], d, p)
    requires forall k :: first <= k < last ==> !CanEnd(seen[k], commands[k], d, p)
    ensures Holds(seen[last], d, p)
  {
    HoldsOnEverywhere(commands, seen, d, p);
    Persists(commands, seen, first, last, d, p);
  }

  // ---- The object ------------------------------------------------------------------------

  class NetworkManager {
    const registry: DeviceRegistry
    var connections: seq<Profile>
    var active: map<string, Active>
    var unmanaged: seq<string>

    ghost function Value(): State
      reads this, registry
    {
      State(registry.devices, connections, active, unmanaged)
    }

    constructor (profiles: seq<Profile>, unmanaged: seq<string>, links: seq<Link>)
      ensures Inv(Value()) && fresh(registry)
      ensures Value() == State(Rescan(map[], links, unmanaged), profiles, map[], unmanaged)
    {
      registry := new DeviceRegistry();
      connections, active := profiles, map[];
      this.unmanaged := unmanaged;
      new;
      registry.Refresh(Some(links), unmanaged);
      RescanKeepsInv(State(map[], profiles, map[], unmanaged), links);
    }

    method Refresh(scan: Option<seq<Link>>) returns (ghost ts: seq<Step>)
      modifies registry
      ensures ts == ScanSteps(scan) && LegalRun(old(Value()), ts) && Value() == Run(old(Value()), ts)
    {
      registry.Refresh(scan, unmanaged);
      ts := ScanSteps(scan);
    }

    /** Walks the devices in whatever order the hash map yields them. */
    method FindDevice(p: Profile) returns (r: Option<string>)
      ensures r.Some? ==> r.value in registry.devices && Fits(registry.devices[r.value], p)
      ensures r.None? ==> forall d <- registry.devices :: !Fits(registry.devices[d], p)
    {
      var left := registry.devices.Keys;
      while left != {}
        invariant left <= registry.devices.Keys
        invariant forall d <- registry.devices :: d !in left ==> !Fits(registry.devices[d], p)
      {
        var d :| d in left;
        if Fits(registry.devices[d], p) { return Some(d); }
        left := left - {d};
      }
      r := None;
    }

    method FindActive(id: string) returns (r: Option<string>)
      ensures r.Some? ==> r.value in active && active[r.value].profile == id
      ensures r.None? ==> forall d <- active :: active[d].profile != id
    {
      var left := active.Keys;
      while left != {}
        invariant left <= active.Keys
        invariant forall d <- active :: d !in left ==> active[d].profile != id
      {
        var d :| d in left;
        if active[d].profile == id { return Some(d); }
        left := left - {d};
      }
      r := None;
    }

    method ActivateProfile(id: string, fate: Fate) returns (ok: bool, ghost t: Step)
      modifies this, registry
      ensures t.Raising? && t.id == id && t.fate == fate
      ensures Legal(old(Value()), t) && Value() == Next(old(Value()), t)
      ensures ok <==> t.chosen.Some? && Succeeds(Lookup(old(connections), id).value, fate)
      ensures ok ==> Holds(Value(), t.chosen.value, id)
    {
      var p := Lookup(connections, id);
      if p.None? { return false, Raising(id, None, fate); }
      var name := FindDevice(p.value);
      t := Raising(id, name, fate);
      if name.None? { return false, t; }
      var device, done, interface := Activate(p.value, registry.devices[name.value], fate);
      registry.Put(name.value, device);
      if done {
        active := active[name.value := Active(id, interface)];
      } else {
        registry.Put(name.value, device.(state := Failed));
      }
      ok := done;
    }

    method DeactivateProfile(id: string, tornDown: bool) returns (ok: bool, ghost t: Step)
      modifies this, registry
      ensures t.Lowering? && t.id == id && t.tornDown == tornDown
      ensures Legal(old(Value()), t) && Value() == Next(old(Value()), t)
      ensures ok <==> t.chosen.Some? && t.chosen.value in old(registry.devices) && tornDown
    {
      var name := FindActive(id);
      t := Lowering(id, name, tornDown);
      if name.None? { return false, t; }
      active := active - {name.value};
      if name.value !in registry.devices { return false, t; }
      var device := Deactivate(registry.devices[name.value], tornDown);
      registry.Put(name.value, device);
      ok := tornDown;
    }

    /** At most one activation, and only when the named device is free, managed and has a carrier. */
    method TryAutoconnect(name: string, answer: Answer) returns (ghost ts: seq<Step>)
      modifies this, registry
      ensures TriesOnce(old(Value()), name, answer, ts)
      ensures LegalRun(old(Value()), ts) && Value() == Run(old(Value()), ts)
    {
      ts := [];
      if name !in registry.devices { return; }
      var device := registry.devices[name];
      if device.state == Unmanaged || device.activeConnection.Some? { return; }
      if device.state != Disconnected && device.state != Unavailable { return; }
      if !device.carrier { return; }
      var sorted := A.RecentFirst(connections, answer.used);
      var chosen := if device.kind == WiFi then A.SelectWifi(sorted, answer.visible)
                    else A.SelectWired(device, sorted);
      if chosen.Some? {
        var ok;
        ghost var t;
        ok, t := ActivateProfile(chosen.value.id, answer.fate);
        ts := [t];
      }
    }

    method AutoconnectAll(names: set<string>, answers: string -> Answer) returns (ghost ts: seq<Step>)
      modifies this, registry
      ensures SweepsAll(old(Value()), names, answers, ts)
      ensures LegalRun(old(Value()), ts) && Value() == Run(old(Value()), ts)
    {
      ts := [];
      var left := names;
      ghost var done: seq<string> := [];
      while left != {}
        invariant left <= names && |done| == |names| - |left|
        invariant forall n :: n in done <==> n in names && n !in left
        invariant SweepsBy(old(Value()), done, Choosing(answers), ts)
        invariant LegalRun(old(Value()), ts) && Value() == Run(old(Value()), ts)
      {
        var name :| name in left;
        ghost var more := TryAutoconnect(name, answers(name));
        SweepExtends(old(Value()), done, Choosing(answers), ts, Run(old(Value()), ts), name, more);
        RunJoins(old(Value()), ts, more);
        ts := ts + more;
        done := done + [name];
        left := left - {name};
      }
    }

    method HandleHotplug(c: Command) returns (ghost ts: seq<Step>)
      requires c.LinkAdded? || c.LinkRemoved? || c.LinkChanged?
      modifies this, registry
      ensures Carries(old(Value()), c, ts, Value())
    {
      match c
      case LinkAdded(name, scan, answer) =>
        ts := Refresh(scan);
        ghost var more := TryAutoconnect(name, answer);
        RunJoins(old(Value()), ts, more);
        ts := ts + more;
      case LinkRemoved(name) =>
        active := active - {name};
        registry.Remove(name);
        ts := [Unplugged(name)];
      case LinkChanged(scan) =>
        ts := Refresh(scan);
    }

    method HandleTick(c: Command) returns (ghost ts: seq<Step>)
      requires c.WifiTick? || c.RefreshTick?
      modifies this, registry
      ensures Carries(old(Value()), c, ts, Value())
    {
      match c
      case WifiTick(answers) =>
        var names := set d | d in registry.devices && registry.devices[d].kind == WiFi
                          && registry.devices[d].state != Unmanaged;
        assert names == WifiNames(Value());
        ts := AutoconnectAll(names, answers);
      case RefreshTick(scan, answers) =>
        ts := Refresh(scan);
        ghost var scanned := Value();
        ghost var more := AutoconnectAll(registry.devices.Keys, answers);
        RunJoins(old(Value()), ts, more);
        assert SweepsAll(scanned, scanned.devices.Keys, answers, more);
        ts := ts + more;
    }

    method StoreProfile(p: Profile) returns (ghost t: Step)
      modifies this
      ensures t == Saved(p) && Value() == Next(old(Value()), t)
    {
      connections := WithoutProfile(connections, p.id);
      connections := connections + [p];
      t := Saved(p);
    }

    method Delete(id: string, tornDown: bool, erased: bool) returns (ghost ts: seq<Step>)
      modifies this, registry
      ensures Carries(old(Value()), DeleteConnection(id, tornDown, erased), ts, Value())
    {
      ts := [];
      var user := FindActive(id);
      if user.Some? {
        assert user.value in UsersOf(Value(), id);
        var ok;
        ghost var t;
        ok, t := DeactivateProfile(id, tornDown);
        ts := [t];
      }
      ghost var more := if erased then [Dropped(id)] else [];
      RunJoins(old(Value()), ts, more);
      if erased { connections := WithoutProfile(connections, id); }
      ts := ts + more;
    }

    method JoinWifi(device: string, ssid: string, fate: Fate) returns (ghost ts: seq<Step>)
      modifies this, registry
      ensures Carries(old(Value()), ConnectWifi(device, ssid, true, fate), ts, Value())
    {
      ghost var t := StoreProfile(WifiProfile(device, ssid));
      var ok;
      ghost var u;
      ok, u := ActivateProfile(WifiId(ssid), fate);
      RunJoins(old(Value()), [t], [u]);
      ts := [t] + [u];
    }

    method HandleRequest(c: Command) returns (ghost ts: seq<Step>)
      requires !c.LinkAdded? && !c.LinkRemoved? && !c.LinkChanged? && !c.WifiTick? && !c.RefreshTick?
      modifies this, registry
      ensures Carries(old(Value()), c, ts, Value())
    {
      ts := [];
      match c
      case AddConnection(profile, stored) =>
        if stored {
          ghost var t := StoreProfile(profile);
          ts := [t];
        }
      case DeleteConnection(id, tornDown, erased) => ts := Delete(id, tornDown, erased);
      case ActivateConnection(id, fate) =>
        var ok;
        ghost var t;
        ok, t := ActivateProfile(id, fate);
        ts := [t];
      case DeactivateConnection(id, tornDown) =>
        var ok;
        ghost var t;
        ok, t := DeactivateProfile(id, tornDown);
        ts := [t];
      case ConnectWifi(device, ssid, stored, fate) =>
        if stored { ts := JoinWifi(device, ssid, fate); }
      case ForgetWifi(ssid) =>
        connections := WithoutProfile(connections, WifiId(ssid));
        ts := [Dropped(WifiId(ssid))];
      case Reload(config) =>
        if config.Some? {
          unmanaged := config.value;
          ts := [Reconfigured(config.value)];
        }
    }

    method HandleCommand(c: Command)
      modifies this, registry
      ensures Carried(old(Value()), c, Value())
    {
      ghost var ts: seq<Step>;
      if c.LinkAdded? || c.LinkRemoved? || c.LinkChanged? {
        ts := HandleHotplug(c);
      } else if c.WifiTick? || c.RefreshTick? {
        ts := HandleTick(c);
      } else {
        ts := HandleRequest(c);
      }
      assert Carries(old(Value()), c, ts, Value());
    }

    method Attend(commands: seq<Command>) returns (ghost seen: seq<State>)
      modifies this, registry
      ensures History(commands, seen) && seen[0] == old(Value()) && seen[|commands|] == Value()
    {
      seen := [Value()];
      var i := 0;
      while i < |commands|
        invariant 0 <= i <= |commands| && |seen| == i + 1 && seen[0] == old(Value()) && seen[i] == Value()
        invariant History(commands[..i], seen)
      {
        HandleCommand(commands[i]);
        HistoryGrows(commands[..i], seen, commands[i], Value());
        assert commands[..i] + [commands[i]] == commands[..i + 1];
        seen := seen + [Value()];
        i := i + 1;
      }
      assert commands[..i] == commands;
    }

    /** One autoconnect sweep over every device, then the command loop. */
    method Serve(answers: string -> Answer, commands: seq<Command>)
      returns (ghost ts: seq<Step>, ghost seen: seq<State>)
      requires Inv(Value())
      modifies this, registry
      ensures SweepsAll(old(Value()), old(registry.devices).Keys, answers, ts)
      ensures LegalRun(old(Value()), ts) && History(commands, seen)
      ensures seen[0] == Run(old(Value()), ts) && seen[|commands|] == Value()
      ensures Inv(seen[0]) && forall d, p :: Holds(old(Value()), d, p) ==> Holds(seen[0], d, p)
    {
      ts := AutoconnectAll(registry.devices.Keys, answers);
      SweepIsSafe(old(Value()), old(registry.devices).Keys, answers, ts);
      seen := Attend(commands);
    }
  }

  lemma HistoryGrows(commands: seq<Command>, seen: seq<State>, c: Command, s': State)
    requires History(commands, seen) && Carried(seen[|commands|], c, s')
    ensures History(commands + [c], seen + [s'])
  {
    var grown := seen + [s'];
    forall k | 0 <= k < |commands| + 1 ensures Carried(grown[k], (commands + [c])[k], grown[k + 1]) {
      if k < |commands| { assert Carried(seen[k], commands[k], seen[k + 1]); }
    }
  }
}
