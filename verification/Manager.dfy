/** The manager as a state machine: its devices, profiles and active connections under every run of steps. */
module Manager {
  import opened Wrappers
  import opened Devices

  /** An entry of the active map: the profile, and the interface its session reported. */
  datatype Active = Active(profile: string, interface: string)

  datatype State = State(
    devices: map<string, Device>, connections: seq<Profile>, active: map<string, Active>, unmanaged: seq<string>)

  /**
   * One step, with what the outside decided: the scan, how far an activation got, whether a teardown
   * worked, and which of several candidates the hash map happened to yield.
   */
  datatype Step =
    | Rescanned(links: seq<Link>)
    | Unplugged(name: string)
    | Raising(id: string, chosen: Option<string>, fate: Fate)
    | Lowering(id: string, chosen: Option<string>, tornDown: bool)
    | Saved(profile: Profile)
    | Dropped(id: string)
    | Reconfigured(unmanaged: seq<string>)

  function Lookup(ps: seq<Profile>, id: string): (r: Option<Profile>)
    ensures r.Some? ==> r.value in ps && r.value.id == id
    ensures r.None? ==> forall p <- ps :: p.id != id
  {
    if ps == [] then None
    else if ps[0].id == id then Some(ps[0])
    else
      assert ps == [ps[0]] + ps[1..];
      Lookup(ps[1..], id)
  }

  /** A free device of the profile's type, and the pinned one if the profile pins one. */
  predicate Fits(d: Device, p: Profile) {
    d.kind == p.kind && d.activeConnection == None && (p.interface.Some? ==> p.interface.value == d.name)
  }

  function WithoutProfile(ps: seq<Profile>, id: string): seq<Profile> {
    if ps == [] then []
    else if ps[0].id == id then WithoutProfile(ps[1..], id)
    else [ps[0]] + WithoutProfile(ps[1..], id)
  }

  /** The outside's choices must be possible ones. */
  ghost predicate Legal(s: State, t: Step) {
    match t
    case Raising(id, chosen, _) =>
      var p := Lookup(s.connections, id);
      if chosen.Some? then p.Some? && chosen.value in s.devices && Fits(s.devices[chosen.value], p.value)
      else p.Some? ==> forall d <- s.devices :: !Fits(s.devices[d], p.value)
    case Lowering(id, chosen, _) =>
      if chosen.Some? then chosen.value in s.active && s.active[chosen.value].profile == id
      else forall d <- s.active :: s.active[d].profile != id
    case _ => true
  }

  function Raised(s: State, p: Profile, name: string, f: Fate): State
    requires name in s.devices
  {
    var d := s.devices[name];
    if Succeeds(p, f) then
      s.(devices := s.devices[name := d.(state := Activated, activeConnection := Some(p.id))],
         active := s.active[name := Active(p.id, if p.kind == Vpn then f.session else d.name)])
    else s.(devices := s.devices[name := d.(state := Failed)])
  }

  function Lowered(s: State, name: string, tornDown: bool): State {
    var s' := s.(active := s.active - {name});
    if name !in s.devices then s'
    else
      var d := s.devices[name];
      s'.(devices := s.devices[name := if tornDown then d.(state := Disconnected, activeConnection := None)
                                       else d.(state := Deactivating)])
  }

  ghost function Next(s: State, t: Step): State
    requires Legal(s, t)
  {
    match t
    case Rescanned(links) => s.(devices := Rescan(s.devices, links, s.unmanaged))
    case Unplugged(name) => s.(active := s.active - {name}, devices := s.devices - {name})
    case Raising(id, chosen, fate) =>
      if chosen.Some? then Raised(s, Lookup(s.connections, id).value, chosen.value, fate) else s
    case Lowering(_, chosen, tornDown) =>
      if chosen.Some? then Lowered(s, chosen.value, tornDown) else s
    case Saved(p) => s.(connections := WithoutProfile(s.connections, p.id) + [p])
    case Dropped(id) => s.(connections := WithoutProfile(s.connections, id))
    case Reconfigured(unmanaged) => s.(unmanaged := unmanaged)
  }

  // ---- Runs ------------------------------------------------------------------------------

  ghost predicate LegalRun(s: State, ts: seq<Step>)
    decreases |ts|
  {
    ts == [] || (Legal(s, ts[0]) && LegalRun(Next(s, ts[0]), ts[1..]))
  }

  ghost function Run(s: State, ts: seq<Step>): State
    requires LegalRun(s, ts)
    decreases |ts|
  {
    if ts == [] then s else Run(Next(s, ts[0]), ts[1..])
  }

  /** A run continued by another. */
  lemma {:induction false} RunJoins(s: State, ts: seq<Step>, us: seq<Step>)
    requires LegalRun(s, ts) && LegalRun(Run(s, ts), us)
    ensures LegalRun(s, ts + us) && Run(s, ts + us) == Run(Run(s, ts), us)
    decreases |ts|
  {
    if ts == [] {
      assert ts + us == us;
    } else {
      assert (ts + us)[0] == ts[0] && (ts + us)[1..] == ts[1..] + us;
      RunJoins(Next(s, ts[0]), ts[1..], us);
    }
  }

  // ---- The invariant ---------------------------------------------------------------------

  /** A device at rest: never mid-activation, connected only while up or coming down, and never up unrecorded. */
  ghost predicate AtRest(s: State, d: string)
    requires d in s.devices
  {
    var dev := s.devices[d];
    && dev.name == d
    && dev.state !in {Connecting, IpConfiguring}
    && (dev.activeConnection.Some? ==> dev.state in {Activated, Deactivating})
    && (dev.state == Activated ==>
          dev.activeConnection.Some? && d in s.active && s.active[d].profile == dev.activeConnection.value)
  }

  ghost predicate Inv(s: State) {
    forall d <- s.devices :: AtRest(s, d)
  }

  lemma RescanKeepsInv(s: State, links: seq<Link>)
    requires Inv(s)
    ensures Inv(Next(s, Rescanned(links)))
  {
    var s' := Next(s, Rescanned(links));
    forall d | d in s'.devices ensures AtRest(s', d) {
      RescanIsFaithful(s.devices, links, s.unmanaged, d);
      assert d in s.devices ==> AtRest(s, d);
    }
  }

  lemma StepKeepsInv(s: State, t: Step)
    requires Inv(s) && Legal(s, t)
    ensures Inv(Next(s, t))
  {
    if t.Rescanned? {
      RescanKeepsInv(s, t.links);
    } else {
      var s' := Next(s, t);
      forall d | d in s'.devices ensures AtRest(s', d) {
        assert AtRest(s, d);
      }
    }
  }

  lemma {:induction false} RunsKeepInv(s: State, ts: seq<Step>)
    requires Inv(s) && LegalRun(s, ts)
    ensures Inv(Run(s, ts))
    decreases |ts|
  {
    if ts != [] {
      StepKeepsInv(s, ts[0]);
      RunsKeepInv(Next(s, ts[0]), ts[1..]);
    }
  }

  // ---- Stability of an established connection -----------------------------------------------

  ghost predicate Holds(s: State, d: string, p: string) {
    d in s.devices && s.devices[d].state == Activated && s.devices[d].activeConnection == Some(p)
  }

  /** The steps that end profile `p` on device `d`; everything else is someone else's business. */
  predicate Ends(s: State, t: Step, d: string, p: string) {
    match t
    case Rescanned(links) => !Reports(links, d) || d in s.unmanaged
    case Unplugged(name) => name == d
    case Lowering(id, chosen, _) => id == p && chosen == Some(d)
    case _ => false
  }

  /** A step ends an established connection exactly when it is one of those. */
  lemma EndsExactly(s: State, t: Step, d: string, p: string)
    requires Inv(s) && Legal(s, t) && Holds(s, d, p)
    ensures Holds(Next(s, t), d, p) <==> !Ends(s, t, d, p)
  {
    assert AtRest(s, d);
    if t.Rescanned? { RescanIsFaithful(s.devices, t.links, s.unmanaged, d); }
  }

  ghost predicate EndsSomewhere(s: State, ts: seq<Step>, d: string, p: string)
    requires LegalRun(s, ts)
    decreases |ts|
  {
    ts != [] && (Ends(s, ts[0], d, p) || EndsSomewhere(Next(s, ts[0]), ts[1..], d, p))
  }

  ghost predicate HoldsThroughout(s: State, ts: seq<Step>, d: string, p: string)
    requires LegalRun(s, ts)
    decreases |ts|
  {
    Holds(s, d, p) && (ts != [] ==> HoldsThroughout(Next(s, ts[0]), ts[1..], d, p))
  }

  /** Over whole runs: a connection stays up at every step exactly when no step is one that ends it. */
  lemma {:induction false} ConnectionIsStable(s: State, ts: seq<Step>, d: string, p: string)
    requires Inv(s) && LegalRun(s, ts) && Holds(s, d, p)
    ensures HoldsThroughout(s, ts, d, p) <==> !EndsSomewhere(s, ts, d, p)
    ensures HoldsThroughout(s, ts, d, p) ==> Holds(Run(s, ts), d, p)
    decreases |ts|
  {
    if ts != [] {
      EndsExactly(s, ts[0], d, p);
      StepKeepsInv(s, ts[0]);
      if !Ends(s, ts[0], d, p) { ConnectionIsStable(Next(s, ts[0]), ts[1..], d, p); }
    }
  }

  /** And it comes up by activation only: no other step makes a device Activated on a profile. */
  lemma OnlyRaisingConnects(s: State, t: Step, d: string, p: string)
    requires Inv(s) && Legal(s, t) && !Holds(s, d, p)
    ensures Holds(Next(s, t), d, p)
            <==> t.Raising? && t.id == p && t.chosen == Some(d)
                 && Succeeds(Lookup(s.connections, p).value, t.fate)
  {
    if t.Rescanned? {
      RescanIsFaithful(s.devices, t.links, s.unmanaged, d);
    }
    assert d in s.devices ==> AtRest(s, d);
  }

  // ---- The active map against the registry ------------------------------------------------------

  /** The active map lists exactly the devices that carry a connection, under the same profile. */
  ghost predicate Agree(s: State) {
    && (forall d <- s.active :: d in s.devices && s.devices[d].activeConnection == Some(s.active[d].profile))
    && (forall d <- s.devices :: s.devices[d].activeConnection.Some? ==> d in s.active)
  }

  /** A failed teardown, or a scan that loses or unmanages a device in use. */
  ghost predicate Strands(s: State, t: Step) {
    match t
    case Rescanned(links) => exists d :: d in s.active && (!Reports(links, d) || d in s.unmanaged)
    case Lowering(_, chosen, tornDown) => chosen.Some? && !tornDown
    case _ => false
  }

  lemma RescanStrands(s: State, links: seq<Link>)
    requires Inv(s) && Agree(s)
    ensures Agree(Next(s, Rescanned(links))) <==> !Strands(s, Rescanned(links))
  {
    var s' := Next(s, Rescanned(links));
    forall d ensures d in s'.devices <==> Reports(links, d)
             ensures d in s'.devices ==> d !in s.unmanaged && d in s.devices ==>
                       s'.devices[d].activeConnection == s.devices[d].activeConnection
             ensures d in s'.devices && (d in s.unmanaged || d !in s.devices) ==> s'.devices[d].activeConnection == None
    {
      RescanIsFaithful(s.devices, links, s.unmanaged, d);
    }
  }

  /** The two views part exactly at those steps. */
  lemma AgreementIsLostExactly(s: State, t: Step)
    requires Inv(s) && Agree(s) && Legal(s, t)
    ensures Agree(Next(s, t)) <==> !Strands(s, t)
  {
    match t
    case Rescanned(links) => RescanStrands(s, links);
    case Lowering(_, chosen, tornDown) =>
      if chosen.Some? && !tornDown {
        var d := chosen.value;
        assert Next(s, t).devices[d].activeConnection.Some?;
      }
    case _ =>
  }

  // ---- Profiles -------------------------------------------------------------------------------

  lemma {:induction false} DroppedIsGone(ps: seq<Profile>, gone: string, id: string)
    ensures Lookup(WithoutProfile(ps, gone), id) == if id == gone then None else Lookup(ps, id)
  {
    if ps != [] {
      DroppedIsGone(ps[1..], gone, id);
      var kept := [ps[0]] + WithoutProfile(ps[1..], gone);
      assert kept[0] == ps[0] && kept[1..] == WithoutProfile(ps[1..], gone);
    }
  }

  lemma {:induction false} LastIsFoundLast(ps: seq<Profile>, p: Profile, id: string)
    ensures Lookup(ps + [p], id)
            == if Lookup(ps, id).Some? then Lookup(ps, id) else if p.id == id then Some(p) else None
  {
    if ps == [] {
      assert ps + [p] == [p] && [p][1..] == [];
    } else {
      assert (ps + [p])[1..] == ps[1..] + [p];
      LastIsFoundLast(ps[1..], p, id);
    }
  }

  /** Only saving and dropping change what an id means, each for its own id alone. */
  lemma ProfilesFollow(s: State, t: Step, id: string)
    requires Legal(s, t)
    ensures Lookup(Next(s, t).connections, id)
            == match t
               case Saved(p) => if id == p.id then Some(p) else Lookup(s.connections, id)
               case Dropped(gone) => if id == gone then None else Lookup(s.connections, id)
               case _ => Lookup(s.connections, id)
  {
    match t
    case Saved(p) =>
      DroppedIsGone(s.connections, p.id, id);
      LastIsFoundLast(WithoutProfile(s.connections, p.id), p, id);
    case Dropped(gone) => DroppedIsGone(s.connections, gone, id);
    case _ =>
  }
}
