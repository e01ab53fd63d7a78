/** Network devices, the registry that rescans them, and the device's side of activation and teardown. */
module Devices {
  import opened Wrappers

  datatype DeviceType =
    | Ethernet | WiFi | Loopback | Bridge | Bond | Vlan | Tunnel | Vpn | Bluetooth | Virtual | Unknown

  datatype DeviceState =
    | Unmanaged | Unavailable | Disconnected | Connecting | IpConfiguring | Activated | Deactivating | Failed

  datatype Device = Device(
    name: string, kind: DeviceType, state: DeviceState, carrier: bool, activeConnection: Option<string>)

  /** What the kernel reports about one interface. */
  datatype Link = Link(name: string, kind: DeviceType, up: bool, carrier: bool)

  datatype Profile = Profile(
    id: string, kind: DeviceType, interface: Option<string>, autoconnect: bool, priority: int, ssid: Option<string>)

  // ---- Rescanning --------------------------------------------------------------------

  function Discovered(l: Link): Device {
    Device(l.name, l.kind, if l.up && l.carrier then Disconnected else Unavailable, l.carrier, None)
  }

  /** One scanned interface as it enters the new registry. */
  function Refreshed(before: map<string, Device>, l: Link, unmanaged: seq<string>): Device {
    var dev := Discovered(l);
    if l.name in unmanaged then dev.(state := Unmanaged)
    else if l.name in before then
      dev.(state := before[l.name].state, activeConnection := before[l.name].activeConnection)
    else dev
  }

  /** The registry after a scan; an interface reported twice keeps its last report. */
  function Rescan(before: map<string, Device>, links: seq<Link>, unmanaged: seq<string>): map<string, Device> {
    if links == [] then map[]
    else
      var last := links[|links| - 1];
      Rescan(before, links[..|links| - 1], unmanaged)[last.name := Refreshed(before, last, unmanaged)]
  }

  predicate Reports(links: seq<Link>, name: string) {
    exists i :: 0 <= i < |links| && links[i].name == name
  }

  /** A scan lists exactly the reported interfaces, and keeps the policy state of those it knew and manages. */
  lemma {:induction false} RescanIsFaithful(
    before: map<string, Device>, links: seq<Link>, unmanaged: seq<string>, name: string)
    ensures name in Rescan(before, links, unmanaged) <==> Reports(links, name)
    ensures name in Rescan(before, links, unmanaged) ==>
              var d := Rescan(before, links, unmanaged)[name];
              && d.name == name
              && (name in unmanaged ==> d.state == Unmanaged && d.activeConnection == None)
              && (name !in unmanaged && name in before ==>
                    d.state == before[name].state && d.activeConnection == before[name].activeConnection)
              && (name !in unmanaged && name !in before ==>
                    d.state in {Disconnected, Unavailable} && d.activeConnection == None)
  {
    if links != [] {
      var n := |links| - 1;
      RescanIsFaithful(before, links[..n], unmanaged, name);
      if Reports(links, name) && links[n].name != name {
        var i :| 0 <= i < |links| && links[i].name == name;
        assert links[..n][i].name == name;
      }
      if Reports(links[..n], name) {
        var i :| 0 <= i < n && links[..n][i].name == name;
        assert links[i].name == name;
      }
      assert links[n].name == name ==> Reports(links, name);
    }
  }

  class DeviceRegistry {
    var devices: map<string, Device>

    constructor ()
      ensures devices == map[]
    {
      devices := map[];
    }

    /** Rescans; a scan that failed changes nothing. */
    method Refresh(scan: Option<seq<Link>>, unmanaged: seq<string>)
      modifies this
      ensures devices == if scan.Some? then Rescan(old(devices), scan.value, unmanaged) else old(devices)
    {
      if scan.None? { return; }
      var links := scan.value;
      var next: map<string, Device> := map[];
      var i := 0;
      while i < |links|
        invariant 0 <= i <= |links| && devices == old(devices)
        invariant next == Rescan(devices, links[..i], unmanaged)
      {
        var dev := Discovered(links[i]);
        if dev.name in unmanaged {
          dev := dev.(state := Unmanaged);
        } else if dev.name in devices {
          dev := dev.(state := devices[dev.name].state);
          dev := dev.(activeConnection := devices[dev.name].activeConnection);
        }
        assert links[..i + 1][..i] == links[..i];
        next := next[dev.name := dev];
        i := i + 1;
      }
      assert links[..i] == links;
      devices := next;
    }

    method Remove(name: string)
      modifies this
      ensures devices == old(devices) - {name}
    {
      devices := devices - {name};
    }

    method Put(name: string, d: Device)
      modifies this
      ensures devices == old(devices)[name := d]
    {
      devices := devices[name := d];
    }
  }

  // ---- One device, up and down -----------------------------------------------------------

  /**
   * How the outside steps of an activation went: everything up to the link being usable, everything
   * from address configuration on, and the interface a tunnel session reported.
   */
  datatype Fate = Fate(link: bool, addressing: bool, session: string)

  predicate Succeeds(p: Profile, f: Fate) {
    f.link && (p.kind != Vpn ==> f.addressing)
  }

  /** Brings a device up for a profile, writing its state at every stage; a failure leaves the last stage written. */
  method Activate(p: Profile, device: Device, f: Fate) returns (after: Device, ok: bool, interface: string)
    ensures ok == Succeeds(p, f)
    ensures ok ==> after == device.(state := Activated, activeConnection := Some(p.id))
    ensures ok ==> interface == if p.kind == Vpn then f.session else device.name
    ensures !ok ==> after == device.(state := if f.link then IpConfiguring else Connecting)
  {
    after, ok, interface := device.(state := Connecting), false, device.name;
    if !f.link { return; }
    if p.kind == Vpn {
      after := after.(state := Activated);
      after := after.(activeConnection := Some(p.id));
      return after, true, f.session;
    }
    after := after.(state := IpConfiguring);
    if !f.addressing { return; }
    after := after.(state := Activated);
    after := after.(activeConnection := Some(p.id));
    ok := true;
  }

  /** Tears a device down; when an outside step fails it stays Deactivating with its connection still named. */
  method Deactivate(device: Device, tornDown: bool) returns (after: Device)
    ensures after == if tornDown then device.(state := Disconnected, activeConnection := None)
                     else device.(state := Deactivating)
  {
    after := device.(state := Deactivating);
    if !tornDown { return; }
    after := after.(state := Disconnected);
    after := after.(activeConnection := None);
  }
}
