/** The WG_CMD_SET_DEVICE message: attributes nested four deep around keys and allowed addresses. */
module WireGuard {
  import opened Wrappers
  import opened Bytes
  import opened Netlink

  datatype Ip = V4(octets: seq<Byte>) | V6(octets: seq<Byte>)

  predicate WellSized(a: Ip) {
    |a.octets| == if a.V4? then 4 else 16
  }

  datatype Endpoint = Endpoint(ip: Ip, port: U16)

  datatype AllowedIp = AllowedIp(ip: Ip, prefixlen: Byte)

  datatype Device = Device(
    ifname: seq<Byte>, privateKey: seq<Byte>, listenPort: Option<U16>,
    peerKey: seq<Byte>, endpoint: Endpoint, keepalive: U16, allowed: seq<AllowedIp>)

  const WG_CMD_SET_DEVICE: Byte := 1

  const WGDEVICE_A_IFNAME: U16 := 2
  const WGDEVICE_A_PRIVATE_KEY: U16 := 3
  const WGDEVICE_A_FLAGS: U16 := 5
  const WGDEVICE_A_LISTEN_PORT: U16 := 6
  const WGDEVICE_A_PEERS: U16 := 8
  const WGPEER_A_PUBLIC_KEY: U16 := 1
  const WGPEER_A_FLAGS: U16 := 3
  const WGPEER_A_ENDPOINT: U16 := 4
  const WGPEER_A_KEEPALIVE: U16 := 5
  const WGPEER_A_ALLOWEDIPS: U16 := 9
  const WGALLOWEDIP_A_FAMILY: U16 := 1
  const WGALLOWEDIP_A_IPADDR: U16 := 2
  const WGALLOWEDIP_A_CIDR_MASK: U16 := 3

  const AF_INET: U16 := 2
  const AF_INET6: U16 := 10

  function Family(a: Ip): U16 { if a.V4? then AF_INET else AF_INET6 }

  // ---- Socket addresses ------------------------------------------------------------

  /** `sockaddr_in` or `sockaddr_in6`: native family, port and address in network order. */
  function Sockaddr(e: Endpoint): seq<Byte> {
    if e.ip.V4? then Le16(AF_INET) + (Be16(e.port) + (e.ip.octets + (Zeros(8) + [])))
    else Le16(AF_INET6) + (Be16(e.port) + (Zeros(4) + (e.ip.octets + Zeros(4))))
  }

  /** The kernel's reading of it. */
  function ReadSockaddr(b: seq<Byte>): Option<Endpoint> {
    if |b| == 16 && FromLe16(b[..2]) == AF_INET then Some(Endpoint(V4(b[4..8]), FromBe16(b[2..4])))
    else if |b| == 28 && FromLe16(b[..2]) == AF_INET6 then Some(Endpoint(V6(b[8..24]), FromBe16(b[2..4])))
    else None
  }

  lemma SockaddrRoundTrip(e: Endpoint)
    requires WellSized(e.ip)
    ensures ReadSockaddr(Sockaddr(e)) == Some(e)
  {
    if e.ip.V4? {
      Pieces(Le16(AF_INET), Be16(e.port), e.ip.octets, Zeros(8), []);
    } else {
      var b := Sockaddr(e);
      Pieces(Le16(AF_INET6), Be16(e.port), Zeros(4), [], e.ip.octets + Zeros(4));
      assert [] + (e.ip.octets + Zeros(4)) == e.ip.octets + Zeros(4);
      assert b[8..] == e.ip.octets + Zeros(4) && b[8..24] == b[8..][..16];
    }
  }

  // ---- The message -----------------------------------------------------------------

  function EntryAttrs(a: AllowedIp): Attrs {
    [(WGALLOWEDIP_A_FAMILY, Le16(Family(a.ip))), (WGALLOWEDIP_A_IPADDR, a.ip.octets),
     (WGALLOWEDIP_A_CIDR_MASK, [a.prefixlen])]
  }

  /** Entry `i` under its own index, cut to sixteen bits. */
  function AllowedAttrs(allowed: seq<AllowedIp>): (r: Attrs)
    ensures |r| == |allowed|
    ensures forall i :: 0 <= i < |r| ==> r[i] == (i % 0x1_0000, Chain(EntryAttrs(allowed[i])))
  {
    seq(|allowed|, i requires 0 <= i < |allowed| => (i % 0x1_0000, Chain(EntryAttrs(allowed[i]))))
  }

  function PeerAttrs(d: Device): Attrs {
    [(WGPEER_A_PUBLIC_KEY, d.peerKey), (WGPEER_A_FLAGS, Le32(2)), (WGPEER_A_ENDPOINT, Sockaddr(d.endpoint)),
     (WGPEER_A_KEEPALIVE, Le16(d.keepalive)), (WGPEER_A_ALLOWEDIPS, Chain(AllowedAttrs(d.allowed)))]
  }

  function PeersAttrs(d: Device): Attrs { [(0, Chain(PeerAttrs(d)))] }

  function NamedAttrs(d: Device): Attrs {
    [(WGDEVICE_A_IFNAME, d.ifname + [0]), (WGDEVICE_A_PRIVATE_KEY, d.privateKey)]
    + if d.listenPort.Some? then [(WGDEVICE_A_LISTEN_PORT, Le16(d.listenPort.value))] else []
  }

  function DeviceAttrs(d: Device): Attrs {
    NamedAttrs(d) + [(WGDEVICE_A_FLAGS, Le32(1)), (WGDEVICE_A_PEERS, Chain(PeersAttrs(d)))]
  }

  function GenlHeader(cmd: Byte, version: Byte): seq<Byte> { [cmd, version, 0, 0] }

  function Message(d: Device): seq<Byte> { GenlHeader(WG_CMD_SET_DEVICE, 1) + Chain(DeviceAttrs(d)) }

  method SetDevice(d: Device) returns (payload: seq<Byte>)
    ensures payload == Message(d)
  {
    var attrs := NamedChain(d);
    var peers := PeersChain(d);
    attrs.PushRaw(WGDEVICE_A_FLAGS, Le32(1));
    attrs.Nested(WGDEVICE_A_PEERS, peers);
    assert attrs.attrs == DeviceAttrs(d);
    payload := GenlHeader(WG_CMD_SET_DEVICE, 1) + attrs.buf;
  }

  method NamedChain(d: Device) returns (attrs: AttrBuilder)
    ensures fresh(attrs) && attrs.Valid() && attrs.attrs == NamedAttrs(d)
  {
    attrs := new AttrBuilder();
    attrs.PushRaw(WGDEVICE_A_IFNAME, d.ifname + [0]);
    attrs.PushRaw(WGDEVICE_A_PRIVATE_KEY, d.privateKey);
    if d.listenPort.Some? { attrs.PushRaw(WGDEVICE_A_LISTEN_PORT, Le16(d.listenPort.value)); }
    assert attrs.attrs == NamedAttrs(d);
  }

  method PeersChain(d: Device) returns (peers: AttrBuilder)
    ensures fresh(peers) && peers.Valid() && peers.attrs == PeersAttrs(d)
  {
    var peer := PeerChain(d);
    peers := new AttrBuilder();
    peers.Nested(0, peer);
    assert peers.attrs == PeersAttrs(d);
  }

  method PeerChain(d: Device) returns (peer: AttrBuilder)
    ensures fresh(peer) && peer.Valid() && peer.attrs == PeerAttrs(d)
  {
    peer := new AttrBuilder();
    peer.PushRaw(WGPEER_A_PUBLIC_KEY, d.peerKey);
    peer.PushRaw(WGPEER_A_FLAGS, Le32(2));
    peer.PushRaw(WGPEER_A_ENDPOINT, Sockaddr(d.endpoint));
    peer.PushRaw(WGPEER_A_KEEPALIVE, Le16(d.keepalive));
    var allowed := AllowedChain(d.allowed);
    peer.Nested(WGPEER_A_ALLOWEDIPS, allowed);
    assert peer.attrs == PeerAttrs(d);
  }

  method AllowedChain(allowed: seq<AllowedIp>) returns (chain: AttrBuilder)
    ensures fresh(chain) && chain.Valid() && chain.attrs == AllowedAttrs(allowed)
  {
    chain := new AttrBuilder();
    for i := 0 to |allowed|
      invariant fresh(chain) && chain.Valid() && chain.attrs == AllowedAttrs(allowed)[..i]
    {
      var entry := EntryChain(allowed[i]);
      chain.Nested(i % 0x1_0000, entry);
    }
  }

  method EntryChain(a: AllowedIp) returns (entry: AttrBuilder)
    ensures fresh(entry) && entry.Valid() && entry.attrs == EntryAttrs(a)
  {
    entry := new AttrBuilder();
    entry.PushRaw(WGALLOWEDIP_A_FAMILY, Le16(if a.ip.V4? then AF_INET else AF_INET6));
    entry.PushRaw(WGALLOWEDIP_A_IPADDR, a.ip.octets);
    entry.PushRaw(WGALLOWEDIP_A_CIDR_MASK, [a.prefixlen]);
  }

  // ---- What the receiver reads back --------------------------------------------------

  /** What the types of the source say: keys of 32 bytes, addresses of their family's size. */
  predicate Typed(d: Device) {
    |d.privateKey| == 32 && |d.peerKey| == 32 && WellSized(d.endpoint.ip)
  }

  /** The name and the peer chain are each short enough for one attribute. */
  predicate Shippable(d: Device) {
    4 + |d.ifname| + 1 < 0x1_0000 && 4 + |Chain(PeersAttrs(d))| < 0x1_0000
  }

  lemma {:induction false} Contained(attrs: Attrs, i: nat)
    requires i < |attrs|
    ensures 4 + |attrs[i].1| <= |Chain(attrs)|
  {
    if i > 0 { Contained(attrs[1..], i - 1); }
  }

  /** Everything inside an attribute that fits, fits. */
  lemma InnerFits(attrs: Attrs)
    requires 4 + |Chain(attrs)| < 0x1_0000
    ensures Fits(attrs)
  {
    forall a <- attrs ensures 4 + |a.1| < 0x1_0000 {
      var i :| 0 <= i < |attrs| && attrs[i] == a;
      Contained(attrs, i);
    }
  }

  lemma {:induction false} ChainAtLeast(attrs: Attrs)
    ensures |Chain(attrs)| >= 4 * |attrs|
  {
    if attrs != [] { ChainAtLeast(attrs[1..]); }
  }

  /** The bytes of one entry parse to its family, address and mask. */
  predicate EntryReads(b: seq<Byte>, a: AllowedIp) {
    var e := Parse(b);
    && Holds(e, WGALLOWEDIP_A_IPADDR, a.ip.octets) && Holds(e, WGALLOWEDIP_A_CIDR_MASK, [a.prefixlen])
    && Holds(e, WGALLOWEDIP_A_FAMILY, Le16(Family(a.ip)))
  }

  /** Those of the list to one entry per index, and no other index. */
  ghost predicate AllowedReads(b: seq<Byte>, allowed: seq<AllowedIp>) {
    var m := Parse(b);
    && (forall t <- m :: t < |allowed|)
    && (forall i: nat :: i < |allowed| ==> i in m && EntryReads(m[i], allowed[i]))
  }

  ghost predicate PeerReads(b: seq<Byte>, d: Device) {
    var peer := Parse(b);
    && Holds(peer, WGPEER_A_PUBLIC_KEY, d.peerKey) && Holds(peer, WGPEER_A_FLAGS, Le32(2))
    && WGPEER_A_ENDPOINT in peer && ReadSockaddr(peer[WGPEER_A_ENDPOINT]) == Some(d.endpoint)
    && Holds(peer, WGPEER_A_KEEPALIVE, Le16(d.keepalive))
    && WGPEER_A_ALLOWEDIPS in peer && AllowedReads(peer[WGPEER_A_ALLOWEDIPS], d.allowed)
  }

  ghost predicate PeersRead(b: seq<Byte>, d: Device) {
    0 in Parse(b) && PeerReads(Parse(b)[0], d)
  }

  /** The whole message parses, level by level, to the device it was built from. */
  ghost predicate DeviceReads(b: seq<Byte>, d: Device) {
    var m := Parse(b);
    && Holds(m, WGDEVICE_A_IFNAME, d.ifname + [0]) && Holds(m, WGDEVICE_A_PRIVATE_KEY, d.privateKey)
    && (WGDEVICE_A_LISTEN_PORT in m <==> d.listenPort.Some?)
    && (d.listenPort.Some? ==> m[WGDEVICE_A_LISTEN_PORT] == Le16(d.listenPort.value))
    && Holds(m, WGDEVICE_A_FLAGS, Le32(1))
    && WGDEVICE_A_PEERS in m && PeersRead(m[WGDEVICE_A_PEERS], d)
  }

  /** One allowed-ips entry reads back as itself. */
  lemma EntryRoundTrip(a: AllowedIp)
    requires 4 + |Chain(EntryAttrs(a))| < 0x1_0000
    ensures EntryReads(Chain(EntryAttrs(a)), a)
  {
    var attrs := EntryAttrs(a);
    InnerFits(attrs);
    LookupRoundTrip(attrs, 0);
    LookupRoundTrip(attrs, 1);
    LookupRoundTrip(attrs, 2);
  }

  lemma OnlyBuilt(attrs: Attrs)
    requires Fits(attrs)
    ensures forall t <- Parse(Chain(attrs)) :: exists i :: 0 <= i < |attrs| && attrs[i].0 == t
  {
    forall t <- Parse(Chain(attrs)) ensures exists i :: 0 <= i < |attrs| && attrs[i].0 == t {
      if forall i :: 0 <= i < |attrs| ==> attrs[i].0 != t {
        AbsentRoundTrip(attrs, t);
      }
    }
  }

  lemma OwnIndex(allowed: seq<AllowedIp>)
    requires |Chain(AllowedAttrs(allowed))| < 0x1_0000
    ensures forall i :: 0 <= i < |allowed| ==> AllowedAttrs(allowed)[i].0 == i
  {
    ChainAtLeast(AllowedAttrs(allowed));
    forall i | 0 <= i < |allowed| ensures i % 0x1_0000 == i { SmallIndex(i); }
  }

  lemma SmallIndex(i: nat)
    requires i < 0x1_0000
    ensures i % 0x1_0000 == i
  {
  }

  lemma AllowedEntry(allowed: seq<AllowedIp>, i: nat)
    requires 4 + |Chain(AllowedAttrs(allowed))| < 0x1_0000 && i < |allowed|
    ensures var m := Parse(Chain(AllowedAttrs(allowed)));
            i in m && m[i] == Chain(EntryAttrs(allowed[i])) && 4 + |m[i]| < 0x1_0000
  {
    var attrs := AllowedAttrs(allowed);
    InnerFits(attrs);
    OwnIndex(allowed);
    LookupRoundTrip(attrs, i);
    assert attrs[i] in attrs;
  }

  /** The allowed-ips list reads back whole: one entry per index, and no other index. */
  lemma AllowedRoundTrip(allowed: seq<AllowedIp>)
    requires 4 + |Chain(AllowedAttrs(allowed))| < 0x1_0000
    ensures AllowedReads(Chain(AllowedAttrs(allowed)), allowed)
  {
    var attrs := AllowedAttrs(allowed);
    var m := Parse(Chain(attrs));
    InnerFits(attrs);
    OwnIndex(allowed);
    OnlyBuilt(attrs);
    forall i: nat | i < |allowed| ensures i in m && EntryReads(m[i], allowed[i]) {
      AllowedEntry(allowed, i);
      EntryRoundTrip(allowed[i]);
    }
  }

  /** The peer's key, flags, endpoint, keepalive and list read back. */
  lemma PeerRoundTrip(d: Device)
    requires Typed(d) && 4 + |Chain(PeerAttrs(d))| < 0x1_0000
    ensures PeerReads(Chain(PeerAttrs(d)), d)
  {
    var attrs := PeerAttrs(d);
    InnerFits(attrs);
    LookupRoundTrip(attrs, 0);
    LookupRoundTrip(attrs, 1);
    LookupRoundTrip(attrs, 2);
    LookupRoundTrip(attrs, 3);
    LookupRoundTrip(attrs, 4);
    assert attrs[4] in attrs;
    SockaddrRoundTrip(d.endpoint);
    AllowedRoundTrip(d.allowed);
  }

  lemma PeersRoundTrip(d: Device)
    requires Typed(d) && 4 + |Chain(PeersAttrs(d))| < 0x1_0000
    ensures PeersRead(Chain(PeersAttrs(d)), d)
  {
    var attrs := PeersAttrs(d);
    InnerFits(attrs);
    LookupRoundTrip(attrs, 0);
    assert attrs[0] in attrs;
    PeerRoundTrip(d);
  }

  lemma DeviceFits(d: Device)
    requires Typed(d) && Shippable(d)
    ensures Fits(DeviceAttrs(d))
  {
    forall a <- DeviceAttrs(d) ensures 4 + |a.1| < 0x1_0000 {
      if a in NamedAttrs(d) {
        assert |a.1| <= 32 || a.1 == d.ifname + [0];
      }
    }
  }

  lemma NameLookup(d: Device)
    requires Typed(d) && Shippable(d)
    ensures Holds(Parse(Chain(DeviceAttrs(d))), WGDEVICE_A_IFNAME, d.ifname + [0])
  {
    DeviceFits(d);
    LookupRoundTrip(DeviceAttrs(d), 0);
  }

  lemma KeyLookup(d: Device)
    requires Typed(d) && Shippable(d)
    ensures Holds(Parse(Chain(DeviceAttrs(d))), WGDEVICE_A_PRIVATE_KEY, d.privateKey)
  {
    DeviceFits(d);
    LookupRoundTrip(DeviceAttrs(d), 1);
  }

  lemma PeersLookup(d: Device)
    requires Typed(d) && Shippable(d)
    ensures var m := Parse(Chain(DeviceAttrs(d)));
            Holds(m, WGDEVICE_A_FLAGS, Le32(1)) && Holds(m, WGDEVICE_A_PEERS, Chain(PeersAttrs(d)))
  {
    DeviceFits(d);
    LookupRoundTrip(DeviceAttrs(d), |DeviceAttrs(d)| - 2);
    LookupRoundTrip(DeviceAttrs(d), |DeviceAttrs(d)| - 1);
  }

  lemma PortLookup(d: Device)
    requires Typed(d) && Shippable(d)
    ensures var m := Parse(Chain(DeviceAttrs(d)));
            && (WGDEVICE_A_LISTEN_PORT in m <==> d.listenPort.Some?)
            && (d.listenPort.Some? ==> m[WGDEVICE_A_LISTEN_PORT] == Le16(d.listenPort.value))
  {
    DeviceFits(d);
    if d.listenPort.Some? {
      LookupRoundTrip(DeviceAttrs(d), 2);
    } else {
      AbsentRoundTrip(DeviceAttrs(d), WGDEVICE_A_LISTEN_PORT);
    }
  }

  /** A device whose name and peers fit reads back through every level. */
  lemma DeviceLookups(d: Device)
    requires Typed(d) && Shippable(d)
    ensures DeviceReads(Chain(DeviceAttrs(d)), d)
  {
    NameLookup(d);
    KeyLookup(d);
    PeersLookup(d);
    PortLookup(d);
    PeersRoundTrip(d);
  }

  // ---- And only then ---------------------------------------------------------------------

  lemma EntrySize(b: seq<Byte>, a: AllowedIp)
    requires EntryReads(b, a)
    ensures |Chain(EntryAttrs(a))| <= Align(|b|)
  {
    FoundSize(EntryAttrs(a), b);
  }

  lemma AllowedSize(b: seq<Byte>, allowed: seq<AllowedIp>)
    requires AllowedReads(b, allowed)
    ensures |Chain(AllowedAttrs(allowed))| <= Align(|b|)
  {
    var m := Parse(b);
    var found: Attrs := seq(|allowed|, i requires 0 <= i < |allowed| => assert i in m; (i, m[i]));
    forall i: nat | i < |allowed| ensures |Chain(EntryAttrs(allowed[i]))| <= Align(|found[i].1|) {
      EntrySize(m[i], allowed[i]);
    }
    RoomFor(AllowedAttrs(allowed), found, b);
  }

  function PeerFound(d: Device, address: seq<Byte>, list: seq<Byte>): Attrs {
    [(WGPEER_A_PUBLIC_KEY, d.peerKey), (WGPEER_A_FLAGS, Le32(2)), (WGPEER_A_ENDPOINT, address),
     (WGPEER_A_KEEPALIVE, Le16(d.keepalive)), (WGPEER_A_ALLOWEDIPS, list)]
  }

  lemma PeerCovers(d: Device, address: seq<Byte>, list: seq<Byte>)
    requires |Sockaddr(d.endpoint)| <= |address| && |Chain(AllowedAttrs(d.allowed))| <= Align(|list|)
    ensures Covers(PeerFound(d, address, list), PeerAttrs(d)) && Differing(PeerFound(d, address, list))
  {
  }

  lemma PeerIsFound(peer: map<U16, seq<Byte>>, d: Device, address: seq<Byte>, list: seq<Byte>)
    requires Holds(peer, WGPEER_A_PUBLIC_KEY, d.peerKey) && Holds(peer, WGPEER_A_FLAGS, Le32(2))
    requires Holds(peer, WGPEER_A_ENDPOINT, address) && Holds(peer, WGPEER_A_KEEPALIVE, Le16(d.keepalive))
    requires Holds(peer, WGPEER_A_ALLOWEDIPS, list)
    ensures HoldsAll(peer, PeerFound(d, address, list))
  {
  }

  lemma SockaddrSize(address: seq<Byte>, e: Endpoint)
    requires ReadSockaddr(address) == Some(e)
    ensures |Sockaddr(e)| == |address|
  {
  }

  lemma PeerSize(b: seq<Byte>, d: Device)
    requires PeerReads(b, d)
    ensures |Chain(PeerAttrs(d))| <= Align(|b|)
  {
    var peer := Parse(b);
    var address, list := peer[WGPEER_A_ENDPOINT], peer[WGPEER_A_ALLOWEDIPS];
    AllowedSize(list, d.allowed);
    SockaddrSize(address, d.endpoint);
    PeerCovers(d, address, list);
    PeerIsFound(peer, d, address, list);
    RoomFor(PeerAttrs(d), PeerFound(d, address, list), b);
  }

  lemma PeersSize(b: seq<Byte>, d: Device)
    requires PeersRead(b, d)
    ensures |Chain(PeersAttrs(d))| <= Align(|b|)
  {
    var peer := Parse(b)[0];
    PeerSize(peer, d);
    RoomFor(PeersAttrs(d), [(0, peer)], b);
  }

  /** Room for the peers below 64 KiB, or the one size whose length field wraps to zero. */
  lemma PeersNearlyFit(b: seq<Byte>, d: Device)
    requires PeersRead(b, d) && 4 + |b| < 0x1_0000
    ensures 4 + |Chain(PeersAttrs(d))| <= 0x1_0000
  {
    PeersSize(b, d);
    AlignMonotone(|b|, 0xFFFC);
  }

  lemma WrappedPeersAreLost(d: Device)
    requires Typed(d) && 4 + |d.ifname| + 1 < 0x1_0000 && 4 + |Chain(PeersAttrs(d))| == 0x1_0000
    ensures WGDEVICE_A_PEERS !in Parse(Chain(DeviceAttrs(d)))
  {
    var pre := NamedAttrs(d) + [(WGDEVICE_A_FLAGS, Le32(1))];
    forall a <- pre ensures 4 + |a.1| < 0x1_0000 && a.0 != WGDEVICE_A_PEERS {
      if a in NamedAttrs(d) {
        assert |a.1| <= 32 || a.1 == d.ifname + [0];
      }
    }
    assert DeviceAttrs(d) == pre + [(WGDEVICE_A_PEERS, Chain(PeersAttrs(d)))];
    WrappedIsLost(pre, WGDEVICE_A_PEERS, Chain(PeersAttrs(d)));
  }

  lemma OnlyShippableReads(d: Device)
    requires Typed(d) && DeviceReads(Chain(DeviceAttrs(d)), d)
    ensures Shippable(d)
  {
    var b := Chain(DeviceAttrs(d));
    FoundFits(b, WGDEVICE_A_IFNAME);
    FoundFits(b, WGDEVICE_A_PEERS);
    PeersNearlyFit(Parse(b)[WGDEVICE_A_PEERS], d);
    if 4 + |Chain(PeersAttrs(d))| == 0x1_0000 { WrappedPeersAreLost(d); }
  }

  /**
   * A whole message is read back, with its name, both keys, both ports, the endpoint and every
   * allowed address, if and only if its name and its peer chain each fit one attribute.
   */
  lemma MessageRoundTrip(d: Device)
    requires Typed(d)
    ensures DeviceReads(Message(d)[4..], d) <==> Shippable(d)
  {
    assert Message(d)[4..] == Chain(DeviceAttrs(d));
    if Shippable(d) { DeviceLookups(d); }
    if DeviceReads(Chain(DeviceAttrs(d)), d) { OnlyShippableReads(d); }
  }
}
