/** What DHCP clients and the server say to each other, and what each makes of it. */
module DhcpMessages {
  import opened Wrappers
  import opened Bytes
  import opened DhcpLeases
  import opened Dhcp4
  import Ipv4

  const OP_BOOTREQUEST: Byte := 1
  const OP_BOOTREPLY: Byte := 2
  const OPT_HOSTNAME: Byte := 12
  const OPT_PARAM_REQUEST_LIST: Byte := 55
  const OPT_CLIENT_ID: Byte := 61

  const MSG_DISCOVER: Byte := 1
  const MSG_OFFER: Byte := 2
  const MSG_REQUEST: Byte := 3
  const MSG_ACK: Byte := 5
  const MSG_NAK: Byte := 6

  /** Host names the one-byte option length can carry. */
  type Hostname = h: Option<seq<Byte>> | h.None? || |h.value| <= 255 witness None

  datatype Config = Config(
    serverIp: U32, pool: Pool, prefixlen: nat, leaseTime: U32, dns: seq<U32>)

  /** Prefixes a mask exists for, and a DNS list one option can carry. */
  predicate Servable(cfg: Config) {
    cfg.prefixlen <= 32 && |cfg.dns| <= 63
  }

  datatype Lease = Lease(
    address: U32, prefixlen: nat, gateway: Option<U32>, dns: seq<U32>,
    domain: Option<seq<Byte>>, serverId: U32, leaseTime: U32)

  // ---- Reading options -----------------------------------------------------------

  /** The first option of the given code. */
  function GetOption(opts: Options, code: Byte): Option<seq<Byte>> {
    if opts == [] then None
    else if opts[0].0 == code then Some(opts[0].1)
    else GetOption(opts[1..], code)
  }

  function MessageType(p: Packet): Option<Byte> {
    match GetOption(p.options, OPT_MSG_TYPE)
    case Some(v) => if |v| > 0 then Some(v[0]) else None
    case None => None
  }

  /** An option that is exactly one address. */
  function AddressOption(p: Packet, code: Byte): Option<U32> {
    match GetOption(p.options, code)
    case Some(v) => if |v| == 4 then Some(FromBe32(v)) else None
    case None => None
  }

  // ---- Client messages -------------------------------------------------------------

  function BaseRequest(xid: U32, mac: Mac): Packet {
    Packet(OP_BOOTREQUEST, xid, 0, 0x8000, 0, 0, 0, mac, [])
  }

  const PARAM_LIST: seq<Byte> := [OPT_SUBNET_MASK, OPT_ROUTER, OPT_DNS, OPT_DOMAIN_NAME]

  function ClientId(mac: Mac): seq<Byte> { [HTYPE_ETHER] + mac }

  function HostnameOption(h: Hostname): Options {
    if h.Some? then [(OPT_HOSTNAME, h.value)] else []
  }

  function BuildDiscover(xid: U32, mac: Mac, h: Hostname): Packet {
    BaseRequest(xid, mac).(options :=
      [(OPT_MSG_TYPE, [MSG_DISCOVER]), (OPT_CLIENT_ID, ClientId(mac)),
       (OPT_PARAM_REQUEST_LIST, PARAM_LIST)] + HostnameOption(h))
  }

  function BuildRequest(xid: U32, mac: Mac, requested: U32, serverId: U32, h: Hostname): Packet {
    BaseRequest(xid, mac).(options :=
      [(OPT_MSG_TYPE, [MSG_REQUEST]), (OPT_CLIENT_ID, ClientId(mac)),
       (OPT_REQUESTED_IP, Be32(requested)), (OPT_SERVER_ID, Be32(serverId)),
       (OPT_PARAM_REQUEST_LIST, PARAM_LIST)] + HostnameOption(h))
  }

  function BuildRenewRequest(xid: U32, mac: Mac, ip: U32): Packet {
    BaseRequest(xid, mac).(ciaddr := ip, flags := 0, options :=
      [(OPT_MSG_TYPE, [MSG_REQUEST]), (OPT_CLIENT_ID, ClientId(mac))])
  }

  // ---- The server ------------------------------------------------------------------

  function Octets(addrs: seq<U32>): (r: seq<Byte>)
    ensures |r| == 4 * |addrs|
  {
    if addrs == [] then [] else Be32(addrs[0]) + Octets(addrs[1..])
  }

  function GrantOptions(cfg: Config): Options
    requires cfg.prefixlen <= 32
  {
    [(OPT_SUBNET_MASK, Be32(Ipv4.SubnetMask(cfg.prefixlen))), (OPT_ROUTER, Be32(cfg.serverIp)),
     (OPT_LEASE_TIME, Be32(cfg.leaseTime))]
    + if cfg.dns == [] then [] else [(OPT_DNS, Octets(cfg.dns))]
  }

  function BuildReply(req: Packet, yiaddr: U32, cfg: Config, msgType: Byte): Packet
    requires cfg.prefixlen <= 32
  {
    Packet(OP_BOOTREPLY, req.xid, 0, req.flags, 0,
           if msgType == MSG_NAK then 0 else yiaddr, cfg.serverIp, req.chaddr,
           [(OPT_MSG_TYPE, [msgType]), (OPT_SERVER_ID, Be32(cfg.serverIp))]
           + if msgType == MSG_NAK then [] else GrantOptions(cfg))
  }

  /** The address a REQUEST asks for: option 50, or the client's own address. */
  function Requested(p: Packet): U32 {
    var o := AddressOption(p, OPT_REQUESTED_IP);
    if o.Some? then o.value else p.ciaddr
  }

  /** One turn of the server's receive loop: the new table and the reply, if any. */
  function Serve(l: Leases, cfg: Config, datagram: seq<Byte>): (Leases, Option<seq<Byte>>)
    requires cfg.prefixlen <= 32
  {
    match Parse(datagram)
    case None => (l, None)
    case Some(p) =>
      if MessageType(p) == Some(MSG_DISCOVER) then
        var (l', r) := Allocate(l, p.chaddr, cfg.pool);
        (l', if r.Some? then Some(Serialize(BuildReply(p, r.value, cfg, MSG_OFFER))) else None)
      else if MessageType(p) == Some(MSG_REQUEST) then
        var a := Requested(p);
        var granted := p.chaddr in l.byMac && l.byMac[p.chaddr] == a;
        (l, Some(Serialize(BuildReply(p, a, cfg, if granted then MSG_ACK else MSG_NAK))))
      else (l, None)
  }

  /** The same turn over the live table, bytes in and bytes out. */
  method HandleDatagram(table: LeaseTable, cfg: Config, datagram: seq<Byte>) returns (reply: Option<seq<Byte>>)
    requires cfg.prefixlen <= 32 && !cfg.pool.WholeSpace()
    modifies table
    ensures (table.State(), reply) == Serve(old(table.State()), cfg, datagram)
  {
    var parsed := ParsePacket(datagram);
    if parsed.None? { return None; }
    var p := parsed.value;
    var kind := MessageType(p);
    if kind == Some(MSG_DISCOVER) {
      var r := table.Assign(p.chaddr, cfg.pool);
      if r.None? { return None; }
      var bytes := SerializePacket(BuildReply(p, r.value, cfg, MSG_OFFER));
      return Some(bytes);
    }
    if kind == Some(MSG_REQUEST) {
      var a := Requested(p);
      var granted := p.chaddr in table.byMac && table.byMac[p.chaddr] == a;
      var bytes := SerializePacket(BuildReply(p, a, cfg, if granted then MSG_ACK else MSG_NAK));
      return Some(bytes);
    }
    reply := None;
  }

  // ---- The client's reading of an ACK ------------------------------------------------

  /** Whole groups of four bytes as addresses; a trailing remainder is dropped. */
  function Addresses(b: seq<Byte>): seq<U32> {
    if |b| < 4 then [] else [FromBe32(b[..4])] + Addresses(b[4..])
  }

  function LeaseFromAck(ack: Packet, serverId: U32): Lease {
    var mask := AddressOption(ack, OPT_SUBNET_MASK);
    var router := GetOption(ack.options, OPT_ROUTER);
    var dns := GetOption(ack.options, OPT_DNS);
    var time := AddressOption(ack, OPT_LEASE_TIME);
    Lease(ack.yiaddr,
          if mask.Some? then Ipv4.CountOnes(mask.value) else 24,
          if router.Some? && |router.value| >= 4 then Some(FromBe32(router.value[..4])) else None,
          if dns.Some? then Addresses(dns.value) else [],
          GetOption(ack.options, OPT_DOMAIN_NAME),
          serverId,
          if time.Some? then time.value else 3600)
  }

  /** What a client of this configuration should end up with. */
  function Granted(cfg: Config, address: U32): Lease {
    Lease(address, cfg.prefixlen, Some(cfg.serverIp), cfg.dns, None, cfg.serverIp, cfg.leaseTime)
  }

  lemma {:induction false} AddressesRoundTrip(addrs: seq<U32>)
    ensures Addresses(Octets(addrs)) == addrs
  {
    if addrs != [] {
      var b := Octets(addrs);
      assert b[..4] == Be32(addrs[0]) && b[4..] == Octets(addrs[1..]);
      AddressesRoundTrip(addrs[1..]);
      assert addrs == [addrs[0]] + addrs[1..];
    }
  }

  lemma {:induction false} OptionSkipped(pre: Options, opts: Options, code: Byte)
    requires forall o <- pre :: o.0 != code
    ensures GetOption(pre + opts, code) == GetOption(opts, code)
  {
    if pre == [] {
      assert pre + opts == opts;
    } else {
      assert pre[0] in pre;
      assert (pre + opts)[1..] == pre[1..] + opts;
      OptionSkipped(pre[1..], opts, code);
    }
  }

  lemma OptionFound(pre: Options, code: Byte, data: seq<Byte>, post: Options)
    requires forall o <- pre :: o.0 != code
    ensures GetOption(pre + [(code, data)] + post, code) == Some(data)
  {
    assert pre + [(code, data)] + post == pre + ([(code, data)] + post);
    OptionSkipped(pre, [(code, data)] + post, code);
  }

  /** Every server reply fits the wire. */
  lemma ReplyFits(req: Packet, yiaddr: U32, cfg: Config, msgType: Byte)
    requires Servable(cfg)
    ensures Parse(Serialize(BuildReply(req, yiaddr, cfg, msgType))) == Some(BuildReply(req, yiaddr, cfg, msgType))
  {
    PacketRoundTrip(BuildReply(req, yiaddr, cfg, msgType));
  }

  lemma LeadingOptions(msgType: Byte, serverIp: U32, rest: Options)
    ensures var o := [(OPT_MSG_TYPE, [msgType]), (OPT_SERVER_ID, Be32(serverIp))] + rest;
            GetOption(o, OPT_MSG_TYPE) == Some([msgType]) && GetOption(o, OPT_SERVER_ID) == Some(Be32(serverIp))
  {
    var kind, server := (OPT_MSG_TYPE, [msgType]), (OPT_SERVER_ID, Be32(serverIp));
    var o := [kind, server] + rest;
    assert o == [] + [kind] + ([server] + rest);
    OptionFound([], OPT_MSG_TYPE, [msgType], [server] + rest);
    assert o == [kind] + [server] + rest;
    OptionFound([kind], OPT_SERVER_ID, Be32(serverIp), rest);
  }

  /** Whatever the name-server list, a reply arrives with its ids, address, kind and server. */
  lemma ReplyArrives(req: Packet, yiaddr: U32, cfg: Config, msgType: Byte)
    requires cfg.prefixlen <= 32
    ensures var q := Parse(Serialize(BuildReply(req, yiaddr, cfg, msgType)));
            && q.Some? && q.value.xid == req.xid && q.value.chaddr == req.chaddr
            && q.value.yiaddr == (if msgType == MSG_NAK then 0 else yiaddr)
            && MessageType(q.value) == Some(msgType) && AddressOption(q.value, OPT_SERVER_ID) == Some(cfg.serverIp)
  {
    var p := BuildReply(req, yiaddr, cfg, msgType);
    HeaderRoundTrip(p);
    var grant: Options := if msgType == MSG_NAK then [] else GrantOptions(cfg);
    var head: Options := [(OPT_MSG_TYPE, [msgType]), (OPT_SERVER_ID, Be32(cfg.serverIp))];
    assert p.options == head + grant;
    CarriedPrefix(head, grant);
    LeadingOptions(msgType, cfg.serverIp, ParseOptions(OptionBytes(grant)));
  }

  /** The options of an ACK before its name servers. */
  function GrantHead(cfg: Config): Options
    requires cfg.prefixlen <= 32
  {
    [(OPT_MSG_TYPE, [MSG_ACK]), (OPT_SERVER_ID, Be32(cfg.serverIp)),
     (OPT_SUBNET_MASK, Be32(Ipv4.SubnetMask(cfg.prefixlen))), (OPT_ROUTER, Be32(cfg.serverIp)),
     (OPT_LEASE_TIME, Be32(cfg.leaseTime))]
  }

  lemma HeadOptions(cfg: Config, rest: Options)
    requires cfg.prefixlen <= 32
    ensures var o := GrantHead(cfg) + rest;
            && GetOption(o, OPT_SUBNET_MASK) == Some(Be32(Ipv4.SubnetMask(cfg.prefixlen)))
            && GetOption(o, OPT_ROUTER) == Some(Be32(cfg.serverIp))
            && GetOption(o, OPT_LEASE_TIME) == Some(Be32(cfg.leaseTime))
            && GetOption(o, OPT_DNS) == GetOption(rest, OPT_DNS)
            && GetOption(o, OPT_DOMAIN_NAME) == GetOption(rest, OPT_DOMAIN_NAME)
  {
    var o := GrantHead(cfg) + rest;
    var head, mask, router, time := o[..2], o[2], o[3], o[4];
    assert o == head + [mask] + ([router, time] + rest);
    OptionFound(head, OPT_SUBNET_MASK, mask.1, [router, time] + rest);
    assert o == (head + [mask]) + [router] + ([time] + rest);
    OptionFound(head + [mask], OPT_ROUTER, router.1, [time] + rest);
    assert o == (head + [mask, router]) + [time] + rest;
    OptionFound(head + [mask, router], OPT_LEASE_TIME, time.1, rest);
    OptionSkipped(GrantHead(cfg), rest, OPT_DNS);
    OptionSkipped(GrantHead(cfg), rest, OPT_DOMAIN_NAME);
  }

  /** The options of an ACK, one by one. */
  lemma AckOptions(req: Packet, yiaddr: U32, cfg: Config)
    requires cfg.prefixlen <= 32
    ensures var o := BuildReply(req, yiaddr, cfg, MSG_ACK).options;
            && GetOption(o, OPT_SUBNET_MASK) == Some(Be32(Ipv4.SubnetMask(cfg.prefixlen)))
            && GetOption(o, OPT_ROUTER) == Some(Be32(cfg.serverIp))
            && GetOption(o, OPT_LEASE_TIME) == Some(Be32(cfg.leaseTime))
            && GetOption(o, OPT_DOMAIN_NAME) == None
            && GetOption(o, OPT_DNS) == if cfg.dns == [] then None else Some(Octets(cfg.dns))
  {
    var dns: Options := if cfg.dns == [] then [] else [(OPT_DNS, Octets(cfg.dns))];
    assert BuildReply(req, yiaddr, cfg, MSG_ACK).options == GrantHead(cfg) + dns;
    HeadOptions(cfg, dns);
  }

  /** What the client makes of the options of an ACK. */
  lemma LeaseRead(ack: Packet, cfg: Config, dns: seq<U32>)
    requires cfg.prefixlen <= 32
    requires var o := ack.options;
             && GetOption(o, OPT_SUBNET_MASK) == Some(Be32(Ipv4.SubnetMask(cfg.prefixlen)))
             && GetOption(o, OPT_ROUTER) == Some(Be32(cfg.serverIp))
             && GetOption(o, OPT_LEASE_TIME) == Some(Be32(cfg.leaseTime))
             && (GetOption(o, OPT_DNS) == Some(Octets(dns)) || (dns == [] && GetOption(o, OPT_DNS) == None))
    ensures LeaseFromAck(ack, cfg.serverIp)
            == Granted(cfg, ack.yiaddr).(dns := dns, domain := GetOption(ack.options, OPT_DOMAIN_NAME))
  {
    Ipv4.MaskRoundTrip(cfg.prefixlen);
    AddressesRoundTrip(dns);
    assert Be32(cfg.serverIp)[..4] == Be32(cfg.serverIp);
  }

  /** A server ACK of a list that fits decodes at the client to exactly the configuration. */
  lemma AckOfShortList(req: Packet, yiaddr: U32, cfg: Config)
    requires Servable(cfg)
    ensures var ack := Parse(Serialize(BuildReply(req, yiaddr, cfg, MSG_ACK)));
            ack.Some? && LeaseFromAck(ack.value, cfg.serverIp) == Granted(cfg, yiaddr)
  {
    ReplyFits(req, yiaddr, cfg, MSG_ACK);
    AckOptions(req, yiaddr, cfg);
    LeaseRead(BuildReply(req, yiaddr, cfg, MSG_ACK), cfg, cfg.dns);
  }

  lemma {:induction false} OctetsPrefix(addrs: seq<U32>, n: nat)
    requires n <= |addrs|
    ensures Octets(addrs)[..4 * n] == Octets(addrs[..n])
  {
    if n > 0 {
      OctetsPrefix(addrs[1..], n - 1);
      assert addrs[..n][1..] == addrs[1..][..n - 1];
      var head, tail := Be32(addrs[0]), Octets(addrs[1..]);
      assert (head + tail)[..4 * n] == head + tail[..4 * (n - 1)];
    }
  }

  lemma FourTimes(n: nat)
    ensures 4 * n % 0x100 == 4 * (n % 64)
  {
    var q, r := n / 64, n % 64;
    assert n == 64 * q + r;
    By256(4 * n, q, 4 * r);
  }

  /** The options a client reads from an ACK: the first five as sent, and of the list what its length byte says. */
  lemma AckOptionsRead(cfg: Config) returns (rest: Options)
    requires cfg.prefixlen <= 32
    ensures ParseOptions(OptionBytes(GrantHead(cfg) + [(OPT_DNS, Octets(cfg.dns))])) == GrantHead(cfg) + rest
    ensures GetOption(rest, OPT_DNS) == Some(Octets(cfg.dns[..|cfg.dns| % 64]))
  {
    var octets := Octets(cfg.dns);
    rest := ParseOptions(OptionBytes([(OPT_DNS, octets)]));
    CarriedPrefix(GrantHead(cfg), [(OPT_DNS, octets)]);
    LongOptionIsCut(OPT_DNS, octets);
    FourTimes(|cfg.dns|);
    OctetsPrefix(cfg.dns, |cfg.dns| % 64);
  }

  /**
   * Over 63 name servers the client reads the first `n % 64` of them and everything else as
   * configured, except a domain name, which it may find among the octets that were cut off.
   */
  lemma LongListIsCut(req: Packet, yiaddr: U32, cfg: Config)
    requires cfg.prefixlen <= 32 && |cfg.dns| > 63
    ensures var ack := Parse(Serialize(BuildReply(req, yiaddr, cfg, MSG_ACK)));
            ack.Some? && var lease := LeaseFromAck(ack.value, cfg.serverIp);
            lease == Granted(cfg, yiaddr).(dns := cfg.dns[..|cfg.dns| % 64], domain := lease.domain)
  {
    var p := BuildReply(req, yiaddr, cfg, MSG_ACK);
    HeaderRoundTrip(p);
    assert p.options == GrantHead(cfg) + [(OPT_DNS, Octets(cfg.dns))];
    var rest := AckOptionsRead(cfg);
    HeadOptions(cfg, rest);
    LeaseRead(Parse(Serialize(p)).value, cfg, cfg.dns[..|cfg.dns| % 64]);
  }

  /** An ACK decodes to the configuration if and only if it lists at most 63 name servers. */
  lemma AckDecodes(req: Packet, yiaddr: U32, cfg: Config)
    requires cfg.prefixlen <= 32
    ensures var ack := Parse(Serialize(BuildReply(req, yiaddr, cfg, MSG_ACK)));
            && ack.Some?
            && (LeaseFromAck(ack.value, cfg.serverIp) == Granted(cfg, yiaddr) <==> |cfg.dns| <= 63)
  {
    if |cfg.dns| <= 63 { AckOfShortList(req, yiaddr, cfg); } else { LongListIsCut(req, yiaddr, cfg); }
  }
}
