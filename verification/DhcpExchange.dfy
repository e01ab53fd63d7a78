/** One server and any number of clients over a network that loses, repeats and reorders datagrams. */
module DhcpExchange {
  import opened Wrappers
  import opened Bytes
  import opened DhcpLeases
  import opened Dhcp4
  import opened DhcpMessages

  // ---- The client's state machine ----------------------------------------------------

  datatype Phase =
    | Discovering
    | Requesting(offered: U32, server: U32)
    | Bound(lease: Lease)
    | Renewing(lease: Lease)
    | GaveUp

  datatype Client = Client(mac: Mac, xid: U32, phase: Phase)

  /** The address a client is using; it keeps it while renewing. */
  function Holds(c: Client): Option<Lease> {
    match c.phase
    case Bound(l) => Some(l)
    case Renewing(l) => Some(l)
    case _ => None
  }

  /** The client takes an offer up, unless it does not say from which server. */
  function Taking(c: Client, offer: Packet): Client {
    match AddressOption(offer, OPT_SERVER_ID)
    case Some(sid) => c.(phase := Requesting(offer.yiaddr, sid))
    case None => c.(phase := GaveUp)
  }

  /** What one received datagram does: only the transaction id ties it to this client. */
  function ClientReceive(c: Client, datagram: seq<Byte>): Client {
    match Parse(datagram)
    case None => c
    case Some(p) =>
      if p.xid != c.xid then c
      else
        match c.phase
        case Discovering =>
          if MessageType(p) != Some(MSG_OFFER) then c
          else Taking(c, p)
        case Requesting(_, sid) =>
          if MessageType(p) == Some(MSG_ACK) then c.(phase := Bound(LeaseFromAck(p, sid)))
          else if MessageType(p) == Some(MSG_NAK) then c.(phase := GaveUp)
          else c
        case Renewing(l) =>
          if MessageType(p) == Some(MSG_ACK) then c.(phase := Bound(LeaseFromAck(p, l.serverId))) else c
        case _ => c
  }

  function ClientRun(c: Client, inbox: seq<seq<Byte>>): Client
    decreases |inbox|
  {
    if inbox == [] then c else ClientRun(ClientReceive(c, inbox[0]), inbox[1..])
  }

  lemma {:induction false} SettledStays(c: Client, inbox: seq<seq<Byte>>)
    requires c.phase.Bound? || c.phase.GaveUp?
    ensures ClientRun(c, inbox) == c
    decreases |inbox|
  {
    if inbox != [] { SettledStays(c, inbox[1..]); }
  }

  lemma RunMovesOn(c: Client, inbox: seq<seq<Byte>>, i: nat)
    requires i < |inbox|
    ensures ClientRun(c, inbox[i..]) == ClientRun(ClientReceive(c, inbox[i]), inbox[i + 1..])
  {
    assert inbox[i..][0] == inbox[i] && inbox[i..][1..] == inbox[i + 1..];
  }

  /** The two retry loops of an acquisition, over whatever the socket delivers before the deadline. */
  method Acquire(mac: Mac, xid: U32, inbox: seq<seq<Byte>>) returns (r: Option<Lease>)
    ensures r == Holds(ClientRun(Client(mac, xid, Discovering), inbox))
  {
    ghost var start := Client(mac, xid, Discovering);
    var i := 0;
    var offer: Option<Packet> := None;
    assert inbox[0..] == inbox;
    while i < |inbox| && offer.None?
      invariant 0 <= i <= |inbox|
      invariant offer.None? ==> ClientRun(start, inbox) == ClientRun(start, inbox[i..])
      invariant offer.Some? ==> ClientRun(start, inbox) == ClientRun(Taking(start, offer.value), inbox[i..])
    {
      var p := ParsePacket(inbox[i]);
      RunMovesOn(start, inbox, i);
      i := i + 1;
      if p.Some? && p.value.xid == xid && MessageType(p.value) == Some(MSG_OFFER) { offer := p; }
    }
    if offer.None? { return None; }
    var server := AddressOption(offer.value, OPT_SERVER_ID);
    if server.None? {
      SettledStays(start.(phase := GaveUp), inbox[i..]);
      return None;
    }
    ghost var asking := start.(phase := Requesting(offer.value.yiaddr, server.value));
    while i < |inbox|
      invariant 0 <= i <= |inbox|
      invariant ClientRun(start, inbox) == ClientRun(asking, inbox[i..])
    {
      var p := ParsePacket(inbox[i]);
      RunMovesOn(asking, inbox, i);
      ghost var after := ClientReceive(asking, inbox[i]);
      i := i + 1;
      if p.None? || p.value.xid != xid { continue; }
      if MessageType(p.value) == Some(MSG_ACK) {
        SettledStays(after, inbox[i..]);
        return Some(LeaseFromAck(p.value, server.value));
      }
      if MessageType(p.value) == Some(MSG_NAK) {
        SettledStays(after, inbox[i..]);
        return None;
      }
    }
    r := None;
  }

  // ---- The whole system -----------------------------------------------------------------

  /** `net` only grows: any datagram ever sent may arrive any number of times, in any order, or never. */
  datatype World = World(leases: Leases, clients: map<nat, Client>, net: set<seq<Byte>>)

  datatype Event =
    | Start(id: nat, mac: Mac, xid: U32)
    | SendDiscover(id: nat, host: Hostname)
    | SendRequest(id: nat, host: Hostname)
    | StartRenewal(id: nat, xid: U32)
    | SendRenewal(id: nat)
    | StopRenewal(id: nat)
    | Abandon(id: nat)
    | ServerGets(datagram: seq<Byte>)
    | ClientGets(id: nat, datagram: seq<Byte>)
    | StrangerSends(datagram: seq<Byte>)

  /** Which hardware addresses use which transaction ids. */
  type Uses = set<(Mac, U32)>

  /** No two hardware addresses use the same transaction id. */
  ghost predicate Distinct(uses: Uses) {
    forall m, m', x :: (m, x) in uses && (m', x) in uses ==> m == m'
  }

  /** Traffic of unknown hosts: anything at all but OFFERs and ACKs, under their transaction ids. */
  predicate Harmless(uses: Uses, datagram: seq<Byte>) {
    match Parse(datagram)
    case None => true
    case Some(p) => (p.chaddr, p.xid) in uses && MessageType(p) != Some(MSG_OFFER) && MessageType(p) != Some(MSG_ACK)
  }

  predicate Enabled(w: World, uses: Uses, e: Event) {
    match e
    case Start(id, mac, xid) => (mac, xid) in uses && (id in w.clients ==> w.clients[id].mac == mac)
    case SendDiscover(id, _) => id in w.clients && w.clients[id].phase.Discovering?
    case SendRequest(id, _) => id in w.clients && w.clients[id].phase.Requesting?
    case StartRenewal(id, xid) =>
      id in w.clients && w.clients[id].phase.Bound? && (w.clients[id].mac, xid) in uses
    case SendRenewal(id) => id in w.clients && w.clients[id].phase.Renewing?
    case StopRenewal(id) => id in w.clients && w.clients[id].phase.Renewing?
    case Abandon(id) => id in w.clients
    case ServerGets(d) => d in w.net
    case ClientGets(id, d) => id in w.clients && d in w.net
    case StrangerSends(d) => Harmless(uses, d)
  }

  function Send(w: World, p: Packet): World {
    w.(net := w.net + {Serialize(p)})
  }

  function With(w: World, id: nat, c: Client): World {
    w.(clients := w.clients[id := c])
  }

  function Next(w: World, cfg: Config, uses: Uses, e: Event): World
    requires cfg.prefixlen <= 32 && Enabled(w, uses, e)
  {
    match e
    case Start(id, mac, xid) => With(w, id, Client(mac, xid, Discovering))
    case SendDiscover(id, host) =>
      var c := w.clients[id];
      Send(w, BuildDiscover(c.xid, c.mac, host))
    case SendRequest(id, host) =>
      var c := w.clients[id];
      Send(w, BuildRequest(c.xid, c.mac, c.phase.offered, c.phase.server, host))
    case StartRenewal(id, xid) =>
      var c := w.clients[id];
      With(w, id, Client(c.mac, xid, Renewing(c.phase.lease)))
    case SendRenewal(id) =>
      var c := w.clients[id];
      Send(w, BuildRenewRequest(c.xid, c.mac, c.phase.lease.address))
    case StopRenewal(id) =>
      var c := w.clients[id];
      With(w, id, c.(phase := Bound(c.phase.lease)))
    case Abandon(id) => With(w, id, w.clients[id].(phase := GaveUp))
    case ServerGets(d) =>
      var (l, reply) := Serve(w.leases, cfg, d);
      w.(leases := l, net := w.net + if reply.Some? then {reply.value} else {})
    case ClientGets(id, d) => With(w, id, ClientReceive(w.clients[id], d))
    case StrangerSends(d) => w.(net := w.net + {d})
  }

  function Init(cfg: Config): World {
    World(Leases(map[], cfg.pool.first), map[], {})
  }

  /** The state a sequence of events leads to, when each is possible in turn. */
  function Replay(cfg: Config, uses: Uses, events: seq<Event>): Option<World>
    requires cfg.prefixlen <= 32
  {
    if events == [] then Some(Init(cfg))
    else
      var last := |events| - 1;
      match Replay(cfg, uses, events[..last])
      case None => None
      case Some(w) => if Enabled(w, uses, events[last]) then Some(Next(w, cfg, uses, events[last])) else None
  }

  // ---- The invariant -----------------------------------------------------------------------

  /** A datagram in flight: a grant is a recorded binding, and carries the configuration if that fits. */
  ghost predicate Truthful(w: World, cfg: Config, uses: Uses, d: seq<Byte>) {
    match Parse(d)
    case None => true
    case Some(p) =>
      && (p.chaddr, p.xid) in uses
      && (MessageType(p) in {Some(MSG_OFFER), Some(MSG_ACK)} ==>
            && p.chaddr in w.leases.byMac && w.leases.byMac[p.chaddr] == p.yiaddr
            && AddressOption(p, OPT_SERVER_ID) == Some(cfg.serverIp))
      && (MessageType(p) == Some(MSG_ACK) && |cfg.dns| <= 63 ==>
            LeaseFromAck(p, cfg.serverIp) == Granted(cfg, p.yiaddr))
  }

  /** A lease held: in the pool; the client's own binding if ids are distinct; as configured if that fits. */
  ghost predicate Backed(w: World, cfg: Config, uses: Uses, mac: Mac, l: Lease) {
    && cfg.pool.Has(l.address) && l.serverId == cfg.serverIp
    && (Distinct(uses) ==> mac in w.leases.byMac && w.leases.byMac[mac] == l.address)
    && (|cfg.dns| <= 63 ==> l == Granted(cfg, l.address))
  }

  ghost predicate Honest(w: World, cfg: Config, uses: Uses, c: Client) {
    && (c.mac, c.xid) in uses
    && (c.phase.Requesting? ==> c.phase.server == cfg.serverIp)
    && (Holds(c).Some? ==> Backed(w, cfg, uses, c.mac, Holds(c).value))
  }

  ghost predicate Inv(w: World, cfg: Config, uses: Uses) {
    && Sound(w.leases.byMac, cfg.pool)
    && (forall d <- w.net :: Truthful(w, cfg, uses, d))
    && (forall id <- w.clients :: Honest(w, cfg, uses, w.clients[id]))
  }

  lemma GrowthKeeps(w: World, w': World, cfg: Config, uses: Uses)
    requires Inv(w, cfg, uses) && Extends(w.leases.byMac, w'.leases.byMac)
    ensures forall d <- w.net :: Truthful(w', cfg, uses, d)
    ensures forall id <- w.clients :: Honest(w', cfg, uses, w.clients[id])
  {
    forall d <- w.net ensures Truthful(w', cfg, uses, d) { assert Truthful(w, cfg, uses, d); }
    forall id <- w.clients ensures Honest(w', cfg, uses, w.clients[id]) { assert Honest(w, cfg, uses, w.clients[id]); }
  }

  // ---- Every event keeps it ---------------------------------------------------------------

  lemma OwnMessage(p: Packet, kind: Byte)
    requires Fits(p.options) && |p.options| > 0 && p.options[0] == (OPT_MSG_TYPE, [kind])
    ensures Parse(Serialize(p)) == Some(p) && MessageType(p) == Some(kind)
  {
    PacketRoundTrip(p);
  }

  lemma SendingKeeps(w: World, cfg: Config, uses: Uses, id: nat, p: Packet, kind: Byte)
    requires Inv(w, cfg, uses) && id in w.clients && p.xid == w.clients[id].xid && p.chaddr == w.clients[id].mac
    requires Fits(p.options) && |p.options| > 0 && p.options[0] == (OPT_MSG_TYPE, [kind])
    requires kind == MSG_DISCOVER || kind == MSG_REQUEST
    ensures Inv(Send(w, p), cfg, uses)
  {
    var w' := Send(w, p);
    OwnMessage(p, kind);
    assert Honest(w, cfg, uses, w.clients[id]);
    GrowthKeeps(w, w', cfg, uses);
    assert Truthful(w', cfg, uses, Serialize(p));
  }

  /** A reply of the server is truthful about the table it leaves behind. */
  lemma ReplyIsTruthful(w: World, cfg: Config, uses: Uses, req: Packet, a: U32, kind: Byte)
    requires cfg.prefixlen <= 32 && (req.chaddr, req.xid) in uses
    requires kind == MSG_OFFER || kind == MSG_ACK || kind == MSG_NAK
    requires kind != MSG_NAK ==> req.chaddr in w.leases.byMac && w.leases.byMac[req.chaddr] == a
    ensures Truthful(w, cfg, uses, Serialize(BuildReply(req, a, cfg, kind)))
  {
    ReplyArrives(req, a, cfg, kind);
    if kind == MSG_ACK { AckDecodes(req, a, cfg); }
  }

  lemma ServingKeeps(w: World, cfg: Config, uses: Uses, d: seq<Byte>)
    requires cfg.prefixlen <= 32 && Inv(w, cfg, uses) && d in w.net
    ensures Inv(Next(w, cfg, uses, ServerGets(d)), cfg, uses)
  {
    var w' := Next(w, cfg, uses, ServerGets(d));
    assert Truthful(w, cfg, uses, d);
    if Parse(d).Some? {
      var p := Parse(d).value;
      AllocateIsSound(w.leases, p.chaddr, cfg.pool);
      GrowthKeeps(w, w', cfg, uses);
      if MessageType(p) == Some(MSG_DISCOVER) {
        var r := Allocate(w.leases, p.chaddr, cfg.pool).1;
        if r.Some? { ReplyIsTruthful(w', cfg, uses, p, r.value, MSG_OFFER); }
      } else if MessageType(p) == Some(MSG_REQUEST) {
        var a := Requested(p);
        var granted := p.chaddr in w.leases.byMac && w.leases.byMac[p.chaddr] == a;
        ReplyIsTruthful(w', cfg, uses, p, a, if granted then MSG_ACK else MSG_NAK);
      }
    }
  }

  lemma ReceivingKeeps(w: World, cfg: Config, uses: Uses, id: nat, d: seq<Byte>)
    requires Inv(w, cfg, uses) && id in w.clients && d in w.net
    ensures Honest(w, cfg, uses, ClientReceive(w.clients[id], d))
  {
    assert Truthful(w, cfg, uses, d) && Honest(w, cfg, uses, w.clients[id]);
  }

  lemma ClientChangeKeeps(w: World, cfg: Config, uses: Uses, id: nat, c: Client)
    requires Inv(w, cfg, uses) && Honest(w, cfg, uses, c)
    ensures Inv(With(w, id, c), cfg, uses)
  {
    GrowthKeeps(w, With(w, id, c), cfg, uses);
  }

  lemma StrangerKeeps(w: World, cfg: Config, uses: Uses, d: seq<Byte>)
    requires cfg.prefixlen <= 32 && Inv(w, cfg, uses) && Harmless(uses, d)
    ensures Inv(Next(w, cfg, uses, StrangerSends(d)), cfg, uses)
  {
    var w' := Next(w, cfg, uses, StrangerSends(d));
    GrowthKeeps(w, w', cfg, uses);
    assert Truthful(w', cfg, uses, d);
  }

  lemma ClientSendingKeeps(w: World, cfg: Config, uses: Uses, e: Event)
    requires cfg.prefixlen <= 32 && Inv(w, cfg, uses) && Enabled(w, uses, e)
    requires e.SendDiscover? || e.SendRequest? || e.SendRenewal?
    ensures Inv(Next(w, cfg, uses, e), cfg, uses)
  {
    var c := w.clients[e.id];
    match e
    case SendDiscover(id, h) => SendingKeeps(w, cfg, uses, id, BuildDiscover(c.xid, c.mac, h), MSG_DISCOVER);
    case SendRequest(id, h) =>
      SendingKeeps(w, cfg, uses, id, BuildRequest(c.xid, c.mac, c.phase.offered, c.phase.server, h), MSG_REQUEST);
    case SendRenewal(id) =>
      SendingKeeps(w, cfg, uses, id, BuildRenewRequest(c.xid, c.mac, c.phase.lease.address), MSG_REQUEST);
  }

  lemma PhaseChangeKeeps(w: World, cfg: Config, uses: Uses, e: Event)
    requires cfg.prefixlen <= 32 && Inv(w, cfg, uses) && Enabled(w, uses, e)
    requires e.Start? || e.StartRenewal? || e.StopRenewal? || e.Abandon? || e.ClientGets?
    ensures Inv(Next(w, cfg, uses, e), cfg, uses)
  {
    var w' := Next(w, cfg, uses, e);
    if e.ClientGets? { ReceivingKeeps(w, cfg, uses, e.id, e.datagram); }
    if e.id in w.clients { assert Honest(w, cfg, uses, w.clients[e.id]); }
    ClientChangeKeeps(w, cfg, uses, e.id, w'.clients[e.id]);
  }

  lemma StepKeepsInv(w: World, cfg: Config, uses: Uses, e: Event)
    requires cfg.prefixlen <= 32 && Inv(w, cfg, uses) && Enabled(w, uses, e)
    ensures Inv(Next(w, cfg, uses, e), cfg, uses)
  {
    match e
    case ServerGets(d) => ServingKeeps(w, cfg, uses, d);
    case StrangerSends(d) => StrangerKeeps(w, cfg, uses, d);
    case SendDiscover(_, _) => ClientSendingKeeps(w, cfg, uses, e);
    case SendRequest(_, _) => ClientSendingKeeps(w, cfg, uses, e);
    case SendRenewal(_) => ClientSendingKeeps(w, cfg, uses, e);
    case _ => PhaseChangeKeeps(w, cfg, uses, e);
  }

  lemma {:induction false} RunsKeepInv(cfg: Config, uses: Uses, events: seq<Event>)
    requires cfg.prefixlen <= 32 && Replay(cfg, uses, events).Some?
    ensures Inv(Replay(cfg, uses, events).value, cfg, uses)
  {
    if events != [] {
      var last := |events| - 1;
      RunsKeepInv(cfg, uses, events[..last]);
      StepKeepsInv(Replay(cfg, uses, events[..last]).value, cfg, uses, events[last]);
    }
  }

  // ---- Main results ---------------------------------------------------------------------------

  /** Clients with different hardware addresses hold different addresses. */
  ghost predicate Exclusive(w: World) {
    forall i, j ::
      i in w.clients && j in w.clients && w.clients[i].mac != w.clients[j].mac
      && Holds(w.clients[i]).Some? && Holds(w.clients[j]).Some? ==>
        Holds(w.clients[i]).value.address != Holds(w.clients[j]).value.address
  }

  /** With distinct transaction ids, in every run no address is shared, whatever the configuration lists. */
  lemma NoAddressIsShared(cfg: Config, uses: Uses, events: seq<Event>)
    requires cfg.prefixlen <= 32 && Distinct(uses) && Replay(cfg, uses, events).Some?
    ensures Exclusive(Replay(cfg, uses, events).value)
  {
    RunsKeepInv(cfg, uses, events);
    var w := Replay(cfg, uses, events).value;
    forall i, j | i in w.clients && j in w.clients && w.clients[i].mac != w.clients[j].mac
                  && Holds(w.clients[i]).Some? && Holds(w.clients[j]).Some?
      ensures Holds(w.clients[i]).value.address != Holds(w.clients[j]).value.address {
      assert Honest(w, cfg, uses, w.clients[i]) && Honest(w, cfg, uses, w.clients[j]);
    }
  }

  /** In every run, whatever the transaction ids, an address held lies in the pool. */
  lemma HeldAddressesAreInThePool(cfg: Config, uses: Uses, events: seq<Event>, i: nat)
    requires cfg.prefixlen <= 32 && Replay(cfg, uses, events).Some?
    requires i in Replay(cfg, uses, events).value.clients && Holds(Replay(cfg, uses, events).value.clients[i]).Some?
    ensures cfg.pool.Has(Holds(Replay(cfg, uses, events).value.clients[i]).value.address)
  {
    RunsKeepInv(cfg, uses, events);
    var w := Replay(cfg, uses, events).value;
    assert Honest(w, cfg, uses, w.clients[i]);
  }

  /** In every run, a lease held is the configured one, on the pool address recorded for the client. */
  lemma LeasesAreAsConfigured(cfg: Config, uses: Uses, events: seq<Event>, i: nat)
    requires Servable(cfg) && Distinct(uses) && Replay(cfg, uses, events).Some?
    requires i in Replay(cfg, uses, events).value.clients && Holds(Replay(cfg, uses, events).value.clients[i]).Some?
    ensures var w := Replay(cfg, uses, events).value;
            var c := w.clients[i];
            c.mac in w.leases.byMac && cfg.pool.Has(w.leases.byMac[c.mac])
            && Holds(c).value == Granted(cfg, w.leases.byMac[c.mac])
  {
    RunsKeepInv(cfg, uses, events);
    var w := Replay(cfg, uses, events).value;
    assert Honest(w, cfg, uses, w.clients[i]);
  }

  // ---- Distinct ids are needed --------------------------------------------------------------------

  lemma Goes(cfg: Config, uses: Uses, events: seq<Event>, w: World, e: Event)
    requires cfg.prefixlen <= 32 && Replay(cfg, uses, events) == Some(w) && Enabled(w, uses, e)
    ensures Replay(cfg, uses, events + [e]) == Some(Next(w, cfg, uses, e))
  {
    assert (events + [e])[..|events|] == events;
  }

  lemma OfferMoves(c: Client, req: Packet, a: U32, cfg: Config)
    requires cfg.prefixlen <= 32 && c.phase.Discovering? && req.xid == c.xid
    ensures ClientReceive(c, Serialize(BuildReply(req, a, cfg, MSG_OFFER))) == c.(phase := Requesting(a, cfg.serverIp))
  {
    ReplyArrives(req, a, cfg, MSG_OFFER);
  }

  lemma AckHolds(c: Client, req: Packet, a: U32, cfg: Config)
    requires cfg.prefixlen <= 32 && c.phase == Requesting(a, cfg.serverIp) && req.xid == c.xid
    ensures var c' := ClientReceive(c, Serialize(BuildReply(req, a, cfg, MSG_ACK)));
            c'.mac == c.mac && Holds(c').Some? && Holds(c').value.address == a
  {
    ReplyArrives(req, a, cfg, MSG_ACK);
  }

  lemma FirstAllocation(cfg: Config, m: Mac) returns (a: U32)
    requires cfg.pool.Size() > 0
    ensures var (l, r) := Allocate(Init(cfg).leases, m, cfg.pool);
            r == Some(a) && m in l.byMac && l.byMac[m] == a
  {
    AllocateIsSound(Init(cfg).leases, m, cfg.pool);
    assert cfg.pool.Has(cfg.pool.first) && cfg.pool.first !in Taken(map[]);
    a := Allocate(Init(cfg).leases, m, cfg.pool).1.value;
  }

  /** Two clients started under one id, and the first one's discover sent and served. */
  lemma SharedDiscover(cfg: Config, uses: Uses, m: Mac, m': Mac, x: U32)
    returns (events: seq<Event>, w: World, a: U32, offer: seq<Byte>)
    requires cfg.prefixlen <= 32 && cfg.pool.Size() > 0 && (m, x) in uses && (m', x) in uses
    ensures Replay(cfg, uses, events) == Some(w)
    ensures m in w.leases.byMac && w.leases.byMac[m] == a
    ensures w.clients == map[0 := Client(m, x, Discovering), 1 := Client(m', x, Discovering)]
    ensures offer in w.net && offer == Serialize(BuildReply(BuildDiscover(x, m, None), a, cfg, MSG_OFFER))
  {
    var w0 := Init(cfg);
    a := FirstAllocation(cfg, m);
    Goes(cfg, uses, [], w0, Start(0, m, x));
    var w1 := Next(w0, cfg, uses, Start(0, m, x));
    events := [] + [Start(0, m, x)];
    Goes(cfg, uses, events, w1, Start(1, m', x));
    var w2 := Next(w1, cfg, uses, Start(1, m', x));
    events := events + [Start(1, m', x)];
    Goes(cfg, uses, events, w2, SendDiscover(0, None));
    var w3 := Next(w2, cfg, uses, SendDiscover(0, None));
    events := events + [SendDiscover(0, None)];
    var discover := BuildDiscover(x, m, None);
    OwnMessage(discover, MSG_DISCOVER);
    var e := ServerGets(Serialize(discover));
    Goes(cfg, uses, events, w3, e);
    w := Next(w3, cfg, uses, e);
    events := events + [e];
    offer := Serialize(BuildReply(discover, a, cfg, MSG_OFFER));
    assert Serve(w3.leases, cfg, Serialize(discover)).1 == Some(offer);
  }

  /** Both clients of a two-client world get one datagram. */
  lemma BothGet(cfg: Config, uses: Uses, events: seq<Event>, w: World, d: seq<Byte>)
    requires cfg.prefixlen <= 32 && Replay(cfg, uses, events) == Some(w) && d in w.net && w.clients.Keys == {0, 1}
    ensures Replay(cfg, uses, events + [ClientGets(0, d)] + [ClientGets(1, d)])
            == Some(w.(clients := map[0 := ClientReceive(w.clients[0], d), 1 := ClientReceive(w.clients[1], d)]))
  {
    Goes(cfg, uses, events, w, ClientGets(0, d));
    var w1 := Next(w, cfg, uses, ClientGets(0, d));
    Goes(cfg, uses, events + [ClientGets(0, d)], w1, ClientGets(1, d));
    assert w1.clients[1 := ClientReceive(w.clients[1], d)]
        == map[0 := ClientReceive(w.clients[0], d), 1 := ClientReceive(w.clients[1], d)];
  }

  /** Both take the one offer. */
  lemma SharedOffer(cfg: Config, uses: Uses, m: Mac, m': Mac, x: U32)
    returns (events: seq<Event>, w: World, a: U32)
    requires cfg.prefixlen <= 32 && cfg.pool.Size() > 0 && (m, x) in uses && (m', x) in uses
    ensures Replay(cfg, uses, events) == Some(w)
    ensures m in w.leases.byMac && w.leases.byMac[m] == a
    ensures var phase := Requesting(a, cfg.serverIp);
            w.clients == map[0 := Client(m, x, phase), 1 := Client(m', x, phase)]
  {
    var w0, offer;
    events, w0, a, offer := SharedDiscover(cfg, uses, m, m', x);
    var discover := BuildDiscover(x, m, None);
    OfferMoves(w0.clients[0], discover, a, cfg);
    OfferMoves(w0.clients[1], discover, a, cfg);
    BothGet(cfg, uses, events, w0, offer);
    events := events + [ClientGets(0, offer)] + [ClientGets(1, offer)];
    w := Replay(cfg, uses, events).value;
  }

  lemma RequestIsAcked(l: Leases, cfg: Config, m: Mac, x: U32, a: U32)
    requires cfg.prefixlen <= 32 && m in l.byMac && l.byMac[m] == a
    ensures var request := BuildRequest(x, m, a, cfg.serverIp, None);
            Serve(l, cfg, Serialize(request)) == (l, Some(Serialize(BuildReply(request, a, cfg, MSG_ACK))))
  {
    var request := BuildRequest(x, m, a, cfg.serverIp, None);
    OwnMessage(request, MSG_REQUEST);
    RequestNames(x, m, a, cfg.serverIp, None);
    BoundRequestIsAcked(l, cfg, Serialize(request), request);
  }

  /** The first one's request is sent and acknowledged. */
  lemma SharedRequest(cfg: Config, uses: Uses, m: Mac, m': Mac, x: U32)
    returns (events: seq<Event>, w: World, a: U32, ack: seq<Byte>)
    requires cfg.prefixlen <= 32 && cfg.pool.Size() > 0 && (m, x) in uses && (m', x) in uses
    ensures Replay(cfg, uses, events) == Some(w)
    ensures var phase := Requesting(a, cfg.serverIp);
            w.clients == map[0 := Client(m, x, phase), 1 := Client(m', x, phase)]
    ensures ack in w.net
            && ack == Serialize(BuildReply(BuildRequest(x, m, a, cfg.serverIp, None), a, cfg, MSG_ACK))
  {
    var w0;
    events, w0, a := SharedOffer(cfg, uses, m, m', x);
    Goes(cfg, uses, events, w0, SendRequest(0, None));
    var w1 := Send(w0, BuildRequest(x, m, a, cfg.serverIp, None));
    events := events + [SendRequest(0, None)];
    RequestIsAcked(w1.leases, cfg, m, x, a);
    var e := ServerGets(Serialize(BuildRequest(x, m, a, cfg.serverIp, None)));
    Goes(cfg, uses, events, w1, e);
    events := events + [e];
    w := Replay(cfg, uses, events).value;
    ack := Serialize(BuildReply(BuildRequest(x, m, a, cfg.serverIp, None), a, cfg, MSG_ACK));
  }

  /** Two hardware addresses under one transaction id: a run in which both end up holding one address. */
  lemma SharedIdSharesTheAddress(cfg: Config, uses: Uses, m: Mac, m': Mac, x: U32) returns (events: seq<Event>)
    requires cfg.prefixlen <= 32 && cfg.pool.Size() > 0 && m != m' && (m, x) in uses && (m', x) in uses
    ensures Replay(cfg, uses, events).Some? && !Exclusive(Replay(cfg, uses, events).value)
  {
    var w0, a, ack;
    events, w0, a, ack := SharedRequest(cfg, uses, m, m', x);
    var request := BuildRequest(x, m, a, cfg.serverIp, None);
    AckHolds(w0.clients[0], request, a, cfg);
    AckHolds(w0.clients[1], request, a, cfg);
    BothGet(cfg, uses, events, w0, ack);
    events := events + [ClientGets(0, ack)] + [ClientGets(1, ack)];
    var w := Replay(cfg, uses, events).value;
    assert 0 in w.clients && 1 in w.clients && w.clients[0].mac != w.clients[1].mac;
  }

  /** No run shares an address if and only if no two hardware addresses share an id, or there is nothing to lease. */
  lemma UniqueExactlyWhenIdsAre(cfg: Config, uses: Uses)
    requires cfg.prefixlen <= 32
    ensures (forall events :: Replay(cfg, uses, events).Some? ==> Exclusive(Replay(cfg, uses, events).value))
            <==> Distinct(uses) || cfg.pool.Size() == 0
  {
    if Distinct(uses) {
      forall events | Replay(cfg, uses, events).Some? ensures Exclusive(Replay(cfg, uses, events).value) {
        NoAddressIsShared(cfg, uses, events);
      }
    } else if cfg.pool.Size() == 0 {
      forall events | Replay(cfg, uses, events).Some? ensures Exclusive(Replay(cfg, uses, events).value) {
        NothingToLease(cfg, uses, events);
      }
    } else {
      var m, m', x :| (m, x) in uses && (m', x) in uses && m != m';
      var events := SharedIdSharesTheAddress(cfg, uses, m, m', x);
    }
  }

  lemma NothingToLease(cfg: Config, uses: Uses, events: seq<Event>)
    requires cfg.prefixlen <= 32 && cfg.pool.Size() == 0 && Replay(cfg, uses, events).Some?
    ensures var w := Replay(cfg, uses, events).value;
            forall i <- w.clients :: Holds(w.clients[i]).None?
  {
    var w := Replay(cfg, uses, events).value;
    forall i | i in w.clients ensures Holds(w.clients[i]).None? {
      if Holds(w.clients[i]).Some? { HeldAddressesAreInThePool(cfg, uses, events, i); }
    }
  }

  // ---- An undisturbed exchange ------------------------------------------------------------------

  lemma AckBinds(c: Client, req: Packet, a: U32, cfg: Config)
    requires Servable(cfg) && c.phase == Requesting(a, cfg.serverIp) && req.xid == c.xid
    ensures ClientReceive(c, Serialize(BuildReply(req, a, cfg, MSG_ACK))).phase == Bound(Granted(cfg, a))
  {
    ReplyArrives(req, a, cfg, MSG_ACK);
    AckDecodes(req, a, cfg);
  }

  lemma DiscoverGetsOffer(l: Leases, cfg: Config, mac: Mac, xid: U32, h: Hostname)
    requires Servable(cfg) && Allocate(l, mac, cfg.pool).1.Some?
    ensures var (l', a) := Allocate(l, mac, cfg.pool);
            var (l1, offer) := Serve(l, cfg, Serialize(BuildDiscover(xid, mac, h)));
            l1 == l' && offer.Some? &&
            ClientReceive(Client(mac, xid, Discovering), offer.value)
            == Client(mac, xid, Requesting(a.value, cfg.serverIp))
  {
    var a := Allocate(l, mac, cfg.pool).1.value;
    var discover := BuildDiscover(xid, mac, h);
    OwnMessage(discover, MSG_DISCOVER);
    ReplyArrives(discover, a, cfg, MSG_OFFER);
  }

  lemma RequestGetsAck(l: Leases, cfg: Config, mac: Mac, xid: U32, a: U32, h: Hostname)
    requires Servable(cfg) && mac in l.byMac && l.byMac[mac] == a
    ensures var ack := Serve(l, cfg, Serialize(BuildRequest(xid, mac, a, cfg.serverIp, h))).1;
            ack.Some? &&
            ClientReceive(Client(mac, xid, Requesting(a, cfg.serverIp)), ack.value).phase
            == Bound(Granted(cfg, a))
  {
    var request := BuildRequest(xid, mac, a, cfg.serverIp, h);
    OwnMessage(request, MSG_REQUEST);
    RequestNames(xid, mac, a, cfg.serverIp, h);
    BoundRequestIsAcked(l, cfg, Serialize(request), request);
    AckBinds(Client(mac, xid, Requesting(a, cfg.serverIp)), request, a, cfg);
  }

  lemma BoundRequestIsAcked(l: Leases, cfg: Config, d: seq<Byte>, p: Packet)
    requires cfg.prefixlen <= 32 && Parse(d) == Some(p) && MessageType(p) == Some(MSG_REQUEST)
    requires p.chaddr in l.byMac && l.byMac[p.chaddr] == Requested(p)
    ensures Serve(l, cfg, d) == (l, Some(Serialize(BuildReply(p, Requested(p), cfg, MSG_ACK))))
  {
  }

  /** The four messages of an undisturbed exchange end in a lease whenever the pool has an address. */
  lemma ExchangeSucceeds(l: Leases, cfg: Config, mac: Mac, xid: U32, h: Hostname)
    requires Servable(cfg) && Sound(l.byMac, cfg.pool) && Allocate(l, mac, cfg.pool).1.Some?
    ensures var a := Allocate(l, mac, cfg.pool).1.value;
            var (l1, offer) := Serve(l, cfg, Serialize(BuildDiscover(xid, mac, h)));
            var ack := Serve(l1, cfg, Serialize(BuildRequest(xid, mac, a, cfg.serverIp, h))).1;
            offer.Some? && ack.Some? &&
            ClientRun(Client(mac, xid, Discovering), [offer.value, ack.value]).phase == Bound(Granted(cfg, a))
  {
    AllocateIsSound(l, mac, cfg.pool);
    var (l', r) := Allocate(l, mac, cfg.pool);
    DiscoverGetsOffer(l, cfg, mac, xid, h);
    RequestGetsAck(l', cfg, mac, xid, r.value, h);
    var offer := Serve(l, cfg, Serialize(BuildDiscover(xid, mac, h))).1.value;
    var ack := Serve(l', cfg, Serialize(BuildRequest(xid, mac, r.value, cfg.serverIp, h))).1.value;
    TwoDatagrams(Client(mac, xid, Discovering), offer, ack);
  }

  lemma TwoDatagrams(c: Client, d: seq<Byte>, d': seq<Byte>)
    ensures ClientRun(c, [d, d']) == ClientReceive(ClientReceive(c, d), d')
  {
    var c1 := ClientReceive(c, d);
    assert [d, d'][1..] == [d'] && [d'][1..] == [];
    assert ClientRun(c1, [d']) == ClientRun(ClientReceive(c1, d'), []);
  }

  lemma RequestNames(xid: U32, mac: Mac, a: U32, sid: U32, h: Hostname)
    ensures Requested(BuildRequest(xid, mac, a, sid, h)) == a
  {
    var p := BuildRequest(xid, mac, a, sid, h);
    var pre, post: Options := p.options[..2], p.options[3..];
    assert p.options == pre + [(OPT_REQUESTED_IP, Be32(a))] + post;
    OptionFound(pre, OPT_REQUESTED_IP, Be32(a), post);
  }
}
