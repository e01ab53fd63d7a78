/** Zones and rules compiled to first-match chains, and what the chains do to packets. */
module Nftables {
  import opened Wrappers

  datatype Policy = PolicyAccept | PolicyDrop
  datatype Zone = Zone(name: string, policy: Policy, interfaces: seq<string>)

  datatype Direction = Inbound | Outbound
  datatype Action = Accept | Drop | Reject
  datatype Protocol = Tcp | Udp | Icmp
  datatype PortSpec = PortSpec(first: nat, last: Option<nat>)
  datatype Rule = Rule(
    id: string, zone: string, direction: Direction, action: Action,
    protocol: Option<Protocol>, port: Option<PortSpec>, source: Option<string>)

  // ---- Packets and chains ----------------------------------------------------------

  datatype ConnState = New | Established | Related | Invalid

  datatype Packet = Packet(
    conn: ConnState, iif: string, oif: string, protocol: Option<Protocol>, dport: nat, source: nat)

  /** One condition of a rule line. */
  datatype Cond =
    | ConnIn(states: set<ConnState>)
    | IifIn(names: seq<string>)
    | OifIs(name: string)
    | ProtocolIs(p: Protocol)
    | DportIn(lo: nat, hi: nat)
    | SourceIn(cidr: string)

  datatype Line = Line(conds: seq<Cond>, action: Action)

  datatype Chain = Chain(lines: seq<Line>, policy: Action)

  /** `inNet` tells whether an address lies in a textual network. */
  predicate Holds(c: Cond, p: Packet, inNet: (string, nat) -> bool) {
    match c
    case ConnIn(s) => p.conn in s
    case IifIn(names) => p.iif in names
    case OifIs(n) => p.oif == n
    case ProtocolIs(q) => p.protocol == Some(q)
    case DportIn(lo, hi) => lo <= p.dport <= hi
    case SourceIn(cidr) => inNet(cidr, p.source)
  }

  predicate Matches(l: Line, p: Packet, inNet: (string, nat) -> bool) {
    forall c <- l.conds :: Holds(c, p, inNet)
  }

  /** The first matching line decides. */
  function Decide(lines: seq<Line>, p: Packet, inNet: (string, nat) -> bool): Option<Action> {
    if lines == [] then None
    else if Matches(lines[0], p, inNet) then Some(lines[0].action)
    else Decide(lines[1..], p, inNet)
  }

  function Verdict(c: Chain, p: Packet, inNet: (string, nat) -> bool): Action {
    var d := Decide(c.lines, p, inNet);
    if d.Some? then d.value else c.policy
  }

  // ---- Rendering -------------------------------------------------------------------

  function LastPort(p: PortSpec): nat { if p.last.Some? then p.last.value else p.first }

  /** A port restriction is only rendered together with a protocol. */
  function RuleConds(r: Rule): seq<Cond> {
    (if r.protocol.None? then []
     else [ProtocolIs(r.protocol.value)] +
          if r.port.None? then []
          else [DportIn(r.port.value.first, LastPort(r.port.value))])
    + if r.source.None? then [] else [SourceIn(r.source.value)]
  }

  function ZoneRuleLines(z: Zone, rules: seq<Rule>): seq<Line> {
    if rules == [] then []
    else
      (if rules[0].zone == z.name && rules[0].direction == Inbound
       then [Line([IifIn(z.interfaces)] + RuleConds(rules[0]), rules[0].action)] else [])
      + ZoneRuleLines(z, rules[1..])
  }

  function ZoneLines(z: Zone, rules: seq<Rule>): seq<Line> {
    if z.interfaces == [] then []
    else
      (if z.policy == PolicyAccept then [Line([IifIn(z.interfaces)], Accept)] else [])
      + ZoneRuleLines(z, rules)
  }

  function AllZoneLines(zones: seq<Zone>, rules: seq<Rule>): seq<Line> {
    if zones == [] then [] else ZoneLines(zones[0], rules) + AllZoneLines(zones[1..], rules)
  }

  const TRACKED := Line([ConnIn({Established, Related})], Accept)

  function Preamble(): seq<Line> {
    [TRACKED, Line([ConnIn({Invalid})], Drop), Line([IifIn(["lo"])], Accept)]
  }

  function InputChain(zones: seq<Zone>, rules: seq<Rule>): Chain {
    Chain(Preamble() + AllZoneLines(zones, rules), Drop)
  }

  function PairLines(pairs: seq<(string, string)>): seq<Line> {
    if pairs == [] then []
    else [Line([IifIn([pairs[0].0]), OifIs(pairs[0].1)], Accept)] + PairLines(pairs[1..])
  }

  function ForwardChain(pairs: seq<(string, string)>): Chain {
    Chain([TRACKED] + PairLines(pairs), Drop)
  }

  function OutboundLines(rules: seq<Rule>): seq<Line> {
    if rules == [] then []
    else (if rules[0].direction == Outbound then [Line(RuleConds(rules[0]), rules[0].action)] else [])
         + OutboundLines(rules[1..])
  }

  function OutputChain(rules: seq<Rule>): Chain {
    Chain(OutboundLines(rules), Accept)
  }

  datatype Ruleset = Ruleset(input: Chain, forward: Chain, output: Chain, masquerade: seq<string>)

  /** The rendering loops, appending line after line. */
  method Render(zones: seq<Zone>, rules: seq<Rule>, masquerade: seq<string>, pairs: seq<(string, string)>)
    returns (r: Ruleset)
    ensures r == Ruleset(InputChain(zones, rules), ForwardChain(pairs), OutputChain(rules), masquerade)
  {
    var zoned := RenderZones(zones, rules);
    var paired := RenderPairs(pairs);
    var output := RenderOutbound(rules);
    r := Ruleset(Chain(Preamble() + zoned, Drop), Chain([TRACKED] + paired, Drop), Chain(output, Accept), masquerade);
  }

  lemma ZonesMoveOn(zones: seq<Zone>, rules: seq<Rule>, i: nat, lines: seq<Line>)
    requires i < |zones|
    ensures lines + AllZoneLines(zones[i..], rules)
            == lines + ZoneLines(zones[i], rules) + AllZoneLines(zones[i + 1..], rules)
  {
    assert zones[i..][0] == zones[i] && zones[i..][1..] == zones[i + 1..];
  }

  method RenderZones(zones: seq<Zone>, rules: seq<Rule>) returns (lines: seq<Line>)
    ensures lines == AllZoneLines(zones, rules)
  {
    lines := [];
    assert zones[0..] == zones && [] + AllZoneLines(zones, rules) == AllZoneLines(zones, rules);
    for i := 0 to |zones|
      invariant AllZoneLines(zones, rules) == lines + AllZoneLines(zones[i..], rules)
    {
      ZonesMoveOn(zones, rules, i, lines);
      var more := RenderZone(zones[i], rules);
      lines := lines + more;
    }
    assert lines + [] == lines;
  }

  method RenderPairs(pairs: seq<(string, string)>) returns (lines: seq<Line>)
    ensures lines == PairLines(pairs)
  {
    lines := [];
    assert pairs[0..] == pairs && [] + PairLines(pairs) == PairLines(pairs);
    for i := 0 to |pairs|
      invariant PairLines(pairs) == lines + PairLines(pairs[i..])
    {
      assert pairs[i..][0] == pairs[i] && pairs[i..][1..] == pairs[i + 1..];
      var line := Line([IifIn([pairs[i].0]), OifIs(pairs[i].1)], Accept);
      ghost var rest := PairLines(pairs[i + 1..]);
      assert lines + ([line] + rest) == lines + [line] + rest;
      lines := lines + [line];
    }
    assert lines + [] == lines;
  }

  method RenderOutbound(rules: seq<Rule>) returns (output: seq<Line>)
    ensures output == OutboundLines(rules)
  {
    output := [];
    assert rules[0..] == rules && [] + OutboundLines(rules) == OutboundLines(rules);
    for i := 0 to |rules|
      invariant OutboundLines(rules) == output + OutboundLines(rules[i..])
    {
      assert rules[i..][0] == rules[i] && rules[i..][1..] == rules[i + 1..];
      var line := Line(RuleConds(rules[i]), rules[i].action);
      ghost var rest := OutboundLines(rules[i + 1..]);
      assert output + ([line] + rest) == output + [line] + rest && [] + rest == rest;
      if rules[i].direction == Outbound { output := output + [line]; }
    }
    assert output + [] == output;
  }

  method RenderZone(z: Zone, rules: seq<Rule>) returns (lines: seq<Line>)
    ensures lines == ZoneLines(z, rules)
  {
    lines := [];
    if z.interfaces == [] { return; }
    if z.policy == PolicyAccept { lines := lines + [Line([IifIn(z.interfaces)], Accept)]; }
    ghost var start := lines;
    assert rules[0..] == rules;
    for i := 0 to |rules|
      invariant start + ZoneRuleLines(z, rules) == lines + ZoneRuleLines(z, rules[i..])
    {
      assert rules[i..][0] == rules[i] && rules[i..][1..] == rules[i + 1..];
      var line := Line([IifIn(z.interfaces)] + RuleConds(rules[i]), rules[i].action);
      ghost var rest := ZoneRuleLines(z, rules[i + 1..]);
      assert lines + ([line] + rest) == lines + [line] + rest && [] + rest == rest;
      if rules[i].zone == z.name && rules[i].direction == Inbound { lines := lines + [line]; }
    }
    assert lines + [] == lines;
  }

  // ---- What administrators mean ------------------------------------------------------

  /** The rule applies to the packet, read off the rule itself. */
  predicate Applies(r: Rule, p: Packet, inNet: (string, nat) -> bool) {
    && (r.protocol.Some? ==> p.protocol == r.protocol)
    && (r.protocol.Some? && r.port.Some? ==>
          r.port.value.first <= p.dport <= LastPort(r.port.value))
    && (r.source.Some? ==> inNet(r.source.value, p.source))
  }

  function FirstRule(rules: seq<Rule>, zone: string, p: Packet, inNet: (string, nat) -> bool): Option<Action> {
    if rules == [] then None
    else if rules[0].zone == zone && rules[0].direction == Inbound && Applies(rules[0], p, inNet) then
      Some(rules[0].action)
    else FirstRule(rules[1..], zone, p, inNet)
  }

  /** The verdict of one zone on its own: accept-all, or its first applicable rule, or drop. */
  function ZoneVerdict(z: Zone, rules: seq<Rule>, p: Packet, inNet: (string, nat) -> bool): Action {
    if z.policy == PolicyAccept then Accept
    else
      var r := FirstRule(rules, z.name, p, inNet);
      if r.Some? then r.value else Drop
  }

  /** No interface is in two zones. */
  ghost predicate Disjoint(zones: seq<Zone>) {
    forall i, j, x :: 0 <= i < j < |zones| && x in zones[i].interfaces ==> x !in zones[j].interfaces
  }

  // ---- Correctness of the input chain --------------------------------------------------

  lemma RuleCondsMean(r: Rule, p: Packet, inNet: (string, nat) -> bool)
    ensures Applies(r, p, inNet) <==> forall c <- RuleConds(r) :: Holds(c, p, inNet)
  {
    var cs := RuleConds(r);
    if forall c <- cs :: Holds(c, p, inNet) {
      if r.protocol.Some? {
        assert cs[0] in cs;
        if r.port.Some? { assert cs[1] in cs; }
      }
      if r.source.Some? { assert cs[|cs| - 1] in cs; }
    }
  }

  lemma {:induction false} DecideConcat(a: seq<Line>, b: seq<Line>, p: Packet, inNet: (string, nat) -> bool)
    ensures Decide(a + b, p, inNet)
            == if Decide(a, p, inNet).Some? then Decide(a, p, inNet) else Decide(b, p, inNet)
  {
    if a == [] {
      assert a + b == b;
    } else {
      assert (a + b)[1..] == a[1..] + b;
      DecideConcat(a[1..], b, p, inNet);
    }
  }

  lemma {:induction false} ZoneRulesDecide(z: Zone, rules: seq<Rule>, p: Packet, inNet: (string, nat) -> bool)
    ensures Decide(ZoneRuleLines(z, rules), p, inNet)
            == if p.iif in z.interfaces then FirstRule(rules, z.name, p, inNet) else None
  {
    if rules != [] {
      var r := rules[0];
      var rest := ZoneRuleLines(z, rules[1..]);
      ZoneRulesDecide(z, rules[1..], p, inNet);
      if r.zone == z.name && r.direction == Inbound {
        var line := Line([IifIn(z.interfaces)] + RuleConds(r), r.action);
        assert ([line] + rest)[1..] == rest;
        RuleCondsMean(r, p, inNet);
        assert line.conds[0] in line.conds;
        assert Matches(line, p, inNet) <==> p.iif in z.interfaces && Applies(r, p, inNet);
      } else {
        assert [] + rest == rest;
      }
    }
  }

  lemma ZoneDecides(z: Zone, rules: seq<Rule>, p: Packet, inNet: (string, nat) -> bool)
    ensures Decide(ZoneLines(z, rules), p, inNet)
            == if p.iif !in z.interfaces then None
               else if z.policy == PolicyAccept then Some(Accept)
               else FirstRule(rules, z.name, p, inNet)
  {
    if z.interfaces != [] {
      ZoneRulesDecide(z, rules, p, inNet);
      var blanket := Line([IifIn(z.interfaces)], Accept);
      assert Matches(blanket, p, inNet) <==> p.iif in z.interfaces by {
        assert blanket.conds[0] in blanket.conds;
      }
      var rest := ZoneRuleLines(z, rules);
      assert ([blanket] + rest)[1..] == rest && [] + rest == rest;
    }
  }

  lemma {:induction false} OtherZonesAreSilent(
    zones: seq<Zone>, rules: seq<Rule>, p: Packet, inNet: (string, nat) -> bool)
    requires forall z <- zones :: p.iif !in z.interfaces
    ensures Decide(AllZoneLines(zones, rules), p, inNet) == None
  {
    if zones != [] {
      assert zones[0] in zones;
      ZoneDecides(zones[0], rules, p, inNet);
      DecideConcat(ZoneLines(zones[0], rules), AllZoneLines(zones[1..], rules), p, inNet);
      OtherZonesAreSilent(zones[1..], rules, p, inNet);
    }
  }

  lemma {:induction false} OwnZoneDecides(
    zones: seq<Zone>, k: nat, rules: seq<Rule>, p: Packet, inNet: (string, nat) -> bool)
    requires Disjoint(zones) && k < |zones| && p.iif in zones[k].interfaces
    ensures Decide(AllZoneLines(zones, rules), p, inNet) == Decide(ZoneLines(zones[k], rules), p, inNet)
  {
    var rest := AllZoneLines(zones[1..], rules);
    DecideConcat(ZoneLines(zones[0], rules), rest, p, inNet);
    ZoneDecides(zones[0], rules, p, inNet);
    if k == 0 {
      forall z <- zones[1..] ensures p.iif !in z.interfaces {
        var j :| 0 <= j < |zones[1..]| && zones[1..][j] == z;
        assert z == zones[j + 1];
      }
      OtherZonesAreSilent(zones[1..], rules, p, inNet);
    } else {
      assert p.iif !in zones[0].interfaces;
      assert zones[1..][k - 1] == zones[k];
      OwnZoneDecides(zones[1..], k - 1, rules, p, inNet);
    }
  }

  lemma PreambleDecides(p: Packet, inNet: (string, nat) -> bool)
    ensures Decide(Preamble(), p, inNet)
            == match p.conn
               case Established => Some(Accept)
               case Related => Some(Accept)
               case Invalid => Some(Drop)
               case New => if p.iif == "lo" then Some(Accept) else None
  {
    var lines := Preamble();
    assert forall l <- lines :: l.conds[0] in l.conds && |l.conds| == 1;
    assert lines[1..][0] == lines[1] && lines[1..][1..][0] == lines[2] && lines[1..][1..][1..] == [];
    assert Matches(lines[0], p, inNet) <==> p.conn in {Established, Related};
    assert Matches(lines[1], p, inNet) <==> p.conn == Invalid;
    assert Matches(lines[2], p, inNet) <==> p.iif == "lo";
    var two, one := lines[1..], lines[1..][1..];
    assert Decide(one, p, inNet) == if p.iif == "lo" then Some(Accept) else Decide(one[1..], p, inNet);
    assert Decide(two, p, inNet) == if p.conn == Invalid then Some(Drop) else Decide(one, p, inNet);
  }

  /** A new packet gets the verdict of its own zone alone; without a zone it is dropped. */
  lemma NewPacketsFollowTheirZone(zones: seq<Zone>, rules: seq<Rule>, p: Packet, inNet: (string, nat) -> bool)
    requires Disjoint(zones) && p.conn == New && p.iif != "lo"
    ensures forall k :: 0 <= k < |zones| && p.iif in zones[k].interfaces ==>
              Verdict(InputChain(zones, rules), p, inNet) == ZoneVerdict(zones[k], rules, p, inNet)
    ensures (forall z <- zones :: p.iif !in z.interfaces) ==> Verdict(InputChain(zones, rules), p, inNet) == Drop
  {
    DecideConcat(Preamble(), AllZoneLines(zones, rules), p, inNet);
    PreambleDecides(p, inNet);
    forall k | 0 <= k < |zones| && p.iif in zones[k].interfaces
      ensures Verdict(InputChain(zones, rules), p, inNet) == ZoneVerdict(zones[k], rules, p, inNet)
    {
      OwnZoneDecides(zones, k, rules, p, inNet);
      ZoneDecides(zones[k], rules, p, inNet);
    }
    if forall z <- zones :: p.iif !in z.interfaces { OtherZonesAreSilent(zones, rules, p, inNet); }
  }

  /** Tracked, invalid and loopback packets are settled before any zone is consulted. */
  lemma TrackedPacketsIgnoreZones(zones: seq<Zone>, rules: seq<Rule>, p: Packet, inNet: (string, nat) -> bool)
    requires p.conn != New || p.iif == "lo"
    ensures Verdict(InputChain(zones, rules), p, inNet) == if p.conn == Invalid then Drop else Accept
  {
    DecideConcat(Preamble(), AllZoneLines(zones, rules), p, inNet);
    PreambleDecides(p, inNet);
  }

  /** What the policies are documented to mean: rules first, then the zone's default. */
  function Documented(z: Zone, rules: seq<Rule>, p: Packet, inNet: (string, nat) -> bool): Action {
    var r := FirstRule(rules, z.name, p, inNet);
    if r.Some? then r.value else if z.policy == PolicyAccept then Accept else Drop
  }

  /** The chain does what is documented exactly unless a rule of an accepting zone wants to block. */
  lemma DocumentedExactlyUnlessBlocking(
    zones: seq<Zone>, k: nat, rules: seq<Rule>, p: Packet, inNet: (string, nat) -> bool)
    requires Disjoint(zones) && p.conn == New && p.iif != "lo"
    requires k < |zones| && p.iif in zones[k].interfaces
    ensures Verdict(InputChain(zones, rules), p, inNet) == Documented(zones[k], rules, p, inNet)
            <==> !(zones[k].policy == PolicyAccept
                   && FirstRule(rules, zones[k].name, p, inNet) in {Some(Drop), Some(Reject)})
  {
    NewPacketsFollowTheirZone(zones, rules, p, inNet);
  }

  // ---- Forwarding and output -------------------------------------------------------------

  lemma {:induction false} PairsDecide(pairs: seq<(string, string)>, p: Packet, inNet: (string, nat) -> bool)
    ensures Decide(PairLines(pairs), p, inNet) == if (p.iif, p.oif) in pairs then Some(Accept) else None
  {
    if pairs != [] {
      var line := Line([IifIn([pairs[0].0]), OifIs(pairs[0].1)], Accept);
      assert line.conds[0] in line.conds && line.conds[1] in line.conds;
      assert Matches(line, p, inNet) <==> (p.iif, p.oif) == pairs[0];
      PairsDecide(pairs[1..], p, inNet);
      assert PairLines(pairs)[1..] == PairLines(pairs[1..]);
    }
  }

  /** Forwarding accepts exactly tracked traffic and the shared pairs. */
  lemma ForwardAcceptsExactly(pairs: seq<(string, string)>, p: Packet, inNet: (string, nat) -> bool)
    ensures Verdict(ForwardChain(pairs), p, inNet)
            == if p.conn == Established || p.conn == Related || (p.iif, p.oif) in pairs then Accept else Drop
  {
    PairsDecide(pairs, p, inNet);
    assert TRACKED.conds[0] in TRACKED.conds;
    assert Matches(TRACKED, p, inNet) <==> p.conn in {Established, Related};
    assert ([TRACKED] + PairLines(pairs))[1..] == PairLines(pairs);
  }

  /** The first applicable outbound rule, whatever its zone. */
  function FirstOutbound(rules: seq<Rule>, p: Packet, inNet: (string, nat) -> bool): Option<Action> {
    if rules == [] then None
    else if rules[0].direction == Outbound && Applies(rules[0], p, inNet) then Some(rules[0].action)
    else FirstOutbound(rules[1..], p, inNet)
  }

  lemma {:induction false} OutputFollowsFirstRule(rules: seq<Rule>, p: Packet, inNet: (string, nat) -> bool)
    ensures Decide(OutboundLines(rules), p, inNet) == FirstOutbound(rules, p, inNet)
    ensures Verdict(OutputChain(rules), p, inNet)
            == if FirstOutbound(rules, p, inNet).Some? then FirstOutbound(rules, p, inNet).value else Accept
  {
    if rules != [] {
      var rest := OutboundLines(rules[1..]);
      RuleCondsMean(rules[0], p, inNet);
      OutputFollowsFirstRule(rules[1..], p, inNet);
      assert ([Line(RuleConds(rules[0]), rules[0].action)] + rest)[1..] == rest && [] + rest == rest;
    }
  }
}
