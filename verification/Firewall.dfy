/** The firewall's mutable state: zone membership, rules and sharing, under every sequence of requests. */
module Firewall {
  import opened Wrappers
  import opened Nftables

  datatype State = State(
    zones: seq<Zone>, rules: seq<Rule>, masquerade: seq<string>, pairs: seq<(string, string)>)

  function BuiltinZones(): seq<Zone> {
    [Zone("public", PolicyDrop, []), Zone("home", PolicyDrop, []),
     Zone("trusted", PolicyAccept, []), Zone("block", PolicyDrop, [])]
  }

  const DEFAULT_ZONE := "public"

  function Initial(): State { State(BuiltinZones(), [], [], []) }

  /** The input validators, as predicates on text. */
  datatype Checks = Checks(interfaceName: string -> bool, identifier: string -> bool, cidr: string -> bool)

  // ---- The operations on values ----------------------------------------------------

  function Without<T(==, !new)>(xs: seq<T>, x: T): (r: seq<T>)
    ensures forall y :: y in r <==> y in xs && y != x
    ensures |r| <= |xs|
  {
    if xs == [] then []
    else if xs[0] == x then Without(xs[1..], x)
    else
      assert xs == [xs[0]] + xs[1..];
      [xs[0]] + Without(xs[1..], x)
  }

  predicate Known(zones: seq<Zone>, name: string) {
    exists i :: 0 <= i < |zones| && zones[i].name == name
  }

  function Evicted(zones: seq<Zone>, interface: string): (r: seq<Zone>)
    ensures |r| == |zones|
    ensures forall i :: 0 <= i < |r| ==> r[i] == zones[i].(interfaces := Without(zones[i].interfaces, interface))
  {
    if zones == [] then []
    else [zones[0].(interfaces := Without(zones[0].interfaces, interface))] + Evicted(zones[1..], interface)
  }

  /** The interface appended to the first zone of the name. */
  function Joined(zones: seq<Zone>, interface: string, name: string): (r: seq<Zone>)
    ensures |r| == |zones|
  {
    if zones == [] then []
    else if zones[0].name == name then [zones[0].(interfaces := zones[0].interfaces + [interface])] + zones[1..]
    else [zones[0]] + Joined(zones[1..], interface, name)
  }

  /** The search for the zone to join, one zone on. */
  lemma JoinMovesOn(zones: seq<Zone>, interface: string, name: string, i: nat)
    requires i < |zones|
    ensures zones[..i] + Joined(zones[i..], interface, name)
            == if zones[i].name == name then zones[i := zones[i].(interfaces := zones[i].interfaces + [interface])]
               else zones[..i + 1] + Joined(zones[i + 1..], interface, name)
  {
    assert zones[i..][0] == zones[i] && zones[i..][1..] == zones[i + 1..];
    if zones[i].name == name {
      var grown := zones[i].(interfaces := zones[i].interfaces + [interface]);
      assert zones[i := grown] == zones[..i] + ([grown] + zones[i + 1..]);
    } else {
      var rest := Joined(zones[i + 1..], interface, name);
      assert zones[..i] + ([zones[i]] + rest) == zones[..i + 1] + rest;
    }
  }

  function WithoutId(rules: seq<Rule>, id: string): (r: seq<Rule>)
    ensures forall x :: x in r <==> x in rules && x.id != id
  {
    if rules == [] then []
    else
      assert rules == [rules[0]] + rules[1..];
      if rules[0].id == id then WithoutId(rules[1..], id) else [rules[0]] + WithoutId(rules[1..], id)
  }

  predicate HasWan(pairs: seq<(string, string)>, wan: string) {
    exists i :: 0 <= i < |pairs| && pairs[i].1 == wan
  }

  datatype Request =
    | AssignZone(interface: string, zone: string)
    | EnsureDefaultZone(interface: string)
    | AddRule(rule: Rule)
    | RemoveRule(id: string)
    | EnableSharing(lan: string, wan: string)
    | DisableSharing(lan: string, wan: string)

  function Assigned(s: State, interface: string, zone: string): State {
    s.(zones := Joined(Evicted(s.zones, interface), interface, zone))
  }

  /** Whether the request passes validation. */
  predicate Admitted(s: State, c: Checks, r: Request) {
    match r
    case AssignZone(i, z) => c.interfaceName(i) && Known(s.zones, z)
    case EnsureDefaultZone(i) => c.interfaceName(i) && Known(s.zones, DEFAULT_ZONE)
    case AddRule(rule) =>
      c.identifier(rule.id) && Known(s.zones, rule.zone) && (rule.source.Some? ==> c.cidr(rule.source.value))
    case RemoveRule(_) => true
    case EnableSharing(lan, wan) => c.interfaceName(lan) && c.interfaceName(wan)
    case DisableSharing(_, _) => true
  }

  predicate InSomeZone(zones: seq<Zone>, interface: string) {
    exists i :: 0 <= i < |zones| && interface in zones[i].interfaces
  }

  /** The state a request leaves behind; what `nft` answers plays no part. */
  function Handled(s: State, c: Checks, r: Request): State {
    if !Admitted(s, c, r) then s
    else
      match r
      case AssignZone(i, z) => Assigned(s, i, z)
      case EnsureDefaultZone(i) => if InSomeZone(s.zones, i) then s else Assigned(s, i, DEFAULT_ZONE)
      case AddRule(rule) => s.(rules := WithoutId(s.rules, rule.id) + [rule])
      case RemoveRule(id) => s.(rules := WithoutId(s.rules, id))
      case EnableSharing(lan, wan) =>
        s.(masquerade := if wan in s.masquerade then s.masquerade else s.masquerade + [wan],
           pairs := if (lan, wan) in s.pairs then s.pairs else s.pairs + [(lan, wan)])
      case DisableSharing(lan, wan) =>
        var pairs := Without(s.pairs, (lan, wan));
        s.(pairs := pairs,
           masquerade := if HasWan(pairs, wan) then s.masquerade else Without(s.masquerade, wan))
  }

  function Rendered(s: State): Ruleset {
    Ruleset(InputChain(s.zones, s.rules), ForwardChain(s.pairs), OutputChain(s.rules), s.masquerade)
  }

  // ---- The object ------------------------------------------------------------------

  /** How the two commands of one application went: deleting the old table, and loading the new one. */
  datatype Nft = Nft(deleted: bool, loaded: bool)

  /** What is live after an application: deletion comes first and its failure is ignored. */
  function Replaced(live: Option<Ruleset>, ruleset: Ruleset, nft: Nft): Option<Ruleset> {
    if nft.loaded then Some(ruleset) else if nft.deleted then None else live
  }

  /** Whether a request gets as far as an application. */
  predicate Applying(s: State, c: Checks, r: Request) {
    Admitted(s, c, r) && (r.EnsureDefaultZone? ==> !InSomeZone(s.zones, r.interface))
  }

  /** The firewall's own state and the kernel's ruleset. */
  datatype System = System(state: State, live: Option<Ruleset>)

  function Performed(y: System, c: Checks, r: Request, nft: Nft): System {
    var s' := Handled(y.state, c, r);
    System(s', if Applying(y.state, c, r) then Replaced(y.live, Rendered(s'), nft) else y.live)
  }

  class Firewall {
    var zones: seq<Zone>
    var rules: seq<Rule>
    var masquerade: seq<string>
    var pairs: seq<(string, string)>
    // the table the kernel holds
    var live: Option<Ruleset>

    ghost function Value(): State
      reads this
    {
      State(zones, rules, masquerade, pairs)
    }

    ghost function Whole(): System
      reads this
    {
      System(Value(), live)
    }

    constructor (live: Option<Ruleset>)
      ensures Whole() == System(Initial(), live)
    {
      zones := BuiltinZones();
      rules, masquerade, pairs := [], [], [];
      this.live := live;
    }

    /** Renders the current state, deletes the live table and loads the new one. */
    method Apply(nft: Nft) returns (ok: bool)
      modifies this`live
      ensures ok == nft.loaded
      ensures live == if nft.loaded then Some(Rendered(Value())) else if nft.deleted then None else old(live)
    {
      var ruleset := Render(zones, rules, masquerade, pairs);
      if nft.deleted { live := None; }
      if !nft.loaded { return false; }
      live := Some(ruleset);
      ok := true;
    }

    method DoAssignZone(c: Checks, interface: string, zone: string, nft: Nft) returns (ok: bool)
      modifies this
      ensures Whole() == Performed(old(Whole()), c, AssignZone(interface, zone), nft)
      ensures ok <==> Admitted(old(Value()), c, AssignZone(interface, zone)) && nft.loaded
    {
      if !c.interfaceName(interface) || !Known(zones, zone) { return false; }
      EvictEverywhere(interface);
      JoinFirst(interface, zone);
      ok := Apply(nft);
    }

    method EvictEverywhere(interface: string)
      modifies this`zones
      ensures zones == Evicted(old(zones), interface)
    {
      var i := 0;
      while i < |zones|
        invariant 0 <= i <= |zones| && |zones| == |old(zones)|
        invariant forall j :: 0 <= j < i ==> zones[j] == Evicted(old(zones), interface)[j]
        invariant forall j :: i <= j < |zones| ==> zones[j] == old(zones)[j]
      {
        zones := zones[i := zones[i].(interfaces := Without(zones[i].interfaces, interface))];
        i := i + 1;
      }
    }

    method JoinFirst(interface: string, zone: string)
      modifies this`zones
      ensures zones == Joined(old(zones), interface, zone)
    {
      var i := 0;
      assert zones[0..] == zones && [] + Joined(zones, interface, zone) == Joined(zones, interface, zone);
      while i < |zones|
        invariant 0 <= i <= |zones| && zones == old(zones)
        invariant Joined(zones, interface, zone) == zones[..i] + Joined(zones[i..], interface, zone)
      {
        JoinMovesOn(zones, interface, zone, i);
        if zones[i].name == zone {
          zones := zones[i := zones[i].(interfaces := zones[i].interfaces + [interface])];
          return;
        }
        i := i + 1;
      }
      assert zones[..i] + [] == zones;
    }

    method DoEnsureDefaultZone(c: Checks, interface: string, nft: Nft) returns (ok: bool)
      modifies this
      ensures Whole() == Performed(old(Whole()), c, EnsureDefaultZone(interface), nft)
      ensures ok <==> InSomeZone(old(zones), interface)
                      || (Admitted(old(Value()), c, EnsureDefaultZone(interface)) && nft.loaded)
    {
      ok := true;
      if !InSomeZone(zones, interface) {
        ok := DoAssignZone(c, interface, DEFAULT_ZONE, nft);
      }
    }

    method DoAddRule(c: Checks, rule: Rule, nft: Nft) returns (ok: bool)
      modifies this
      ensures Whole() == Performed(old(Whole()), c, AddRule(rule), nft)
      ensures ok <==> Admitted(old(Value()), c, AddRule(rule)) && nft.loaded
    {
      if !c.identifier(rule.id) || !Known(zones, rule.zone) { return false; }
      if rule.source.Some? && !c.cidr(rule.source.value) { return false; }
      rules := WithoutId(rules, rule.id);
      rules := rules + [rule];
      ok := Apply(nft);
    }

    method DoRemoveRule(c: Checks, id: string, nft: Nft) returns (ok: bool)
      modifies this
      ensures Whole() == Performed(old(Whole()), c, RemoveRule(id), nft) && ok == nft.loaded
    {
      rules := WithoutId(rules, id);
      ok := Apply(nft);
    }

    method DoEnableSharing(c: Checks, lan: string, wan: string, nft: Nft) returns (ok: bool)
      modifies this
      ensures Whole() == Performed(old(Whole()), c, EnableSharing(lan, wan), nft)
      ensures ok <==> Admitted(old(Value()), c, EnableSharing(lan, wan)) && nft.loaded
    {
      if !c.interfaceName(lan) || !c.interfaceName(wan) { return false; }
      if wan !in masquerade { masquerade := masquerade + [wan]; }
      if (lan, wan) !in pairs { pairs := pairs + [(lan, wan)]; }
      ok := Apply(nft);
    }

    method DoDisableSharing(c: Checks, lan: string, wan: string, nft: Nft) returns (ok: bool)
      modifies this
      ensures Whole() == Performed(old(Whole()), c, DisableSharing(lan, wan), nft) && ok == nft.loaded
    {
      pairs := Without(pairs, (lan, wan));
      if !HasWan(pairs, wan) { masquerade := Without(masquerade, wan); }
      ok := Apply(nft);
    }
  }

  // ---- What every sequence of requests keeps --------------------------------------------

  ghost predicate Distinct<T(!new)>(xs: seq<T>) {
    forall i, j :: 0 <= i < j < |xs| ==> xs[i] != xs[j]
  }

  /** The four built-in zones, whatever interfaces they hold. */
  ghost predicate BuiltinShape(zones: seq<Zone>) {
    var b := BuiltinZones();
    |zones| == |b| && forall i :: 0 <= i < |b| ==> zones[i].name == b[i].name && zones[i].policy == b[i].policy
  }

  /** The built-in zones, no interface in two of them or twice in one. */
  ghost predicate ZonesSound(zones: seq<Zone>) {
    BuiltinShape(zones) && Disjoint(zones) && forall z <- zones :: Distinct(z.interfaces)
  }

  /** No two rules share an id, and every rule names a zone that exists. */
  ghost predicate RulesSound(rules: seq<Rule>, zones: seq<Zone>) {
    UniqueIds(rules) && forall r <- rules :: Known(zones, r.zone)
  }

  /** Masquerading covers exactly the outer interfaces that something is shared to; nothing is listed twice. */
  ghost predicate SharesSound(masquerade: seq<string>, pairs: seq<(string, string)>) {
    && (forall w :: w in masquerade <==> HasWan(pairs, w))
    && Distinct(masquerade) && Distinct(pairs)
  }

  ghost predicate Inv(s: State) {
    ZonesSound(s.zones) && RulesSound(s.rules, s.zones) && SharesSound(s.masquerade, s.pairs)
  }

  lemma {:induction false} JoinsOneZone(zones: seq<Zone>, interface: string, name: string) returns (k: nat)
    requires Known(zones, name)
    ensures k < |zones| && zones[k].name == name
    ensures Joined(zones, interface, name)
            == zones[k := zones[k].(interfaces := zones[k].interfaces + [interface])]
  {
    if zones[0].name == name {
      k := 0;
    } else {
      var i :| 0 <= i < |zones| && zones[i].name == name;
      assert zones[1..][i - 1].name == name;
      var j := JoinsOneZone(zones[1..], interface, name);
      k := j + 1;
    }
  }

  lemma {:induction false} WithoutDistinct<T(!new)>(xs: seq<T>, x: T)
    requires Distinct(xs)
    ensures Distinct(Without(xs, x))
  {
    if xs != [] {
      var tail := xs[1..];
      WithoutDistinct(tail, x);
      assert xs[0] !in tail;
      var rest := Without(tail, x);
      assert forall i :: 0 <= i < |rest| ==> rest[i] in rest;
    }
  }

  lemma EvictionKeeps(zones: seq<Zone>, interface: string)
    requires ZonesSound(zones)
    ensures ZonesSound(Evicted(zones, interface))
  {
    var out := Evicted(zones, interface);
    forall z | z in out ensures Distinct(z.interfaces) {
      var i :| 0 <= i < |out| && out[i] == z;
      assert zones[i] in zones;
      WithoutDistinct(zones[i].interfaces, interface);
    }
  }

  lemma JoiningKeeps(zones: seq<Zone>, interface: string, k: nat)
    requires ZonesSound(zones) && k < |zones| && !InSomeZone(zones, interface)
    ensures ZonesSound(zones[k := zones[k].(interfaces := zones[k].interfaces + [interface])])
  {
    var grown := zones[k].(interfaces := zones[k].interfaces + [interface]);
    assert zones[k] in zones;
    assert Distinct(grown.interfaces);
    forall z | z in zones[k := grown] ensures Distinct(z.interfaces) {
      assert z == grown || z in zones;
    }
  }

  lemma NamesDiffer(zones: seq<Zone>, i: nat, j: nat)
    requires BuiltinShape(zones) && i < j < |zones|
    ensures zones[i].name != zones[j].name
  {
    var b := BuiltinZones();
    assert |b[0].name| == 6 && |b[1].name| == 4 && |b[2].name| == 7 && |b[3].name| == 5;
    assert zones[i].name == b[i].name && zones[j].name == b[j].name;
  }

  lemma EvictionKeepsNames(zones: seq<Zone>, interface: string, zone: string)
    requires Known(zones, zone)
    ensures Known(Evicted(zones, interface), zone)
    ensures !InSomeZone(Evicted(zones, interface), interface)
  {
    var i :| 0 <= i < |zones| && zones[i].name == zone;
    assert Evicted(zones, interface)[i].name == zone;
  }

  lemma AssignKeeps(zones: seq<Zone>, interface: string, zone: string)
    requires ZonesSound(zones) && Known(zones, zone)
    ensures ZonesSound(Joined(Evicted(zones, interface), interface, zone))
  {
    EvictionKeeps(zones, interface);
    EvictionKeepsNames(zones, interface, zone);
    var k := JoinsOneZone(Evicted(zones, interface), interface, zone);
    JoiningKeeps(Evicted(zones, interface), interface, k);
  }

  /** Assignment moves the interface: into the named zone, out of every other, nothing else changes. */
  lemma AssignMoves(zones: seq<Zone>, interface: string, zone: string, i: nat, x: string)
    requires BuiltinShape(zones) && Known(zones, zone) && i < |zones|
    ensures x in Joined(Evicted(zones, interface), interface, zone)[i].interfaces
            <==> if x == interface then zones[i].name == zone else x in zones[i].interfaces
  {
    EvictionKeepsNames(zones, interface, zone);
    var k := JoinsOneZone(Evicted(zones, interface), interface, zone);
    if i < k { NamesDiffer(zones, i, k); } else if k < i { NamesDiffer(zones, k, i); }
  }

  ghost predicate UniqueIds(rules: seq<Rule>) {
    forall i, j :: 0 <= i < j < |rules| ==> rules[i].id != rules[j].id
  }

  lemma {:induction false} WithoutIdKeepsIds(rules: seq<Rule>, id: string)
    requires UniqueIds(rules)
    ensures UniqueIds(WithoutId(rules, id))
  {
    if rules != [] {
      var tail := rules[1..];
      WithoutIdKeepsIds(tail, id);
      var rest := WithoutId(tail, id);
      forall i | 0 <= i < |rest| ensures rest[i].id != rules[0].id {
        assert rest[i] in rest && rest[i] in tail;
      }
    }
  }

  lemma WithoutIdKeeps(rules: seq<Rule>, zones: seq<Zone>, id: string)
    requires RulesSound(rules, zones)
    ensures RulesSound(WithoutId(rules, id), zones)
  {
    WithoutIdKeepsIds(rules, id);
  }

  lemma AddingKeeps(rules: seq<Rule>, zones: seq<Zone>, rule: Rule)
    requires RulesSound(rules, zones) && Known(zones, rule.zone)
    ensures RulesSound(WithoutId(rules, rule.id) + [rule], zones)
  {
    WithoutIdKeeps(rules, zones, rule.id);
    var rest := WithoutId(rules, rule.id);
    assert forall i :: 0 <= i < |rest| ==> rest[i] in rest;
  }

  lemma EnablingKeeps(s: State, lan: string, wan: string)
    requires SharesSound(s.masquerade, s.pairs)
    ensures SharesSound(if wan in s.masquerade then s.masquerade else s.masquerade + [wan],
                        if (lan, wan) in s.pairs then s.pairs else s.pairs + [(lan, wan)])
  {
    var pairs := if (lan, wan) in s.pairs then s.pairs else s.pairs + [(lan, wan)];
    var at :| 0 <= at < |pairs| && pairs[at] == (lan, wan);
    forall w ensures HasWan(pairs, w) <==> HasWan(s.pairs, w) || w == wan {
      assert pairs[at].1 == wan;
      if HasWan(s.pairs, w) {
        var i :| 0 <= i < |s.pairs| && s.pairs[i].1 == w;
        assert pairs[i].1 == w;
      }
    }
  }

  lemma DisablingKeeps(s: State, lan: string, wan: string)
    requires SharesSound(s.masquerade, s.pairs)
    ensures var pairs := Without(s.pairs, (lan, wan));
            SharesSound(if HasWan(pairs, wan) then s.masquerade else Without(s.masquerade, wan), pairs)
  {
    WithoutDistinct(s.pairs, (lan, wan));
    WithoutDistinct(s.masquerade, wan);
    var pairs := Without(s.pairs, (lan, wan));
    forall w ensures w != wan ==> (HasWan(pairs, w) <==> HasWan(s.pairs, w)) {
      OtherWansStay(s.pairs, lan, wan, w);
    }
    OtherWansStay(s.pairs, lan, wan, wan);
  }

  lemma OtherWansStay(pairs: seq<(string, string)>, lan: string, wan: string, w: string)
    ensures HasWan(Without(pairs, (lan, wan)), w) ==> HasWan(pairs, w)
    ensures w != wan && HasWan(pairs, w) ==> HasWan(Without(pairs, (lan, wan)), w)
  {
    var rest := Without(pairs, (lan, wan));
    if HasWan(rest, w) {
      var i :| 0 <= i < |rest| && rest[i].1 == w;
      assert rest[i] in rest && rest[i] in pairs;
    }
    if w != wan && HasWan(pairs, w) {
      var i :| 0 <= i < |pairs| && pairs[i].1 == w;
      assert pairs[i] in pairs && pairs[i] in rest;
    }
  }

  lemma AssigningKeeps(s: State, interface: string, zone: string)
    requires Inv(s) && Known(s.zones, zone)
    ensures Inv(Assigned(s, interface, zone))
  {
    AssignKeeps(s.zones, interface, zone);
    var after := Assigned(s, interface, zone).zones;
    forall r | r in s.rules ensures Known(after, r.zone) {
      var i :| 0 <= i < |s.zones| && s.zones[i].name == r.zone;
      assert after[i].name == BuiltinZones()[i].name == s.zones[i].name;
    }
  }

  lemma HandlingKeeps(s: State, c: Checks, r: Request)
    requires Inv(s)
    ensures Inv(Handled(s, c, r))
  {
    if Admitted(s, c, r) {
      match r
      case AssignZone(i, z) => AssigningKeeps(s, i, z);
      case EnsureDefaultZone(i) => AssigningKeeps(s, i, DEFAULT_ZONE);
      case AddRule(rule) => AddingKeeps(s.rules, s.zones, rule);
      case RemoveRule(id) => WithoutIdKeeps(s.rules, s.zones, id);
      case EnableSharing(lan, wan) => EnablingKeeps(s, lan, wan);
      case DisableSharing(lan, wan) => DisablingKeeps(s, lan, wan);
    }
  }

  function HandledAll(s: State, c: Checks, rs: seq<Request>): State
    decreases |rs|
  {
    if rs == [] then s else HandledAll(Handled(s, c, rs[0]), c, rs[1..])
  }

  lemma {:induction false} EveryStateIsSound(s: State, c: Checks, rs: seq<Request>)
    requires Inv(s)
    ensures Inv(HandledAll(s, c, rs))
    decreases |rs|
  {
    if rs != [] {
      HandlingKeeps(s, c, rs[0]);
      EveryStateIsSound(Handled(s, c, rs[0]), c, rs[1..]);
    }
  }

  // ---- Main results ---------------------------------------------------------------------

  /** After any requests, the rendered input chain gives a new packet its own zone's verdict, or drops it. */
  lemma ReachableInputIsZoned(c: Checks, rs: seq<Request>, p: Packet, inNet: (string, nat) -> bool)
    requires p.conn == New && p.iif != "lo"
    ensures var s := HandledAll(Initial(), c, rs);
            var v := Verdict(Rendered(s).input, p, inNet);
            && (forall k :: 0 <= k < |s.zones| && p.iif in s.zones[k].interfaces ==>
                  v == ZoneVerdict(s.zones[k], s.rules, p, inNet))
            && ((forall z <- s.zones :: p.iif !in z.interfaces) ==> v == Drop)
  {
    EveryStateIsSound(Initial(), c, rs);
    var s := HandledAll(Initial(), c, rs);
    NewPacketsFollowTheirZone(s.zones, s.rules, p, inNet);
  }

  /** After any requests, a new packet is forwarded only along a shared pair, and then leaves masqueraded. */
  lemma ReachableForwardIsMasqueraded(c: Checks, rs: seq<Request>, p: Packet, inNet: (string, nat) -> bool)
    requires p.conn == New
    ensures var r := Rendered(HandledAll(Initial(), c, rs));
            Verdict(r.forward, p, inNet) == Accept ==> p.oif in r.masquerade
    ensures var s := HandledAll(Initial(), c, rs);
            forall w <- s.masquerade :: exists i :: 0 <= i < |s.pairs| && s.pairs[i].1 == w
  {
    EveryStateIsSound(Initial(), c, rs);
    var s := HandledAll(Initial(), c, rs);
    ForwardAcceptsExactly(s.pairs, p, inNet);
    if (p.iif, p.oif) in s.pairs {
      var i :| 0 <= i < |s.pairs| && s.pairs[i] == (p.iif, p.oif);
      assert s.pairs[i].1 == p.oif;
    }
  }

  lemma {:induction false} WithoutAppended<T(!new)>(xs: seq<T>, x: T)
    requires x !in xs
    ensures Without(xs + [x], x) == xs && Without(xs, x) == xs
  {
    if xs != [] {
      assert (xs + [x])[1..] == xs[1..] + [x];
      WithoutAppended(xs[1..], x);
    } else {
      assert xs + [x] == [x] && [x][1..] == [];
    }
  }

  /** Starting and then stopping a new share restores the state exactly. */
  lemma DisableUndoesEnable(s: State, c: Checks, lan: string, wan: string)
    requires Inv(s) && Admitted(s, c, EnableSharing(lan, wan)) && (lan, wan) !in s.pairs
    ensures Handled(Handled(s, c, EnableSharing(lan, wan)), c, DisableSharing(lan, wan)) == s
  {
    WithoutAppended(s.pairs, (lan, wan));
    if wan !in s.masquerade { WithoutAppended(s.masquerade, wan); }
  }

  lemma {:induction false} LaterRuleYields(
    rules: seq<Rule>, rule: Rule, zone: string, p: Packet, inNet: (string, nat) -> bool)
    ensures FirstRule(rules + [rule], zone, p, inNet)
            == if FirstRule(rules, zone, p, inNet).Some? then FirstRule(rules, zone, p, inNet)
               else FirstRule([rule], zone, p, inNet)
  {
    if rules == [] {
      assert rules + [rule] == [rule];
    } else {
      assert (rules + [rule])[1..] == rules[1..] + [rule];
      LaterRuleYields(rules[1..], rule, zone, p, inNet);
    }
  }

  /** An added rule decides only packets that no rule of another id decides; its former version decides none. */
  lemma AddedRuleYields(s: State, c: Checks, rule: Rule, zone: string, p: Packet, inNet: (string, nat) -> bool)
    requires Admitted(s, c, AddRule(rule))
    ensures var others := WithoutId(s.rules, rule.id);
            FirstRule(Handled(s, c, AddRule(rule)).rules, zone, p, inNet)
            == if FirstRule(others, zone, p, inNet).Some? then FirstRule(others, zone, p, inNet)
               else if rule.zone == zone && rule.direction == Inbound && Applies(rule, p, inNet) then Some(rule.action)
               else None
    ensures forall x :: x in Handled(s, c, AddRule(rule)).rules <==> x == rule || (x in s.rules && x.id != rule.id)
  {
    LaterRuleYields(WithoutId(s.rules, rule.id), rule, zone, p, inNet);
  }

  // ---- What is live -------------------------------------------------------------------------

  /** The system after the first `n` requests, each with its own outcome. */
  function At(y: System, c: Checks, rs: seq<(Request, Nft)>, n: nat): System
    requires n <= |rs|
  {
    if n == 0 then y else Performed(At(y, c, rs, n - 1), c, rs[n - 1].0, rs[n - 1].1)
  }

  predicate LoadedAt(y: System, c: Checks, rs: seq<(Request, Nft)>, k: nat)
    requires k < |rs|
  {
    Applying(At(y, c, rs, k).state, c, rs[k].0) && rs[k].1.loaded
  }

  predicate DeletedAt(y: System, c: Checks, rs: seq<(Request, Nft)>, k: nat)
    requires k < |rs|
  {
    Applying(At(y, c, rs, k).state, c, rs[k].0) && rs[k].1.deleted
  }

  /** The `k`-th request's load worked, and none after it deleted or loaded. */
  ghost predicate InForce(y: System, c: Checks, rs: seq<(Request, Nft)>, n: nat, k: nat)
    requires k < n <= |rs|
  {
    LoadedAt(y, c, rs, k) && forall j :: k < j < n ==> !LoadedAt(y, c, rs, j) && !DeletedAt(y, c, rs, j)
  }

  /** The start's own ruleset is in force while nothing was deleted or loaded. */
  ghost predicate Untouched(y: System, c: Checks, rs: seq<(Request, Nft)>, n: nat)
    requires n <= |rs|
  {
    forall j :: 0 <= j < n ==> !LoadedAt(y, c, rs, j) && !DeletedAt(y, c, rs, j)
  }

  lemma {:induction false} LiveIsRendering(y: System, c: Checks, rs: seq<(Request, Nft)>, n: nat, k: nat)
    requires k < n <= |rs| && InForce(y, c, rs, n, k)
    ensures At(y, c, rs, n).live == Some(Rendered(At(y, c, rs, k + 1).state))
    decreases n
  {
    if k + 1 < n {
      assert InForce(y, c, rs, n - 1, k);
      LiveIsRendering(y, c, rs, n - 1, k);
      assert !LoadedAt(y, c, rs, n - 1) && !DeletedAt(y, c, rs, n - 1);
    }
  }

  lemma {:induction false} LiveIsUntouched(y: System, c: Checks, rs: seq<(Request, Nft)>, n: nat)
    requires n <= |rs| && Untouched(y, c, rs, n)
    ensures At(y, c, rs, n).live == y.live
  {
    if n > 0 {
      LiveIsUntouched(y, c, rs, n - 1);
      assert !LoadedAt(y, c, rs, n - 1) && !DeletedAt(y, c, rs, n - 1);
    }
  }

  lemma {:induction false} LiveHasASource(y: System, c: Checks, rs: seq<(Request, Nft)>, n: nat) returns (k: int)
    requires n <= |rs| && At(y, c, rs, n).live.Some?
    ensures k == -1 || (0 <= k < n && InForce(y, c, rs, n, k))
    ensures k == -1 ==> Untouched(y, c, rs, n)
  {
    if n == 0 {
      k := -1;
    } else if LoadedAt(y, c, rs, n - 1) {
      k := n - 1;
    } else {
      assert !DeletedAt(y, c, rs, n - 1);
      k := LiveHasASource(y, c, rs, n - 1);
    }
  }

  /**
   * Over every sequence of requests and outcomes, what is live is the rendering of the state right after
   * the last load that worked; nothing is live exactly when no load has worked since the last deletion.
   */
  lemma LiveIsExact(y: System, c: Checks, rs: seq<(Request, Nft)>)
    ensures forall k :: 0 <= k < |rs| && InForce(y, c, rs, |rs|, k) ==>
              At(y, c, rs, |rs|).live == Some(Rendered(At(y, c, rs, k + 1).state))
    ensures Untouched(y, c, rs, |rs|) ==> At(y, c, rs, |rs|).live == y.live
    ensures At(y, c, rs, |rs|).live.None?
            <==> (forall k :: 0 <= k < |rs| ==> !InForce(y, c, rs, |rs|, k))
                 && (y.live.None? || !Untouched(y, c, rs, |rs|))
  {
    var n := |rs|;
    forall k | 0 <= k < n && InForce(y, c, rs, n, k)
      ensures At(y, c, rs, n).live == Some(Rendered(At(y, c, rs, k + 1).state)) {
      LiveIsRendering(y, c, rs, n, k);
    }
    if Untouched(y, c, rs, n) { LiveIsUntouched(y, c, rs, n); }
    if At(y, c, rs, n).live.Some? { var k := LiveHasASource(y, c, rs, n); }
  }

  /** The requests' outcomes never reach the firewall's own state. */
  lemma {:induction false} OutcomesDoNotMatter(
    y: System, c: Checks, rs: seq<(Request, Nft)>, n: nat, asked: seq<Request>)
    requires n <= |rs| && |asked| == n && forall i :: 0 <= i < n ==> asked[i] == rs[i].0
    ensures At(y, c, rs, n).state == HandledAll(y.state, c, asked)
  {
    if n > 0 {
      OutcomesDoNotMatter(y, c, rs, n - 1, asked[..n - 1]);
      HandledLast(y.state, c, asked);
    }
  }

  lemma {:induction false} HandledLast(s: State, c: Checks, rs: seq<Request>)
    requires rs != []
    ensures HandledAll(s, c, rs) == Handled(HandledAll(s, c, rs[..|rs| - 1]), c, rs[|rs| - 1])
    decreases |rs|
  {
    if |rs| == 1 {
      assert rs[..0] == [] && rs[1..] == [];
    } else {
      HandledLast(Handled(s, c, rs[0]), c, rs[1..]);
      assert rs[1..][..|rs| - 2] == rs[..|rs| - 1][1..];
    }
  }

  /** One assignment that works and one removal whose load fails: zones in memory, no ruleset in the kernel. */
  lemma FailedLoadLeavesNothing(c: Checks)
    requires c.interfaceName("eth0")
    ensures var rs := [(AssignZone("eth0", "public"), Nft(true, true)), (RemoveRule("r"), Nft(true, false))];
            var y := System(Initial(), None);
            && At(y, c, rs, 1).live == Some(Rendered(At(y, c, rs, 1).state))
            && At(y, c, rs, 2).live == None
            && At(y, c, rs, 2).state.zones == At(y, c, rs, 1).state.zones
  {
    var rs := [(AssignZone("eth0", "public"), Nft(true, true)), (RemoveRule("r"), Nft(true, false))];
    var y := System(Initial(), None);
    assert Initial().zones[0].name == "public";
    assert Applying(y.state, c, rs[0].0);
    assert At(y, c, rs, 1) == Performed(At(y, c, rs, 0), c, rs[0].0, rs[0].1);
    assert Applying(At(y, c, rs, 1).state, c, rs[1].0);
    assert At(y, c, rs, 2) == Performed(At(y, c, rs, 1), c, rs[1].0, rs[1].1);
  }

  // ---- The documented reading of a policy fails at a reachable state ------------------------------

  lemma TrustedShape(zones: seq<Zone>)
    requires BuiltinShape(zones)
    ensures |zones| == 4 && zones[2].name == "trusted" && zones[2].policy == PolicyAccept && Known(zones, "trusted")
  {
    assert zones[2].name == BuiltinZones()[2].name && zones[2].policy == BuiltinZones()[2].policy;
  }

  lemma TrustedTunnel(c: Checks)
    requires c.interfaceName("tun0")
    ensures var s := Handled(Initial(), c, AssignZone("tun0", "trusted"));
            && |s.zones| == 4 && "tun0" in s.zones[2].interfaces && s.rules == []
            && s.zones[2].name == "trusted" && s.zones[2].policy == PolicyAccept && Known(s.zones, "trusted")
  {
    TrustedJoin(Initial().zones);
    TrustedShape(Initial().zones);
  }

  lemma TrustedJoin(zones: seq<Zone>)
    requires ZonesSound(zones)
    ensures var after := Joined(Evicted(zones, "tun0"), "tun0", "trusted");
            && |after| == 4 && "tun0" in after[2].interfaces
            && after[2].name == "trusted" && after[2].policy == PolicyAccept && Known(after, "trusted")
  {
    TrustedShape(zones);
    AssignMoves(zones, "tun0", "trusted", 2, "tun0");
    AssignKeeps(zones, "tun0", "trusted");
    TrustedShape(Joined(Evicted(zones, "tun0"), "tun0", "trusted"));
  }

  lemma SoleRule(s: State, c: Checks, rule: Rule)
    requires s.rules == [] && Admitted(s, c, AddRule(rule))
    ensures Handled(s, c, AddRule(rule)) == s.(rules := [rule])
  {
    assert WithoutId([], rule.id) + [rule] == [rule];
  }

  /** Put an interface in the trusted zone, add a rule there that blocks everything: it does not block. */
  lemma BlockedButAccepted(c: Checks, p: Packet, inNet: (string, nat) -> bool)
    requires c.interfaceName("tun0") && c.identifier("r") && p.conn == New && p.iif == "tun0"
    ensures var rule := Rule("r", "trusted", Inbound, Drop, None, None, None);
            var s := HandledAll(Initial(), c, [AssignZone("tun0", "trusted"), AddRule(rule)]);
            && |s.zones| == 4 && "tun0" in s.zones[2].interfaces
            && Verdict(Rendered(s).input, p, inNet) == Accept
            && Documented(s.zones[2], s.rules, p, inNet) == Drop
  {
    var rule := Rule("r", "trusted", Inbound, Drop, None, None, None);
    var first, second := AssignZone("tun0", "trusted"), AddRule(rule);
    TrustedTunnel(c);
    SoleRule(Handled(Initial(), c, first), c, rule);
    TwoRequests(Initial(), c, first, second);
    ReachableInputIsZoned(c, [first, second], p, inNet);
  }

  lemma TwoRequests(s: State, c: Checks, r: Request, r': Request)
    ensures HandledAll(s, c, [r, r']) == Handled(Handled(s, c, r), c, r')
  {
    assert [r, r'][1..] == [r'] && [r'][1..] == [];
    assert HandledAll(Handled(s, c, r), c, [r']) == HandledAll(Handled(Handled(s, c, r), c, r'), c, []);
  }
}
