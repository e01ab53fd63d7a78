/** DHCPv6 options: two levels of nesting, domain lists, and the messages built from them. */
module Dhcp6 {
  import opened Wrappers
  import opened Bytes

  type Options6 = seq<(U16, seq<Byte>)>

  /** A 16-byte IPv6 address. */
  type Addr6 = a: seq<Byte> | |a| == 16 witness Zeros(16)
  type Mac6 = m: seq<Byte> | |m| == 6 witness [0, 0, 0, 0, 0, 0]
  type Xid3 = x: seq<Byte> | |x| == 3 witness [0, 0, 0]

  const OPT_CLIENTID: U16 := 1
  const OPT_SERVERID: U16 := 2
  const OPT_IA_NA: U16 := 3
  const OPT_IA_ADDR: U16 := 5
  const OPT_ORO: U16 := 6
  const OPT_ELAPSED_TIME: U16 := 8
  const OPT_STATUS_CODE: U16 := 13
  const OPT_DNS_SERVERS: U16 := 23
  const OPT_DOMAIN_LIST: U16 := 24

  // ---- One level of options ------------------------------------------------------

  /** Lengths are cut to sixteen bits, exactly as the buffer stores them. */
  function PushOption(code: U16, data: seq<Byte>): seq<Byte> {
    Be16(code) + Be16(|data| % 0x1_0000) + data
  }

  function OptionBytes(opts: Options6): seq<Byte> {
    if opts == [] then [] else PushOption(opts[0].0, opts[0].1) + OptionBytes(opts[1..])
  }

  function ParseOptions(b: seq<Byte>): Options6 {
    if |b| < 4 then []
    else
      var len := FromBe16(b[2..4]) as int;
      if |b| < 4 + len then []
      else [(FromBe16(b[..2]), b[4..4 + len])] + ParseOptions(b[4 + len..])
  }

  method ReadOptions(buf: seq<Byte>) returns (out: Options6)
    ensures out == ParseOptions(buf)
  {
    out := [];
    var b := buf;
    while |b| >= 4
      invariant ParseOptions(buf) == out + ParseOptions(b)
      decreases |b|
    {
      assert out + [] == out;
      var code := FromBe16(b[..2]);
      var len := FromBe16(b[2..4]) as int;
      if |b| < 4 + len { return; }
      var option := (code, b[4..4 + len]);
      ghost var tail := ParseOptions(b[4 + len..]);
      assert out + ([option] + tail) == out + [option] + tail;
      out := out + [option];
      b := b[4 + len..];
    }
    assert out + [] == out;
  }

  predicate Fits(opts: Options6) {
    forall o <- opts :: |o.1| < 0x1_0000
  }

  lemma {:induction false} FittingRoundTrip(opts: Options6)
    requires Fits(opts)
    ensures ParseOptions(OptionBytes(opts)) == opts
  {
    if opts != [] {
      var (code, data) := opts[0];
      assert opts[0] in opts;
      var b := OptionBytes(opts);
      assert b[..2] == Be16(code) && b[2..4] == Be16(|data|);
      assert b[4..4 + |data|] == data && b[4 + |data|..] == OptionBytes(opts[1..]);
      FittingRoundTrip(opts[1..]);
      assert opts == [opts[0]] + opts[1..];
    }
  }

  lemma {:induction false} ParsedFits(b: seq<Byte>)
    ensures Fits(ParseOptions(b))
    decreases |b|
  {
    if |b| >= 4 {
      var len := FromBe16(b[2..4]) as int;
      if |b| >= 4 + len { ParsedFits(b[4 + len..]); }
    }
  }

  /** Options survive the wire exactly when every payload length fits sixteen bits. */
  lemma OptionsRoundTrip(opts: Options6)
    ensures ParseOptions(OptionBytes(opts)) == opts <==> Fits(opts)
  {
    ParsedFits(OptionBytes(opts));
    if Fits(opts) { FittingRoundTrip(opts); }
  }

  // ---- IA_NA: a fixed header around a second level of options ------------------------

  datatype IaNa = IaNa(
    iaid: U32, t1: U32, t2: U32,
    address: Option<Addr6>, preferred: U32, valid: U32,
    status: Option<(U16, seq<Byte>)>)

  /** What one suboption contributes; later ones overwrite, short or unknown ones are ignored. */
  function Absorb(ia: IaNa, o: (U16, seq<Byte>)): IaNa {
    if o.0 == OPT_IA_ADDR && |o.1| >= 24 then
      ia.(address := Some(o.1[..16]), preferred := FromBe32(o.1[16..20]), valid := FromBe32(o.1[20..24]))
    else if o.0 == OPT_STATUS_CODE && |o.1| >= 2 then
      ia.(status := Some((FromBe16(o.1[..2]), o.1[2..])))
    else ia
  }

  function AbsorbAll(ia: IaNa, opts: Options6): IaNa
    decreases |opts|
  {
    if opts == [] then ia else AbsorbAll(Absorb(ia, opts[0]), opts[1..])
  }

  function ParseIaNa(data: seq<Byte>): Option<IaNa> {
    if |data| < 12 then None
    else
      var ia := IaNa(FromBe32(data[..4]), FromBe32(data[4..8]), FromBe32(data[8..12]), None, 0, 0, None);
      Some(AbsorbAll(ia, ParseOptions(data[12..])))
  }

  method ReadIaNa(data: seq<Byte>) returns (r: Option<IaNa>)
    ensures r == ParseIaNa(data)
  {
    if |data| < 12 { return None; }
    var ia := IaNa(FromBe32(data[..4]), FromBe32(data[4..8]), FromBe32(data[8..12]), None, 0, 0, None);
    ghost var start := ia;
    var opts := ReadOptions(data[12..]);
    assert opts[0..] == opts;
    for i := 0 to |opts|
      invariant AbsorbAll(start, opts) == AbsorbAll(ia, opts[i..])
    {
      assert opts[i..][0] == opts[i] && opts[i..][1..] == opts[i + 1..];
      var (code, sub) := opts[i];
      if code == OPT_IA_ADDR && |sub| >= 24 {
        ia := ia.(address := Some(sub[..16]), preferred := FromBe32(sub[16..20]), valid := FromBe32(sub[20..24]));
      } else if code == OPT_STATUS_CODE && |sub| >= 2 {
        ia := ia.(status := Some((FromBe16(sub[..2]), sub[2..])));
      }
    }
    r := Some(ia);
  }

  /** The wire form of an identity association: header, then its address and status if any. */
  function AddressOption(a: Addr6, preferred: U32, valid: U32): (U16, seq<Byte>) {
    (OPT_IA_ADDR, a + Be32(preferred) + Be32(valid))
  }

  function SubOptions(ia: IaNa): Options6 {
    (if ia.address.Some? then [AddressOption(ia.address.value, ia.preferred, ia.valid)] else [])
    + (if ia.status.Some? then [(OPT_STATUS_CODE, Be16(ia.status.value.0) + ia.status.value.1)] else [])
  }

  function IaNaBytes(ia: IaNa): seq<Byte> {
    Be32(ia.iaid) + Be32(ia.t1) + Be32(ia.t2) + OptionBytes(SubOptions(ia))
  }

  /** Lifetimes belong to an address, and a status message must fit its option. */
  predicate Regular(ia: IaNa) {
    && (ia.address.None? ==> ia.preferred == 0 && ia.valid == 0)
    && (ia.status.Some? ==> |ia.status.value.1| < 0xFFFE)
  }

  lemma AbsorbAddress(ia: IaNa, a: Addr6, preferred: U32, valid: U32)
    ensures Absorb(ia, AddressOption(a, preferred, valid))
            == ia.(address := Some(a), preferred := preferred, valid := valid)
  {
    var p, v := Be32(preferred), Be32(valid);
    var b := AddressOption(a, preferred, valid).1;
    assert b[..16] == a && b[16..] == p + v;
    assert b[16..20] == b[16..][..4] == p && b[20..24] == b[16..][4..] == v;
  }

  lemma AbsorbStatus(ia: IaNa, code: U16, text: seq<Byte>)
    ensures Absorb(ia, (OPT_STATUS_CODE, Be16(code) + text)) == ia.(status := Some((code, text)))
  {
    var b := Be16(code) + text;
    assert b[..2] == Be16(code) && b[2..] == text;
  }

  lemma AbsorbedSubOptions(ia: IaNa)
    requires Regular(ia)
    ensures AbsorbAll(IaNa(ia.iaid, ia.t1, ia.t2, None, 0, 0, None), SubOptions(ia)) == ia
  {
    var start := IaNa(ia.iaid, ia.t1, ia.t2, None, 0, 0, None);
    var opts := SubOptions(ia);
    var middle := start.(address := ia.address, preferred := ia.preferred, valid := ia.valid);
    if ia.address.Some? { AbsorbAddress(start, ia.address.value, ia.preferred, ia.valid); }
    if ia.status.Some? {
      var (code, text) := ia.status.value;
      AbsorbStatus(middle, code, text);
      AbsorbStatus(start, code, text);
    }
    if |opts| > 0 {
      AbsorbOne(Absorb(start, opts[0]), opts[1..]);
    }
  }

  lemma AbsorbOne(ia: IaNa, opts: Options6)
    requires |opts| <= 1
    ensures AbsorbAll(ia, opts) == if opts == [] then ia else Absorb(ia, opts[0])
  {
    if opts != [] { assert opts[1..] == []; }
  }

  lemma {:induction false} AbsorbedIsRegular(ia: IaNa, opts: Options6)
    requires Regular(ia) && Fits(opts)
    ensures Regular(AbsorbAll(ia, opts))
    decreases |opts|
  {
    if opts != [] {
      assert opts[0] in opts;
      AbsorbedIsRegular(Absorb(ia, opts[0]), opts[1..]);
    }
  }

  lemma RegularRoundTrip(ia: IaNa)
    requires Regular(ia)
    ensures ParseIaNa(IaNaBytes(ia)) == Some(ia)
  {
    var b := IaNaBytes(ia);
    assert b[..4] == Be32(ia.iaid) && b[4..8] == Be32(ia.t1) && b[8..12] == Be32(ia.t2);
    assert b[12..] == OptionBytes(SubOptions(ia));
    FittingRoundTrip(SubOptions(ia));
    AbsorbedSubOptions(ia);
  }

  /** An identity association survives both levels of encoding exactly when it is regular. */
  lemma IaNaRoundTrip(ia: IaNa)
    ensures ParseIaNa(IaNaBytes(ia)) == Some(ia) <==> Regular(ia)
  {
    if Regular(ia) { RegularRoundTrip(ia); }
    var b := IaNaBytes(ia);
    ParsedFits(b[12..]);
    var start := IaNa(FromBe32(b[..4]), FromBe32(b[4..8]), FromBe32(b[8..12]), None, 0, 0, None);
    AbsorbedIsRegular(start, ParseOptions(b[12..]));
  }

  // ---- Client messages ---------------------------------------------------------------

  function DuidLl(mac: Mac6): seq<Byte> { [0, 3, 0, 1] + mac }

  function RequestOptions(
    mac: Mac6, serverId: Option<seq<Byte>>, iaid: U32, a: Addr6, preferred: U32, valid: U32, elapsed: U16): Options6
  {
    [(OPT_CLIENTID, DuidLl(mac))]
    + (if serverId.Some? then [(OPT_SERVERID, serverId.value)] else [])
    + [(OPT_ELAPSED_TIME, Be16(elapsed)), (OPT_ORO, Be16(OPT_DNS_SERVERS) + Be16(OPT_DOMAIN_LIST)),
       (OPT_IA_NA, IaNaBytes(IaNa(iaid, 0, 0, Some(a), preferred, valid, None)))]
  }

  /** Request, Renew, Rebind and Release share this shape. */
  method BuildIaRequest(
    msgType: Byte, xid: Xid3, mac: Mac6, serverId: Option<seq<Byte>>,
    iaid: U32, a: Addr6, preferred: U32, valid: U32, elapsed: U16) returns (buf: seq<Byte>)
    ensures buf == [msgType] + xid + OptionBytes(RequestOptions(mac, serverId, iaid, a, preferred, valid, elapsed))
  {
    var head := [msgType] + xid;
    ghost var sent: Options6 := [];
    buf := head;
    buf, sent := Append(head, buf, sent, OPT_CLIENTID, DuidLl(mac));
    if serverId.Some? { buf, sent := Append(head, buf, sent, OPT_SERVERID, serverId.value); }
    buf, sent := Append(head, buf, sent, OPT_ELAPSED_TIME, Be16(elapsed));
    buf, sent := Append(head, buf, sent, OPT_ORO, Be16(OPT_DNS_SERVERS) + Be16(OPT_DOMAIN_LIST));
    var iaAddr := a + Be32(preferred) + Be32(valid);
    var iaNa := Be32(iaid) + Be32(0) + Be32(0) + PushOption(OPT_IA_ADDR, iaAddr);
    ghost var ia := IaNa(iaid, 0, 0, Some(a), preferred, valid, None);
    assert SubOptions(ia) == [AddressOption(a, preferred, valid)];
    LastOption([], AddressOption(a, preferred, valid));
    assert iaNa == IaNaBytes(ia);
    buf, sent := Append(head, buf, sent, OPT_IA_NA, iaNa);
    assert sent == RequestOptions(mac, serverId, iaid, a, preferred, valid, elapsed);
  }

  /** One `push_option` on a message under construction. */
  method Append(head: seq<Byte>, buf: seq<Byte>, ghost sent: Options6, code: U16, data: seq<Byte>)
    returns (buf': seq<Byte>, ghost sent': Options6)
    requires buf == head + OptionBytes(sent)
    ensures sent' == sent + [(code, data)] && buf' == head + OptionBytes(sent')
  {
    buf' := buf + PushOption(code, data);
    sent' := sent + [(code, data)];
    LastOption(sent, (code, data));
  }

  lemma {:induction false} LastOption(opts: Options6, o: (U16, seq<Byte>))
    ensures OptionBytes(opts + [o]) == OptionBytes(opts) + PushOption(o.0, o.1)
  {
    if opts == [] {
      assert [o][1..] == [] && opts + [o] == [o];
      assert OptionBytes([o]) == PushOption(o.0, o.1) + OptionBytes([]);
    } else {
      assert (opts + [o])[1..] == opts[1..] + [o];
      LastOption(opts[1..], o);
    }
  }

  function Find(opts: Options6, code: U16): Option<seq<Byte>> {
    if opts == [] then None else if opts[0].0 == code then Some(opts[0].1) else Find(opts[1..], code)
  }

  /** A request parses back to its own options, and its nested address to exactly what was asked. */
  lemma RequestRoundTrip(
    mac: Mac6, serverId: Option<seq<Byte>>, iaid: U32, a: Addr6, preferred: U32, valid: U32, elapsed: U16)
    requires serverId.Some? ==> |serverId.value| < 0x1_0000
    ensures var opts := RequestOptions(mac, serverId, iaid, a, preferred, valid, elapsed);
            && ParseOptions(OptionBytes(opts)) == opts
            && Find(opts, OPT_CLIENTID) == Some(DuidLl(mac))
            && Find(opts, OPT_SERVERID) == serverId
            && Find(opts, OPT_IA_NA).Some?
            && ParseIaNa(Find(opts, OPT_IA_NA).value) == Some(IaNa(iaid, 0, 0, Some(a), preferred, valid, None))
  {
    var ia := IaNa(iaid, 0, 0, Some(a), preferred, valid, None);
    var opts := RequestOptions(mac, serverId, iaid, a, preferred, valid, elapsed);
    RequestFits(mac, serverId, iaid, a, preferred, valid, elapsed);
    RegularRoundTrip(ia);
    FindLast(opts[..|opts| - 1], OPT_IA_NA, IaNaBytes(ia));
    assert opts == opts[..|opts| - 1] + [(OPT_IA_NA, IaNaBytes(ia))];
    FindServerId(mac, serverId, iaid, a, preferred, valid, elapsed);
  }

  lemma RequestFits(
    mac: Mac6, serverId: Option<seq<Byte>>, iaid: U32, a: Addr6, preferred: U32, valid: U32, elapsed: U16)
    requires serverId.Some? ==> |serverId.value| < 0x1_0000
    ensures var opts := RequestOptions(mac, serverId, iaid, a, preferred, valid, elapsed);
            ParseOptions(OptionBytes(opts)) == opts
  {
    OneAddressLength(IaNa(iaid, 0, 0, Some(a), preferred, valid, None));
    FittingRoundTrip(RequestOptions(mac, serverId, iaid, a, preferred, valid, elapsed));
  }

  lemma OneAddressLength(ia: IaNa)
    requires ia.address.Some? && ia.status.None?
    ensures |IaNaBytes(ia)| == 40
  {
    var o := AddressOption(ia.address.value, ia.preferred, ia.valid);
    assert SubOptions(ia) == [] + [o];
    LastOption([], o);
  }

  lemma FindServerId(
    mac: Mac6, serverId: Option<seq<Byte>>, iaid: U32, a: Addr6, preferred: U32, valid: U32, elapsed: U16)
    ensures Find(RequestOptions(mac, serverId, iaid, a, preferred, valid, elapsed), OPT_SERVERID) == serverId
  {
    var opts := RequestOptions(mac, serverId, iaid, a, preferred, valid, elapsed);
    if serverId.Some? {
      assert opts == opts[..1] + opts[1..] && opts[1..][0] == (OPT_SERVERID, serverId.value);
      FindSkips(opts[..1], opts[1..], OPT_SERVERID);
    } else {
      assert opts == opts + [];
      FindSkips(opts, [], OPT_SERVERID);
    }
  }

  lemma FindLast(pre: Options6, code: U16, data: seq<Byte>)
    requires forall o <- pre :: o.0 != code
    ensures Find(pre + [(code, data)], code) == Some(data)
  {
    FindSkips(pre, [(code, data)], code);
  }

  lemma {:induction false} FindSkips(pre: Options6, opts: Options6, code: U16)
    requires forall o <- pre :: o.0 != code
    ensures Find(pre + opts, code) == Find(opts, code)
  {
    if pre == [] {
      assert pre + opts == opts;
    } else {
      assert pre[0] in pre && (pre + opts)[1..] == pre[1..] + opts;
      FindSkips(pre[1..], opts, code);
    }
  }

  // ---- DNS servers and search domains ----------------------------------------------------

  /** Whole groups of sixteen bytes; a trailing remainder is dropped. */
  function DnsServers(b: seq<Byte>): seq<Addr6> {
    if |b| < 16 then [] else [b[..16]] + DnsServers(b[16..])
  }

  function Flatten(addrs: seq<Addr6>): seq<Byte> {
    if addrs == [] then [] else addrs[0] + Flatten(addrs[1..])
  }

  lemma {:induction false} DnsRoundTrip(addrs: seq<Addr6>)
    ensures DnsServers(Flatten(addrs)) == addrs
  {
    if addrs != [] {
      var b := Flatten(addrs);
      assert b[..16] == addrs[0] && b[16..] == Flatten(addrs[1..]);
      DnsRoundTrip(addrs[1..]);
      assert addrs == [addrs[0]] + addrs[1..];
    }
  }

  /** Labels up to the terminator, the end, or a label that overruns; and what is left after. */
  function ReadLabels(b: seq<Byte>): (r: (seq<seq<Byte>>, seq<Byte>))
    ensures b != [] ==> |r.1| < |b|
    ensures |r.1| <= |b|
  {
    if b == [] then ([], [])
    else if b[0] == 0 then ([], b[1..])
    else if 1 + b[0] as int > |b| then ([], if |b| < 2 then [] else b[2..])
    else
      var (labels, rest) := ReadLabels(b[1 + b[0] as int..]);
      ([b[1..1 + b[0] as int]] + labels, rest)
  }

  /** Labels joined with dots. */
  function Dotted(labels: seq<seq<Byte>>): seq<Byte> {
    if labels == [] then [] else if |labels| == 1 then labels[0] else labels[0] + [46] + Dotted(labels[1..])
  }

  function Domains(b: seq<Byte>): seq<seq<Byte>>
    decreases |b|
  {
    if b == [] then []
    else
      var (labels, rest) := ReadLabels(b);
      (if labels == [] then [] else [Dotted(labels)]) + Domains(rest)
  }

  method ReadDomains(data: seq<Byte>) returns (out: seq<seq<Byte>>)
    ensures out == Domains(data)
  {
    out := [];
    var i := 0;
    assert data[0..] == data && [] + Domains(data) == Domains(data);
    while i < |data|
      invariant 0 <= i
      invariant Domains(data) == out + Domains(From(data, i))
      decreases |data| - i
    {
      var labels;
      labels, i := ReadName(data, i);
      ghost var rest := Domains(From(data, i));
      assert [] + rest == rest;
      if labels != [] {
        assert out + ([Dotted(labels)] + rest) == out + [Dotted(labels)] + rest;
        out := out + [Dotted(labels)];
      }
    }
    assert out + [] == out;
  }

  /** The inner loop: one name's labels, and the position after its terminator. */
  method ReadName(data: seq<Byte>, start: nat) returns (labels: seq<seq<Byte>>, next: nat)
    requires start < |data|
    ensures next > start && ReadLabels(data[start..]) == (labels, From(data, next))
  {
    labels := [];
    var i := start;
    AheadNone(ReadLabels(data[start..]));
    while i < |data| && data[i] != 0
      invariant start <= i <= |data|
      invariant NameFrom(data, i, labels) == ReadLabels(data[start..])
      decreases |data| - i
    {
      LabelsMoveOn(data, i, labels);
      var len := data[i] as int;
      i := i + 1;
      if i + len > |data| { return labels, i + 1; }
      labels := labels + [data[i..i + len]];
      i := i + len;
    }
    LabelsEnd(data, i);
    next := i + 1;
  }

  /** Labels already read, ahead of those still to come. */
  function Ahead(labels: seq<seq<Byte>>, r: (seq<seq<Byte>>, seq<Byte>)): (p: (seq<seq<Byte>>, seq<Byte>))
    ensures r.0 == [] ==> p == (labels, r.1)
  {
    assert labels + [] == labels;
    (labels + r.0, r.1)
  }

  lemma AheadNone(r: (seq<seq<Byte>>, seq<Byte>))
    ensures Ahead([], r) == r
  {
    assert [] + r.0 == r.0;
  }

  lemma AheadTwice(labels: seq<seq<Byte>>, l: seq<Byte>, r: (seq<seq<Byte>>, seq<Byte>))
    ensures Ahead(labels, ([l] + r.0, r.1)) == Ahead(labels + [l], r)
  {
    assert labels + ([l] + r.0) == labels + [l] + r.0;
  }

  lemma LabelAt(data: seq<Byte>, i: nat)
    requires i < |data| && data[i] != 0
    ensures var j := i + 1 + data[i] as int;
            ReadLabels(data[i..])
            == if j > |data| then ([], From(data, i + 2))
               else ([data[i + 1..j]] + ReadLabels(data[j..]).0, ReadLabels(data[j..]).1)
  {
    var here := data[i..];
    var len := data[i] as int;
    if i + 1 + len > |data| {
      assert |here| >= 2 ==> here[2..] == data[i + 2..];
    } else {
      assert here[1..1 + len] == data[i + 1..i + 1 + len] && here[1 + len..] == data[i + 1 + len..];
    }
  }

  /** A name of which some labels have been read, up to an offset. */
  function NameFrom(data: seq<Byte>, i: nat, labels: seq<seq<Byte>>): (seq<seq<Byte>>, seq<Byte>)
    requires i <= |data|
  {
    Ahead(labels, ReadLabels(data[i..]))
  }

  lemma LabelsMoveOn(data: seq<Byte>, i: nat, labels: seq<seq<Byte>>)
    requires i < |data| && data[i] != 0
    ensures var j := i + 1 + data[i] as int;
            NameFrom(data, i, labels)
            == if j > |data| then (labels, From(data, i + 2)) else NameFrom(data, j, labels + [data[i + 1..j]])
  {
    var j := i + 1 + data[i] as int;
    LabelAt(data, i);
    if j <= |data| { AheadTwice(labels, data[i + 1..j], ReadLabels(data[j..])); }
  }

  lemma LabelsEnd(data: seq<Byte>, i: nat)
    requires i <= |data| && (i < |data| ==> data[i] == 0)
    ensures ReadLabels(data[i..]) == ([], From(data, i + 1))
  {
    if i < |data| { assert data[i..][1..] == data[i + 1..]; }
  }

  function From(b: seq<Byte>, i: nat): seq<Byte> {
    if i >= |b| then [] else b[i..]
  }

  // ---- Label encoding ----------------------------------------------------------------------

  predicate Encodable(ls: seq<seq<Byte>>) {
    forall l <- ls :: 1 <= |l| <= 255
  }

  predicate Name(ls: seq<seq<Byte>>) {
    ls != [] && Encodable(ls)
  }

  /** One name in front of `rest`. */
  function EncodeLabels(ls: seq<seq<Byte>>, rest: seq<Byte>): seq<Byte>
    requires Encodable(ls)
  {
    if ls == [] then [0] + rest else [|ls[0]|] + (ls[0] + EncodeLabels(ls[1..], rest))
  }

  function EncodeNames(names: seq<seq<seq<Byte>>>): seq<Byte>
    requires forall n <- names :: Name(n)
  {
    if names == [] then []
    else
      assert Name(names[0]);
      EncodeLabels(names[0], EncodeNames(names[1..]))
  }

  lemma ReadOne(x: seq<Byte>, tail: seq<Byte>)
    requires 1 <= |x| <= 255
    ensures ReadLabels([|x|] + (x + tail)) == Ahead([x], ReadLabels(tail))
  {
    var b := [|x|] + (x + tail);
    assert b[0] == |x| && b[1..] == x + tail;
    assert b[1..1 + |x|] == b[1..][..|x|] == x && b[1 + |x|..] == b[1..][|x|..] == tail;
  }

  lemma {:induction false} LabelsRoundTrip(ls: seq<seq<Byte>>, rest: seq<Byte>)
    requires Encodable(ls)
    ensures ReadLabels(EncodeLabels(ls, rest)) == (ls, rest)
  {
    if ls == [] {
      assert ([0] + rest)[1..] == rest;
    } else {
      assert ls[0] in ls;
      ReadOne(ls[0], EncodeLabels(ls[1..], rest));
      LabelsRoundTrip(ls[1..], rest);
      assert ls == [ls[0]] + ls[1..];
    }
  }

  function AllDotted(names: seq<seq<seq<Byte>>>): seq<seq<Byte>> {
    if names == [] then [] else [Dotted(names[0])] + AllDotted(names[1..])
  }

  /** Decoding a domain list gives every name back, in order, dotted. */
  lemma {:induction false} DomainsRoundTrip(names: seq<seq<seq<Byte>>>)
    requires forall n <- names :: Name(n)
    ensures Domains(EncodeNames(names)) == AllDotted(names)
  {
    if names != [] {
      assert names[0] in names;
      LabelsRoundTrip(names[0], EncodeNames(names[1..]));
      DomainsRoundTrip(names[1..]);
    }
  }
}
