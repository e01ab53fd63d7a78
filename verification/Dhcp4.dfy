/** DHCPv4 packets on the wire: the fixed header, the option list, and both directions. */
module Dhcp4 {
  import opened Wrappers
  import opened Bytes
  import opened DhcpLeases

  type Options = seq<(Byte, seq<Byte>)>

  datatype Packet = Packet(
    op: Byte, xid: U32, secs: U16, flags: U16,
    ciaddr: U32, yiaddr: U32, siaddr: U32, chaddr: Mac, options: Options)

  const HTYPE_ETHER: Byte := 1
  const MAGIC_COOKIE: seq<Byte> := [99, 130, 83, 99]
  const OPT_PAD: Byte := 0
  const OPT_END: Byte := 255

  const OPT_SUBNET_MASK: Byte := 1
  const OPT_ROUTER: Byte := 3
  const OPT_DNS: Byte := 6
  const OPT_DOMAIN_NAME: Byte := 15
  const OPT_REQUESTED_IP: Byte := 50
  const OPT_LEASE_TIME: Byte := 51
  const OPT_MSG_TYPE: Byte := 53
  const OPT_SERVER_ID: Byte := 54

  // ---- Serialization -----------------------------------------------------------

  /** Codes and lengths are cut to one byte, exactly as the buffer stores them. */
  function OptionBytes(opts: Options): seq<Byte> {
    if opts == [] then [OPT_END]
    else [opts[0].0, |opts[0].1| % 0x100] + opts[0].1 + OptionBytes(opts[1..])
  }

  function AddressBytes(p: Packet): (r: seq<Byte>)
    ensures |r| == 16
  {
    Be32(p.ciaddr) + (Be32(p.yiaddr) + (Be32(p.siaddr) + Zeros(4)))
  }

  function HeaderBytes(p: Packet): (r: seq<Byte>)
    ensures |r| == 240
  {
    [p.op, HTYPE_ETHER, 6, 0] + (Be32(p.xid) + (Be16(p.secs) + (Be16(p.flags) +
    (AddressBytes(p) + (p.chaddr + (Zeros(10 + 64 + 128) + MAGIC_COOKIE))))))
  }

  function Serialize(p: Packet): seq<Byte> {
    HeaderBytes(p) + OptionBytes(p.options)
  }

  method SerializePacket(p: Packet) returns (buf: seq<Byte>)
    ensures buf == Serialize(p)
  {
    buf := HeaderBytes(p);
    assert p.options[0..] == p.options;
    for i := 0 to |p.options|
      invariant buf + OptionBytes(p.options[i..]) == Serialize(p)
    {
      assert p.options[i..][0] == p.options[i] && p.options[i..][1..] == p.options[i + 1..];
      var (code, data) := p.options[i];
      buf := buf + [code];
      buf := buf + [|data| % 0x100];
      buf := buf + data;
    }
    buf := buf + [OPT_END];
  }

  // ---- Parsing -----------------------------------------------------------------

  function ParseOptions(b: seq<Byte>): Options {
    if b == [] || b[0] == OPT_END then []
    else if b[0] == OPT_PAD then ParseOptions(b[1..])
    else if |b| < 2 || 2 + b[1] as int > |b| then []
    else [(b[0], b[2..2 + b[1] as int])] + ParseOptions(b[2 + b[1] as int..])
  }

  function Parse(b: seq<Byte>): Option<Packet> {
    if |b| < 240 || b[236..240] != MAGIC_COOKIE then None
    else
      Some(Packet(b[0], FromBe32(b[4..8]), FromBe16(b[8..10]), FromBe16(b[10..12]),
                  FromBe32(b[12..16]), FromBe32(b[16..20]), FromBe32(b[20..24]), b[28..34],
                  ParseOptions(b[240..])))
  }

  /** One option or padding byte read off the front. */
  lemma OptionsMoveOn(b: seq<Byte>, i: nat)
    requires i < |b| && b[i] != OPT_END
    ensures b[i] == OPT_PAD ==> ParseOptions(b[i..]) == ParseOptions(b[i + 1..])
    ensures b[i] != OPT_PAD && i + 1 < |b| && i + 2 + b[i + 1] as int <= |b| ==>
              var n := i + 2 + b[i + 1] as int;
              ParseOptions(b[i..]) == [(b[i], b[i + 2..n])] + ParseOptions(b[n..])
    ensures b[i] != OPT_PAD && (i + 1 >= |b| || i + 2 + b[i + 1] as int > |b|) ==> ParseOptions(b[i..]) == []
  {
    var rest := b[i..];
    assert rest[0] == b[i] && rest[1..] == b[i + 1..];
    if i + 1 < |b| && i + 2 + b[i + 1] as int <= |b| {
      var len := b[i + 1] as int;
      assert rest[1] == b[i + 1] && rest[2..2 + len] == b[i + 2..i + 2 + len] && rest[2 + len..] == b[i + 2 + len..];
    }
  }

  lemma Grows(options: Options, o: (Byte, seq<Byte>), tail: Options)
    ensures options + ([o] + tail) == options + [o] + tail
  {
  }

  method ReadOptions(b: seq<Byte>, start: nat) returns (options: Options)
    requires start <= |b|
    ensures options == ParseOptions(b[start..])
  {
    options := [];
    var i := start;
    while i < |b|
      invariant start <= i <= |b|
      invariant OptionsFrom(b, i, options) == ParseOptions(b[start..])
    {
      var code := b[i];
      OptionsGrow(b, i, options);
      if code == OPT_END { return; }
      if code == OPT_PAD {
        i := i + 1;
        continue;
      }
      if i + 1 >= |b| { return; }
      var len := b[i + 1] as int;
      if i + 2 + len > |b| { return; }
      options := options + [(code, b[i + 2..i + 2 + len])];
      i := i + 2 + len;
    }
    assert options + [] == options;
  }

  /** The options read so far, up to an offset, and those still to come. */
  function OptionsFrom(b: seq<Byte>, i: nat, options: Options): Options
    requires i <= |b|
  {
    options + ParseOptions(b[i..])
  }

  lemma OptionsGrow(b: seq<Byte>, i: nat, options: Options)
    requires i < |b|
    ensures OptionsFrom(b, i, options)
            == if b[i] == OPT_END then options
               else if b[i] == OPT_PAD then OptionsFrom(b, i + 1, options)
               else if i + 1 >= |b| || i + 2 + b[i + 1] as int > |b| then options
               else
                 var n := i + 2 + b[i + 1] as int;
                 OptionsFrom(b, n, options + [(b[i], b[i + 2..n])])
  {
    assert options + [] == options;
    if b[i] != OPT_END {
      OptionsMoveOn(b, i);
      if b[i] != OPT_PAD && i + 1 < |b| && i + 2 + b[i + 1] as int <= |b| {
        var n := i + 2 + b[i + 1] as int;
        Grows(options, (b[i], b[i + 2..n]), ParseOptions(b[n..]));
      }
    }
  }

  method ParsePacket(b: seq<Byte>) returns (r: Option<Packet>)
    ensures r == Parse(b)
  {
    if |b| < 240 || b[236..240] != MAGIC_COOKIE { return None; }
    var options := ReadOptions(b, 240);
    r := Some(Packet(b[0], FromBe32(b[4..8]), FromBe16(b[8..10]), FromBe16(b[10..12]),
                     FromBe32(b[12..16]), FromBe32(b[16..20]), FromBe32(b[20..24]), b[28..34], options));
  }

  // ---- The round trip ------------------------------------------------------------

  /** What the one-byte code and length fields can carry. */
  predicate Carried(o: (Byte, seq<Byte>)) {
    o.0 != OPT_PAD && o.0 != OPT_END && |o.1| <= 255
  }

  predicate Fits(opts: Options) {
    forall o <- opts :: Carried(o)
  }

  lemma OptionReads(code: Byte, data: seq<Byte>, tail: seq<Byte>)
    requires code != OPT_PAD && code != OPT_END && |data| <= 255
    ensures ParseOptions([code, |data|] + data + tail) == [(code, data)] + ParseOptions(tail)
  {
    var b := [code, |data|] + data + tail;
    assert b[0] == code && b[1] == |data| && b[2..2 + |data|] == data && b[2 + |data|..] == tail;
  }

  lemma CarriedOne(o: (Byte, seq<Byte>), rest: Options)
    requires Carried(o)
    ensures ParseOptions(OptionBytes([o] + rest)) == [o] + ParseOptions(OptionBytes(rest))
  {
    assert ([o] + rest)[0] == o && ([o] + rest)[1..] == rest;
    OptionReads(o.0, o.1, OptionBytes(rest));
  }

  /** Options that can be carried are read back whatever follows them. */
  lemma {:induction false} CarriedPrefix(pre: Options, rest: Options)
    requires Fits(pre)
    ensures ParseOptions(OptionBytes(pre + rest)) == pre + ParseOptions(OptionBytes(rest))
  {
    var after := ParseOptions(OptionBytes(rest));
    if pre == [] {
      assert pre + rest == rest && pre + after == after;
    } else {
      assert pre[0] in pre && forall o <- pre[1..] :: o in pre;
      HeadFirst(pre, rest);
      CarriedOne(pre[0], pre[1..] + rest);
      CarriedPrefix(pre[1..], rest);
      HeadFirst(pre, after);
    }
  }

  lemma OptionsRoundTrip(opts: Options)
    requires Fits(opts)
    ensures ParseOptions(OptionBytes(opts)) == opts
  {
    CarriedPrefix(opts, []);
    assert opts + [] == opts;
  }

  /** An option too long for its length field is cut to the length's low byte. */
  lemma LongOptionIsCut(code: Byte, data: seq<Byte>)
    requires code != OPT_PAD && code != OPT_END
    ensures var got := ParseOptions(OptionBytes([(code, data)]));
            got != [] && got[0] == (code, data[..|data| % 0x100])
  {
    var n := |data| % 0x100;
    var b := OptionBytes([(code, data)]);
    assert OptionBytes([(code, data)][1..]) == [OPT_END];
    assert data == data[..n] + data[n..];
    assert b == [code, n] + data[..n] + (data[n..] + [OPT_END]);
    OptionReads(code, data[..n], data[n..] + [OPT_END]);
  }

  /** Whatever the input bytes, only carriable options come out. */
  lemma {:induction false} ParsedOptionsFit(b: seq<Byte>)
    ensures Fits(ParseOptions(b))
    decreases |b|
  {
    if b == [] || b[0] == OPT_END {
    } else if b[0] == OPT_PAD {
      ParsedOptionsFit(b[1..]);
    } else if |b| >= 2 && 2 + b[1] as int <= |b| {
      ParsedOptionsFit(b[2 + b[1] as int..]);
    }
  }

  /** `part` stands in `b` at offset `i`. */
  ghost predicate At(b: seq<Byte>, i: nat, part: seq<Byte>) {
    i + |part| <= |b| && b[i..i + |part|] == part
  }

  lemma Field(b: seq<Byte>, i: nat, part: seq<Byte>, rest: seq<Byte>)
    requires At(b, i, part + rest)
    ensures At(b, i, part) && At(b, i + |part|, rest)
  {
    var w := b[i..i + |part + rest|];
    assert w[..|part|] == part && w[|part|..] == rest;
    assert b[i..i + |part|] == w[..|part|] && b[i + |part|..i + |part + rest|] == w[|part|..];
  }

  /** Where the first four header fields stand. */
  lemma HeaderFields(p: Packet, b: seq<Byte>) returns (tail: seq<Byte>)
    requires At(b, 0, HeaderBytes(p))
    ensures At(b, 0, [p.op, HTYPE_ETHER, 6, 0]) && At(b, 4, Be32(p.xid))
    ensures At(b, 8, Be16(p.secs)) && At(b, 10, Be16(p.flags))
    ensures tail == AddressBytes(p) + (p.chaddr + (Zeros(10 + 64 + 128) + MAGIC_COOKIE)) && At(b, 12, tail)
  {
    tail := AddressBytes(p) + (p.chaddr + (Zeros(10 + 64 + 128) + MAGIC_COOKIE));
    Field(b, 0, [p.op, HTYPE_ETHER, 6, 0], Be32(p.xid) + (Be16(p.secs) + (Be16(p.flags) + tail)));
    Field(b, 4, Be32(p.xid), Be16(p.secs) + (Be16(p.flags) + tail));
    Field(b, 8, Be16(p.secs), Be16(p.flags) + tail);
    Field(b, 10, Be16(p.flags), tail);
  }

  lemma AddressFields(p: Packet, b: seq<Byte>)
    requires At(b, 12, AddressBytes(p) + (p.chaddr + (Zeros(10 + 64 + 128) + MAGIC_COOKIE)))
    ensures At(b, 12, Be32(p.ciaddr)) && At(b, 16, Be32(p.yiaddr)) && At(b, 20, Be32(p.siaddr))
    ensures At(b, 28, p.chaddr) && At(b, 236, MAGIC_COOKIE)
  {
    Field(b, 12, AddressBytes(p), p.chaddr + (Zeros(10 + 64 + 128) + MAGIC_COOKIE));
    Field(b, 28, p.chaddr, Zeros(10 + 64 + 128) + MAGIC_COOKIE);
    Field(b, 34, Zeros(10 + 64 + 128), MAGIC_COOKIE);
    Field(b, 12, Be32(p.ciaddr), Be32(p.yiaddr) + (Be32(p.siaddr) + Zeros(4)));
    Field(b, 16, Be32(p.yiaddr), Be32(p.siaddr) + Zeros(4));
    Field(b, 20, Be32(p.siaddr), Zeros(4));
  }

  lemma HeaderRoundTrip(p: Packet)
    ensures Parse(Serialize(p)) == Some(p.(options := ParseOptions(OptionBytes(p.options))))
  {
    var b := Serialize(p);
    assert At(b, 0, HeaderBytes(p)) by { assert b[0..240] == HeaderBytes(p); }
    assert b[240..] == OptionBytes(p.options);
    var tail := HeaderFields(p, b);
    AddressFields(p, b);
    assert b[0] == b[0..4][0];
  }

  /** A packet survives the wire exactly when each of its options can be carried. */
  lemma PacketRoundTrip(p: Packet)
    ensures Parse(Serialize(p)) == Some(p) <==> Fits(p.options)
  {
    HeaderRoundTrip(p);
    ParsedOptionsFit(OptionBytes(p.options));
    if Fits(p.options) { OptionsRoundTrip(p.options); }
  }
}
