/** Length-prefixed frames on a stream, and the client's wait for its response. */
module Ipc {
  import opened Wrappers
  import opened Bytes

  const MAX_MESSAGE_LEN := 0x10_0000

  type Body = b: seq<Byte> | |b| <= MAX_MESSAGE_LEN

  function Frame(b: Body): seq<Byte> { Le32(|b|) + b }

  datatype Reading = Message(body: Body, rest: seq<Byte>) | TooLarge | Short

  /** What one read finds at the front of a stream that holds these bytes. */
  function ReadFrame(s: seq<Byte>): Reading {
    if |s| < 4 then Short
    else
      var n := FromLe32(s[..4]);
      if n > MAX_MESSAGE_LEN then TooLarge
      else if |s| < 4 + n then Short
      else Message(s[4..4 + n], s[4 + n..])
  }

  /** Reading undoes writing, whatever follows. */
  lemma FrameRoundTrip(b: Body, rest: seq<Byte>)
    ensures ReadFrame(Frame(b) + rest) == Message(b, rest)
  {
    var s := Frame(b) + rest;
    assert s[..4] == Le32(|b|);
    assert s[4..4 + |b|] == b && s[4 + |b|..] == rest;
  }

  lemma Le16Inverse(b: seq<Byte>)
    requires |b| == 2
    ensures Le16(FromLe16(b)) == b
  {
  }

  lemma Halves(lo: U16, hi: U16)
    ensures (lo + hi * 0x1_0000) % 0x1_0000 == lo && (lo + hi * 0x1_0000) / 0x1_0000 == hi
  {
  }

  lemma Le32Inverse(b: seq<Byte>)
    requires |b| == 4
    ensures Le32(FromLe32(b)) == b
  {
    Le16Inverse(b[..2]);
    Le16Inverse(b[2..]);
    Halves(FromLe16(b[..2]), FromLe16(b[2..]));
  }

  /** And whatever is read was written as a frame. */
  lemma ReadIsFrame(s: seq<Byte>)
    requires ReadFrame(s).Message?
    ensures s == Frame(ReadFrame(s).body) + ReadFrame(s).rest
  {
    var n := FromLe32(s[..4]);
    Le32Inverse(s[..4]);
    assert s == s[..4] + s[4..4 + n] + s[4 + n..];
  }

  /** A frame cut anywhere before its end is never taken for a message or for an oversized one. */
  lemma CutFrameIsShort(b: Body, k: nat)
    requires k < |Frame(b)|
    ensures ReadFrame(Frame(b)[..k]) == Short
  {
    if k >= 4 {
      var s := Frame(b)[..k];
      assert s[..4] == Le32(|b|);
    }
  }

  /** How many more bytes a reader asks for that has taken these: the length first, then the body. */
  function Wants(taken: seq<Byte>): nat {
    if |taken| < 4 then 4 - |taken|
    else
      var n := FromLe32(taken[..4]);
      if n <= MAX_MESSAGE_LEN && |taken| < 4 + n then 4 + n - |taken| else 0
  }

  /** A reader that asks for no more than that never takes bytes past its message. */
  predicate WithinOne(taken: seq<Byte>) { |taken| <= 4 || |taken| <= 4 + FromLe32(taken[..4]) }

  lemma TakingStaysWithin(s: seq<Byte>, k: nat, n: nat)
    requires k + n <= |s| && WithinOne(s[..k]) && n <= Wants(s[..k])
    ensures WithinOne(s[..k + n])
  {
    if k >= 4 { assert s[..k + n][..4] == s[..k][..4]; }
  }

  /** A message taken whole is the one at the front, and what was not taken is what follows it. */
  lemma TakenWhole(s: seq<Byte>, k: nat)
    requires k <= |s| && WithinOne(s[..k]) && ReadFrame(s[..k]).Message?
    ensures ReadFrame(s) == Message(ReadFrame(s[..k]).body, s[k..])
  {
    var n := FromLe32(s[..4]);
    assert s[..k][..4] == s[..4] && k == 4 + n;
    assert s[..k][4..4 + n] == s[4..4 + n];
  }

  /** A reader that still wants bytes has not got its message; one that does not has, or an oversized length. */
  lemma WantsExactly(s: seq<Byte>, k: nat)
    requires k <= |s|
    ensures Wants(s[..k]) > 0 <==> ReadFrame(s[..k]) == Short
    ensures ReadFrame(s[..k]) == TooLarge ==> ReadFrame(s) == TooLarge
  {
    if k >= 4 { assert s[..k][..4] == s[..4]; }
  }

  class Pipe {
    var data: seq<Byte>

    constructor ()
      ensures data == []
    {
      data := [];
    }

    method WriteAll(bytes: seq<Byte>)
      modifies this
      ensures data == old(data) + bytes
    {
      data := data + bytes;
    }
  }

  /** A whole frame, or nothing at all when the message is over the cap. */
  method WriteMessage(p: Pipe, bytes: seq<Byte>) returns (ok: bool)
    modifies p
    ensures ok <==> |bytes| <= MAX_MESSAGE_LEN
    ensures p.data == if ok then old(p.data) + Frame(bytes) else old(p.data)
  {
    if |bytes| > MAX_MESSAGE_LEN { return false; }
    p.WriteAll(Le32(|bytes|));
    p.WriteAll(bytes);
    assert old(p.data) + Le32(|bytes|) + bytes == old(p.data) + Frame(bytes);
    ok := true;
  }

  /** Takes one message off the front; the length is checked before anything is reserved for it. */
  method ReadMessage(p: Pipe) returns (r: Reading)
    modifies p
    ensures r == ReadFrame(old(p.data))
    ensures r.Message? ==> p.data == r.rest
  {
    if |p.data| < 4 { return Short; }
    var prefix := p.data[..4];
    p.data := p.data[4..];
    var n := FromLe32(prefix);
    if n > MAX_MESSAGE_LEN { return TooLarge; }
    if |p.data| < n { return Short; }
    var body := p.data[..n];
    assert body == old(p.data)[4..4 + n] && p.data[n..] == old(p.data)[4 + n..];
    p.data := p.data[n..];
    r := Message(body, p.data);
  }

  // ---- Messages ----------------------------------------------------------------------------

  type Request = string

  datatype ServerMessage = Response(text: string) | Event(text: string)

  /** The JSON mapping, both ways. */
  datatype Codec = Codec(
    encode: ServerMessage -> seq<Byte>, decode: seq<Byte> -> Option<ServerMessage>,
    encodeRequest: Request -> seq<Byte>, decodeRequest: seq<Byte> -> Option<Request>)

  /** Decoding undoes encoding. */
  ghost predicate Lawful(c: Codec) {
    && (forall m :: c.decode(c.encode(m)) == Some(m))
    && (forall r :: c.decodeRequest(c.encodeRequest(r)) == Some(r))
  }

  predicate Fits(c: Codec, m: ServerMessage) { |c.encode(m)| <= MAX_MESSAGE_LEN }

  ghost predicate AllFit(c: Codec, ms: seq<ServerMessage>) {
    forall i :: 0 <= i < |ms| ==> Fits(c, ms[i])
  }

  /** The messages as frames, ahead of whatever follows. */
  ghost function Frames(c: Codec, ms: seq<ServerMessage>, rest: seq<Byte>): seq<Byte>
    requires AllFit(c, ms)
  {
    if ms == [] then rest else Frame(c.encode(ms[0])) + Frames(c, ms[1..], rest)
  }

  /** The first response on the stream and what follows it; events before it are dropped. */
  function Await(c: Codec, s: seq<Byte>): Option<(string, seq<Byte>)>
    decreases |s|
  {
    match ReadFrame(s)
    case Message(body, rest) =>
      (match c.decode(body)
       case Some(Response(text)) => Some((text, rest))
       case Some(Event(_)) => Await(c, rest)
       case None => None)
    case _ => None
  }

  /** Any number of events before a response do not hide it, and nothing after it is touched. */
  lemma {:induction false} AwaitSkipsEvents(c: Codec, events: seq<ServerMessage>, text: string, rest: seq<Byte>)
    requires Lawful(c) && Fits(c, Response(text)) && AllFit(c, events)
    requires forall i :: 0 <= i < |events| ==> events[i].Event?
    ensures Await(c, Frames(c, events, Frame(c.encode(Response(text))) + rest)) == Some((text, rest))
  {
    if events == [] {
      FrameRoundTrip(c.encode(Response(text)), rest);
    } else {
      AwaitSkipsEvents(c, events[1..], text, rest);
      FrameRoundTrip(c.encode(events[0]), Frames(c, events[1..], Frame(c.encode(Response(text))) + rest));
    }
  }

  /** Sends a request, then reads until a response; an oversized request is refused before anything is sent. */
  method SendRequest(c: Codec, up: Pipe, down: Pipe, req: Request) returns (r: Option<string>)
    requires up != down
    modifies up, down
    ensures up.data == if |c.encodeRequest(req)| <= MAX_MESSAGE_LEN then old(up.data) + Frame(c.encodeRequest(req))
                       else old(up.data)
    ensures |c.encodeRequest(req)| > MAX_MESSAGE_LEN ==> r == None && down.data == old(down.data)
    ensures |c.encodeRequest(req)| <= MAX_MESSAGE_LEN ==>
              (r.Some? <==> Await(c, old(down.data)).Some?)
              && (r.Some? ==> Await(c, old(down.data)) == Some((r.value, down.data)))
  {
    var sent := WriteMessage(up, c.encodeRequest(req));
    if !sent { return None; }
    while true
      invariant Await(c, down.data) == Await(c, old(down.data))
      invariant up.data == old(up.data) + Frame(c.encodeRequest(req))
      decreases |down.data|
    {
      var next := ReadMessage(down);
      if !next.Message? { return None; }
      var m := c.decode(next.body);
      if m == None { return None; }
      if m.value.Response? { return Some(m.value.text); }
    }
  }
}
