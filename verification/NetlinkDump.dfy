/** Reading a multi-part netlink reply: datagrams in, the bodies of one exchange out. */
module NetlinkDump {
  import opened Bytes
  import opened Netlink

  const HEADER := 16
  const RECV_BUFFER := 32768
  const NLMSG_ERROR: U16 := 2
  const NLMSG_DONE: U16 := 3

  datatype Msg = Msg(kind: U16, flags: U16, seqNo: U32, pid: U32, body: seq<Byte>)

  predicate Multi(flags: U16) { flags / 2 % 2 == 1 }

  // ---- The receiver --------------------------------------------------------------

  /** The messages accepted so far and whether the exchange is over; or an out-of-bounds slice. */
  datatype Scan = Scan(out: seq<(U16, seq<Byte>)>, done: bool) | Panic

  /** What one message header and body do to the running result. */
  function Take(s: Scan, want: U32, kind: U16, flags: U16, seqNo: U32, body: seq<Byte>): Scan
    requires s.Scan?
  {
    var mine := seqNo == want || kind == NLMSG_ERROR;
    var s1 := if !mine then s else if kind == NLMSG_DONE then s.(done := true) else s.(out := s.out + [(kind, body)]);
    if !Multi(flags) && kind != NLMSG_DONE then
      s1.(done := s1.done || kind == NLMSG_ERROR || seqNo == want)
    else s1
  }

  /** One datagram, message by message; the last step slices at the aligned length unchecked. */
  function ScanDatagram(b: seq<Byte>, want: U32, s: Scan): Scan
    requires s.Scan?
    decreases |b|
  {
    if |b| < HEADER then s
    else
      var len := FromLe32(b[..4]) as int;
      if len < HEADER || len > |b| then s
      else
        var s1 := Take(s, want, FromLe16(b[4..6]), FromLe16(b[6..8]), FromLe32(b[8..12]), b[HEADER..len]);
        if Align(len) > |b| then Panic else ScanDatagram(b[Align(len)..], want, s1)
  }

  datatype Received = Replies(out: seq<(U16, seq<Byte>)>) | RecvFailed | Panicked

  predicate HasError(out: seq<(U16, seq<Byte>)>) {
    exists i :: 0 <= i < |out| && out[i].0 == NLMSG_ERROR
  }

  /** Datagrams are read until a terminal message; running out of them is a failed receive. */
  function ReadUntilDone(datagrams: seq<seq<Byte>>, want: U32, out: seq<(U16, seq<Byte>)>): Received
    decreases |datagrams|
  {
    if datagrams == [] then RecvFailed
    else
      var d := if |datagrams[0]| > RECV_BUFFER then datagrams[0][..RECV_BUFFER] else datagrams[0];
      match ScanDatagram(d, want, Scan(out, false))
      case Panic => Panicked
      case Scan(out', done) =>
        if done || HasError(out') || d == [] then Replies(out')
        else ReadUntilDone(datagrams[1..], want, out')
  }

  datatype Dumped = Bodies(bodies: seq<seq<Byte>>) | Refused | Failed | Crashed

  /** Error messages abort the dump unless they are plain acknowledgements. */
  function Collect(out: seq<(U16, seq<Byte>)>): Dumped {
    if out == [] then Bodies([])
    else if out[0].0 == NLMSG_ERROR && (|out[0].1| < 4 || FromLe32(out[0].1[..4]) != 0) then Refused
    else
      match Collect(out[1..])
      case Bodies(bs) =>
        Bodies(if out[0].0 == NLMSG_ERROR || out[0].0 == NLMSG_DONE then bs else [out[0].1] + bs)
      case other => other
  }

  function Dump(datagrams: seq<seq<Byte>>, want: U32): Dumped {
    match ReadUntilDone(datagrams, want, [])
    case Replies(out) => Collect(out)
    case RecvFailed => Failed
    case Panicked => Crashed
  }

  /** The inner loop over one datagram's messages. */
  method ScanLoop(d: seq<Byte>, want: U32, before: seq<(U16, seq<Byte>)>) returns (r: Scan)
    ensures r == ScanDatagram(d, want, Scan(before, false))
  {
    var out, done, rest := before, false, d;
    while |rest| >= HEADER
      invariant ScanDatagram(d, want, Scan(before, false)) == ScanDatagram(rest, want, Scan(out, done))
      decreases |rest|
    {
      var len := FromLe32(rest[..4]) as int;
      var kind := FromLe16(rest[4..6]);
      var flags := FromLe16(rest[6..8]);
      var seqNo := FromLe32(rest[8..12]);
      if len < HEADER || len > |rest| { break; }
      var body := rest[HEADER..len];
      if seqNo == want || kind == NLMSG_ERROR {
        if kind == NLMSG_DONE {
          done := true;
        } else {
          out := out + [(kind, body)];
        }
      }
      if !Multi(flags) && kind != NLMSG_DONE {
        done := done || kind == NLMSG_ERROR || seqNo == want;
      }
      if Align(len) > |rest| { return Panic; }
      rest := rest[Align(len)..];
    }
    r := Scan(out, done);
  }

  /** The outer loop over datagrams. */
  method ReceiveUntilDone(datagrams: seq<seq<Byte>>, want: U32) returns (r: Received)
    ensures r == ReadUntilDone(datagrams, want, [])
  {
    var out: seq<(U16, seq<Byte>)> := [];
    var k := 0;
    assert datagrams[0..] == datagrams;
    while k < |datagrams|
      invariant 0 <= k <= |datagrams|
      invariant ReadUntilDone(datagrams, want, []) == ReadUntilDone(datagrams[k..], want, out)
    {
      assert datagrams[k..][0] == datagrams[k] && datagrams[k..][1..] == datagrams[k + 1..];
      var d := if |datagrams[k]| > RECV_BUFFER then datagrams[k][..RECV_BUFFER] else datagrams[k];
      var scan := ScanLoop(d, want, out);
      if scan.Panic? { return Panicked; }
      out := scan.out;
      if scan.done || HasError(out) || d == [] { return Replies(out); }
      k := k + 1;
    }
    r := RecvFailed;
  }

  // ---- The wire --------------------------------------------------------------------

  function Header(m: Msg): (r: seq<Byte>)
    requires HEADER + |m.body| < 0x1_0000_0000
    ensures |r| == HEADER
  {
    Le32(HEADER + |m.body|) + (Le16(m.kind) + (Le16(m.flags) + (Le32(m.seqNo) + Le32(m.pid))))
  }

  predicate Sendable(ms: seq<Msg>) {
    forall m <- ms :: HEADER + |m.body| < 0x1_0000_0000
  }

  /** Messages one after the other, each padded to four bytes, in front of `rest`. */
  function Wire(ms: seq<Msg>, rest: seq<Byte>): seq<Byte>
    requires Sendable(ms)
  {
    if ms == [] then rest
    else
      var m := ms[0];
      assert m in ms;
      var len := HEADER + |m.body|;
      Header(m) + (m.body + (Zeros(Align(len) - len) + Wire(ms[1..], rest)))
  }

  function TakeMsg(s: Scan, want: U32, m: Msg): Scan
    requires s.Scan?
  {
    Take(s, want, m.kind, m.flags, m.seqNo, m.body)
  }

  function TakeAll(s: Scan, want: U32, ms: seq<Msg>): (r: Scan)
    requires s.Scan?
    ensures r.Scan?
    decreases |ms|
  {
    if ms == [] then s else TakeAll(TakeMsg(s, want, ms[0]), want, ms[1..])
  }

  lemma HeaderFields(m: Msg, rest: seq<Byte>)
    requires HEADER + |m.body| < 0x1_0000_0000
    ensures var b := Header(m) + rest;
            && FromLe32(b[..4]) == HEADER + |m.body| && FromLe16(b[4..6]) == m.kind
            && FromLe16(b[6..8]) == m.flags && FromLe32(b[8..12]) == m.seqNo
  {
    var h := Header(m);
    var b := h + rest;
    Pieces(Le32(HEADER + |m.body|), Le16(m.kind), Le16(m.flags), Le32(m.seqNo), Le32(m.pid));
    assert b[..4] == h[..4] && b[4..6] == h[4..6] && b[6..8] == h[6..8];
    assert h[8..] == Le32(m.seqNo) + Le32(m.pid);
    assert b[8..12] == h[8..][..4];
  }

  /** Scanning a padded message consumes exactly it. */
  lemma ScanOne(m: Msg, rest: seq<Byte>, want: U32, s: Scan)
    requires HEADER + |m.body| < 0x1_0000_0000 && s.Scan?
    ensures var len := HEADER + |m.body|;
            ScanDatagram(Header(m) + (m.body + (Zeros(Align(len) - len) + rest)), want, s)
            == ScanDatagram(rest, want, TakeMsg(s, want, m))
  {
    var len := HEADER + |m.body|;
    var pad := Zeros(Align(len) - len);
    var after := m.body + (pad + rest);
    HeaderFields(m, after);
    Body(Header(m), m.body, pad, rest);
    ScanStep(Header(m) + after, m, rest, want, s);
  }

  lemma Body(h: seq<Byte>, body: seq<Byte>, pad: seq<Byte>, rest: seq<Byte>)
    ensures var b := h + (body + (pad + rest));
            && |b| == |h| + |body| + |pad| + |rest|
            && b[|h|..|h| + |body|] == body && b[|h| + |body| + |pad|..] == rest
  {
    Pieces(h, body, [], pad, rest);
    assert [] + (pad + rest) == pad + rest;
  }

  lemma ScanStep(b: seq<Byte>, m: Msg, rest: seq<Byte>, want: U32, s: Scan)
    requires s.Scan? && |b| >= Align(HEADER + |m.body|)
    requires FromLe32(b[..4]) == HEADER + |m.body| && FromLe16(b[4..6]) == m.kind
    requires FromLe16(b[6..8]) == m.flags && FromLe32(b[8..12]) == m.seqNo
    requires b[HEADER..HEADER + |m.body|] == m.body && b[Align(HEADER + |m.body|)..] == rest
    ensures ScanDatagram(b, want, s) == ScanDatagram(rest, want, TakeMsg(s, want, m))
  {
  }

  /** Scanning a datagram of whole padded messages takes them one by one and never slices too far. */
  lemma {:induction false} ScanWire(ms: seq<Msg>, rest: seq<Byte>, want: U32, s: Scan)
    requires Sendable(ms) && s.Scan?
    ensures ScanDatagram(Wire(ms, rest), want, s) == ScanDatagram(rest, want, TakeAll(s, want, ms))
    decreases |ms|
  {
    if ms != [] {
      assert ms[0] in ms;
      ScanOne(ms[0], Wire(ms[1..], rest), want, s);
      ScanWire(ms[1..], rest, want, TakeMsg(s, want, ms[0]));
    }
  }

  // ---- What a dump returns -----------------------------------------------------------

  /** Somebody else's message, of any kind but an error. */
  predicate Foreign(m: Msg, want: U32) {
    m.kind != NLMSG_ERROR && m.seqNo != want
  }

  /** One part of the awaited multi-part reply. */
  predicate Part(m: Msg, want: U32) {
    m.kind != NLMSG_ERROR && m.kind != NLMSG_DONE && m.seqNo == want && Multi(m.flags)
  }

  /** Nothing among `ms` ends the exchange: no error, no DONE of its own, no single reply. */
  predicate Quiet(ms: seq<Msg>, want: U32) {
    forall m <- ms :: Foreign(m, want) || Part(m, want)
  }

  /** An error that is no plain acknowledgement. */
  predicate Refuses(m: Msg) {
    m.kind == NLMSG_ERROR && (|m.body| < 4 || FromLe32(m.body[..4]) != 0)
  }

  /** A message whose body belongs in the answer. */
  predicate Answers(m: Msg, want: U32) {
    m.seqNo == want && m.kind != NLMSG_ERROR && m.kind != NLMSG_DONE
  }

  function PartBodies(ms: seq<Msg>, want: U32): seq<seq<Byte>> {
    if ms == [] then []
    else (if Answers(ms[0], want) then [ms[0].body] else []) + PartBodies(ms[1..], want)
  }

  /** The answer to a request, given every message that arrived up to its end. */
  function Answer(ms: seq<Msg>, want: U32): Dumped {
    if exists m <- ms :: Refuses(m) then Refused else Bodies(PartBodies(ms, want))
  }

  /** What the scan records of a message: its own and errors, but no end marker. */
  function Record(m: Msg, want: U32): seq<(U16, seq<Byte>)> {
    if m.kind != NLMSG_DONE && (m.seqNo == want || m.kind == NLMSG_ERROR) then [(m.kind, m.body)] else []
  }

  function Recorded(ms: seq<Msg>, want: U32): seq<(U16, seq<Byte>)> {
    if ms == [] then [] else Record(ms[0], want) + Recorded(ms[1..], want)
  }

  /** A message that raises the scan's flag. */
  predicate Marks(m: Msg, want: U32) {
    if m.kind == NLMSG_DONE then m.seqNo == want else !Multi(m.flags) && (m.seqNo == want || m.kind == NLMSG_ERROR)
  }

  predicate Marked(ms: seq<Msg>, want: U32) {
    exists m <- ms :: Marks(m, want)
  }

  lemma TakenOne(s: Scan, want: U32, m: Msg)
    requires s.Scan?
    ensures TakeMsg(s, want, m) == Scan(s.out + Record(m, want), s.done || Marks(m, want))
  {
    assert s.out + [] == s.out;
  }

  lemma MarkedSteps(ms: seq<Msg>, want: U32)
    requires ms != []
    ensures Marked(ms, want) <==> Marks(ms[0], want) || Marked(ms[1..], want)
  {
    assert forall m <- ms :: m == ms[0] || m in ms[1..];
  }

  lemma {:induction false} Taken(s: Scan, want: U32, ms: seq<Msg>)
    requires s.Scan?
    ensures TakeAll(s, want, ms) == Scan(s.out + Recorded(ms, want), s.done || Marked(ms, want))
    decreases |ms|
  {
    if ms == [] {
      assert s.out + [] == s.out;
    } else {
      var head, rest := Record(ms[0], want), Recorded(ms[1..], want);
      TakenOne(s, want, ms[0]);
      MarkedSteps(ms, want);
      Taken(TakeMsg(s, want, ms[0]), want, ms[1..]);
      assert s.out + head + rest == s.out + (head + rest);
    }
  }

  lemma {:induction false} ErrorsRecorded(ms: seq<Msg>, want: U32)
    ensures HasError(Recorded(ms, want)) <==> exists m <- ms :: m.kind == NLMSG_ERROR
  {
    if ms != [] {
      var head := Record(ms[0], want);
      ErrorsRecorded(ms[1..], want);
      ErrorIn(head, Recorded(ms[1..], want));
      if ms[0].kind == NLMSG_ERROR { assert head[0].0 == NLMSG_ERROR; }
      assert forall m <- ms :: m == ms[0] || m in ms[1..];
    }
  }

  lemma ErrorIn(a: seq<(U16, seq<Byte>)>, b: seq<(U16, seq<Byte>)>)
    ensures HasError(a + b) <==> HasError(a) || HasError(b)
  {
    if HasError(a) {
      var i :| 0 <= i < |a| && a[i].0 == NLMSG_ERROR;
      assert (a + b)[i].0 == NLMSG_ERROR;
    }
    if HasError(b) {
      var i :| 0 <= i < |b| && b[i].0 == NLMSG_ERROR;
      assert (a + b)[|a| + i].0 == NLMSG_ERROR;
    }
  }

  lemma {:induction false} RecordedConcat(a: seq<Msg>, b: seq<Msg>, want: U32)
    ensures Recorded(a + b, want) == Recorded(a, want) + Recorded(b, want)
  {
    if a == [] {
      assert a + b == b;
    } else {
      assert (a + b)[1..] == a[1..] + b && (a + b)[0] == a[0];
      RecordedConcat(a[1..], b, want);
      var head := Record(a[0], want);
      assert head + (Recorded(a[1..], want) + Recorded(b, want)) == head + Recorded(a[1..], want) + Recorded(b, want);
    }
  }

  /** A datagram ends the exchange if and only if something in it is not quiet. */
  lemma EndsExactly(g: seq<Msg>, want: U32)
    ensures Marked(g, want) || HasError(Recorded(g, want)) <==> !Quiet(g, want)
  {
    ErrorsRecorded(g, want);
    if m :| m in g && !Foreign(m, want) && !Part(m, want) {
      assert m.kind == NLMSG_ERROR || Marks(m, want);
    }
  }

  /** A datagram the receiver gets whole: some messages, within its buffer. */
  predicate Delivered(g: seq<Msg>) {
    g != [] && Sendable(g) && |Wire(g, [])| <= RECV_BUFFER
  }

  /** The datagrams a list of message groups travels in, before `later` ones. */
  function Datagrams(groups: seq<seq<Msg>>, later: seq<seq<Byte>>): seq<seq<Byte>>
    requires forall g <- groups :: Delivered(g)
  {
    if groups == [] then later
    else
      assert Delivered(groups[0]);
      [Wire(groups[0], [])] + Datagrams(groups[1..], later)
  }

  /** The messages of the groups, before those of `last`. */
  function Flatten(groups: seq<seq<Msg>>, last: seq<Msg>): seq<Msg> {
    if groups == [] then last else groups[0] + Flatten(groups[1..], last)
  }

  lemma WireNonEmpty(g: seq<Msg>, rest: seq<Byte>)
    requires g != [] && Sendable(g)
    ensures |Wire(g, rest)| >= HEADER
  {
    assert g[0] in g;
  }

  /** One datagram of whole messages, read after `out`. */
  lemma OneDatagram(g: seq<Msg>, later: seq<seq<Byte>>, want: U32, out: seq<(U16, seq<Byte>)>)
    requires Delivered(g) && !HasError(out)
    ensures ReadUntilDone([Wire(g, [])] + later, want, out)
            == if Quiet(g, want) then ReadUntilDone(later, want, out + Recorded(g, want))
               else Replies(out + Recorded(g, want))
  {
    ScanWire(g, [], want, Scan(out, false));
    Taken(Scan(out, false), want, g);
    ErrorIn(out, Recorded(g, want));
    EndsExactly(g, want);
    WireNonEmpty(g, []);
    assert ([Wire(g, [])] + later)[1..] == later;
  }

  lemma {:induction false} ReadAll(
    groups: seq<seq<Msg>>, last: seq<Msg>, later: seq<seq<Byte>>, want: U32, out: seq<(U16, seq<Byte>)>)
    requires (forall g <- groups :: Delivered(g)) && (forall g <- groups :: Quiet(g, want)) && !HasError(out)
    requires Delivered(last) && !Quiet(last, want)
    ensures ReadUntilDone(Datagrams(groups, [Wire(last, [])] + later), want, out)
            == Replies(out + Recorded(Flatten(groups, last), want))
    decreases |groups|
  {
    if groups == [] {
      OneDatagram(last, later, want, out);
    } else {
      var g := groups[0];
      assert Delivered(g) && Quiet(g, want);
      OneDatagram(g, Datagrams(groups[1..], [Wire(last, [])] + later), want, out);
      EndsExactly(g, want);
      ErrorIn(out, Recorded(g, want));
      ReadAll(groups[1..], last, later, want, out + Recorded(g, want));
      RecordedJoin(out, g, Flatten(groups[1..], last), want);
    }
  }

  lemma RecordedJoin(out: seq<(U16, seq<Byte>)>, a: seq<Msg>, b: seq<Msg>, want: U32)
    ensures out + Recorded(a, want) + Recorded(b, want) == out + Recorded(a + b, want)
  {
    RecordedConcat(a, b, want);
    assert out + Recorded(a, want) + Recorded(b, want) == out + (Recorded(a, want) + Recorded(b, want));
  }

  lemma {:induction false} CollectRecorded(ms: seq<Msg>, want: U32)
    ensures Collect(Recorded(ms, want)) == Answer(ms, want)
  {
    if ms != [] {
      var m := ms[0];
      CollectRecorded(ms[1..], want);
      AnswerSteps(ms, want);
      var rest := Recorded(ms[1..], want);
      assert [] + rest == rest;
      assert ([(m.kind, m.body)] + rest)[1..] == rest;
    }
  }

  lemma AnswerSteps(ms: seq<Msg>, want: U32)
    requires ms != []
    ensures Answer(ms[1..], want) == Refused || Refuses(ms[0]) ==> Answer(ms, want) == Refused
    ensures Answer(ms[1..], want) != Refused && !Refuses(ms[0])
            ==> Answer(ms, want) == Bodies((if Answers(ms[0], want) then [ms[0].body] else [])
                                           + PartBodies(ms[1..], want))
  {
    assert forall m <- ms :: m == ms[0] || m in ms[1..];
  }

  /**
   * A dump of datagrams of whole messages, the last one the first that is not quiet, returns
   * exactly the bodies carrying its sequence number, in order, or is refused by an error among
   * them: whatever the cut into datagrams, whatever is interleaved, whatever comes later. The
   * whole last datagram counts, also behind the message that ends the exchange.
   */
  lemma DumpIsExact(groups: seq<seq<Msg>>, last: seq<Msg>, later: seq<seq<Byte>>, want: U32)
    requires (forall g <- groups :: Delivered(g)) && (forall g <- groups :: Quiet(g, want))
    requires Delivered(last) && !Quiet(last, want)
    ensures Dump(Datagrams(groups, [Wire(last, [])] + later), want) == Answer(Flatten(groups, last), want)
  {
    ReadAll(groups, last, later, want, []);
    CollectRecorded(Flatten(groups, last), want);
    var out := Recorded(Flatten(groups, last), want);
    assert [] + out == out;
  }

  /** Without such a datagram the receive fails, however much has arrived. */
  lemma {:induction false} QuietNeverEnds(groups: seq<seq<Msg>>, want: U32, out: seq<(U16, seq<Byte>)>)
    requires (forall g <- groups :: Delivered(g)) && (forall g <- groups :: Quiet(g, want)) && !HasError(out)
    ensures ReadUntilDone(Datagrams(groups, []), want, out) == RecvFailed
    decreases |groups|
  {
    if groups != [] {
      var g := groups[0];
      assert Delivered(g) && Quiet(g, want);
      OneDatagram(g, Datagrams(groups[1..], []), want, out);
      EndsExactly(g, want);
      ErrorIn(out, Recorded(g, want));
      QuietNeverEnds(groups[1..], want, out + Recorded(g, want));
    }
  }

  /** Behind DONE only what neither answers nor refuses may stand in its datagram. */
  predicate Silent(m: Msg, want: U32) { !Answers(m, want) && !Refuses(m) }

  /** The answer stops at DONE if and only if nothing behind it in its datagram answers or refuses. */
  lemma StopsAtDoneExactly(
    groups: seq<seq<Msg>>, a: seq<Msg>, done: Msg, b: seq<Msg>, later: seq<seq<Byte>>, want: U32)
    requires (forall g <- groups :: Delivered(g)) && (forall g <- groups :: Quiet(g, want))
    requires Delivered(a + [done] + b) && Quiet(a, want) && done.kind == NLMSG_DONE && done.seqNo == want
    ensures Dump(Datagrams(groups, [Wire(a + [done] + b, [])] + later), want)
            == Bodies(PartBodies(Flatten(groups, a), want))
            <==> forall m <- b :: Silent(m, want)
  {
    DoneIsNotQuiet(a, done, b, want);
    DumpIsExact(groups, a + [done] + b, later, want);
    LastFlattened(groups, a, done, b);
    QuietFlattened(groups, a, want);
    AnswerBehind(Flatten(groups, a), done, b, want);
  }

  lemma DoneIsNotQuiet(a: seq<Msg>, done: Msg, b: seq<Msg>, want: U32)
    requires done.kind == NLMSG_DONE && done.seqNo == want
    ensures !Quiet(a + [done] + b, want)
  {
    assert done in a + [done] + b;
  }

  lemma LastFlattened(groups: seq<seq<Msg>>, a: seq<Msg>, done: Msg, b: seq<Msg>)
    ensures Flatten(groups, a + [done] + b) == Flatten(groups, a) + ([done] + b)
  {
    assert a + [done] + b == a + ([done] + b);
    FlattenEnds(groups, a, [done] + b);
  }

  lemma AnswerBehind(front: seq<Msg>, done: Msg, b: seq<Msg>, want: U32)
    requires Quiet(front, want) && done.kind == NLMSG_DONE
    ensures Answer(front + ([done] + b), want) == Bodies(PartBodies(front, want)) <==> forall m <- b :: Silent(m, want)
  {
    RefusedBehind(front, done, b, want);
    BodiesConcat(front, [done] + b, want);
    assert PartBodies([done] + b, want) == PartBodies(b, want) by { assert ([done] + b)[1..] == b; }
    NoBodiesExactly(b, want);
    NothingAdded(PartBodies(front, want), PartBodies(b, want));
  }

  lemma NothingAdded<T>(a: seq<T>, b: seq<T>)
    ensures a + b == a <==> b == []
  {
    assert |a + b| == |a| + |b|;
  }

  lemma RefusedBehind(front: seq<Msg>, done: Msg, b: seq<Msg>, want: U32)
    requires Quiet(front, want) && done.kind == NLMSG_DONE
    ensures (exists m <- front + ([done] + b) :: Refuses(m)) <==> exists m <- b :: Refuses(m)
  {
    assert forall m <- front + ([done] + b) :: m in front || m == done || m in b;
    assert forall m <- front :: !Refuses(m);
    assert forall m <- b :: m in front + ([done] + b);
  }

  lemma {:induction false} NoBodiesExactly(ms: seq<Msg>, want: U32)
    ensures PartBodies(ms, want) == [] <==> forall m <- ms :: !Answers(m, want)
  {
    if ms != [] {
      NoBodiesExactly(ms[1..], want);
      assert forall m <- ms :: m == ms[0] || m in ms[1..];
    }
  }

  lemma {:induction false} BodiesConcat(a: seq<Msg>, b: seq<Msg>, want: U32)
    ensures PartBodies(a + b, want) == PartBodies(a, want) + PartBodies(b, want)
  {
    if a == [] {
      assert a + b == b;
    } else {
      assert (a + b)[1..] == a[1..] + b && (a + b)[0] == a[0];
      BodiesConcat(a[1..], b, want);
      var head := if Answers(a[0], want) then [a[0].body] else [];
      assert head + (PartBodies(a[1..], want) + PartBodies(b, want))
          == head + PartBodies(a[1..], want) + PartBodies(b, want);
    }
  }

  lemma {:induction false} FlattenEnds(groups: seq<seq<Msg>>, a: seq<Msg>, b: seq<Msg>)
    ensures Flatten(groups, a + b) == Flatten(groups, a) + b
  {
    if groups != [] {
      FlattenEnds(groups[1..], a, b);
      assert groups[0] + (Flatten(groups[1..], a) + b) == groups[0] + Flatten(groups[1..], a) + b;
    }
  }

  lemma {:induction false} QuietFlattened(groups: seq<seq<Msg>>, a: seq<Msg>, want: U32)
    requires (forall g <- groups :: Quiet(g, want)) && Quiet(a, want)
    ensures Quiet(Flatten(groups, a), want)
  {
    if groups != [] {
      assert Quiet(groups[0], want);
      QuietFlattened(groups[1..], a, want);
    }
  }

  // ---- When the unchecked slice goes out of bounds ----------------------------------------

  /** A message stands at the offset: a header, and a length it can have. */
  predicate Stands(b: seq<Byte>, at: nat)
    requires at <= |b|
  {
    at + HEADER <= |b| && HEADER <= FromLe32(b[at..at + 4]) <= |b| - at
  }

  /** Its padding runs past the end. */
  predicate Overhangs(b: seq<Byte>, at: nat)
    requires at <= |b|
  {
    Stands(b, at) && at + Align(FromLe32(b[at..at + 4])) > |b|
  }

  /** The offsets a walk from message to aligned message visits. */
  function Offsets(b: seq<Byte>, at: nat): (r: seq<nat>)
    requires at <= |b|
    ensures forall k <- r :: at <= k <= |b|
    decreases |b| - at
  {
    if Stands(b, at) && !Overhangs(b, at) then [at] + Offsets(b, at + Align(FromLe32(b[at..at + 4]))) else [at]
  }

  predicate Meets(b: seq<Byte>, at: nat)
    requires at <= |b|
  {
    exists k <- Offsets(b, at) :: Overhangs(b, k)
  }

  lemma MeetsSteps(b: seq<Byte>, at: nat)
    requires at <= |b|
    ensures !Stands(b, at) ==> !Meets(b, at)
    ensures Overhangs(b, at) ==> Meets(b, at)
    ensures Stands(b, at) && !Overhangs(b, at) ==> (Meets(b, at) <==> Meets(b, at + Align(FromLe32(b[at..at + 4]))))
  {
    assert Offsets(b, at)[0] == at;
    if Stands(b, at) && !Overhangs(b, at) {
      var more := Offsets(b, at + Align(FromLe32(b[at..at + 4])));
      assert Offsets(b, at) == [at] + more;
      assert forall k <- more :: k in [at] + more;
    }
  }

  /** The scan takes the message that stands at the offset and goes on at the next one. */
  lemma ScanMovesOn(b: seq<Byte>, at: nat, want: U32, s: Scan) returns (s1: Scan)
    requires at <= |b| && Stands(b, at) && !Overhangs(b, at) && s.Scan?
    ensures s1.Scan?
    ensures ScanDatagram(b[at..], want, s) == ScanDatagram(b[at + Align(FromLe32(b[at..at + 4]))..], want, s1)
  {
    var d := b[at..];
    assert d[..4] == b[at..at + 4];
    var len := FromLe32(d[..4]);
    assert d[Align(len)..] == b[at + Align(len)..];
    s1 := Take(s, want, FromLe16(d[4..6]), FromLe16(d[6..8]), FromLe32(d[8..12]), d[HEADER..len]);
  }

  lemma ScanHalts(b: seq<Byte>, at: nat, want: U32, s: Scan)
    requires at <= |b| && s.Scan?
    ensures Overhangs(b, at) ==> ScanDatagram(b[at..], want, s).Panic?
    ensures !Stands(b, at) ==> ScanDatagram(b[at..], want, s) == s
  {
    var d := b[at..];
    if |d| >= HEADER { assert d[..4] == b[at..at + 4]; }
  }

  lemma {:induction false} PanicsFrom(b: seq<Byte>, at: nat, want: U32, s: Scan)
    requires at <= |b| && s.Scan?
    ensures ScanDatagram(b[at..], want, s).Panic? <==> Meets(b, at)
    decreases |b| - at
  {
    MeetsSteps(b, at);
    if Stands(b, at) && !Overhangs(b, at) {
      var s1 := ScanMovesOn(b, at, want, s);
      PanicsFrom(b, at + Align(FromLe32(b[at..at + 4])), want, s1);
    } else {
      ScanHalts(b, at, want, s);
    }
  }

  /** For every datagram: the scan panics if and only if its walk meets a message whose padding overhangs. */
  lemma PanicsExactly(b: seq<Byte>, want: U32, s: Scan)
    requires s.Scan?
    ensures ScanDatagram(b, want, s).Panic? <==> exists k <- Offsets(b, 0) :: Overhangs(b, k)
  {
    assert b[0..] == b;
    PanicsFrom(b, 0, want, s);
  }

  /** A datagram whose length is a multiple of four never does, whatever it contains. */
  lemma AlignedNeverPanics(b: seq<Byte>, want: U32, s: Scan)
    requires |b| % 4 == 0 && s.Scan?
    ensures ScanDatagram(b, want, s).Scan?
  {
    PanicsExactly(b, want, s);
    OffsetsAreAligned(b, 0);
    forall k | k in Offsets(b, 0) ensures !Overhangs(b, k) {
      if Stands(b, k) { AlignedFits(|b|, k, FromLe32(b[k..k + 4])); }
    }
  }

  lemma {:induction false} OffsetsAreAligned(b: seq<Byte>, at: nat)
    requires at <= |b| && at % 4 == 0
    ensures forall k <- Offsets(b, at) :: k % 4 == 0
    decreases |b| - at
  {
    if Stands(b, at) && !Overhangs(b, at) { OffsetsAreAligned(b, at + Align(FromLe32(b[at..at + 4]))); }
  }

  lemma AlignedFits(whole: nat, at: nat, len: nat)
    requires whole % 4 == 0 && at % 4 == 0 && at + len <= whole
    ensures at + Align(len) <= whole
  {
    var w, a := whole / 4, at / 4;
    assert len <= 4 * (w - a);
  }

  /** Messages followed by a last one with some padding, any bytes: out of bounds exactly when it needed more. */
  lemma LastPaddingDecides(ms: seq<Msg>, m: Msg, pad: seq<Byte>, want: U32, s: Scan)
    requires Sendable(ms) && HEADER + |m.body| < 0x1_0000_0000 && |pad| < HEADER && s.Scan?
    ensures ScanDatagram(Wire(ms, Header(m) + (m.body + pad)), want, s).Panic?
            <==> HEADER + |m.body| + |pad| < Align(HEADER + |m.body|)
  {
    ScanWire(ms, Header(m) + (m.body + pad), want, s);
    LastScan(m, pad, want, TakeAll(s, want, ms));
  }

  lemma LastScan(m: Msg, pad: seq<Byte>, want: U32, s: Scan)
    requires HEADER + |m.body| < 0x1_0000_0000 && |pad| < HEADER && s.Scan?
    ensures ScanDatagram(Header(m) + (m.body + pad), want, s).Panic?
            <==> HEADER + |m.body| + |pad| < Align(HEADER + |m.body|)
  {
    var b := Header(m) + (m.body + pad);
    var len := HEADER + |m.body|;
    HeaderFields(m, m.body + pad);
    assert FromLe32(b[0..4]) == len by { assert b[..4] == b[0..4]; }
    PanicsExactly(b, want, s);
    if !Overhangs(b, 0) {
      assert !Stands(b, Align(len));
      assert Offsets(b, Align(len)) == [Align(len)];
      assert Offsets(b, 0) == [0, Align(len)];
    } else {
      assert Offsets(b, 0) == [0];
    }
  }
}
