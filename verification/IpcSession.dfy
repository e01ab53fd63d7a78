/**
 * One connection: a client that sends a request and waits, and a server whose event thread and
 * request loop share the socket under one mutex, with every interleaving of their partial writes
 * and reads through socket buffers of any size.
 */
module IpcSession {
  import opened Wrappers
  import opened Bytes
  import opened Ipc

  datatype Holder = Free | EventThread | RequestLoop

  datatype Loop = Listening | Answering(text: string) | Writing | Ended

  datatype State = State(
    // the client: what it asked, what of that it still has to write, what it was told
    asked: seq<Request>, outbox: seq<Byte>, results: seq<string>,
    // the bytes it wrote that no request read has consumed, and how many of them the loop has taken
    up: seq<Byte>, gathered: nat,
    // the request loop: what it read, what the manager answered
    heard: seq<Request>, answers: seq<string>, loop: Loop,
    // the event thread: what the manager broadcast, what of that is still queued
    emitted: seq<string>, queue: seq<string>, relaying: bool,
    // the socket's write half: who has the lock, the message being written, its unwritten bytes
    holder: Holder, current: ServerMessage, pending: seq<Byte>,
    // everything ever written, the part no message read has consumed, how much of that the client has
    // taken, and the messages read and not yet read
    wire: seq<Byte>, unread: seq<Byte>, fetched: nat, read: seq<ServerMessage>, inbox: seq<ServerMessage>)

  function Initial(): State {
    State([], [], [], [], 0, [], [], Listening, [], [], true, Free, Event(""), [], [], [], 0, [], [])
  }

  datatype Step =
    | Ask(req: Request)          // the client starts a request that fits the cap
    | Push(n: nat)               // the client writes some bytes of it
    | Gather(n: nat)             // the loop takes some bytes, no more than its read asks for
    | Hear(text: string)         // the loop has a request; the manager answers
    | LockToAnswer               // the loop takes the lock and starts its frame, or stops if it is too large
    | Emit(text: string)         // the manager broadcasts an event
    | LockToRelay                // the event thread likewise with the next event
    | Write(n: nat)              // the lock holder writes some bytes
    | Unlock                     // the lock holder has written all and lets go
    | Fetch(n: nat)              // the waiting client takes some bytes, no more than its read asks for
    | Pull                       // the waiting client has one message

  predicate Waiting(s: State) { |s.asked| > |s.results| }

  predicate Enabled(c: Codec, s: State, t: Step) {
    match t
    case Ask(req) => !Waiting(s) && |c.encodeRequest(req)| <= MAX_MESSAGE_LEN
    case Push(n) => 0 < n <= |s.outbox|
    case Gather(n) =>
      s.loop.Listening? && s.gathered + n <= |s.up| && 0 < n <= Wants(s.up[..s.gathered])
    case Hear(_) => s.loop.Listening? && s.gathered <= |s.up| && ReadFrame(s.up[..s.gathered]).Message?
    case LockToAnswer => s.loop.Answering? && s.holder == Free
    case Emit(_) => true
    case LockToRelay => s.relaying && s.queue != [] && s.holder == Free
    case Write(n) => 0 < n <= |s.pending|
    case Unlock => s.holder != Free && s.pending == []
    case Fetch(n) =>
      Waiting(s) && s.outbox == [] && s.fetched + n <= |s.unread| && 0 < n <= Wants(s.unread[..s.fetched])
    case Pull =>
      Waiting(s) && s.outbox == [] && s.fetched <= |s.unread| && ReadFrame(s.unread[..s.fetched]).Message?
  }

  /** The buffers of the two directions, in bytes. */
  datatype Buffers = Buffers(up: nat, down: nat)

  /** A write goes no further than the buffer has room. */
  predicate Room(b: Buffers, s: State, t: Step) {
    match t
    case Push(n) => |s.up| - s.gathered + n <= b.up
    case Write(n) => |s.unread| - s.fetched + n <= b.down
    case _ => true
  }

  function Started(c: Codec, s: State, who: Holder, m: ServerMessage): State
    requires Fits(c, m)
  {
    s.(holder := who, current := m, pending := Frame(c.encode(m)))
  }

  function Written(s: State, n: nat): State
    requires 0 < n <= |s.pending|
  {
    s.(wire := s.wire + s.pending[..n], unread := s.unread + s.pending[..n], pending := s.pending[n..],
       inbox := if n == |s.pending| then s.inbox + [s.current] else s.inbox)
  }

  /** A request the loop cannot decode ends it; so does an answer over the cap. */
  function Heard(c: Codec, s: State, text: string): State
    requires s.gathered <= |s.up| && ReadFrame(s.up[..s.gathered]).Message?
  {
    var s' := s.(up := s.up[s.gathered..], gathered := 0);
    match c.decodeRequest(ReadFrame(s.up[..s.gathered]).body)
    case Some(req) => s'.(heard := s.heard + [req], answers := s.answers + [text], loop := Answering(text))
    case None => s'.(loop := Ended)
  }

  /** A response ends the wait; an event is dropped; anything else would be an error. */
  function Pulled(c: Codec, s: State): State
    requires s.fetched <= |s.unread| && ReadFrame(s.unread[..s.fetched]).Message?
  {
    var s' := s.(unread := s.unread[s.fetched..], fetched := 0,
                 read := s.read + s.inbox[..if s.inbox == [] then 0 else 1],
                 inbox := if s.inbox == [] then [] else s.inbox[1..]);
    match c.decode(ReadFrame(s.unread[..s.fetched]).body)
    case Some(Response(text)) => s'.(results := s.results + [text])
    case _ => s'
  }

  /** The readers have taken so much of what is before them. */
  function Taken(s: State, gathered: nat, fetched: nat): State {
    s.(gathered := gathered, fetched := fetched)
  }

  function Next(c: Codec, s: State, t: Step): State
    requires Enabled(c, s, t)
  {
    match t
    case Ask(req) => s.(asked := s.asked + [req], outbox := Frame(c.encodeRequest(req)))
    case Push(n) => s.(up := s.up + s.outbox[..n], outbox := s.outbox[n..])
    case Gather(n) => Taken(s, s.gathered + n, s.fetched)
    case Hear(text) => Heard(c, s, text)
    case LockToAnswer =>
      var m := Response(s.loop.text);
      if Fits(c, m) then Started(c, s, RequestLoop, m).(loop := Writing) else s.(loop := Ended)
    case Emit(text) => s.(emitted := s.emitted + [text], queue := s.queue + [text])
    case LockToRelay =>
      var m := Event(s.queue[0]);
      var s' := s.(queue := s.queue[1..]);
      if Fits(c, m) then Started(c, s', EventThread, m) else s'.(relaying := false)
    case Write(n) => Written(s, n)
    case Unlock => s.(holder := Free, loop := if s.holder == RequestLoop then Listening else s.loop)
    case Fetch(n) => Taken(s, s.gathered, s.fetched + n)
    case Pull => Pulled(c, s)
  }

  // ---- The invariant ---------------------------------------------------------------------

  function Responses(ms: seq<ServerMessage>): seq<string> {
    if ms == [] then []
    else (if ms[0].Response? then [ms[0].text] else []) + Responses(ms[1..])
  }

  function Events(ms: seq<ServerMessage>): seq<string> {
    if ms == [] then []
    else (if ms[0].Event? then [ms[0].text] else []) + Events(ms[1..])
  }

  /** The frame under way, if one is. */
  function Held(c: Codec, s: State): seq<Byte>
    requires s.pending != [] ==> Fits(c, s.current)
  {
    if s.pending == [] then [] else Frame(c.encode(s.current))
  }

  /** The socket carries whole frames, and after them at most the first part of the lock holder's. */
  ghost predicate WholeFrames(c: Codec, s: State) {
    && (s.pending != [] ==> s.holder != Free && Fits(c, s.current))
    && |s.pending| <= |Held(c, s)|
    && AllFit(c, s.read) && AllFit(c, s.inbox) && AllFit(c, s.read + s.inbox)
    && s.wire + s.pending == Frames(c, s.read + s.inbox, Held(c, s))
    && s.unread + s.pending == Frames(c, s.inbox, Held(c, s))
  }

  /** What the client asked reaches the loop in order; at most one request is under way. */
  ghost predicate RequestsInOrder(c: Codec, s: State) {
    && s.heard <= s.asked && |s.asked| <= |s.heard| + 1
    && (|s.asked| == |s.heard| ==> s.up == [] && s.outbox == [])
    && (|s.asked| > |s.heard| ==>
          var b := c.encodeRequest(s.asked[|s.heard|]);
          |b| <= MAX_MESSAGE_LEN && s.up + s.outbox == Frame(b))
  }

  /** The response the loop has but has not finished writing. */
  function InHand(s: State): seq<string> {
    if s.loop.Answering? then [s.loop.text]
    else if s.holder == RequestLoop && s.pending != [] && s.current.Response? then [s.current.text] else []
  }

  ghost predicate AnswersInOrder(s: State) {
    && |s.answers| == |s.heard|
    && (s.loop.Writing? <==> s.holder == RequestLoop)
    && (s.holder == RequestLoop ==> s.current.Response?) && (s.holder == EventThread ==> s.current.Event?)
    && (!s.loop.Ended? ==> Responses(s.read) + Responses(s.inbox) + InHand(s) == s.answers)
    && (s.loop.Ended? ==> Responses(s.read) + Responses(s.inbox) <= s.answers)
  }

  function Relayed(s: State): seq<string> {
    if s.holder == EventThread && s.pending != [] && s.current.Event? then [s.current.text] else []
  }

  ghost predicate EventsInOrder(s: State) {
    && (s.relaying ==> Events(s.read) + Events(s.inbox) + Relayed(s) + s.queue == s.emitted)
    && Events(s.read) + Events(s.inbox) + Relayed(s) <= s.emitted
    && (!s.relaying ==> s.holder != EventThread)
  }

  ghost predicate ClientInStep(s: State) {
    s.results == Responses(s.read) && |s.asked| <= |s.results| + 1
  }

  /** The loop ends only over an answer too large to send. */
  ghost predicate EndsOverTheCap(c: Codec, s: State) {
    s.loop.Ended? ==> s.answers != [] && !Fits(c, Response(s.answers[|s.answers| - 1]))
  }

  /** Neither reader has taken bytes past the message it is reading. */
  ghost predicate ReadersInStep(s: State) {
    && s.gathered <= |s.up| && WithinOne(s.up[..s.gathered])
    && s.fetched <= |s.unread| && WithinOne(s.unread[..s.fetched])
  }

  ghost predicate Inv(c: Codec, s: State) {
    && ReadersInStep(s) && WholeFrames(c, s) && RequestsInOrder(c, s)
    && AnswersInOrder(s) && EventsInOrder(s) && ClientInStep(s) && EndsOverTheCap(c, s)
  }

  // ---- Lists of messages --------------------------------------------------------------------

  lemma {:induction false} FramesSnoc(c: Codec, ms: seq<ServerMessage>, m: ServerMessage)
    requires AllFit(c, ms) && Fits(c, m)
    ensures AllFit(c, ms + [m]) && Frames(c, ms + [m], []) == Frames(c, ms, Frame(c.encode(m)))
  {
    if ms == [] {
      assert ms + [m] == [m];
      assert Frame(c.encode(m)) + [] == Frame(c.encode(m));
    } else {
      assert (ms + [m])[1..] == ms[1..] + [m];
      FramesSnoc(c, ms[1..], m);
    }
  }

  lemma {:induction false} FramesCover(c: Codec, ms: seq<ServerMessage>, rest: seq<Byte>)
    requires AllFit(c, ms)
    ensures |Frames(c, ms, rest)| >= |rest|
  {
    if ms != [] { FramesCover(c, ms[1..], rest); }
  }

  lemma {:induction false} ListsSnoc(ms: seq<ServerMessage>, m: ServerMessage)
    ensures Responses(ms + [m]) == Responses(ms) + if m.Response? then [m.text] else []
    ensures Events(ms + [m]) == Events(ms) + if m.Event? then [m.text] else []
  {
    if ms == [] {
      assert ms + [m] == [m];
    } else {
      assert (ms + [m])[1..] == ms[1..] + [m];
      ListsSnoc(ms[1..], m);
    }
  }

  // ---- Writing ------------------------------------------------------------------------------

  lemma StartKeepsFrames(c: Codec, s: State, who: Holder, m: ServerMessage)
    requires WholeFrames(c, s) && s.holder == Free && who != Free && Fits(c, m)
    ensures WholeFrames(c, Started(c, s, who, m))
  {
    assert s.pending == [];
    var f := Frame(c.encode(m));
    AppendRest(c, s.read + s.inbox, f);
    AppendRest(c, s.inbox, f);
    assert s.wire + [] == s.wire && s.unread + [] == s.unread;
  }

  lemma {:induction false} AppendRest(c: Codec, ms: seq<ServerMessage>, rest: seq<Byte>)
    requires AllFit(c, ms)
    ensures Frames(c, ms, rest) == Frames(c, ms, []) + rest
  {
    if ms == [] {
      assert [] + rest == rest;
    } else {
      AppendRest(c, ms[1..], rest);
      var f := Frame(c.encode(ms[0]));
      assert f + (Frames(c, ms[1..], []) + rest) == f + Frames(c, ms[1..], []) + rest;
    }
  }

  lemma Shift(a: seq<Byte>, p: seq<Byte>, n: nat)
    requires n <= |p|
    ensures (a + p[..n]) + p[n..] == a + p
  {
  }

  lemma WriteKeepsFrames(c: Codec, s: State, n: nat)
    requires WholeFrames(c, s) && 0 < n <= |s.pending|
    ensures WholeFrames(c, Written(s, n))
  {
    Shift(s.wire, s.pending, n);
    Shift(s.unread, s.pending, n);
    if n == |s.pending| {
      FramesSnoc(c, s.read + s.inbox, s.current);
      FramesSnoc(c, s.inbox, s.current);
      assert s.read + (s.inbox + [s.current]) == (s.read + s.inbox) + [s.current];
    }
  }

  // ---- Reading ------------------------------------------------------------------------------

  lemma FrontFrame(unread: seq<Byte>, pending: seq<Byte>, frame: seq<Byte>, more: seq<Byte>)
    requires unread + pending == frame + more && |pending| <= |more|
    ensures |frame| <= |unread| && unread == frame + unread[|frame|..] && unread[|frame|..] + pending == more
  {
    var whole := unread + pending;
    assert whole[..|frame|] == frame && whole[|frame|..] == more;
    assert unread[..|frame|] == whole[..|frame|];
    assert unread[|frame|..] + pending == whole[|frame|..];
  }

  /** What the client finds on the socket: the next whole message, or nothing yet; never a broken one. */
  lemma SocketIsClean(c: Codec, s: State)
    requires WholeFrames(c, s)
    ensures s.inbox == [] ==> ReadFrame(s.unread) == Short
    ensures s.inbox != [] ==>
              && ReadFrame(s.unread).Message? && ReadFrame(s.unread).body == c.encode(s.inbox[0])
              && ReadFrame(s.unread).rest + s.pending == Frames(c, s.inbox[1..], Held(c, s))
  {
    if s.inbox == [] {
      var k := |s.unread|;
      assert Held(c, s)[..k] == s.unread by { assert (s.unread + s.pending)[..k] == s.unread; }
      if s.pending != [] { CutFrameIsShort(c.encode(s.current), k); }
    } else {
      var b: Body := c.encode(s.inbox[0]);
      var more := Frames(c, s.inbox[1..], Held(c, s));
      FramesCover(c, s.inbox[1..], Held(c, s));
      FrontFrame(s.unread, s.pending, Frame(b), more);
      FrameRoundTrip(b, s.unread[|Frame(b)|..]);
    }
  }

  lemma PullTakes(c: Codec, s: State)
    requires Lawful(c) && ReadersInStep(s) && WholeFrames(c, s) && ReadFrame(s.unread[..s.fetched]).Message?
    ensures s.inbox != []
    ensures var s' := Pulled(c, s);
            && s'.inbox == s.inbox[1..] && s'.read == s.read + [s.inbox[0]]
            && s'.results == s.results + (if s.inbox[0].Response? then [s.inbox[0].text] else [])
            && s'.unread == s.unread[s.fetched..] && s'.fetched == 0
            && s'.unread + s.pending == Frames(c, s.inbox[1..], Held(c, s))
            && s' == s.(unread := s'.unread, fetched := 0, read := s'.read, inbox := s'.inbox, results := s'.results)
  {
    TakenWhole(s.unread, s.fetched);
    SocketIsClean(c, s);
    assert c.decode(c.encode(s.inbox[0])) == Some(s.inbox[0]);
    assert s.inbox[..1] == [s.inbox[0]];
  }

  lemma PullKeepsFrames(c: Codec, s: State)
    requires Lawful(c) && ReadersInStep(s) && WholeFrames(c, s) && ReadFrame(s.unread[..s.fetched]).Message?
    ensures WholeFrames(c, Pulled(c, s))
  {
    PullTakes(c, s);
    var s' := Pulled(c, s);
    Regroup(s.read, s.inbox);
    assert s'.read + s'.inbox == s.read + s.inbox;
    assert AllFit(c, s.read + s.inbox);
    assert forall i :: 0 <= i < |s'.read| ==> s'.read[i] == (s.read + s.inbox)[i];
    assert forall i :: 0 <= i < |s'.inbox| ==> s'.inbox[i] == s.inbox[i + 1];
  }

  lemma Regroup<T>(a: seq<T>, b: seq<T>)
    requires b != []
    ensures (a + [b[0]]) + b[1..] == a + b
  {
  }

  // ---- Every step keeps the invariant ----------------------------------------------------------

  /** What stands before the loop is the front of the outstanding request. */
  lemma UpIsTheRequest(c: Codec, s: State)
    requires RequestsInOrder(c, s) && |s.asked| > |s.heard|
    ensures s.outbox != [] ==> ReadFrame(s.up) == Short
    ensures s.outbox == [] ==> ReadFrame(s.up) == Message(c.encodeRequest(s.asked[|s.heard|]), [])
  {
    var b: Body := c.encodeRequest(s.asked[|s.heard|]);
    var k := |s.up|;
    assert Frame(b)[..k] == s.up by { assert (s.up + s.outbox)[..k] == s.up; }
    if s.outbox != [] {
      CutFrameIsShort(b, k);
    } else {
      assert s.up == Frame(b) + [];
      FrameRoundTrip(b, []);
    }
  }

  /** What the loop reads is the client's outstanding request, whole. */
  lemma LoopHearsTheRequest(c: Codec, s: State, text: string)
    requires Lawful(c) && ReadersInStep(s) && RequestsInOrder(c, s) && ReadFrame(s.up[..s.gathered]).Message?
    ensures |s.asked| == |s.heard| + 1 && s.outbox == []
    ensures Heard(c, s, text)
            == s.(up := [], gathered := 0, heard := s.asked, answers := s.answers + [text], loop := Answering(text))
  {
    TakenWhole(s.up, s.gathered);
    UpIsTheRequest(c, s);
    var req := s.asked[|s.heard|];
    assert c.decodeRequest(c.encodeRequest(req)) == Some(req);
    assert s.heard + [req] == s.asked;
  }

  /** Only the readers' own clause speaks of what they have taken. */
  lemma TakingLeavesFrames(c: Codec, s: State, g: nat, f: nat)
    requires WholeFrames(c, s) && RequestsInOrder(c, s)
    ensures WholeFrames(c, Taken(s, g, f)) && RequestsInOrder(c, Taken(s, g, f))
  {
  }

  lemma TakingLeavesOrder(c: Codec, s: State, g: nat, f: nat)
    requires AnswersInOrder(s) && EventsInOrder(s) && ClientInStep(s) && EndsOverTheCap(c, s)
    ensures var s' := Taken(s, g, f);
            AnswersInOrder(s') && EventsInOrder(s') && ClientInStep(s') && EndsOverTheCap(c, s')
  {
  }

  lemma TakingKeeps(c: Codec, s: State, g: nat, f: nat)
    requires Inv(c, s) && ReadersInStep(Taken(s, g, f))
    ensures Inv(c, Taken(s, g, f))
  {
    TakingLeavesFrames(c, s, g, f);
    TakingLeavesOrder(c, s, g, f);
  }

  lemma TakingStays(s: State, c: Codec, t: Step)
    requires ReadersInStep(s) && Enabled(c, s, t) && (t.Gather? || t.Fetch?)
    ensures var s' := Next(c, s, t);
            ReadersInStep(s') && s' == Taken(s, s'.gathered, s'.fetched)
  {
    if t.Gather? { TakingStaysWithin(s.up, s.gathered, t.n); } else { TakingStaysWithin(s.unread, s.fetched, t.n); }
  }

  lemma TakeStepKeeps(c: Codec, s: State, s': State)
    requires Inv(c, s) && s' == Taken(s, s'.gathered, s'.fetched) && ReadersInStep(s')
    ensures Inv(c, s')
  {
    TakingKeeps(c, s, s'.gathered, s'.fetched);
  }

  /** Letting go after the last byte: nothing was in hand any more. */
  lemma UnlockKeepsOrder(s: State)
    requires AnswersInOrder(s) && EventsInOrder(s) && s.holder != Free && s.pending == []
    ensures var s' := s.(holder := Free, loop := if s.holder == RequestLoop then Listening else s.loop);
            AnswersInOrder(s') && EventsInOrder(s')
  {
    var s' := s.(holder := Free, loop := if s.holder == RequestLoop then Listening else s.loop);
    assert InHand(s') == InHand(s) && Relayed(s') == Relayed(s);
  }

  lemma UnlockKeepsFrames(c: Codec, s: State)
    requires WholeFrames(c, s) && RequestsInOrder(c, s) && s.pending == []
    ensures var s' := s.(holder := Free, loop := if s.holder == RequestLoop then Listening else s.loop);
            WholeFrames(c, s') && RequestsInOrder(c, s')
  {
  }

  lemma UnlockKeeps(c: Codec, s: State)
    requires Inv(c, s) && Enabled(c, s, Unlock)
    ensures Inv(c, Next(c, s, Unlock))
  {
    UnlockKeepsFrames(c, s);
    UnlockKeepsOrder(s);
  }

  /** More bytes behind do not change what was taken. */
  lemma TakenStays(s: seq<Byte>, more: seq<Byte>, k: nat)
    requires k <= |s|
    ensures (s + more)[..k] == s[..k]
  {
  }

  lemma AskKeeps(c: Codec, s: State, req: Request)
    requires Inv(c, s) && Enabled(c, s, Ask(req))
    ensures Inv(c, Next(c, s, Ask(req)))
  {
    IdleIsEven(s);
    var s' := Next(c, s, Ask(req));
    assert [] + Frame(c.encodeRequest(req)) == Frame(c.encodeRequest(req));
    assert RequestsInOrder(c, s');
    assert WholeFrames(c, s') && AnswersInOrder(s') && EventsInOrder(s');
  }

  lemma IdleIsEven(s: State)
    requires AnswersInOrder(s) && ClientInStep(s) && s.heard <= s.asked && !Waiting(s)
    ensures |s.results| == |s.asked| && s.heard == s.asked
  {
    assert |Responses(s.read) + Responses(s.inbox)| <= |s.answers|;
  }

  lemma PushKeeps(c: Codec, s: State, n: nat)
    requires Inv(c, s) && 0 < n <= |s.outbox|
    ensures Inv(c, Next(c, s, Push(n)))
  {
    var s' := Next(c, s, Push(n));
    Shift(s.up, s.outbox, n);
    TakenStays(s.up, s.outbox[..n], s.gathered);
    assert RequestsInOrder(c, s') && ReadersInStep(s');
    UpOnly(c, s, s');
  }

  /** The downward half does not depend on what is on its way up. */
  lemma UpOnly(c: Codec, s: State, s': State)
    requires Inv(c, s) && s' == s.(up := s'.up, outbox := s'.outbox, gathered := s'.gathered)
    requires RequestsInOrder(c, s') && ReadersInStep(s')
    ensures Inv(c, s')
  {
    assert WholeFrames(c, s');
    assert AnswersInOrder(s') && EventsInOrder(s') && ClientInStep(s') && EndsOverTheCap(c, s');
  }

  lemma HearKeeps(c: Codec, s: State, text: string)
    requires Lawful(c) && Inv(c, s) && Enabled(c, s, Hear(text))
    ensures Inv(c, Next(c, s, Hear(text)))
  {
    LoopHearsTheRequest(c, s, text);
    assert InHand(s) == [];
    assert Responses(s.read) + Responses(s.inbox) + [] == Responses(s.read) + Responses(s.inbox);
  }

  lemma LockToAnswerKeeps(c: Codec, s: State)
    requires Inv(c, s) && Enabled(c, s, LockToAnswer)
    ensures Inv(c, Next(c, s, LockToAnswer))
  {
    var m := Response(s.loop.text);
    if Fits(c, m) {
      StartKeepsFrames(c, s, RequestLoop, m);
    } else {
      var told := Responses(s.read) + Responses(s.inbox);
      assert told <= told + InHand(s);
      assert s.answers[|s.answers| - 1] == s.loop.text;
    }
  }

  lemma Assoc<T>(a: seq<T>, b: seq<T>, d: seq<T>)
    ensures a + b + d == a + (b + d)
  {
  }

  lemma RelayKeepsEvents(s: State, s': State)
    requires EventsInOrder(s) && s.relaying && s.queue != [] && s.holder == Free
    requires s'.read == s.read && s'.inbox == s.inbox && s'.emitted == s.emitted && s'.queue == s.queue[1..]
    requires if s'.relaying then Relayed(s') == [s.queue[0]] else Relayed(s') == [] && s'.holder != EventThread
    ensures EventsInOrder(s')
  {
    var before := Events(s.read) + Events(s.inbox);
    assert before + [] == before;
    Assoc(before, [s.queue[0]], s.queue[1..]);
    assert [s.queue[0]] + s.queue[1..] == s.queue;
  }

  lemma RelayKeepsAnswers(s: State, s': State)
    requires AnswersInOrder(s) && s.holder == Free && s.pending == []
    requires s'.read == s.read && s'.inbox == s.inbox && s'.answers == s.answers && s'.heard == s.heard
    requires s'.loop == s.loop && s'.holder in {Free, EventThread} && (s'.holder == EventThread ==> s'.current.Event?)
    ensures AnswersInOrder(s')
  {
  }

  lemma RelayKeepsFrames(c: Codec, s: State)
    requires WholeFrames(c, s) && Enabled(c, s, LockToRelay)
    ensures WholeFrames(c, Next(c, s, LockToRelay))
  {
    var m := Event(s.queue[0]);
    var s' := s.(queue := s.queue[1..]);
    assert WholeFrames(c, s');
    if Fits(c, m) { StartKeepsFrames(c, s', EventThread, m); }
  }

  /** The client's and the loop's own fields do not depend on the event thread. */
  lemma ElsewhereUnchanged(c: Codec, s: State, s': State)
    requires RequestsInOrder(c, s) && ClientInStep(s) && EndsOverTheCap(c, s)
    requires s'.asked == s.asked && s'.outbox == s.outbox && s'.results == s.results && s'.up == s.up
    requires s'.heard == s.heard && s'.answers == s.answers && s'.loop == s.loop && s'.read == s.read
    ensures RequestsInOrder(c, s') && ClientInStep(s') && EndsOverTheCap(c, s')
  {
  }

  lemma RelayOutcome(c: Codec, s: State)
    requires Enabled(c, s, LockToRelay) && s.pending == []
    ensures var s' := Next(c, s, LockToRelay);
            && s' == s.(queue := s.queue[1..], relaying := s'.relaying, holder := s'.holder,
                        current := s'.current, pending := s'.pending)
            && if s'.relaying then s'.holder == EventThread && s'.current == Event(s.queue[0]) && s'.pending != []
               else s'.holder == Free && s'.pending == []
  {
  }

  lemma LockToRelayKeeps(c: Codec, s: State)
    requires Inv(c, s) && Enabled(c, s, LockToRelay)
    ensures Inv(c, Next(c, s, LockToRelay))
  {
    RelayOutcome(c, s);
    RelayKeepsFrames(c, s);
    var s' := Next(c, s, LockToRelay);
    assert AnswersInOrder(s') by { RelayKeepsAnswers(s, s'); }
    assert EventsInOrder(s') by { RelayKeepsEvents(s, s'); }
    ElsewhereUnchanged(c, s, s');
  }

  lemma EmitKeeps(c: Codec, s: State, text: string)
    requires Inv(c, s)
    ensures Inv(c, Next(c, s, Emit(text)))
  {
    var s' := Next(c, s, Emit(text));
    assert WholeFrames(c, s') && RequestsInOrder(c, s') && AnswersInOrder(s') && ClientInStep(s');
    EmitKeepsEvents(s, text);
  }

  lemma EmitKeepsEvents(s: State, text: string)
    requires EventsInOrder(s)
    ensures EventsInOrder(s.(emitted := s.emitted + [text], queue := s.queue + [text]))
  {
    var before := Events(s.read) + Events(s.inbox) + Relayed(s);
    var s' := s.(emitted := s.emitted + [text], queue := s.queue + [text]);
    assert Events(s'.read) + Events(s'.inbox) + Relayed(s') == before;
    Assoc(before, s.queue, [text]);
    assert s.emitted <= s'.emitted;
  }

  /** The message whose last byte goes out moves from in hand to complete. */
  lemma CompletionMoves(read: seq<ServerMessage>, inbox: seq<ServerMessage>, m: ServerMessage)
    ensures Responses(read) + Responses(inbox + [m])
            == Responses(read) + Responses(inbox) + if m.Response? then [m.text] else []
    ensures Events(read) + Events(inbox + [m]) == Events(read) + Events(inbox) + if m.Event? then [m.text] else []
  {
    ListsSnoc(inbox, m);
    Assoc(Responses(read), Responses(inbox), if m.Response? then [m.text] else []);
    Assoc(Events(read), Events(inbox), if m.Event? then [m.text] else []);
  }

  lemma NothingMore<T>(a: seq<T>)
    ensures a + [] == a
  {
  }

  lemma WriteKeepsAnswers(s: State, n: nat)
    requires AnswersInOrder(s) && 0 < n <= |s.pending| && s.holder != Free
    ensures AnswersInOrder(Written(s, n))
  {
    if n == |s.pending| {
      CompletionMoves(s.read, s.inbox, s.current);
      NothingMore(Responses(s.read) + Responses(s.inbox));
      NothingMore(Responses(s.read) + Responses(s.inbox + [s.current]));
    }
  }

  lemma WriteKeepsEvents(s: State, n: nat)
    requires AnswersInOrder(s) && EventsInOrder(s) && 0 < n <= |s.pending| && s.holder != Free
    ensures EventsInOrder(Written(s, n))
  {
    if n == |s.pending| {
      CompletionMoves(s.read, s.inbox, s.current);
      NothingMore(Events(s.read) + Events(s.inbox));
      NothingMore(Events(s.read) + Events(s.inbox + [s.current]));
    }
  }

  lemma WriteKeeps(c: Codec, s: State, n: nat)
    requires Inv(c, s) && 0 < n <= |s.pending|
    ensures Inv(c, Next(c, s, Write(n)))
  {
    var s' := Written(s, n);
    assert ReadersInStep(s') by { TakenStays(s.unread, s.pending[..n], s.fetched); }
    assert WholeFrames(c, s') by { WriteKeepsFrames(c, s, n); }
    assert AnswersInOrder(s') by { WriteKeepsAnswers(s, n); }
    assert EventsInOrder(s') by { WriteKeepsEvents(s, n); }
    ElsewhereUnchanged(c, s, s');
  }

  lemma PullMoves(read: seq<ServerMessage>, inbox: seq<ServerMessage>)
    requires inbox != []
    ensures Responses(read + [inbox[0]]) + Responses(inbox[1..]) == Responses(read) + Responses(inbox)
    ensures Events(read + [inbox[0]]) + Events(inbox[1..]) == Events(read) + Events(inbox)
  {
    var m := inbox[0];
    ListsSnoc(read, m);
    Assoc(Responses(read), if m.Response? then [m.text] else [], Responses(inbox[1..]));
    Assoc(Events(read), if m.Event? then [m.text] else [], Events(inbox[1..]));
  }

  lemma PullKeepsLists(s: State, s': State)
    requires s.inbox != [] && AnswersInOrder(s) && EventsInOrder(s) && ClientInStep(s)
    requires s' == s.(unread := s'.unread, fetched := 0, read := s.read + [s.inbox[0]], inbox := s.inbox[1..],
                      results := s.results + if s.inbox[0].Response? then [s.inbox[0].text] else [])
    ensures AnswersInOrder(s') && EventsInOrder(s') && ClientInStep(s')
  {
    ListsSnoc(s.read, s.inbox[0]);
    PullMoves(s.read, s.inbox);
  }

  lemma PullKeeps(c: Codec, s: State)
    requires Lawful(c) && Inv(c, s) && Enabled(c, s, Pull)
    ensures Inv(c, Next(c, s, Pull))
  {
    PullTakes(c, s);
    var s' := Pulled(c, s);
    assert WholeFrames(c, s') by { PullKeepsFrames(c, s); }
    PullKeepsLists(s, s');
    assert RequestsInOrder(c, s') && EndsOverTheCap(c, s') && ReadersInStep(s');
  }

  lemma WriterStepKeeps(c: Codec, s: State, t: Step)
    requires Inv(c, s) && Enabled(c, s, t)
    requires t.LockToAnswer? || t.Emit? || t.LockToRelay? || t.Write? || t.Unlock?
    ensures Inv(c, Next(c, s, t))
  {
    match t
    case LockToAnswer => LockToAnswerKeeps(c, s);
    case Emit(text) => EmitKeeps(c, s, text);
    case LockToRelay => LockToRelayKeeps(c, s);
    case Write(n) => WriteKeeps(c, s, n);
    case Unlock => UnlockKeeps(c, s);
  }

  lemma ReaderStepKeeps(c: Codec, s: State, t: Step)
    requires Lawful(c) && Inv(c, s) && Enabled(c, s, t)
    requires t.Ask? || t.Push? || t.Hear? || t.Pull?
    ensures Inv(c, Next(c, s, t))
  {
    match t
    case Ask(req) => AskKeeps(c, s, req);
    case Push(n) => PushKeeps(c, s, n);
    case Hear(text) => HearKeeps(c, s, text);
    case Pull => PullKeeps(c, s);
  }

  lemma StepKeepsInv(c: Codec, s: State, t: Step)
    requires Lawful(c) && Inv(c, s) && Enabled(c, s, t)
    ensures Inv(c, Next(c, s, t))
  {
    if t.Gather? || t.Fetch? {
      TakingStays(s, c, t);
      TakeStepKeeps(c, s, Next(c, s, t));
    } else if t.Ask? || t.Push? || t.Hear? || t.Pull? {
      ReaderStepKeeps(c, s, t);
    } else {
      WriterStepKeeps(c, s, t);
    }
  }

  ghost predicate Run(c: Codec, b: Buffers, s: State, ts: seq<Step>, s': State)
    decreases |ts|
  {
    if ts == [] then s' == s
    else Enabled(c, s, ts[0]) && Room(b, s, ts[0]) && Run(c, b, Next(c, s, ts[0]), ts[1..], s')
  }

  lemma {:induction false} RunsKeepInv(c: Codec, b: Buffers, s: State, ts: seq<Step>, s': State)
    requires Lawful(c) && Inv(c, s) && Run(c, b, s, ts, s')
    ensures Inv(c, s')
    decreases |ts|
  {
    if ts != [] {
      StepKeepsInv(c, s, ts[0]);
      RunsKeepInv(c, b, Next(c, s, ts[0]), ts[1..], s');
    }
  }

  // ---- Main results -----------------------------------------------------------------------------

  /** In every interleaving the bytes written are whole frames, but for the front part of the lock holder's. */
  lemma SocketCarriesWholeFrames(c: Codec, b: Buffers, ts: seq<Step>, s: State)
    requires Lawful(c) && Run(c, b, Initial(), ts, s)
    ensures AllFit(c, s.read + s.inbox) && (s.pending == [] ==> s.wire == Frames(c, s.read + s.inbox, []))
    ensures s.pending != [] ==>
              && s.holder != Free && Fits(c, s.current)
              && s.wire + s.pending == Frames(c, s.read + s.inbox, Frame(c.encode(s.current)))
  {
    RunsKeepInv(c, b, Initial(), ts, s);
    assert s.wire + [] == s.wire;
  }

  /** The k-th request is what the loop read k-th, and its result is the manager's k-th answer. */
  lemma KthResultAnswersKthRequest(c: Codec, b: Buffers, ts: seq<Step>, s: State, k: nat)
    requires Lawful(c) && Run(c, b, Initial(), ts, s) && k < |s.results|
    ensures k < |s.answers| && k < |s.heard| && k < |s.asked|
    ensures s.heard[k] == s.asked[k] && s.results[k] == s.answers[k]
  {
    RunsKeepInv(c, b, Initial(), ts, s);
    var told := Responses(s.read) + Responses(s.inbox);
    assert told[k] == s.results[k];
    assert told <= s.answers by { assert !s.loop.Ended? ==> told <= told + InHand(s); }
  }

  /** Events reach the client in the order they were broadcast, none lost or doubled before the last one seen. */
  lemma EventsArriveInOrder(c: Codec, b: Buffers, ts: seq<Step>, s: State)
    requires Lawful(c) && Run(c, b, Initial(), ts, s)
    ensures Events(s.read) <= s.emitted
  {
    RunsKeepInv(c, b, Initial(), ts, s);
    assert Events(s.read) <= Events(s.read) + Events(s.inbox) + Relayed(s);
  }

  /** The client never meets an oversized or undecodable message, however the writers interleave. */
  lemma ClientNeverFails(c: Codec, b: Buffers, ts: seq<Step>, s: State)
    requires Lawful(c) && Run(c, b, Initial(), ts, s)
    ensures s.fetched <= |s.unread| && ReadFrame(s.unread[..s.fetched]) != TooLarge
    ensures ReadFrame(s.unread[..s.fetched]).Message? ==> c.decode(ReadFrame(s.unread[..s.fetched]).body).Some?
  {
    RunsKeepInv(c, b, Initial(), ts, s);
    SocketIsClean(c, s);
    WantsExactly(s.unread, s.fetched);
    if ReadFrame(s.unread[..s.fetched]).Message? {
      TakenWhole(s.unread, s.fetched);
      assert c.decode(c.encode(s.inbox[0])) == Some(s.inbox[0]);
    }
  }

  /** Nor does the request loop. */
  lemma LoopNeverFails(c: Codec, b: Buffers, ts: seq<Step>, s: State)
    requires Lawful(c) && Run(c, b, Initial(), ts, s)
    ensures s.gathered <= |s.up| && ReadFrame(s.up[..s.gathered]) != TooLarge
    ensures ReadFrame(s.up[..s.gathered]).Message? ==>
              |s.heard| < |s.asked| && c.decodeRequest(ReadFrame(s.up[..s.gathered]).body) == Some(s.asked[|s.heard|])
  {
    RunsKeepInv(c, b, Initial(), ts, s);
    WantsExactly(s.up, s.gathered);
    if |s.asked| > |s.heard| {
      UpIsTheRequest(c, s);
      if ReadFrame(s.up[..s.gathered]).Message? { TakenWhole(s.up, s.gathered); }
    }
  }

  // ---- Every request is answered -----------------------------------------------------------------

  predicate Internal(t: Step) { !t.Ask? && !t.Emit? }

  /** While the client still writes its request: the loop is listening, or just has to let go of the lock. */
  lemma UpwardMove(c: Codec, b: Buffers, s: State) returns (t: Step)
    requires Lawful(c) && Inv(c, s) && |s.asked| > |s.heard| && !s.loop.Ended? && b.up > 0
    requires s.outbox != [] || s.holder == Free
    ensures Internal(t) && Enabled(c, s, t) && Room(b, s, t)
  {
    UpIsTheRequest(c, s);
    WantsExactly(s.up, s.gathered);
    NothingInHand(c, s);
    if s.holder == RequestLoop {
      t := Unlock;
    } else if s.gathered < |s.up| {
      if ReadFrame(s.up[..s.gathered]).Message? { t := Hear(""); } else { t := Gather(1); }
    } else if s.outbox != [] {
      t := Push(1);
    } else {
      assert s.up[..s.gathered] == s.up;
      t := Hear("");
    }
  }

  /** With a request still unread, every answer has been delivered. */
  lemma NothingInHand(c: Codec, s: State)
    requires Inv(c, s) && |s.asked| > |s.heard| && !s.loop.Ended?
    ensures InHand(s) == [] && Responses(s.inbox) == [] && !s.loop.Answering?
    ensures s.holder == RequestLoop ==> s.pending == []
  {
    assert |Responses(s.read) + Responses(s.inbox) + InHand(s)| == |s.answers|;
  }

  /** While the client reads: it takes what is there, or the writers have room. */
  lemma DownwardMove(c: Codec, b: Buffers, s: State) returns (t: Step)
    requires Lawful(c) && Inv(c, s) && Waiting(s) && s.outbox == [] && b.down > 0
    requires s.fetched < |s.unread| || s.inbox != [] || s.pending != []
    ensures Internal(t) && Enabled(c, s, t) && Room(b, s, t)
  {
    SocketIsClean(c, s);
    WantsExactly(s.unread, s.fetched);
    if ReadFrame(s.unread[..s.fetched]).Message? {
      t := Pull;
    } else if s.fetched < |s.unread| {
      t := Fetch(1);
    } else {
      assert s.unread[..s.fetched] == s.unread;
      t := Write(1);
    }
  }

  /** While the client waits and every answer fits the cap, somebody can move, with buffers of one byte or more. */
  lemma SomebodyMoves(c: Codec, b: Buffers, s: State) returns (t: Step)
    requires Lawful(c) && Inv(c, s) && Waiting(s) && b.up > 0 && b.down > 0
    requires forall i :: 0 <= i < |s.answers| ==> Fits(c, Response(s.answers[i]))
    ensures Internal(t) && Enabled(c, s, t) && Room(b, s, t)
  {
    if s.outbox != [] {
      t := UpwardMove(c, b, s);
    } else if s.fetched < |s.unread| || s.inbox != [] || s.pending != [] {
      t := DownwardMove(c, b, s);
    } else if s.holder != Free {
      t := Unlock;
    } else if s.loop.Answering? {
      t := LockToAnswer;
    } else {
      AllDelivered(s);
      t := UpwardMove(c, b, s);
    }
  }

  lemma AllDelivered(s: State)
    requires AnswersInOrder(s) && ClientInStep(s) && !s.loop.Ended? && s.inbox == [] && InHand(s) == []
    ensures |s.results| == |s.heard|
  {
    assert Responses(s.read) + Responses(s.inbox) + InHand(s) == s.results;
  }

  /** Writing a message out in full, and reading it, takes no more moves than this. */
  function Cost(c: Codec, m: ServerMessage): nat { if Fits(c, m) then 2 * |c.encode(m)| + 12 else 1 }

  function QueueCost(c: Codec, queue: seq<string>): nat {
    if queue == [] then 0 else Cost(c, Event(queue[0])) + QueueCost(c, queue[1..])
  }

  function LoopCost(c: Codec, s: State): nat {
    (if |s.asked| > |s.heard| then 2 * MAX_MESSAGE_LEN + 20 else 0)
    + if s.loop.Answering? then Cost(c, Response(s.loop.text)) else 0
  }

  function WriterCost(s: State): nat {
    2 * |s.pending| + (if s.pending == [] then 0 else 1) + if s.holder == Free then 0 else 1
  }

  predicate Readable(s: State) { s.gathered <= |s.up| && s.fetched <= |s.unread| }

  function TransitCost(s: State): nat
    requires Readable(s)
  {
    2 * |s.outbox| + (|s.up| - s.gathered) + (|s.unread| - s.fetched)
  }

  function Effort(c: Codec, s: State): nat
    requires Readable(s)
  {
    TransitCost(s) + QueueCost(c, s.queue) + LoopCost(c, s) + WriterCost(s) + |s.inbox|
  }

  lemma WriteDrops(c: Codec, s: State, n: nat)
    requires Readable(s) && s.holder != Free && 0 < n <= |s.pending|
    ensures Readable(Written(s, n)) && Effort(c, Written(s, n)) < Effort(c, s)
  {
    assert LoopCost(c, Written(s, n)) == LoopCost(c, s);
  }

  lemma AnswerDrops(c: Codec, s: State)
    requires Readable(s) && s.loop.Answering? && s.holder == Free && s.pending == []
    ensures Readable(Next(c, s, LockToAnswer)) && Effort(c, Next(c, s, LockToAnswer)) < Effort(c, s)
  {
  }

  lemma RelayDrops(c: Codec, s: State)
    requires Readable(s) && s.relaying && s.queue != [] && s.holder == Free && s.pending == []
    ensures Readable(Next(c, s, LockToRelay)) && Effort(c, Next(c, s, LockToRelay)) < Effort(c, s)
  {
    assert LoopCost(c, Next(c, s, LockToRelay)) == LoopCost(c, s);
  }

  lemma HearDrops(c: Codec, s: State, text: string)
    requires Lawful(c) && ReadersInStep(s) && RequestsInOrder(c, s) && Enabled(c, s, Hear(text))
    ensures Readable(Next(c, s, Hear(text))) && Effort(c, Next(c, s, Hear(text))) < Effort(c, s)
  {
    LoopHearsTheRequest(c, s, text);
  }

  lemma PullDrops(c: Codec, s: State)
    requires Lawful(c) && ReadersInStep(s) && WholeFrames(c, s) && Enabled(c, s, Pull)
    ensures Readable(Next(c, s, Pull)) && Effort(c, Next(c, s, Pull)) < Effort(c, s)
  {
    PullTakes(c, s);
  }

  lemma TransitDrops(c: Codec, s: State, t: Step)
    requires Readable(s) && Enabled(c, s, t) && (t.Push? || t.Gather? || t.Fetch?)
    ensures Readable(Next(c, s, t)) && Effort(c, Next(c, s, t)) < Effort(c, s)
  {
    var s' := Next(c, s, t);
    assert LoopCost(c, s') == LoopCost(c, s) && WriterCost(s') == WriterCost(s) && s'.queue == s.queue;
    assert TransitCost(s') < TransitCost(s);
  }

  lemma UnlockDrops(c: Codec, s: State)
    requires Readable(s) && Enabled(c, s, Unlock) && (s.holder == RequestLoop <==> s.loop.Writing?)
    ensures Readable(Next(c, s, Unlock)) && Effort(c, Next(c, s, Unlock)) < Effort(c, s)
  {
    var s' := Next(c, s, Unlock);
    assert LoopCost(c, s') == LoopCost(c, s) && TransitCost(s') == TransitCost(s);
  }

  /** Every move other than a new request or event uses some of it up. */
  lemma EffortDrops(c: Codec, s: State, t: Step)
    requires Lawful(c) && Inv(c, s) && Enabled(c, s, t) && Internal(t)
    ensures Readable(Next(c, s, t)) && Effort(c, Next(c, s, t)) < Effort(c, s)
  {
    match t
    case Push(_) => TransitDrops(c, s, t);
    case Gather(_) => TransitDrops(c, s, t);
    case Fetch(_) => TransitDrops(c, s, t);
    case Hear(text) => HearDrops(c, s, text);
    case LockToAnswer => AnswerDrops(c, s);
    case LockToRelay => RelayDrops(c, s);
    case Write(n) => WriteDrops(c, s, n);
    case Unlock => UnlockDrops(c, s);
    case Pull => PullDrops(c, s);
  }

  /** So no run of such moves is longer than the effort it starts with. */
  lemma {:induction false} RunsAreShort(c: Codec, b: Buffers, s: State, ts: seq<Step>, s': State)
    requires Lawful(c) && Inv(c, s) && Run(c, b, s, ts, s') && forall i :: 0 <= i < |ts| ==> Internal(ts[i])
    ensures Readable(s') && |ts| + Effort(c, s') <= Effort(c, s)
    decreases |ts|
  {
    if ts != [] {
      assert Internal(ts[0]);
      var mid := FirstMove(c, b, s, ts, s');
      RunsAreShort(c, b, mid, ts[1..], s');
    }
  }

  lemma FirstMove(c: Codec, b: Buffers, s: State, ts: seq<Step>, s': State) returns (mid: State)
    requires Lawful(c) && Inv(c, s) && ts != [] && Internal(ts[0]) && Run(c, b, s, ts, s')
    ensures Inv(c, mid) && Effort(c, mid) < Effort(c, s) && Run(c, b, mid, ts[1..], s')
  {
    mid := Next(c, s, ts[0]);
    EffortDrops(c, s, ts[0]);
    StepKeepsInv(c, s, ts[0]);
  }

  /** A run that can go no further has answered the client, whatever the buffers. */
  lemma StuckMeansAnswered(c: Codec, b: Buffers, ts: seq<Step>, s: State)
    requires Lawful(c) && Run(c, b, Initial(), ts, s) && b.up > 0 && b.down > 0
    requires forall i :: 0 <= i < |s.answers| ==> Fits(c, Response(s.answers[i]))
    requires forall t :: Internal(t) && Enabled(c, s, t) ==> !Room(b, s, t)
    ensures !Waiting(s) && s.results == s.answers && s.heard == s.asked
  {
    RunsKeepInv(c, b, Initial(), ts, s);
    if Waiting(s) {
      var t := SomebodyMoves(c, b, s);
    } else {
      NothingLeft(c, s);
    }
  }

  lemma NothingLeft(c: Codec, s: State)
    requires Inv(c, s) && !Waiting(s)
    ensures s.results == s.answers && s.heard == s.asked
  {
    var told := Responses(s.read) + Responses(s.inbox);
    assert told <= s.answers by { assert !s.loop.Ended? ==> told <= told + InHand(s); }
    assert |s.results| <= |told| && s.results == told[..|s.results|];
    assert |s.answers| == |s.heard| <= |s.asked| <= |s.results|;
  }
}
