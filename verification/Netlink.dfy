/** Netlink attribute chains: aligned, nested, last occurrence wins. */
module Netlink {
  import opened Wrappers
  import opened Bytes

  type Attrs = seq<(U16, seq<Byte>)>

  /** Lengths rounded up to four. */
  function Align(n: nat): (r: nat)
    ensures n <= r < n + 4 && r % 4 == 0
  {
    (n + 3) / 4 * 4
  }

  // ---- Building ------------------------------------------------------------------

  /** One attribute in front of `rest`: length (cut to sixteen bits), type, payload, padding. */
  function Attr(t: U16, payload: seq<Byte>, rest: seq<Byte>): seq<Byte> {
    var n := 4 + |payload|;
    Le16(n % 0x1_0000) + (Le16(t) + (payload + (Zeros(Align(n) - n) + rest)))
  }

  function Chain(attrs: Attrs): seq<Byte> {
    if attrs == [] then [] else Attr(attrs[0].0, attrs[0].1, Chain(attrs[1..]))
  }

  lemma {:induction false} ChainAppends(attrs: Attrs, t: U16, payload: seq<Byte>)
    ensures Chain(attrs + [(t, payload)]) == Chain(attrs) + Attr(t, payload, [])
  {
    if attrs == [] {
      assert attrs + [(t, payload)] == [(t, payload)] && [(t, payload)][1..] == [];
    } else {
      assert (attrs + [(t, payload)])[1..] == attrs[1..] + [(t, payload)];
      ChainAppends(attrs[1..], t, payload);
      AttrSplits(attrs[0].0, attrs[0].1, Chain(attrs[1..]), Attr(t, payload, []));
    }
  }

  lemma AttrSplits(t: U16, payload: seq<Byte>, a: seq<Byte>, b: seq<Byte>)
    ensures Attr(t, payload, a + b) == Attr(t, payload, a) + b
  {
    var n := 4 + |payload|;
    var pad := Zeros(Align(n) - n);
    assert pad + (a + b) == (pad + a) + b;
    assert payload + ((pad + a) + b) == (payload + (pad + a)) + b;
  }

  class AttrBuilder {
    var buf: seq<Byte>
    ghost var attrs: Attrs

    ghost predicate Valid()
      reads this
    {
      buf == Chain(attrs)
    }

    constructor ()
      ensures Valid() && attrs == []
    {
      buf := [];
      attrs := [];
    }

    method PushRaw(t: U16, payload: seq<Byte>)
      requires Valid()
      modifies this
      ensures Valid() && attrs == old(attrs) + [(t, payload)]
    {
      var n := 4 + |payload|;
      ChainAppends(attrs, t, payload);
      AttrBytes(buf, t, payload);
      buf := buf + Le16(n % 0x1_0000);
      buf := buf + Le16(t);
      buf := buf + payload;
      buf := buf + Zeros(Align(n) - n);
      attrs := attrs + [(t, payload)];
    }

    method Nested(t: U16, inner: AttrBuilder)
      requires Valid() && inner.Valid() && inner != this
      modifies this
      ensures Valid() && attrs == old(attrs) + [(t, Chain(inner.attrs))]
    {
      PushRaw(t, inner.buf);
    }
  }

  lemma AttrBytes(buf: seq<Byte>, t: U16, payload: seq<Byte>)
    ensures var n := 4 + |payload|;
            buf + Attr(t, payload, [])
            == buf + Le16(n % 0x1_0000) + Le16(t) + payload + Zeros(Align(n) - n)
  {
  }

  // ---- Parsing -------------------------------------------------------------------

  /** The attributes met while walking a buffer, in order; the walk stops at the first bad length. */
  function Walk(b: seq<Byte>): Attrs {
    if |b| < 4 then []
    else
      var n := FromLe16(b[..2]) as int;
      if n < 4 || n > |b| then []
      else [(FromLe16(b[2..4]), b[4..n])] + (if Align(n) >= |b| then [] else Walk(b[Align(n)..]))
  }

  /** Attributes written over a map in order, so that the last of a type remains. */
  function Overlay(m: map<U16, seq<Byte>>, attrs: Attrs): map<U16, seq<Byte>>
    decreases |attrs|
  {
    if attrs == [] then m else Overlay(m[attrs[0].0 := attrs[0].1], attrs[1..])
  }

  function Parse(b: seq<Byte>): map<U16, seq<Byte>> { Overlay(map[], Walk(b)) }

  method ParseAttrs(input: seq<Byte>) returns (out: map<U16, seq<Byte>>)
    ensures out == Parse(input)
  {
    out := map[];
    var b := input;
    while |b| >= 4
      invariant Parse(input) == Overlay(out, Walk(b))
      decreases |b|
    {
      var n := FromLe16(b[..2]) as int;
      var t := FromLe16(b[2..4]);
      if n < 4 || n > |b| { return; }
      ghost var tail := if Align(n) >= |b| then [] else Walk(b[Align(n)..]);
      assert Walk(b) == [(t, b[4..n])] + tail && ([(t, b[4..n])] + tail)[1..] == tail;
      out := out[t := b[4..n]];
      if Align(n) >= |b| { return; }
      b := b[Align(n)..];
    }
  }

  // ---- The round trip ----------------------------------------------------------------

  predicate Fits(attrs: Attrs) {
    forall a <- attrs :: 4 + |a.1| < 0x1_0000
  }

  /** What the first bytes of an attribute say. */
  lemma AttrFields(t: U16, payload: seq<Byte>, rest: seq<Byte>)
    requires 4 + |payload| < 0x1_0000
    ensures var n := 4 + |payload|;
            var b := Attr(t, payload, rest);
            && |b| == Align(n) + |rest| && b[..2] == Le16(n) && b[2..4] == Le16(t)
            && b[4..n] == payload && b[Align(n)..] == rest
  {
    var n := 4 + |payload|;
    Pieces(Le16(n), Le16(t), payload, Zeros(Align(n) - n), rest);
  }

  lemma WalkAttr(t: U16, payload: seq<Byte>, rest: seq<Byte>)
    requires 4 + |payload| < 0x1_0000
    ensures Walk(Attr(t, payload, rest)) == [(t, payload)] + Walk(rest)
  {
    AttrFields(t, payload, rest);
    if rest == [] { assert Walk(rest) == []; }
  }

  lemma {:induction false} FittingRoundTrip(attrs: Attrs)
    requires Fits(attrs)
    ensures Walk(Chain(attrs)) == attrs
  {
    if attrs != [] {
      var (t, payload) := attrs[0];
      assert attrs[0] in attrs;
      WalkAttr(t, payload, Chain(attrs[1..]));
      FittingRoundTrip(attrs[1..]);
      assert attrs == [attrs[0]] + attrs[1..];
    }
  }

  lemma {:induction false} WalkedFits(b: seq<Byte>)
    ensures Fits(Walk(b))
    decreases |b|
  {
    if |b| >= 4 {
      var n := FromLe16(b[..2]) as int;
      if 4 <= n <= |b| && Align(n) < |b| { WalkedFits(b[Align(n)..]); }
    }
  }

  /** A built chain is read back attribute by attribute exactly when every length fits sixteen bits. */
  lemma ChainRoundTrip(attrs: Attrs)
    ensures Walk(Chain(attrs)) == attrs <==> Fits(attrs)
  {
    WalkedFits(Chain(attrs));
    if Fits(attrs) { FittingRoundTrip(attrs); }
  }

  lemma {:induction false} OverlayKeeps(m: map<U16, seq<Byte>>, attrs: Attrs, t: U16)
    requires forall a <- attrs :: a.0 != t
    ensures t in Overlay(m, attrs) <==> t in m
    ensures t in m ==> Overlay(m, attrs)[t] == m[t]
    decreases |attrs|
  {
    if attrs != [] {
      assert attrs[0] in attrs;
      OverlayKeeps(m[attrs[0].0 := attrs[0].1], attrs[1..], t);
    }
  }

  lemma {:induction false} LastWins(m: map<U16, seq<Byte>>, attrs: Attrs, i: nat)
    requires i < |attrs| && forall j :: i < j < |attrs| ==> attrs[j].0 != attrs[i].0
    ensures attrs[i].0 in Overlay(m, attrs) && Overlay(m, attrs)[attrs[i].0] == attrs[i].1
    decreases |attrs|
  {
    var m' := m[attrs[0].0 := attrs[0].1];
    if i == 0 {
      forall a <- attrs[1..] ensures a.0 != attrs[0].0 {
        var j :| 0 <= j < |attrs[1..]| && attrs[1..][j] == a;
        assert a == attrs[j + 1];
      }
      OverlayKeeps(m', attrs[1..], attrs[0].0);
    } else {
      assert attrs[1..][i - 1] == attrs[i];
      LastWins(m', attrs[1..], i - 1);
    }
  }

  /** Looking a type up in a parsed chain finds its last payload: payload and padding never mix. */
  lemma LookupRoundTrip(attrs: Attrs, i: nat)
    requires Fits(attrs) && i < |attrs| && forall j :: i < j < |attrs| ==> attrs[j].0 != attrs[i].0
    ensures attrs[i].0 in Parse(Chain(attrs)) && Parse(Chain(attrs))[attrs[i].0] == attrs[i].1
  {
    FittingRoundTrip(attrs);
    LastWins(map[], attrs, i);
  }

  /** And a type that was never built is not found. */
  lemma AbsentRoundTrip(attrs: Attrs, t: U16)
    requires Fits(attrs) && forall a <- attrs :: a.0 != t
    ensures t !in Parse(Chain(attrs))
  {
    FittingRoundTrip(attrs);
    OverlayKeeps(map[], attrs, t);
  }

  // ---- No more comes out than went in --------------------------------------------------

  lemma AlignMonotone(a: nat, b: nat)
    requires a <= b
    ensures Align(a) <= Align(b)
  {
  }

  lemma AlignSplits(a: nat, b: nat)
    requires a % 4 == 0
    ensures Align(a + b) == a + Align(b)
  {
    var q := a / 4;
    assert a + b + 3 == 4 * q + (b + 3);
  }

  lemma AttrSize(t: U16, payload: seq<Byte>, rest: seq<Byte>)
    ensures |Attr(t, payload, rest)| == Align(4 + |payload|) + |rest|
  {
  }

  lemma ChainFirst(t: U16, payload: seq<Byte>, rest: Attrs)
    ensures |Chain([(t, payload)] + rest)| == Align(4 + |payload|) + |Chain(rest)|
  {
    AttrSize(t, payload, Chain(rest));
    assert ([(t, payload)] + rest)[1..] == rest;
  }

  lemma WalkedFirst(b: seq<Byte>, n: nat)
    requires |b| >= 4 && n == FromLe16(b[..2]) && 4 <= n <= |b|
    ensures |Chain(Walk(b))| == Align(n) + if Align(n) >= |b| then 0 else |Chain(Walk(b[Align(n)..]))|
  {
    ChainFirst(FromLe16(b[2..4]), b[4..n], if Align(n) >= |b| then [] else Walk(b[Align(n)..]));
  }

  /** Rebuilding what was walked takes no more room than was there, up to the last padding. */
  lemma {:induction false} WalkedSize(b: seq<Byte>)
    ensures |Chain(Walk(b))| <= Align(|b|)
    decreases |b|
  {
    if |b| >= 4 {
      var n: nat := FromLe16(b[..2]);
      if 4 <= n <= |b| {
        WalkedFirst(b, n);
        AlignMonotone(n, |b|);
        if Align(n) < |b| {
          WalkedSize(b[Align(n)..]);
          AlignSplits(Align(n), |b| - Align(n));
        }
      }
    }
  }

  /** The last payload of a type. */
  function Lookup(attrs: Attrs, t: U16): Option<seq<Byte>> {
    if attrs == [] then None
    else
      var later := Lookup(attrs[1..], t);
      if later.None? && attrs[0].0 == t then Some(attrs[0].1) else later
  }

  function Without(attrs: Attrs, t: U16): Attrs {
    if attrs == [] then []
    else (if attrs[0].0 == t then [] else [attrs[0]]) + Without(attrs[1..], t)
  }

  lemma {:induction false} OverlayLookup(m: map<U16, seq<Byte>>, attrs: Attrs, t: U16)
    requires t in Overlay(m, attrs)
    ensures Lookup(attrs, t).Some? ==> Overlay(m, attrs)[t] == Lookup(attrs, t).value
    ensures Lookup(attrs, t).None? ==> t in m && Overlay(m, attrs)[t] == m[t]
    decreases |attrs|
  {
    if attrs != [] { OverlayLookup(m[attrs[0].0 := attrs[0].1], attrs[1..], t); }
  }

  lemma {:induction false} LookupWithout(attrs: Attrs, t: U16, u: U16)
    requires t != u
    ensures Lookup(Without(attrs, t), u) == Lookup(attrs, u)
  {
    if attrs != [] {
      var rest := Without(attrs[1..], t);
      LookupWithout(attrs[1..], t, u);
      assert [] + rest == rest && ([attrs[0]] + rest)[1..] == rest;
    }
  }

  lemma {:induction false} WithoutSize(attrs: Attrs, t: U16)
    ensures |Chain(Without(attrs, t))| + (if Lookup(attrs, t).Some? then Align(4 + |Lookup(attrs, t).value|) else 0)
            <= |Chain(attrs)|
  {
    if attrs != [] {
      var rest := Without(attrs[1..], t);
      WithoutSize(attrs[1..], t);
      AttrSize(attrs[0].0, attrs[0].1, Chain(attrs[1..]));
      AttrSize(attrs[0].0, attrs[0].1, Chain(rest));
      assert [] + rest == rest && ([attrs[0]] + rest)[1..] == rest;
    }
  }

  predicate Differing(attrs: Attrs) {
    forall i, j :: 0 <= i < j < |attrs| ==> attrs[i].0 != attrs[j].0
  }

  lemma {:induction false} PickedSize(picked: Attrs, attrs: Attrs)
    requires Differing(picked) && forall a <- picked :: Lookup(attrs, a.0) == Some(a.1)
    ensures |Chain(picked)| <= |Chain(attrs)|
    decreases |picked|
  {
    if picked != [] {
      var (t, payload) := picked[0];
      var others := Without(attrs, t);
      forall a <- picked[1..] ensures Lookup(others, a.0) == Some(a.1) {
        var i :| 0 <= i < |picked[1..]| && picked[1..][i] == a;
        assert picked[i + 1] == a && a in picked;
        LookupWithout(attrs, t, a.0);
      }
      PickedSize(picked[1..], others);
      assert picked[0] in picked;
      WithoutSize(attrs, t);
      AttrSize(t, payload, Chain(picked[1..]));
    }
  }

  /** The attribute of type `t` is found and carries `payload`. */
  predicate Holds(m: map<U16, seq<Byte>>, t: U16, payload: seq<Byte>) {
    t in m && m[t] == payload
  }

  predicate HoldsAll(m: map<U16, seq<Byte>>, attrs: Attrs) {
    forall i :: 0 <= i < |attrs| ==> Holds(m, attrs[i].0, attrs[i].1)
  }

  /** Attributes found under different types in a parsed buffer fit into it together. */
  lemma FoundSize(picked: Attrs, b: seq<Byte>)
    requires Differing(picked) && HoldsAll(Parse(b), picked)
    ensures |Chain(picked)| <= Align(|b|)
  {
    forall a <- picked ensures Lookup(Walk(b), a.0) == Some(a.1) {
      var i :| 0 <= i < |picked| && picked[i] == a;
      assert Holds(Parse(b), picked[i].0, picked[i].1);
      OverlayLookup(map[], Walk(b), a.0);
    }
    PickedSize(picked, Walk(b));
    WalkedSize(b);
  }

  /** No attribute found is longer than its length field can say. */
  lemma FoundFits(b: seq<Byte>, t: U16)
    requires t in Parse(b)
    ensures 4 + |Parse(b)[t]| < 0x1_0000
  {
    OverlayLookup(map[], Walk(b), t);
    LookupIsIn(Walk(b), t);
    WalkedFits(b);
  }

  lemma {:induction false} LookupIsIn(attrs: Attrs, t: U16)
    ensures Lookup(attrs, t).Some? ==> (t, Lookup(attrs, t).value) in attrs
  {
    if attrs != [] { LookupIsIn(attrs[1..], t); }
  }

  lemma NestedSize(inner: nat, room: nat)
    requires inner <= Align(room)
    ensures Align(4 + inner) <= Align(4 + room)
  {
    AlignSplits(4, room);
    AlignMonotone(4 + inner, 4 + Align(room));
    AlignSplits(4 + Align(room), 0);
  }

  /** Payload by payload, `b` has room for `a`. */
  predicate Covers(b: Attrs, a: Attrs) {
    |a| == |b| && forall i :: 0 <= i < |a| ==> |a[i].1| <= Align(|b[i].1|)
  }

  lemma {:induction false} CoveringChain(a: Attrs, b: Attrs)
    requires Covers(b, a)
    ensures |Chain(a)| <= |Chain(b)|
  {
    if a != [] {
      assert forall i :: 0 <= i < |a| - 1 ==> a[1..][i] == a[i + 1] && b[1..][i] == b[i + 1];
      CoveringChain(a[1..], b[1..]);
      NestedSize(|a[0].1|, |b[0].1|);
      AttrSize(a[0].0, a[0].1, Chain(a[1..]));
      AttrSize(b[0].0, b[0].1, Chain(b[1..]));
    }
  }

  /** So a buffer in which payloads that cover a chain's are found has room for the chain. */
  lemma RoomFor(a: Attrs, found: Attrs, b: seq<Byte>)
    requires Covers(found, a) && Differing(found) && HoldsAll(Parse(b), found)
    ensures |Chain(a)| <= Align(|b|)
  {
    CoveringChain(a, found);
    FoundSize(found, b);
  }

  lemma WalkFirst(t: U16, payload: seq<Byte>, rest: Attrs)
    requires 4 + |payload| < 0x1_0000
    ensures Walk(Chain([(t, payload)] + rest)) == [(t, payload)] + Walk(Chain(rest))
  {
    WalkAttr(t, payload, Chain(rest));
    assert ([(t, payload)] + rest)[1..] == rest;
  }

  lemma {:induction false} WalkPrefix(pre: Attrs, last: Attrs)
    requires Fits(pre)
    ensures Walk(Chain(pre + last)) == pre + Walk(Chain(last))
  {
    var after := Walk(Chain(last));
    if pre == [] {
      assert pre + last == last && pre + after == after;
    } else {
      assert pre[0] in pre;
      HeadFirst(pre, last);
      WalkFirst(pre[0].0, pre[0].1, pre[1..] + last);
      WalkPrefix(pre[1..], last);
      HeadFirst(pre, after);
    }
  }

  lemma ZeroLength(b: seq<Byte>)
    requires |b| >= 4 && FromLe16(b[..2]) == 0
    ensures Walk(b) == []
  {
  }

  lemma WrappedAttr(t: U16, payload: seq<Byte>)
    requires 4 + |payload| == 0x1_0000
    ensures Walk(Attr(t, payload, [])) == []
  {
    var b := Attr(t, payload, []);
    AttrSize(t, payload, []);
    assert b[..2] == Le16(0);
    ZeroLength(b);
  }

  /** A last attribute of exactly 64 KiB has length zero on the wire and is not found. */
  lemma WrappedIsLost(pre: Attrs, t: U16, payload: seq<Byte>)
    requires Fits(pre) && (forall a <- pre :: a.0 != t) && 4 + |payload| == 0x1_0000
    ensures t !in Parse(Chain(pre + [(t, payload)]))
  {
    var last := [(t, payload)];
    assert Chain(last) == Attr(t, payload, []) by { assert last[1..] == []; }
    WrappedAttr(t, payload);
    WalkPrefix(pre, last);
    assert pre + [] == pre;
    OverlayKeeps(map[], pre, t);
  }
}
