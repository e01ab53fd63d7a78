/** Bytes and the fixed-width integers of the wire formats. */
module Bytes {
  type Byte = x: int | 0 <= x < 0x100
  type U16 = x: int | 0 <= x < 0x1_0000
  type U32 = x: int | 0 <= x < 0x1_0000_0000

  // ---- Big-endian ----------------------------------------------------------

  function Be16(v: U16): (r: seq<Byte>)
    ensures |r| == 2 && FromBe16(r) == v
  {
    [v / 0x100, v % 0x100]
  }

  function FromBe16(b: seq<Byte>): U16
    requires |b| == 2
  {
    b[0] as int * 0x100 + b[1]
  }

  function Be32(v: U32): (r: seq<Byte>)
    ensures |r| == 4 && FromBe32(r) == v
  {
    Be16(v / 0x1_0000) + Be16(v % 0x1_0000)
  }

  function FromBe32(b: seq<Byte>): U32
    requires |b| == 4
  {
    FromBe16(b[..2]) as int * 0x1_0000 + FromBe16(b[2..])
  }

  // ---- Little-endian, which is also the native order modelled ----------------

  function Le16(v: U16): (r: seq<Byte>)
    ensures |r| == 2 && FromLe16(r) == v
  {
    [v % 0x100, v / 0x100]
  }

  function FromLe16(b: seq<Byte>): U16
    requires |b| == 2
  {
    b[0] + b[1] as int * 0x100
  }

  function Le32(v: U32): (r: seq<Byte>)
    ensures |r| == 4 && FromLe32(r) == v
  {
    Le16(v % 0x1_0000) + Le16(v / 0x1_0000)
  }

  function FromLe32(b: seq<Byte>): U32
    requires |b| == 4
  {
    FromLe16(b[..2]) + FromLe16(b[2..]) as int * 0x1_0000
  }

  function Zeros(n: nat): (r: seq<Byte>)
    ensures |r| == n
  {
    seq(n, _ => 0)
  }

  /** Where the pieces of a concatenation stand. */
  lemma Pieces<T>(a: seq<T>, b: seq<T>, c: seq<T>, d: seq<T>, rest: seq<T>)
    ensures var x := a + (b + (c + (d + rest)));
            var i, j := |a| + |b|, |a| + |b| + |c|;
            && |x| == j + |d| + |rest|
            && x[..|a|] == a && x[|a|..i] == b && x[i..j] == c && x[j + |d|..] == rest
  {
    var x := a + (b + (c + (d + rest)));
    var x1 := b + (c + (d + rest));
    assert x[|a|..] == x1;
    Tail(x, |a|, |b|, c + (d + rest));
    Tail(x, |a| + |b|, |c|, d + rest);
    Tail(x, |a| + |b| + |c|, |d|, rest);
  }

  lemma Tail<T>(x: seq<T>, i: nat, n: nat, after: seq<T>)
    requires i <= |x| && n <= |x| - i && x[i..][n..] == after
    ensures x[i + n..] == after && x[i..i + n] == x[i..][..n]
  {
  }

  // ---- Quotients and remainders are determined by their equation ------------------------

  lemma By4(n: int, q: int, r: int)
    requires n == 4 * q + r && 0 <= r < 4
    ensures n / 4 == q && n % 4 == r
  {
  }

  lemma By16(n: int, q: int, r: int)
    requires n == 16 * q + r && 0 <= r < 16
    ensures n / 16 == q && n % 16 == r
  {
  }

  lemma By256(n: int, q: int, r: int)
    requires n == 0x100 * q + r && 0 <= r < 0x100
    ensures n / 0x100 == q && n % 0x100 == r
  {
  }

  lemma HeadFirst<T>(pre: seq<T>, rest: seq<T>)
    requires pre != []
    ensures pre + rest == [pre[0]] + (pre[1..] + rest)
  {
  }
}
