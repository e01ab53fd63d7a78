/** The bit-accumulator base64 decoder against the encoding of section 4 of RFC 4648. */
module Base64 {
  import opened Wrappers
  import opened Bytes

  type Sextet = x: int | 0 <= x < 64

  // ---- The alphabet ----------------------------------------------------------------

  function Value(c: char): Option<Sextet> {
    if 'A' <= c <= 'Z' then Some(c as int - 65)
    else if 'a' <= c <= 'z' then Some(c as int - 97 + 26)
    else if '0' <= c <= '9' then Some(c as int - 48 + 52)
    else if c == '+' then Some(62)
    else if c == '/' then Some(63)
    else None
  }

  function Symbol(v: Sextet): (c: char)
    ensures Value(c) == Some(v) && c != '='
  {
    if v < 26 then (v + 65) as char
    else if v < 52 then (v - 26 + 97) as char
    else if v < 62 then (v - 52 + 48) as char
    else if v == 62 then '+'
    else '/'
  }

  // ---- The encoding ------------------------------------------------------------------

  /** Three octets as four sextets; one or two left over as two or three. */
  function Sextets(b: seq<Byte>): seq<Sextet> {
    if |b| == 0 then []
    else if |b| == 1 then [b[0] / 4, b[0] % 4 * 16]
    else if |b| == 2 then [b[0] / 4, b[0] % 4 * 16 + b[1] / 16, b[1] % 16 * 4]
    else [b[0] / 4, b[0] % 4 * 16 + b[1] / 16, b[1] % 16 * 4 + b[2] / 64, b[2] % 64] + Sextets(b[3..])
  }

  function Symbols(vs: seq<Sextet>): seq<char> {
    if vs == [] then [] else [Symbol(vs[0])] + Symbols(vs[1..])
  }

  function Padding(n: nat): seq<char> {
    if n % 3 == 0 then [] else if n % 3 == 1 then "==" else "="
  }

  function Encode(b: seq<Byte>): seq<char> {
    Symbols(Sextets(b)) + Padding(|b|)
  }

  // ---- What a run of sextets stands for ------------------------------------------------

  /** The whole octets spelled by sextets, four at a time; left-over bits are dropped. */
  function Octets(vs: seq<Sextet>): seq<Byte> {
    if |vs| < 2 then []
    else if |vs| == 2 then [vs[0] as int * 4 + vs[1] / 16]
    else if |vs| == 3 then [vs[0] as int * 4 + vs[1] / 16, (vs[1] % 16) as int * 16 + vs[2] / 4]
    else Quad(vs[0], vs[1], vs[2], vs[3]) + Octets(vs[4..])
  }

  function Quad(a: Sextet, b: Sextet, c: Sextet, d: Sextet): seq<Byte> {
    [a as int * 4 + b / 16, (b % 16) as int * 16 + c / 4, (c % 4) as int * 64 + d]
  }

  lemma Group(x: Byte, y: Byte, z: Byte)
    ensures x / 4 * 4 + (x % 4 * 16 + y / 16) / 16 == x
    ensures (x % 4 * 16 + y / 16) % 16 * 16 + (y % 16 * 4 + z / 64) / 4 == y
    ensures (y % 16 * 4 + z / 64) % 4 * 64 + z % 64 == z
  {
  }

  lemma {:induction false} OctetsOfSextets(b: seq<Byte>)
    ensures Octets(Sextets(b)) == b
    decreases |b|
  {
    if |b| >= 3 {
      var vs := Sextets(b);
      Group(b[0], b[1], b[2]);
      assert vs[4..] == Sextets(b[3..]);
      assert Octets(vs)[..3] == [b[0], b[1], b[2]];
      OctetsOfSextets(b[3..]);
      assert b == [b[0], b[1], b[2]] + b[3..];
    } else if |b| == 2 {
      Group(b[0], b[1], 0);
      assert b == [b[0], b[1]];
    } else if |b| == 1 {
      Group(b[0], 0, 0);
      assert b == [b[0]];
    }
  }

  // ---- The decoder -----------------------------------------------------------------------

  /** The sextets of a text, unless some character is outside the alphabet. */
  function Values(text: seq<char>): Option<seq<Sextet>> {
    if text == [] then Some([])
    else
      match (Value(text[0]), Values(text[1..]))
      case (Some(v), Some(vs)) => Some([v] + vs)
      case _ => None
  }

  /** Trailing equals signs removed, however many. */
  function TrimPadding(text: seq<char>): seq<char> {
    if text != [] && text[|text| - 1] == '=' then TrimPadding(text[..|text| - 1]) else text
  }

  /** What decoding means: the octets of the alphabet characters before the padding. */
  function Decoded(text: seq<char>): Option<seq<Byte>> {
    match Values(TrimPadding(text))
    case Some(vs) => Some(Octets(vs))
    case None => None
  }

  /** Two to the bits left over: always an even number of them, fewer than eight. */
  function Power(bits: nat): nat
    requires bits in {0, 2, 4, 6}
  {
    if bits == 0 then 1 else if bits == 2 then 4 else if bits == 4 then 16 else 64
  }

  /** The accumulator's next value: shifted left by six, the bits beyond 32 lost, the sextet put in. */
  function Shifted(buf: U32, v: Sextet): U32 {
    buf * 64 % 0x1_0000_0000 + v
  }

  function Take(buf: U32, bits: nat): Byte
    requires bits in {0, 2, 4, 6}
  {
    buf / Power(bits) % 0x100
  }

  method Decode(input: seq<char>) returns (r: Option<seq<Byte>>)
    ensures r == Decoded(input)
  {
    var text := TrimPadding(input);
    ghost var vs := Values(text);
    var out: seq<Byte> := [];
    var buf: U32 := 0;
    var bits := 0;
    var i := 0;
    assert text[0..] == text;
    if vs.Some? { AccIsOctets(0, vs.value); }
    while i < |text|
      invariant 0 <= i <= |text| && bits in {0, 2, 4, 6}
      invariant vs.None? <==> Values(text[i..]).None?
      invariant vs.Some? ==> Octets(vs.value) == out + Acc(buf % 0x4000, bits, Values(text[i..]).value)
    {
      assert text[i..][0] == text[i] && text[i..][1..] == text[i + 1..];
      var v := Value(text[i]);
      if v.None? { return None; }
      ghost var rest := Values(text[i + 1..]);
      out, buf, bits := Feed(out, buf, bits, v.value, if rest.Some? then rest.value else []);
      i := i + 1;
    }
    assert out + [] == out;
    r := Some(out);
  }

  /** One turn of the loop: a sextet shifted in, and an octet taken out when eight bits are there. */
  method Feed(out: seq<Byte>, buf: U32, bits: nat, v: Sextet, ghost rest: seq<Sextet>)
    returns (out': seq<Byte>, buf': U32, bits': nat)
    requires bits in {0, 2, 4, 6}
    ensures bits' in {0, 2, 4, 6}
    ensures out' + Acc(buf' % 0x4000, bits', rest) == out + Acc(buf % 0x4000, bits, [v] + rest)
  {
    LowBits(buf, v);
    assert ([v] + rest)[1..] == rest;
    out', buf', bits' := out, Shifted(buf, v), bits + 6;
    if bits' >= 8 {
      bits' := bits' - 8;
      TakeLow(buf', bits');
      Regroup(out, Take(buf', bits'), Acc(buf' % 0x4000, bits', rest));
      out' := out + [Take(buf', bits')];
    }
  }

  lemma Regroup(xs: seq<Byte>, y: Byte, zs: seq<Byte>)
    ensures xs + ([y] + zs) == xs + [y] + zs
  {
  }

  /** The decoder on just the fourteen low bits of its accumulator: all it ever reads. */
  function Acc(low: nat, bits: nat, vs: seq<Sextet>): seq<Byte>
    requires bits in {0, 2, 4, 6}
    decreases |vs|
  {
    if vs == [] then []
    else
      var low' := Push(low, vs[0]);
      if bits + 6 >= 8 then [low' / Power(bits - 2) % 0x100] + Acc(low', bits - 2, vs[1..])
      else Acc(low', bits + 6, vs[1..])
  }

  /** Losing the bits beyond 32 never touches the fourteen low ones. */
  lemma LowBits(buf: U32, v: Sextet)
    ensures Shifted(buf, v) % 0x4000 == Push(buf % 0x4000, v)
  {
    var q, x := buf / 0x100, buf % 0x100;
    var lost := buf * 64 / 0x1_0000_0000;
    LowOfLow(buf);
    assert buf * 64 == 0x4000 * q + 64 * x;
    assert Shifted(buf, v) == buf * 64 - 0x1_0000_0000 * lost + v;
    Remainder(q - 0x4_0000 * lost, 64 * x + v);
  }

  lemma LowOfLow(buf: U32)
    ensures buf % 0x4000 % 0x100 == buf % 0x100
  {
    var q, r := buf / 0x4000, buf % 0x4000;
    assert buf == 0x100 * (64 * q) + r;
    Mod256(64 * q, r);
  }

  lemma Remainder(k: int, r: int)
    requires 0 <= r < 0x4000
    ensures (0x4000 * k + r) % 0x4000 == r
  {
  }

  lemma Mod256(m: nat, t: nat)
    ensures (0x100 * m + t) % 0x100 == t % 0x100
  {
  }

  lemma TakeLow(buf: U32, bits: nat)
    requires bits in {0, 2, 4, 6}
    ensures Take(buf, bits) == buf % 0x4000 / Power(bits) % 0x100
  {
    var q, r := buf / 0x4000, buf % 0x4000;
    if bits == 0 {
      Mod256(64 * q, r);
    } else if bits == 2 {
      assert buf / 4 == 0x100 * (16 * q) + r / 4;
      Mod256(16 * q, r / 4);
    } else if bits == 4 {
      assert buf / 16 == 0x100 * (4 * q) + r / 16;
      Mod256(4 * q, r / 16);
    } else {
      assert buf / 64 == 0x100 * q + r / 64;
      Mod256(q, r / 64);
    }
  }

  /** One sextet pushed under the eight low bits kept from before. */
  function Push(low: nat, v: Sextet): nat {
    low % 0x100 * 64 + v
  }

  lemma LowPair(low: nat)
    ensures low % 4 == low % 0x100 % 4
  {
    var k, x := low / 0x100, low % 0x100;
    var q, r := x / 4, x % 4;
    By4(low, 64 * k + q, r);
  }

  lemma Pair(low: nat, a: Sextet)
    ensures Push(low, a) % 0x100 == low % 4 * 64 + a
  {
    LowPair(low);
    var x := low % 0x100;
    var q, r := x / 4, x % 4;
    assert x == 4 * q + r;
    By256(x * 64 + a, q, r * 64 + a);
  }

  // The octets that sextets a, b, c, d yield from a byte boundary, whatever was there before.

  lemma FirstOctet(low: nat, a: Sextet, b: Sextet)
    ensures Push(Push(low, a), b) / 16 % 0x100 == a as int * 4 + b / 16
  {
    Pair(low, a);
    var r := low % 4;
    var p, t := b / 16, b % 16;
    By16((r * 64 + a) * 64 + b, 0x100 * r + 4 * a as int + p, t);
    By256(0x100 * r + 4 * a as int + p, r, 4 * a as int + p);
  }

  lemma SecondOctet(low: nat, b: Sextet, c: Sextet)
    ensures Push(Push(low, b), c) / 4 % 0x100 == (b % 16) as int * 16 + c / 4
  {
    Pair(low, b);
    var r := low % 4;
    var p, q := b / 16, b % 16;
    var u, v := c / 4, c % 4;
    By4((r * 64 + b) * 64 + c, 16 * (r * 64 + b) + u, v);
    By256(16 * (r * 64 + b) + u, 4 * r + p, 16 * q as int + u);
  }

  lemma ThirdOctet(low: nat, c: Sextet, d: Sextet)
    ensures Push(Push(low, c), d) % 0x100 == (c % 4) as int * 64 + d
  {
    Pair(Push(low, c), d);
  }

  // Three turns of the accumulator, one octet each; what the octet is comes from the lemmas above.

  lemma AccFirst(low: nat, vs: seq<Sextet>, o: Byte)
    requires |vs| >= 2 && o == Push(Push(low, vs[0]), vs[1]) / 16 % 0x100
    ensures Acc(low, 0, vs) == [o] + Acc(Push(Push(low, vs[0]), vs[1]), 4, vs[2..])
  {
    assert vs[1..][0] == vs[1] && vs[1..][1..] == vs[2..];
  }

  lemma AccSecond(low: nat, vs: seq<Sextet>, o: Byte)
    requires |vs| >= 1 && o == Push(low, vs[0]) / 4 % 0x100
    ensures Acc(low, 4, vs) == [o] + Acc(Push(low, vs[0]), 2, vs[1..])
  {
  }

  lemma AccThird(low: nat, vs: seq<Sextet>, o: Byte)
    requires |vs| >= 1 && o == Push(low, vs[0]) % 0x100
    ensures Acc(low, 2, vs) == [o] + Acc(Push(low, vs[0]), 0, vs[1..])
  {
  }

  lemma AccTwo(low: nat, vs: seq<Sextet>)
    requires |vs| >= 2
    ensures Acc(low, 0, vs) == [vs[0] as int * 4 + vs[1] / 16] + Acc(Push(Push(low, vs[0]), vs[1]), 4, vs[2..])
  {
    FirstOctet(low, vs[0], vs[1]);
    AccFirst(low, vs, vs[0] as int * 4 + vs[1] / 16);
  }

  lemma AccThree(low: nat, b: Sextet, vs: seq<Sextet>)
    requires |vs| >= 1
    ensures Acc(Push(low, b), 4, vs)
            == [(b % 16) as int * 16 + vs[0] / 4] + Acc(Push(Push(low, b), vs[0]), 2, vs[1..])
  {
    SecondOctet(low, b, vs[0]);
    AccSecond(Push(low, b), vs, (b % 16) as int * 16 + vs[0] / 4);
  }

  lemma AccLast(low: nat, c: Sextet, vs: seq<Sextet>)
    requires |vs| >= 1
    ensures Acc(Push(low, c), 2, vs) == [(c % 4) as int * 64 + vs[0]] + Acc(Push(Push(low, c), vs[0]), 0, vs[1..])
  {
    ThirdOctet(low, c, vs[0]);
    AccThird(Push(low, c), vs, (c % 4) as int * 64 + vs[0]);
  }

  lemma AccFour(low: nat, vs: seq<Sextet>) returns (after: nat)
    requires |vs| >= 4
    ensures Acc(low, 0, vs) == Quad(vs[0], vs[1], vs[2], vs[3]) + Acc(after, 0, vs[4..])
  {
    var l1 := Push(low, vs[0]);
    var l2 := Push(l1, vs[1]);
    var l3 := Push(l2, vs[2]);
    AccTwo(low, vs);
    AccThree(l1, vs[1], vs[2..]);
    AccLast(l2, vs[2], vs[2..][1..]);
    assert vs[2..][1..][1..] == vs[4..] && vs[2..][0] == vs[2] && vs[2..][1..][0] == vs[3];
    after := Push(l3, vs[3]);
  }

  lemma AccFewer(low: nat, vs: seq<Sextet>)
    requires |vs| < 4
    ensures Acc(low, 0, vs) == Octets(vs)
  {
    if |vs| >= 2 {
      AccTwo(low, vs);
      if |vs| == 3 { AccThree(Push(low, vs[0]), vs[1], vs[2..]); }
    } else if |vs| == 1 {
      assert vs[1..] == [];
    }
  }

  /** The accumulator decoder spells the same octets, whatever it held before: nothing old is ever seen. */
  lemma {:induction false} AccIsOctets(low: nat, vs: seq<Sextet>)
    ensures Acc(low, 0, vs) == Octets(vs)
    decreases |vs|
  {
    if |vs| < 4 {
      AccFewer(low, vs);
    } else {
      var after := AccFour(low, vs);
      AccIsOctets(after, vs[4..]);
    }
  }

  // ---- Main results --------------------------------------------------------------------------

  lemma {:induction false} ValuesOfSymbols(vs: seq<Sextet>)
    ensures Values(Symbols(vs)) == Some(vs)
  {
    if vs != [] {
      assert Symbols(vs)[1..] == Symbols(vs[1..]);
      ValuesOfSymbols(vs[1..]);
      assert vs == [vs[0]] + vs[1..];
    }
  }

  lemma {:induction false} SymbolsAreNotPadding(vs: seq<Sextet>)
    ensures forall c <- Symbols(vs) :: c != '='
  {
    if vs != [] { SymbolsAreNotPadding(vs[1..]); }
  }

  lemma TrimsOne(text: seq<char>)
    ensures TrimPadding(text + "=") == TrimPadding(text)
  {
    assert (text + "=")[..|text|] == text;
  }

  lemma TrimmedText(text: seq<char>, pad: seq<char>)
    requires (forall c <- text :: c != '=') && pad in {[], "=", "=="}
    ensures TrimPadding(text + pad) == text
  {
    if text != [] { assert text[|text| - 1] in text; }
    assert TrimPadding(text) == text;
    if pad == [] {
      assert text + pad == text;
    } else {
      TrimsOne(text);
      TrimsOne(text + "=");
      assert text + "==" == text + "=" + "=";
    }
  }

  /** Decoding inverts the standard encoding of every byte sequence. */
  lemma RoundTrip(b: seq<Byte>)
    ensures Decoded(Encode(b)) == Some(b)
  {
    SymbolsAreNotPadding(Sextets(b));
    TrimmedText(Symbols(Sextets(b)), Padding(|b|));
    ValuesOfSymbols(Sextets(b));
    OctetsOfSextets(b);
  }

  lemma {:induction false} ValuesNeedAlphabet(text: seq<char>)
    ensures Values(text).Some? <==> forall c <- text :: Value(c).Some?
  {
    if text != [] {
      ValuesNeedAlphabet(text[1..]);
      assert text == [text[0]] + text[1..];
      assert text[0] in text;
    }
  }

  /** Decoding fails exactly when a character before the trailing padding is outside the alphabet. */
  lemma FailsExactlyOnForeignCharacters(text: seq<char>)
    ensures Decoded(text).None? <==> exists c :: c in TrimPadding(text) && Value(c).None?
  {
    ValuesNeedAlphabet(TrimPadding(text));
  }

  // ---- Keys ------------------------------------------------------------------------------------

  const WG_KEY_LEN := 32

  function TrimStart(text: seq<char>, space: char -> bool): seq<char> {
    if text != [] && space(text[0]) then TrimStart(text[1..], space) else text
  }

  function TrimEnd(text: seq<char>, space: char -> bool): seq<char> {
    if text != [] && space(text[|text| - 1]) then TrimEnd(text[..|text| - 1], space) else text
  }

  /** A key is surrounding whitespace around base64 of exactly 32 bytes. */
  method DecodeKey(text: seq<char>, space: char -> bool) returns (key: Option<seq<Byte>>)
    ensures key == match Decoded(TrimEnd(TrimStart(text, space), space))
                   case Some(b) => if |b| == WG_KEY_LEN then Some(b) else None
                   case None => None
  {
    key := Decode(TrimEnd(TrimStart(text, space), space));
    if key.Some? && |key.value| != WG_KEY_LEN { key := None; }
  }

  lemma {:induction false} TrimsSpaces(left: seq<char>, text: seq<char>, right: seq<char>, space: char -> bool)
    requires (forall c <- left :: space(c)) && (forall c <- right :: space(c))
    requires text != [] && !space(text[0]) && !space(text[|text| - 1])
    ensures TrimEnd(TrimStart(left + text + right, space), space) == text
    decreases |left| + |right|
  {
    var all := left + text + right;
    if left != [] {
      assert all[0] == left[0] && left[0] in left && all[1..] == left[1..] + text + right;
      TrimsSpaces(left[1..], text, right, space);
    } else {
      assert all == text + right && all[0] == text[0];
      TrimsRight(text, right, space);
    }
  }

  lemma {:induction false} TrimsRight(text: seq<char>, right: seq<char>, space: char -> bool)
    requires (forall c <- right :: space(c)) && text != [] && !space(text[|text| - 1])
    ensures TrimEnd(text + right, space) == text
    decreases |right|
  {
    var all := text + right;
    if right == [] {
      assert all == text;
    } else {
      var last := |all| - 1;
      assert all[last] == right[|right| - 1] && all[last] in right;
      assert all[..last] == text + right[..|right| - 1];
      TrimsRight(text, right[..|right| - 1], space);
    }
  }

  /** Every 32-byte key, with any white space around its base64, is recovered. */
  method RecoverKey(key: seq<Byte>, left: seq<char>, right: seq<char>, space: char -> bool)
    returns (r: Option<seq<Byte>>)
    requires |key| == WG_KEY_LEN && (forall c <- left :: space(c)) && (forall c <- right :: space(c))
    requires forall c :: c == '=' || Value(c).Some? ==> !space(c)
    ensures r == Some(key)
  {
    var text := Encode(key);
    EncodedCharacters(key);
    assert text[0] in text && text[|text| - 1] in text;
    TrimsSpaces(left, text, right, space);
    RoundTrip(key);
    r := DecodeKey(left + text + right, space);
  }

  lemma {:induction false} EncodedCharacters(b: seq<Byte>)
    requires b != []
    ensures Encode(b) != [] && forall c <- Encode(b) :: c == '=' || Value(c).Some?
  {
    ValuesOfSymbols(Sextets(b));
    ValuesNeedAlphabet(Symbols(Sextets(b)));
  }
}
