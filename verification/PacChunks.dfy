/**
 * Undoing HTTP chunked transfer coding of a fetched script. The text is a string in UTF-8, so it is
 * searched and cut by byte offset, and cutting inside a character panics.
 */
module PacChunks {
  import opened Wrappers
  import opened Bytes

  const USIZE := 0x1_0000_0000_0000_0000

  const CR: Byte := 13
  const LF: Byte := 10
  const CRLF: seq<Byte> := [CR, LF]
  const SEMICOLON: Byte := 59
  const PLUS: Byte := 43

  /** Trimming white space off both ends of a line, as Unicode has it. */
  type Trim = seq<Byte> -> seq<Byte>

  // ---- Reading a size --------------------------------------------------------------------

  function HexDigit(c: Byte): Option<nat> {
    if 48 <= c <= 57 then Some(c - 48)
    else if 97 <= c <= 102 then Some(c - 87)
    else if 65 <= c <= 70 then Some(c - 55)
    else None
  }

  /** Digits folded onto a value; overflow of the machine word is an error. */
  function HexFold(acc: nat, s: seq<Byte>): Option<nat>
    decreases |s|
  {
    if s == [] then Some(acc)
    else
      match HexDigit(s[0])
      case Some(d) => if acc * 16 + d < USIZE then HexFold(acc * 16 + d, s[1..]) else None
      case None => None
  }

  function ReadHex(s: seq<Byte>): Option<nat> {
    var digits := if s != [] && s[0] == PLUS then s[1..] else s;
    if digits == [] then None else HexFold(0, digits)
  }

  /** The line before the first CRLF, and what follows it. */
  function SplitLine(s: seq<Byte>): (r: Option<(seq<Byte>, seq<Byte>)>)
    ensures r.Some? ==> |r.value.1| < |s|
  {
    if |s| < 2 then None
    else if s[0] == CR && s[1] == LF then Some(([], s[2..]))
    else
      match SplitLine(s[1..])
      case None => None
      case Some((line, tail)) => Some(([s[0]] + line, tail))
  }

  function BeforeSemicolon(s: seq<Byte>): seq<Byte> {
    if s == [] || s[0] == SEMICOLON then [] else [s[0]] + BeforeSemicolon(s[1..])
  }

  function SizeOf(trim: Trim, line: seq<Byte>): Option<nat> { ReadHex(trim(BeforeSemicolon(line))) }

  /** The size declared in front and what follows its line, when there is a chunk to take. */
  function Front(trim: Trim, s: seq<Byte>): (r: Option<(nat, seq<Byte>)>)
    ensures r.Some? ==> 0 < r.value.0 <= |r.value.1| < |s|
  {
    match SplitLine(s)
    case None => None
    case Some((line, tail)) =>
      match SizeOf(trim, line)
      case None => None
      case Some(size) => if size == 0 || |tail| < size then None else Some((size, tail))
  }

  function AfterCrlf(s: seq<Byte>): (r: seq<Byte>)
    ensures |r| <= |s|
  {
    if |s| >= 2 && s[0] == CR && s[1] == LF then s[2..] else []
  }

  // ---- Cutting ----------------------------------------------------------------------------

  predicate Continuation(c: Byte) { 0x80 <= c < 0xC0 }

  /** A cut at the offset does not fall inside a character. */
  predicate Boundary(s: seq<Byte>, i: nat)
    requires i <= |s|
  {
    i == 0 || i == |s| || !Continuation(s[i])
  }

  datatype Unchunked = Text(bytes: seq<Byte>) | Panic

  function Before(data: seq<Byte>, u: Unchunked): Unchunked {
    match u
    case Text(b) => Text(data + b)
    case Panic => Panic
  }

  function Dechunked(trim: Trim, s: seq<Byte>): Unchunked
    decreases |s|
  {
    match Front(trim, s)
    case None => Text([])
    case Some((size, tail)) =>
      if !Boundary(tail, size) then Panic
      else Before(tail[..size], Dechunked(trim, AfterCrlf(tail[size..])))
  }

  lemma BeforeTwice(a: seq<Byte>, b: seq<Byte>, u: Unchunked)
    ensures Before(a, Before(b, u)) == Before(a + b, u)
  {
    if u.Text? { assert a + (b + u.bytes) == a + b + u.bytes; }
  }

  method Dechunk(trim: Trim, body: seq<Byte>) returns (r: Unchunked)
    ensures r == Dechunked(trim, body)
  {
    var out: seq<Byte> := [];
    var rest := body;
    assert forall b: seq<Byte> :: [] + b == b;
    while true
      invariant Before(out, Dechunked(trim, rest)) == Dechunked(trim, body)
      decreases |rest|
    {
      var split := SplitLine(rest);
      if split.None? { break; }
      var (line, tail) := split.value;
      var size := SizeOf(trim, line);
      if size.None? || size.value == 0 || |tail| < size.value { break; }
      var n := size.value;
      if !Boundary(tail, n) { return Panic; }
      BeforeTwice(out, tail[..n], Dechunked(trim, AfterCrlf(tail[n..])));
      out := out + tail[..n];
      rest := AfterCrlf(tail[n..]);
    }
    assert out + [] == out;
    r := Text(out);
  }

  // ---- When it panics -----------------------------------------------------------------------

  /** The chunk in front declares a size that ends inside a character. */
  predicate Splits(trim: Trim, s: seq<Byte>) {
    var f := Front(trim, s);
    f.Some? && !Boundary(f.value.1, f.value.0)
  }

  /** What is left to read, chunk after chunk. */
  function Rests(trim: Trim, s: seq<Byte>): seq<seq<Byte>>
    decreases |s|
  {
    var f := Front(trim, s);
    if f.None? || Splits(trim, s) then [s] else [s] + Rests(trim, AfterCrlf(f.value.1[f.value.0..]))
  }

  /** For every text: de-chunking panics if and only if it meets a chunk whose size ends inside a character. */
  lemma {:induction false} PanicsExactly(trim: Trim, s: seq<Byte>)
    ensures Dechunked(trim, s).Panic? <==> exists r <- Rests(trim, s) :: Splits(trim, r)
    decreases |s|
  {
    var f := Front(trim, s);
    assert Rests(trim, s)[0] == s;
    if f.Some? && !Splits(trim, s) { PanicsExactly(trim, AfterCrlf(f.value.1[f.value.0..])); }
  }

  // ---- Chunked text ------------------------------------------------------------------------

  function HexChar(d: nat): Byte
    requires d < 16
  {
    if d < 10 then 48 + d else 87 + d
  }

  function Hex(n: nat): (r: seq<Byte>)
    ensures r != []
  {
    if n < 16 then [HexChar(n)] else Hex(n / 16) + [HexChar(n % 16)]
  }

  datatype Chunk = Chunk(data: seq<Byte>, extension: seq<Byte>)

  /** An extension starts with a semicolon and stays on its line. */
  predicate WfExtension(extension: seq<Byte>) {
    (extension == [] || extension[0] == SEMICOLON) && CR !in extension
  }

  predicate WfChunk(ch: Chunk) { 0 < |ch.data| < USIZE && WfExtension(ch.extension) }

  function SizeLine(n: nat, extension: seq<Byte>, tail: seq<Byte>): seq<Byte> {
    (Hex(n) + extension) + (CRLF + tail)
  }

  function Chunks(chs: seq<Chunk>, last: seq<Byte>): seq<Byte> {
    if chs == [] then last
    else SizeLine(|chs[0].data|, chs[0].extension, chs[0].data + (CRLF + Chunks(chs[1..], last)))
  }

  function Joined(chs: seq<Chunk>): seq<Byte> {
    if chs == [] then [] else chs[0].data + Joined(chs[1..])
  }

  lemma {:induction false} FoldSnoc(acc: nat, s: seq<Byte>, c: Byte)
    ensures HexFold(acc, s + [c]) == if HexFold(acc, s).Some? then HexFold(HexFold(acc, s).value, [c]) else None
    decreases |s|
  {
    if s == [] {
      assert s + [c] == [c];
    } else {
      assert (s + [c])[0] == s[0] && (s + [c])[1..] == s[1..] + [c];
      var d := HexDigit(s[0]);
      if d.Some? && acc * 16 + d.value < USIZE { FoldSnoc(acc * 16 + d.value, s[1..], c); }
    }
  }

  lemma FoldOne(acc: nat, d: nat)
    requires d < 16 && acc * 16 + d < USIZE
    ensures HexFold(acc, [HexChar(d)]) == Some(acc * 16 + d)
  {
    assert HexDigit(HexChar(d)) == Some(d);
  }

  lemma {:induction false} HexRoundTrip(n: nat)
    requires n < USIZE
    ensures HexFold(0, Hex(n)) == Some(n)
  {
    if n < 16 {
      FoldOne(0, n);
    } else {
      HexRoundTrip(n / 16);
      FoldSnoc(0, Hex(n / 16), HexChar(n % 16));
      FoldOne(n / 16, n % 16);
    }
  }

  ghost predicate Plain(s: seq<Byte>) {
    forall i :: 0 <= i < |s| ==> HexDigit(s[i]).Some?
  }

  lemma {:induction false} HexIsPlain(n: nat)
    ensures Plain(Hex(n))
  {
    assert HexDigit(HexChar(n % 16)).Some?;
    if n >= 16 { HexIsPlain(n / 16); }
  }

  lemma {:induction false} LineSplits(line: seq<Byte>, tail: seq<Byte>)
    requires CR !in line
    ensures SplitLine(line + (CRLF + tail)) == Some((line, tail))
  {
    var s := line + (CRLF + tail);
    if line == [] {
      assert s == CRLF + tail && s[2..] == tail;
    } else {
      assert s[0] == line[0] && line[0] in line && s[1..] == line[1..] + (CRLF + tail);
      assert forall c :: c in line[1..] ==> c in line;
      LineSplits(line[1..], tail);
      assert [line[0]] + line[1..] == line;
    }
  }

  lemma {:induction false} ExtensionDropped(digits: seq<Byte>, extension: seq<Byte>)
    requires Plain(digits) && (extension == [] || extension[0] == SEMICOLON)
    ensures BeforeSemicolon(digits + extension) == digits
  {
    if digits == [] {
      assert digits + extension == extension;
    } else {
      var s := digits + extension;
      assert s[0] == digits[0] && HexDigit(SEMICOLON) == None && s[1..] == digits[1..] + extension;
      ExtensionDropped(digits[1..], extension);
      assert [digits[0]] + digits[1..] == digits;
    }
  }

  /** What is relied on about white space: no digit is any. */
  ghost predicate KeepsDigits(trim: Trim) {
    forall s :: s != [] && HexDigit(s[0]).Some? && HexDigit(s[|s| - 1]).Some? ==> trim(s) == s
  }

  lemma SizeReads(trim: Trim, n: nat, extension: seq<Byte>)
    requires KeepsDigits(trim) && n < USIZE && WfExtension(extension)
    ensures SizeOf(trim, Hex(n) + extension) == Some(n)
  {
    HexIsPlain(n);
    ExtensionDropped(Hex(n), extension);
    HexRoundTrip(n);
    var h := Hex(n);
    assert HexDigit(h[0]).Some? && HexDigit(h[|h| - 1]).Some? && HexDigit(PLUS) == None;
    assert trim(h) == h;
  }

  /** A declared size and its extension are read for what they say, whatever follows. */
  lemma SizeLineReads(trim: Trim, n: nat, extension: seq<Byte>, tail: seq<Byte>)
    requires KeepsDigits(trim) && n < USIZE && WfExtension(extension)
    ensures Front(trim, SizeLine(n, extension, tail)) == if n == 0 || |tail| < n then None else Some((n, tail))
  {
    var line := Hex(n) + extension;
    HexIsPlain(n);
    assert HexDigit(CR) == None;
    assert CR !in line;
    LineSplits(line, tail);
    SizeReads(trim, n, extension);
  }

  /** A size a server sends is enough: it panics exactly when it is there in full and ends inside a character. */
  lemma DeclaredSizeSplits(trim: Trim, n: nat, extension: seq<Byte>, tail: seq<Byte>)
    requires KeepsDigits(trim) && n < USIZE && WfExtension(extension)
    ensures Splits(trim, SizeLine(n, extension, tail)) <==> 0 < n < |tail| && Continuation(tail[n])
    ensures Splits(trim, SizeLine(n, extension, tail)) ==> Dechunked(trim, SizeLine(n, extension, tail)) == Panic
  {
    SizeLineReads(trim, n, extension, tail);
  }

  /** It happens on UTF-8: a chunk declared one byte long before a two-byte character, such as C3 A9 for an e acute. */
  lemma CutCharacterPanics(trim: Trim, lead: Byte, second: Byte, rest: seq<Byte>)
    requires KeepsDigits(trim) && 0xC2 <= lead <= 0xDF && 0x80 <= second <= 0xBF
    ensures Dechunked(trim, SizeLine(1, [], [lead, second] + rest)) == Panic
  {
    DeclaredSizeSplits(trim, 1, [], [lead, second] + rest);
  }

  lemma ChunkReads(trim: Trim, ch: Chunk, rest: seq<Byte>)
    requires KeepsDigits(trim) && WfChunk(ch)
    ensures Dechunked(trim, SizeLine(|ch.data|, ch.extension, ch.data + (CRLF + rest)))
            == Before(ch.data, Dechunked(trim, rest))
  {
    var n, tail := |ch.data|, ch.data + (CRLF + rest);
    SizeLineReads(trim, n, ch.extension, tail);
    assert tail[..n] == ch.data && tail[n..] == CRLF + rest && tail[n] == CR;
    assert (CRLF + rest)[2..] == rest;
  }

  /** Any way of cutting a body into chunks is undone, without a panic, up to the closing zero chunk. */
  lemma {:induction false} DechunkUndoesChunking(trim: Trim, chs: seq<Chunk>, extension: seq<Byte>, trailer: seq<Byte>)
    requires KeepsDigits(trim) && WfExtension(extension) && forall i :: 0 <= i < |chs| ==> WfChunk(chs[i])
    ensures Dechunked(trim, Chunks(chs, SizeLine(0, extension, trailer))) == Text(Joined(chs))
  {
    var last := SizeLine(0, extension, trailer);
    if chs == [] {
      SizeLineReads(trim, 0, extension, trailer);
    } else {
      DechunkUndoesChunking(trim, chs[1..], extension, trailer);
      ChunkReads(trim, chs[0], Chunks(chs[1..], last));
    }
  }
}
