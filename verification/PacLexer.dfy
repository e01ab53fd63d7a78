/** The PAC tokenizer, and the text form of token streams under any layout. */
module PacLexer {
  import opened Wrappers
  import opened PacSyntax
  import PacParser
  import PacRoundTrip

  /** Unicode's character classes, and the reading and writing of number literals. */
  datatype Env = Env(
    space: char -> bool, letter: char -> bool, alnum: char -> bool,
    read: string -> Option<Number>, show: Number -> string)

  predicate Digit(c: char) { '0' <= c <= '9' }

  predicate Numeral(c: char) { Digit(c) || c == '.' }

  const SYMBOLS := {'/', '(', ')', '{', '}', ';', ',', '+', '!', '=', '&', '|', '<', '>', '"', '\'', '.', '_', '$'}

  /** What the tokenizer relies on about Unicode. */
  ghost predicate Sane(e: Env) {
    && e.space(' ') && e.space('\n')
    && (forall c :: e.space(c) ==> !e.alnum(c) && !Digit(c) && c !in SYMBOLS)
    && (forall c :: e.letter(c) ==> e.alnum(c) && !Digit(c))
    && (forall c :: c in SYMBOLS ==> !e.alnum(c))
  }

  predicate IdentStart(e: Env, c: char) { e.letter(c) || c == '_' || c == '$' }

  predicate IdentPart(e: Env, c: char) { e.alnum(c) || c == '_' || c == '$' }

  // ---- The language of tokens ------------------------------------------------------------

  function LineEnd(s: string): (r: string)
    ensures |r| <= |s|
  {
    if s == [] || s[0] == '\n' then s else LineEnd(s[1..])
  }

  /** What follows a comment whose opening has been consumed; an unclosed one swallows the rest. */
  function BlockEnd(s: string): (r: string)
    ensures |r| <= |s|
  {
    if |s| < 2 then [] else if s[0] == '*' && s[1] == '/' then s[2..] else BlockEnd(s[1..])
  }

  function Span(p: char -> bool, s: string): (r: (string, string))
    ensures |r.0| + |r.1| == |s|
  {
    if s == [] || !p(s[0]) then ("", s)
    else
      var (run, rest) := Span(p, s[1..]);
      ([s[0]] + run, rest)
  }

  function Unescaped(c: char): char { if c == 'n' then '\n' else if c == 't' then '\t' else c }

  /** A string's text and what follows its closing quote. */
  function StringBody(quote: char, s: string): (r: Option<(string, string)>)
    ensures r.Some? ==> |r.value.1| < |s|
  {
    if s == [] then None
    else if s[0] == quote then Some(("", s[1..]))
    else
      var escaped := s[0] == '\\' && |s| > 1;
      match StringBody(quote, if escaped then s[2..] else s[1..])
      case None => None
      case Some((text, rest)) => Some(([if escaped then Unescaped(s[1]) else s[0]] + text, rest))
  }

  datatype Piece = Skip(rest: string) | Token(tok: Tok, rest: string) | Bad

  function OneOrTwo(s: string, second: char, two: Tok, one: Tok): Piece
    requires s != []
  {
    if |s| > 1 && s[1] == second then Token(two, s[2..]) else Token(one, s[1..])
  }

  function Symbol(s: string): Piece
    requires s != []
  {
    match s[0]
    case '(' => Token(LParen, s[1..])
    case ')' => Token(RParen, s[1..])
    case '{' => Token(LBrace, s[1..])
    case '}' => Token(RBrace, s[1..])
    case ';' => Token(Semi, s[1..])
    case ',' => Token(Comma, s[1..])
    case '+' => Token(Plus, s[1..])
    case '!' => OneOrTwo(s, '=', NotEq, Not)
    case '=' => OneOrTwo(s, '=', EqEq, Tok.Assign)
    case '<' => OneOrTwo(s, '=', Le, Lt)
    case '>' => OneOrTwo(s, '=', Ge, Gt)
    case '&' => if |s| > 1 && s[1] == '&' then Token(AndAnd, s[2..]) else Bad
    case '|' => if |s| > 1 && s[1] == '|' then Token(OrOr, s[2..]) else Bad
    case _ => Bad
  }

  predicate IsSymbol(c: char) {
    c in {'(', ')', '{', '}', ';', ',', '+', '!', '=', '<', '>', '&', '|'}
  }

  function StringPiece(quote: char, t: string): (r: Piece)
    ensures !r.Bad? ==> |r.rest| < |t|
  {
    match StringBody(quote, t)
    case None => Bad
    case Some((text, rest)) => Token(Str(text), rest)
  }

  function NumberPiece(e: Env, c: char, t: string): (r: Piece)
    ensures !r.Bad? ==> |r.rest| <= |t|
  {
    var (run, rest) := Span(Numeral, t);
    match e.read([c] + run)
    case None => Bad
    case Some(n) => Token(Num(n), rest)
  }

  function NamePiece(e: Env, c: char, t: string): (r: Piece)
    ensures !r.Bad? ==> |r.rest| <= |t|
  {
    var (run, rest) := Span((x: char) => IdentPart(e, x), t);
    Token(Ident([c] + run), rest)
  }

  function LexOne(e: Env, s: string): (r: Piece)
    requires s != []
    ensures !r.Bad? ==> |r.rest| < |s|
  {
    var c, t := s[0], s[1..];
    if e.space(c) then Skip(t)
    else if c == '/' && t != [] && t[0] == '/' then Skip(LineEnd(t))
    else if c == '/' && t != [] && t[0] == '*' then Skip(BlockEnd(t[1..]))
    else if IsSymbol(c) then Symbol(s)
    else if c == '"' || c == '\'' then StringPiece(c, t)
    else if Digit(c) then NumberPiece(e, c, t)
    else if IdentStart(e, c) then NamePiece(e, c, t)
    else Bad
  }

  function Lex(e: Env, s: string): Option<Toks>
    decreases |s|
  {
    if s == [] then Some(End)
    else
      match LexOne(e, s)
      case Bad => None
      case Skip(rest) => Lex(e, rest)
      case Token(t, rest) => OnTo(t, Lex(e, rest))
  }

  function OnTo(t: Tok, ts: Option<Toks>): Option<Toks> {
    match ts
    case None => None
    case Some(l) => Some(Cons(t, l))
  }

  // ---- Text with any layout ------------------------------------------------------------------

  datatype Gap = Blank(c: char) | Line(text: string) | Block(text: string)

  /** No closing of a comment before its end, even with a star put after it. */
  ghost predicate NoClose(text: string) {
    forall i :: 0 <= i < |text| && text[i] == '*' && i + 1 < |text| ==> text[i + 1] != '/'
  }

  ghost predicate WfGap(e: Env, g: Gap) {
    match g
    case Blank(c) => e.space(c)
    case Line(text) => '\n' !in text
    case Block(text) => NoClose(text + "*")
  }

  function GapText(g: Gap, rest: string): string {
    match g
    case Blank(c) => [c] + rest
    case Line(text) => "//" + (text + ("\n" + rest))
    case Block(text) => "/*" + (text + ("*/" + rest))
  }

  function GapsText(gs: seq<Gap>, rest: string): string {
    if gs == [] then rest else GapText(gs[0], GapsText(gs[1..], rest))
  }

  function Escaped(text: string, rest: string): string {
    if text == [] then "\"" + rest
    else if text[0] == '"' || text[0] == '\\' then ['\\', text[0]] + Escaped(text[1..], rest)
    else [text[0]] + Escaped(text[1..], rest)
  }

  /** The tokens that have a text: names that are names, numbers that have a literal. */
  ghost predicate Writable(e: Env, t: Tok) {
    match t
    case Ident(n) => n != [] && IdentStart(e, n[0]) && forall i :: 0 <= i < |n| ==> IdentPart(e, n[i])
    case Num(v) =>
      var n := e.show(v);
      n != [] && Digit(n[0]) && (forall i :: 0 <= i < |n| ==> Numeral(n[i])) && e.read(n) == Some(v)
    case Eof => false
    case _ => true
  }

  function SymbolText(t: Tok): string {
    match t
    case LParen => "("
    case RParen => ")"
    case LBrace => "{"
    case RBrace => "}"
    case Semi => ";"
    case Comma => ","
    case Assign => "="
    case EqEq => "=="
    case NotEq => "!="
    case Not => "!"
    case AndAnd => "&&"
    case OrOr => "||"
    case Plus => "+"
    case Lt => "<"
    case Gt => ">"
    case Le => "<="
    case Ge => ">="
    case _ => ""
  }

  function TokText(e: Env, t: Tok, rest: string): string {
    match t
    case Ident(n) => n + rest
    case Str(text) => "\"" + Escaped(text, rest)
    case Num(v) => e.show(v) + rest
    case _ => SymbolText(t) + rest
  }

  /** What may stand at the very end: nothing, or a comment that is never finished. */
  datatype Ending = Clean | OpenLine(text: string) | OpenBlock(text: string)

  ghost predicate WfEnding(x: Ending) {
    match x
    case Clean => true
    case OpenLine(text) => '\n' !in text
    case OpenBlock(text) => NoClose(text)
  }

  function EndingText(x: Ending): string {
    match x
    case Clean => ""
    case OpenLine(text) => "//" + text
    case OpenBlock(text) => "/*" + text
  }

  /** Each token followed by its gaps, which may be none. */
  function Text(e: Env, ts: Toks, layout: nat -> seq<Gap>, k: nat, last: Ending): string
    decreases ts
  {
    if ts.End? then EndingText(last)
    else TokText(e, ts.head, GapsText(layout(k), Text(e, ts.tail, layout, k + 1, last)))
  }

  // ---- Gaps are skipped ------------------------------------------------------------------------

  lemma {:induction false} LineSkips(text: string, rest: string)
    requires '\n' !in text
    ensures LineEnd(text + ("\n" + rest)) == "\n" + rest
  {
    var s := text + ("\n" + rest);
    if text == [] {
      assert s == "\n" + rest;
    } else {
      assert s[0] == text[0] && s[1..] == text[1..] + ("\n" + rest);
      assert text[0] in text && forall c :: c in text[1..] ==> c in text;
      LineSkips(text[1..], rest);
    }
  }

  lemma {:induction false} BlockSkips(text: string, rest: string)
    requires NoClose(text + "*")
    ensures BlockEnd(text + ("*/" + rest)) == rest
  {
    var s := text + ("*/" + rest);
    if text == [] {
      assert s == "*/" + rest && s[2..] == rest;
    } else {
      assert s[0] == text[0] && s[1..] == text[1..] + ("*/" + rest);
      var all := text + "*";
      assert s[1] == all[1];
      assert text[0] == all[0];
      assert text[1..] + "*" == all[1..];
      BlockSkips(text[1..], rest);
    }
  }

  lemma GapIsSkipped(e: Env, g: Gap, rest: string)
    requires Sane(e) && WfGap(e, g)
    ensures Lex(e, GapText(g, rest)) == Lex(e, rest)
  {
    var s := GapText(g, rest);
    match g
    case Blank(c) => assert s[1..] == rest;
    case Line(text) =>
      assert s[1..] == "/" + (text + ("\n" + rest));
      LineSkips(text, rest);
      assert s[1..][1..] == text + ("\n" + rest);
      assert LexOne(e, s) == Skip("\n" + rest);
      assert ("\n" + rest)[1..] == rest;
    case Block(text) =>
      assert s[1..] == "*" + (text + ("*/" + rest));
      assert s[1..][1..] == text + ("*/" + rest);
      BlockSkips(text, rest);
  }

  lemma {:induction false} GapsAreSkipped(e: Env, gs: seq<Gap>, rest: string)
    requires Sane(e) && forall i :: 0 <= i < |gs| ==> WfGap(e, gs[i])
    ensures Lex(e, GapsText(gs, rest)) == Lex(e, rest)
  {
    if gs != [] {
      GapsAreSkipped(e, gs[1..], rest);
      GapIsSkipped(e, gs[0], GapsText(gs[1..], rest));
    }
  }

  lemma {:induction false} LineNeverEnds(text: string)
    requires '\n' !in text
    ensures LineEnd(text) == []
  {
    if text != [] { LineNeverEnds(text[1..]); }
  }

  lemma {:induction false} BlockNeverEnds(text: string)
    requires NoClose(text)
    ensures BlockEnd(text) == []
  {
    if |text| >= 2 {
      assert text[0] == '*' ==> text[1] != '/';
      BlockNeverEnds(text[1..]);
    }
  }

  lemma EndingIsSkipped(e: Env, x: Ending)
    requires Sane(e) && WfEnding(x)
    ensures Lex(e, EndingText(x)) == Some(End)
  {
    var s := EndingText(x);
    match x
    case Clean =>
    case OpenLine(text) =>
      assert s[1..] == "/" + text && LineEnd(s[1..]) == LineEnd(s[1..][1..]) && s[1..][1..] == text;
      LineNeverEnds(text);
      assert LexOne(e, s) == Skip([]);
    case OpenBlock(text) =>
      assert s[1..] == "*" + text && s[1..][1..] == text;
      BlockNeverEnds(text);
      assert LexOne(e, s) == Skip([]);
  }

  // ---- When a token ends --------------------------------------------------------------------------

  /** The next character would become part of the token. */
  predicate Joins(e: Env, t: Tok, c: char) {
    match t
    case Ident(_) => IdentPart(e, c)
    case Num(_) => Numeral(c)
    case Not | Assign | Lt | Gt => c == '='
    case _ => false
  }

  predicate Ends(e: Env, t: Tok, rest: string) { rest == [] || !Joins(e, t, rest[0]) }

  /** Any gap ends any token. */
  lemma GapsEnd(e: Env, t: Tok, gs: seq<Gap>, rest: string)
    requires Sane(e) && gs != [] && WfGap(e, gs[0])
    ensures Ends(e, t, GapsText(gs, rest))
  {
    var more := GapsText(gs[1..], rest);
    assert GapsText(gs, rest) == GapText(gs[0], more);
    var c := GapsText(gs, rest)[0];
    assert e.space(c) || c == '/';
  }

  // ---- Tokens are read back -----------------------------------------------------------------------

  lemma {:induction false} SpanStops(p: char -> bool, run: string, rest: string)
    requires (forall i :: 0 <= i < |run| ==> p(run[i])) && (rest == [] || !p(rest[0]))
    ensures Span(p, run + rest) == (run, rest)
  {
    if run == [] {
      assert run + rest == rest;
    } else {
      assert (run + rest)[1..] == run[1..] + rest;
      SpanStops(p, run[1..], rest);
      assert [run[0]] + run[1..] == run;
    }
  }

  lemma {:induction false} EscapesUndone(text: string, rest: string)
    ensures StringBody('"', Escaped(text, rest)) == Some((text, rest))
  {
    var s := Escaped(text, rest);
    if text == [] {
      assert s[1..] == rest;
    } else {
      EscapesUndone(text[1..], rest);
      var more := Escaped(text[1..], rest);
      assert if text[0] == '"' || text[0] == '\\' then s[2..] == more else s[1..] == more;
      assert [text[0]] + text[1..] == text;
    }
  }

  /** And one that should have gone on leaves less. */
  lemma {:induction false} SpanGoesOn(p: char -> bool, run: string, rest: string)
    requires (forall i :: 0 <= i < |run| ==> p(run[i])) && rest != [] && p(rest[0])
    ensures |Span(p, run + rest).1| < |rest|
  {
    if run == [] {
      assert run + rest == rest;
    } else {
      assert (run + rest)[1..] == run[1..] + rest;
      SpanGoesOn(p, run[1..], rest);
    }
  }

  lemma IdentReads(e: Env, n: string, rest: string)
    requires Sane(e) && Writable(e, Ident(n))
    ensures LexOne(e, n + rest) == Token(Ident(n), rest) <==> Ends(e, Ident(n), rest)
  {
    var s, part := n + rest, (x: char) => IdentPart(e, x);
    assert s[0] == n[0] && s[1..] == n[1..] + rest;
    assert IdentPart(e, n[0]) && (e.letter(n[0]) ==> e.alnum(n[0]));
    assert LexOne(e, s) == NamePiece(e, n[0], n[1..] + rest);
    if Ends(e, Ident(n), rest) {
      SpanStops(part, n[1..], rest);
      assert [n[0]] + n[1..] == n;
    } else {
      SpanGoesOn(part, n[1..], rest);
    }
  }

  lemma NumberReads(e: Env, v: Number, rest: string)
    requires Sane(e) && Writable(e, Num(v))
    ensures LexOne(e, e.show(v) + rest) == Token(Num(v), rest) <==> Ends(e, Num(v), rest)
  {
    var n := e.show(v);
    var s := n + rest;
    assert s[0] == n[0] && s[1..] == n[1..] + rest;
    assert LexOne(e, s) == NumberPiece(e, n[0], n[1..] + rest);
    if Ends(e, Num(v), rest) {
      SpanStops(Numeral, n[1..], rest);
      assert [n[0]] + n[1..] == n;
    } else {
      SpanGoesOn(Numeral, n[1..], rest);
    }
  }

  lemma SymbolReads(e: Env, t: Tok, rest: string)
    requires Sane(e) && SymbolText(t) != ""
    ensures LexOne(e, SymbolText(t) + rest) == Token(t, rest) <==> Ends(e, t, rest)
  {
    var text := SymbolText(t);
    var s := text + rest;
    assert s[0] == text[0] && s[|text|..] == rest;
    assert IsSymbol(text[0]) && text[0] in SYMBOLS;
    assert LexOne(e, s) == Symbol(s);
    assert |text| == 2 ==> s[1] == text[1];
    assert |text| == 1 && rest != [] ==> s[1] == rest[0];
  }

  /** One token in front of any text is read back if and only if the text's first character does not join it. */
  lemma TokenReads(e: Env, t: Tok, rest: string)
    requires Sane(e) && Writable(e, t)
    ensures TokText(e, t, rest) != []
    ensures LexOne(e, TokText(e, t, rest)) == Token(t, rest) <==> Ends(e, t, rest)
  {
    match t
    case Ident(n) => IdentReads(e, n, rest);
    case Str(text) =>
      EscapesUndone(text, rest);
      assert TokText(e, t, rest)[1..] == Escaped(text, rest);
    case Num(v) => NumberReads(e, v, rest);
    case _ => SymbolReads(e, t, rest);
  }

  ghost predicate AllWritable(e: Env, ts: Toks) {
    ts.Cons? ==> Writable(e, ts.head) && AllWritable(e, ts.tail)
  }

  function FirstChar(e: Env, t: Tok): char
    requires TokText(e, t, "") != []
  {
    TokText(e, t, "")[0]
  }

  lemma FirstCharStays(e: Env, t: Tok, rest: string)
    requires Writable(e, t)
    ensures TokText(e, t, "") != [] && TokText(e, t, rest) != [] && TokText(e, t, rest)[0] == FirstChar(e, t)
  {
    if t.Ident? {
      assert (t.name + rest)[0] == t.name[0] && (t.name + "")[0] == t.name[0];
    } else if t.Num? {
      assert (e.show(t.num) + rest)[0] == e.show(t.num)[0] && (e.show(t.num) + "")[0] == e.show(t.num)[0];
    } else if !t.Str? {
      assert (SymbolText(t) + rest)[0] == SymbolText(t)[0] && (SymbolText(t) + "")[0] == SymbolText(t)[0];
    }
  }

  /** Gaps are gaps, and two tokens stand without one only where the second does not join the first. */
  ghost predicate LaidOut(e: Env, ts: Toks, layout: nat -> seq<Gap>, k: nat)
    requires AllWritable(e, ts)
    decreases ts
  {
    ts.Cons? ==>
      && (forall i :: 0 <= i < |layout(k)| ==> WfGap(e, layout(k)[i]))
      && (layout(k) == [] && ts.tail.Cons? ==>
            TokText(e, ts.tail.head, "") != [] && !Joins(e, ts.head, FirstChar(e, ts.tail.head)))
      && LaidOut(e, ts.tail, layout, k + 1)
  }

  lemma TokenEnds(e: Env, ts: Toks, layout: nat -> seq<Gap>, k: nat, last: Ending)
    requires Sane(e) && ts.Cons? && AllWritable(e, ts) && LaidOut(e, ts, layout, k)
    ensures Ends(e, ts.head, GapsText(layout(k), Text(e, ts.tail, layout, k + 1, last)))
  {
    var more := Text(e, ts.tail, layout, k + 1, last);
    if layout(k) != [] {
      GapsEnd(e, ts.head, layout(k), more);
    } else if ts.tail.Cons? {
      FirstCharStays(e, ts.tail.head, GapsText(layout(k + 1), Text(e, ts.tail.tail, layout, k + 2, last)));
    } else {
      assert more == [] || more[0] == '/';
    }
  }

  /** Tokens written out under any layout that keeps them apart are read back as they were. */
  lemma {:induction false} LexUndoesText(e: Env, ts: Toks, layout: nat -> seq<Gap>, k: nat, last: Ending)
    requires Sane(e) && AllWritable(e, ts) && LaidOut(e, ts, layout, k) && WfEnding(last)
    ensures Lex(e, Text(e, ts, layout, k, last)) == Some(ts)
    decreases ts
  {
    if ts.End? {
      EndingIsSkipped(e, last);
    } else {
      var more := Text(e, ts.tail, layout, k + 1, last);
      LexUndoesText(e, ts.tail, layout, k + 1, last);
      TokenEnds(e, ts, layout, k, last);
      GapsAreSkipped(e, layout(k), more);
      TokenReads(e, ts.head, GapsText(layout(k), more));
    }
  }

  /** With gaps of any kind before the first token as well. */
  lemma LexUndoesLayout(e: Env, lead: seq<Gap>, ts: Toks, layout: nat -> seq<Gap>, last: Ending)
    requires Sane(e) && AllWritable(e, ts) && LaidOut(e, ts, layout, 0) && WfEnding(last)
    requires forall i :: 0 <= i < |lead| ==> WfGap(e, lead[i])
    ensures Lex(e, GapsText(lead, Text(e, ts, layout, 0, last))) == Some(ts)
  {
    GapsAreSkipped(e, lead, Text(e, ts, layout, 0, last));
    LexUndoesText(e, ts, layout, 0, last);
  }

  // ---- The tokenizer itself ------------------------------------------------------------------------

  method LineStop(src: string, from: nat) returns (i: nat)
    requires from <= |src|
    ensures from <= i <= |src| && src[i..] == LineEnd(src[from..])
  {
    i := from;
    while i < |src| && src[i] != '\n'
      invariant from <= i <= |src| && LineEnd(src[i..]) == LineEnd(src[from..])
    {
      assert src[i..][1..] == src[i + 1..];
      i := i + 1;
    }
  }

  method BlockStop(src: string, from: nat) returns (i: nat)
    requires from <= |src|
    ensures from <= i <= |src| && src[i..] == BlockEnd(src[from..])
  {
    i := from;
    while i + 1 < |src| && !(src[i] == '*' && src[i + 1] == '/')
      invariant from <= i <= |src| && BlockEnd(src[i..]) == BlockEnd(src[from..])
    {
      assert src[i..][1..] == src[i + 1..];
      i := i + 1;
    }
    if i + 1 < |src| { assert src[i..][2..] == src[i + 2..]; }
    i := if i + 2 < |src| then i + 2 else |src|;
  }

  method RunStop(p: char -> bool, src: string, from: nat) returns (i: nat)
    requires from <= |src|
    ensures from <= i <= |src| && Span(p, src[from..]) == (src[from..i], src[i..])
  {
    i := from;
    assert src[from..i] + Span(p, src[from..]).0 == Span(p, src[from..]).0;
    while i < |src| && p(src[i])
      invariant from <= i <= |src|
      invariant Span(p, src[from..]) == (src[from..i] + Span(p, src[i..]).0, Span(p, src[i..]).1)
    {
      assert src[i..][1..] == src[i + 1..];
      assert src[from..i] + ([src[i]] + Span(p, src[i + 1..]).0) == src[from..i + 1] + Span(p, src[i + 1..]).0;
      i := i + 1;
    }
    assert src[from..i] + [] == src[from..i];
  }

  function InFront(text: string, r: Option<(string, string)>): Option<(string, string)> {
    match r
    case None => None
    case Some((more, rest)) => Some((text + more, rest))
  }

  lemma InFrontTwice(a: string, b: string, r: Option<(string, string)>)
    ensures InFront(a, InFront(b, r)) == InFront(a + b, r)
  {
    if r.Some? { assert a + (b + r.value.0) == a + b + r.value.0; }
  }

  /** Reads a string from just past its opening quote. */
  method ReadString(src: string, from: nat, quote: char) returns (ok: bool, text: string, i: nat)
    requires from <= |src|
    ensures from <= i <= |src|
    ensures StringBody(quote, src[from..]) == if ok then Some((text, src[i..])) else None
  {
    i, text := from, "";
    assert forall more: string :: "" + more == more;
    while i < |src| && src[i] != quote
      invariant from <= i <= |src|
      invariant StringBody(quote, src[from..]) == InFront(text, StringBody(quote, src[i..]))
      decreases |src| - i
    {
      ghost var before, start := text, i;
      assert src[i..][0] == src[i] && src[i..][1..] == src[i + 1..];
      if src[i] == '\\' && i + 1 < |src| {
        assert src[i..][1] == src[i + 1] && src[i..][2..] == src[i + 2..];
        i := i + 1;
        text := text + [Unescaped(src[i])];
      } else {
        text := text + [src[i]];
      }
      i := i + 1;
      assert StringBody(quote, src[start..]) == InFront([text[|text| - 1]], StringBody(quote, src[i..]));
      InFrontTwice(before, [text[|text| - 1]], StringBody(quote, src[i..]));
    }
    if i >= |src| { return false, text, i; }
    assert src[i..][1..] == src[i + 1..];
    assert text + "" == text;
    ok, i := true, i + 1;
  }

  datatype Found = Nothing | Got(tok: Tok) | Failed

  ghost function AsPiece(f: Found, rest: string): Piece {
    match f
    case Nothing => Skip(rest)
    case Got(t) => Token(t, rest)
    case Failed => Bad
  }

  method ReadSymbol(src: string, i: nat) returns (f: Found, j: nat)
    requires i < |src| && IsSymbol(src[i])
    ensures i < j <= |src| && Symbol(src[i..]) == AsPiece(f, src[j..])
  {
    var c := src[i];
    var second := if i + 1 < |src| then Some(src[i + 1]) else None;
    assert src[i..][1..] == src[i + 1..];
    if i + 1 < |src| { assert src[i..][2..] == src[i + 2..]; }
    j := i + 1;
    match c
    case '(' => f := Got(LParen);
    case ')' => f := Got(RParen);
    case '{' => f := Got(LBrace);
    case '}' => f := Got(RBrace);
    case ';' => f := Got(Semi);
    case ',' => f := Got(Comma);
    case '+' => f := Got(Plus);
    case '!' => if second == Some('=') { f, j := Got(NotEq), i + 2; } else { f := Got(Not); }
    case '=' => if second == Some('=') { f, j := Got(EqEq), i + 2; } else { f := Got(Tok.Assign); }
    case '<' => if second == Some('=') { f, j := Got(Le), i + 2; } else { f := Got(Lt); }
    case '>' => if second == Some('=') { f, j := Got(Ge), i + 2; } else { f := Got(Gt); }
    case '&' => if second == Some('&') { f, j := Got(AndAnd), i + 2; } else { f := Failed; }
    case _ => if second == Some('|') { f, j := Got(OrOr), i + 2; } else { f := Failed; }
  }

  method ReadQuoted(src: string, i: nat) returns (f: Found, j: nat)
    requires i < |src|
    ensures i < j <= |src| && StringPiece(src[i], src[i + 1..]) == AsPiece(f, src[j..])
  {
    var ok, text;
    ok, text, j := ReadString(src, i + 1, src[i]);
    f := if ok then Got(Str(text)) else Failed;
  }

  method ReadNumber(e: Env, src: string, i: nat) returns (f: Found, j: nat)
    requires i < |src|
    ensures i < j <= |src| && NumberPiece(e, src[i], src[i + 1..]) == AsPiece(f, src[j..])
  {
    j := RunStop(Numeral, src, i + 1);
    assert src[i..j] == [src[i]] + src[i + 1..j];
    var n := e.read(src[i..j]);
    f := if n.Some? then Got(Num(n.value)) else Failed;
  }

  method ReadName(e: Env, src: string, i: nat) returns (f: Found, j: nat)
    requires i < |src|
    ensures i < j <= |src| && NamePiece(e, src[i], src[i + 1..]) == AsPiece(f, src[j..])
  {
    j := RunStop((x: char) => IdentPart(e, x), src, i + 1);
    assert src[i..j] == [src[i]] + src[i + 1..j];
    f := Got(Ident(src[i..j]));
  }

  method ReadPiece(e: Env, src: string, i: nat) returns (f: Found, j: nat)
    requires i < |src|
    ensures i < j <= |src| && LexOne(e, src[i..]) == AsPiece(f, src[j..])
  {
    var c := src[i];
    f, j := Failed, i + 1;
    assert src[i..][0] == c && src[i..][1..] == src[i + 1..];
    if e.space(c) {
      f := Nothing;
    } else if c == '/' && i + 1 < |src| && src[i + 1] == '/' {
      j := LineStop(src, i + 1);
      f := Nothing;
    } else if c == '/' && i + 1 < |src| && src[i + 1] == '*' {
      assert src[i + 1..][1..] == src[i + 2..];
      j := BlockStop(src, i + 2);
      f := Nothing;
    } else if IsSymbol(c) {
      f, j := ReadSymbol(src, i);
    } else if c == '"' || c == '\'' {
      f, j := ReadQuoted(src, i);
    } else if Digit(c) {
      f, j := ReadNumber(e, src, i);
    } else if IdentStart(e, c) {
      f, j := ReadName(e, src, i);
    }
  }

  function Onward(toks: seq<Tok>, ts: Option<Toks>): Option<Toks> {
    if toks == [] then ts else OnTo(toks[0], Onward(toks[1..], ts))
  }

  lemma {:induction false} OnwardSnoc(toks: seq<Tok>, t: Tok, ts: Option<Toks>)
    ensures Onward(toks + [t], ts) == Onward(toks, OnTo(t, ts))
  {
    if toks == [] {
      assert toks + [t] == [t] && [t][1..] == [];
    } else {
      assert (toks + [t])[1..] == toks[1..] + [t];
      OnwardSnoc(toks[1..], t, ts);
    }
  }

  lemma {:induction false} OnwardFlat(toks: seq<Tok>)
    ensures Onward(toks, Some(End)).Some? && PacParser.Flatten(Onward(toks, Some(End)).value) == toks + [Eof]
    ensures Onward(toks, None) == None
  {
    if toks == [] {
      assert toks + [Eof] == [Eof];
    } else {
      OnwardFlat(toks[1..]);
      assert [toks[0]] + (toks[1..] + [Eof]) == toks + [Eof];
    }
  }

  method Tokenize(e: Env, src: string) returns (r: Option<seq<Tok>>)
    ensures r == match Lex(e, src) case None => None case Some(ts) => Some(PacParser.Flatten(ts))
  {
    var i, toks := 0, [];
    assert src[0..] == src;
    while i < |src|
      invariant 0 <= i <= |src| && Lex(e, src) == Onward(toks, Lex(e, src[i..]))
    {
      var f, j := ReadPiece(e, src, i);
      if f.Failed? {
        OnwardFlat(toks);
        return None;
      }
      if f.Got? {
        OnwardSnoc(toks, f.tok, Lex(e, src[j..]));
        toks := toks + [f.tok];
      }
      i := j;
    }
    OnwardFlat(toks);
    r := Some(toks + [Eof]);
  }

  /** From text to program: any well-formed script, laid out in any way that keeps its tokens apart, is read back. */
  method ReadScript(e: Env, lead: seq<Gap>, items: seq<Item>, layout: nat -> seq<Gap>, last: Ending)
    returns (p: Program)
    requires Sane(e) && AllWritable(e, PrintItems(items)) && LaidOut(e, PrintItems(items), layout, 0) && WfEnding(last)
    requires forall i :: 0 <= i < |lead| ==> WfGap(e, lead[i])
    requires forall i <- items :: WfItem(i)
    ensures p == Collect(items)
  {
    var text := GapsText(lead, Text(e, PrintItems(items), layout, 0, last));
    LexUndoesLayout(e, lead, PrintItems(items), layout, last);
    var toks := Tokenize(e, text);
    assert toks.value[0..] == toks.value;
    PacParser.StreamOfSuffix(toks.value, 0, PrintItems(items));
    PacRoundTrip.ProgramRoundTrip(items);
    var parser := new PacParser.Parser(toks.value);
    var r := parser.ParseProgram();
    p := r.value;
  }
}
