/** Printing and parsing are inverse: precedence and associativity are exact. */
module PacRoundTrip {
  import opened Wrappers
  import opened PacSyntax
  import opened PacGrammar

  /** `t` ends an expression whose context has precedence `level`. */
  predicate Stops(t: Tok, level: nat) {
    t != LParen && (OpOf(t).Some? ==> Level(OpOf(t).value) < level)
  }

  function Precedence(e: Expr): nat {
    if e.Bin? then Level(e.op) else UNARY
  }

  lemma Descend(ts: Toks, level: nat, e: Expr, rest: Toks)
    requires level < UNARY && ParseLevel(ts, level + 1) == Ok(e, rest)
    ensures ParseLevel(ts, level) == ParseTail(rest, level, e)
  {
  }

  lemma LoopEnds(level: nat, e: Expr, rest: Toks)
    requires level < UNARY && Stops(Peek(rest), level)
    ensures ParseTail(rest, level, e) == Ok(e, rest)
  {
  }

  lemma LoopTurns(op: BinOp, l: Expr, r: Expr, ts: Toks, rest: Toks)
    requires ParseLevel(ts, Level(op) + 1) == Ok(r, rest)
    ensures ParseTail(Cons(OpTok(op), ts), Level(op), l) == ParseTail(rest, Level(op), Bin(op, l, r))
  {
    assert OpAt(OpTok(op), Level(op)) == Some(op);
  }

  lemma SamePrint(e: Expr, level: nat, rest: Toks)
    requires Precedence(e) != level && level < UNARY
    ensures PrintExpr(e, level, rest) == PrintExpr(e, level + 1, rest)
  {
  }

  lemma BinPrints(e: Expr, rest: Toks)
    requires e.Bin?
    ensures var k := Level(e.op);
            PrintExpr(e, k, rest) == PrintExpr(e.left, k, Cons(OpTok(e.op), PrintExpr(e.right, k + 1, rest)))
  {
  }

  lemma OperatorStops(op: BinOp)
    ensures Stops(OpTok(op), Level(op) + 1)
  {
  }

  /** Whether printing `e` at `level` takes parentheses: the proofs below descend to it from outside them. */
  function Rank(e: Expr, level: nat): nat {
    if level > Precedence(e) then 1 else 0
  }

  lemma RankBelow(e: Expr, level: nat)
    requires Precedence(e) != level
    ensures Rank(e, level + 1) == Rank(e, level)
  {
  }

  /** Parsing a printed expression at `level` reaches that level's operator loop with it in hand. */
  lemma {:induction false} ExprLoop(e: Expr, level: nat, rest: Toks)
    requires WfExpr(e) && level < UNARY && Stops(Peek(rest), level + 1)
    ensures ParseLevel(PrintExpr(e, level, rest), level) == ParseTail(rest, level, e)
    decreases e, Rank(e, level), UNARY - level, 1
  {
    if Precedence(e) != level {
      TighterLoop(e, level, rest);
    } else {
      BinLoop(e, level, rest);
    }
  }

  lemma {:induction false} TighterLoop(e: Expr, level: nat, rest: Toks)
    requires WfExpr(e) && level < UNARY && Precedence(e) != level && Stops(Peek(rest), level + 1)
    ensures ParseLevel(PrintExpr(e, level, rest), level) == ParseTail(rest, level, e)
    decreases e, Rank(e, level), UNARY - level, 0
  {
    var ts := PrintExpr(e, level + 1, rest);
    assert ParseLevel(ts, level + 1) == Ok(e, rest) by {
      RankBelow(e, level);
      ExprExact(e, level + 1, rest);
    }
    SamePrint(e, level, rest);
    Descend(ts, level, e, rest);
  }

  lemma {:induction false} BinLoop(e: Expr, level: nat, rest: Toks)
    requires e.Bin? && level == Level(e.op) && WfExpr(e) && Stops(Peek(rest), level + 1)
    ensures ParseLevel(PrintExpr(e, level, rest), level) == ParseTail(rest, level, e)
    decreases e, 0, UNARY - level, 0
  {
    var right := PrintExpr(e.right, level + 1, rest);
    var after := Cons(OpTok(e.op), right);
    BinPrints(e, rest);
    OperatorStops(e.op);
    assert ParseLevel(PrintExpr(e.left, level, after), level) == ParseTail(after, level, e.left) by {
      ExprLoop(e.left, level, after);
    }
    assert ParseLevel(right, level + 1) == Ok(e.right, rest) by { ExprExact(e.right, level + 1, rest); }
    LoopTurns(e.op, e.left, e.right, right, rest);
  }

  /** A printed expression before a token that cannot continue it parses to itself, and no further. */
  lemma {:induction false} ExprExact(e: Expr, level: nat, rest: Toks)
    requires WfExpr(e) && level <= UNARY && Stops(Peek(rest), level)
    ensures ParseLevel(PrintExpr(e, level, rest), level) == Ok(e, rest)
    decreases e, Rank(e, level), UNARY - level, 2
  {
    if level == UNARY {
      Primary(e, rest);
    } else {
      ExprLoop(e, level, rest);
      LoopEnds(level, e, rest);
    }
  }

  lemma {:induction false} Primary(e: Expr, rest: Toks)
    requires WfExpr(e) && Peek(rest) != LParen
    ensures ParseUnary(PrintExpr(e, UNARY, rest)) == Ok(e, rest)
    decreases e, Rank(e, UNARY), 0, 0
  {
    match e
    case Bin(_, _, _) =>
      ExprExact(e, 0, Cons(RParen, rest));
      Parenthesised(e, rest);
    case Neg(x) => Primary(x, rest);
    case Call(f, args) =>
      Args(args, rest);
      CallReads(f, args, rest);
    case _ =>
  }

  lemma CallReads(f: string, args: seq<Expr>, rest: Toks)
    requires WfExpr(Call(f, args))
    requires ParseArgs(PrintArgs(args, Cons(RParen, rest))) == Ok(args, Cons(RParen, rest))
    ensures ParseUnary(PrintExpr(Call(f, args), UNARY, rest)) == Ok(Call(f, args), rest)
  {
    var ts := PrintExpr(Call(f, args), UNARY, rest);
    assert ts == Cons(Ident(f), Cons(LParen, PrintArgs(args, Cons(RParen, rest))));
  }

  lemma Parenthesised(e: Expr, rest: Toks)
    requires e.Bin? && ParseLevel(PrintExpr(e, 0, Cons(RParen, rest)), 0) == Ok(e, Cons(RParen, rest))
    ensures ParseUnary(PrintExpr(e, UNARY, rest)) == Ok(e, rest)
  {
    assert PrintExpr(e, UNARY, rest) == Cons(LParen, PrintExpr(e, 0, Cons(RParen, rest)));
  }

  lemma {:induction false} Args(args: seq<Expr>, rest: Toks)
    requires forall a <- args :: WfExpr(a)
    ensures ParseArgs(PrintArgs(args, Cons(RParen, rest))) == Ok(args, Cons(RParen, rest))
    decreases args
  {
    if args != [] { ArgList(args, rest); }
  }

  lemma {:induction false} ArgList(args: seq<Expr>, rest: Toks)
    requires args != [] && (forall a <- args :: WfExpr(a))
    ensures ParseArgs(PrintArgs(args, Cons(RParen, rest)))
            == ParseArgList(PrintArgs(args, Cons(RParen, rest))) == Ok(args, Cons(RParen, rest))
    decreases args, 0
  {
    if |args| == 1 {
      ExprExact(args[0], 0, Cons(RParen, rest));
      assert args == [args[0]];
    } else {
      ExprExact(args[0], 0, Cons(Comma, PrintArgs(args[1..], Cons(RParen, rest))));
      ArgList(args[1..], rest);
      assert args == [args[0]] + args[1..];
    }
  }

  lemma {:induction false} StmtRoundTrip(s: Stmt, rest: Toks)
    requires WfStmt(s)
    ensures ParseStmt(PrintStmt(s, rest)) == Ok(s, rest)
    decreases s, 1
  {
    var semi := Cons(Semi, rest);
    match s
    case VarDecl(_, None) =>
    case VarDecl(_, Some(e)) => ExprExact(e, 0, semi);
    case Assignment(_, e) => ExprExact(e, 0, semi);
    case ExprStmt(e) =>
      ExprExact(e, 0, semi);
      NoAssignSecond(e, 0, semi);
    case Return(None) =>
    case Return(Some(e)) => ExprExact(e, 0, semi);
    case If(_, _, _) => IfRoundTrip(s, rest);
  }

  /** An expression statement is never mistaken for an assignment. */
  lemma {:induction false} NoAssignSecond(e: Expr, level: nat, rest: Toks)
    requires Peek(rest) != Tok.Assign
    ensures Peek(Rest(PrintExpr(e, level, rest))) != Tok.Assign
    decreases e
  {
    match e
    case Bin(op, l, r) =>
      var closing := if level <= Level(op) then rest else Cons(RParen, rest);
      NoAssignSecond(l, Level(op), Cons(OpTok(op), PrintExpr(r, Level(op) + 1, closing)));
    case _ =>
  }

  lemma {:induction false} IfRoundTrip(s: Stmt, rest: Toks)
    requires s.If? && WfStmt(s)
    ensures ParseStmt(PrintStmt(s, rest)) == Ok(s, rest)
    decreases s, 0
  {
    var elseToks := PrintBlock(s.elseBranch, rest);
    var afterThen := Cons(Ident("else"), elseToks);
    var thenToks := PrintBlock(s.thenBranch, afterThen);
    BlockRoundTrip(s.elseBranch, rest);
    BlockRoundTrip(s.thenBranch, afterThen);
    ExprExact(s.cond, 0, Cons(RParen, thenToks));
    ElseReads(s.elseBranch, rest);
  }

  lemma ElseReads(b: seq<Stmt>, rest: Toks)
    requires ParseBlock(PrintBlock(b, rest)) == Ok(b, rest)
    ensures ParseElse(Cons(Ident("else"), PrintBlock(b, rest))) == Ok(b, rest)
  {
  }

  lemma {:induction false} BlockRoundTrip(b: seq<Stmt>, rest: Toks)
    requires WfBlock(b)
    ensures ParseBlock(PrintBlock(b, rest)) == Ok(b, rest)
    decreases b, 1
  {
    StmtsRoundTrip(b, rest);
  }

  lemma StmtStart(s: Stmt, rest: Toks)
    requires WfStmt(s)
    ensures Peek(PrintStmt(s, rest)).Ident?
  {
  }

  lemma {:induction false} StmtsRoundTrip(b: seq<Stmt>, rest: Toks)
    requires WfBlock(b)
    ensures ParseStmts(PrintStmts(b, Cons(RBrace, rest))) == Ok(b, rest)
    decreases b, 0
  {
    if b != [] {
      var after := PrintStmts(b[1..], Cons(RBrace, rest));
      StmtStart(b[0], after);
      StmtRoundTrip(b[0], after);
      StmtsRoundTrip(b[1..], rest);
      assert b == [b[0]] + b[1..];
    }
  }

  lemma {:induction false} ParamsRoundTrip(ps: seq<string>, rest: Toks)
    requires ps != []
    ensures ParseParams(PrintParams(ps, Cons(RParen, rest)))
            == ParseParamList(PrintParams(ps, Cons(RParen, rest))) == Ok(ps, Cons(RParen, rest))
  {
    if |ps| > 1 {
      ParamsRoundTrip(ps[1..], rest);
      assert ps == [ps[0]] + ps[1..];
    } else {
      assert ps == [ps[0]];
    }
  }

  lemma ItemRoundTrip(i: Item, rest: Toks)
    requires WfItem(i)
    ensures ParseItem(PrintItem(i, rest)) == Ok(i, rest)
  {
    match i
    case Global(s) =>
      StmtStart(s, rest);
      StmtRoundTrip(s, rest);
    case Func(_, d) =>
      BlockRoundTrip(d.body, rest);
      if d.params != [] { ParamsRoundTrip(d.params, PrintBlock(d.body, rest)); }
  }

  /** Every well-formed script survives printing and parsing unchanged. */
  lemma {:induction false} ProgramRoundTrip(items: seq<Item>)
    requires forall i <- items :: WfItem(i)
    ensures ParseItems(PrintItems(items)) == Ok(items, End)
  {
    if items != [] {
      var rest := PrintItems(items[1..]);
      assert items[0] in items;
      if items[0].Global? { StmtStart(items[0].stmt, rest); }
      ItemRoundTrip(items[0], rest);
      ProgramRoundTrip(items[1..]);
      assert items == [items[0]] + items[1..];
    }
  }

  // ---- Everything the parser accepts is well formed --------------------------

  lemma {:induction false} LevelWf(ts: Toks, level: nat)
    requires level <= UNARY && ParseLevel(ts, level).Ok?
    ensures WfExpr(ParseLevel(ts, level).value)
    ensures Peek(ts).Ident? ==> HeadTok(ParseLevel(ts, level).value, level) == Peek(ts)
    decreases Len(ts), 10 - level
  {
    if level == UNARY {
      UnaryWf(ts);
    } else {
      LevelWf(ts, level + 1);
      var first := ParseLevel(ts, level + 1);
      TailWf(first.rest, level, first.value);
    }
  }

  lemma {:induction false} TailWf(ts: Toks, level: nat, left: Expr)
    requires level < UNARY && WfExpr(left) && ParseTail(ts, level, left).Ok?
    ensures WfExpr(ParseTail(ts, level, left).value)
    ensures HeadTok(ParseTail(ts, level, left).value, level) == HeadTok(left, level)
    decreases Len(ts), 0
  {
    if OpAt(Peek(ts), level).Some? {
      LevelWf(Rest(ts), level + 1);
      var right := ParseLevel(Rest(ts), level + 1);
      TailWf(right.rest, level, Bin(OpAt(Peek(ts), level).value, left, right.value));
    }
  }

  lemma {:induction false} UnaryWf(ts: Toks)
    requires ParseUnary(ts).Ok?
    ensures WfExpr(ParseUnary(ts).value)
    ensures Peek(ts).Ident? ==> HeadTok(ParseUnary(ts).value, UNARY) == Peek(ts)
    decreases Len(ts), 4
  {
    if Peek(ts) == Not {
      UnaryWf(Rest(ts));
    } else {
      PrimaryWf(ts);
    }
  }

  lemma {:induction false} PrimaryWf(ts: Toks)
    requires ParsePrimary(ts).Ok?
    ensures WfExpr(ParsePrimary(ts).value)
    ensures Peek(ts).Ident? ==> HeadTok(ParsePrimary(ts).value, UNARY) == Peek(ts)
    decreases Len(ts), 3
  {
    match Peek(ts)
    case LParen => LevelWf(Rest(ts), 0);
    case Ident(name) =>
      var args := Rest(Rest(ts));
      if name != "true" && name != "false" && Peek(Rest(ts)) == LParen && Peek(args) != RParen {
        ArgListWf(args);
      }
    case _ =>
  }

  lemma {:induction false} ArgListWf(ts: Toks)
    requires ParseArgList(ts).Ok?
    ensures forall a <- ParseArgList(ts).value :: WfExpr(a)
    decreases Len(ts), 12
  {
    LevelWf(ts, 0);
    var first := ParseLevel(ts, 0);
    if Peek(first.rest) == Comma { ArgListWf(Rest(first.rest)); }
  }

  lemma {:induction false} StmtWf(ts: Toks)
    requires ParseStmt(ts).Ok?
    ensures WfStmt(ParseStmt(ts).value)
    ensures Peek(ts) != Ident("function") ==> WfItem(Global(ParseStmt(ts).value))
    decreases Len(ts), 1
  {
    var next := Rest(ts);
    if Peek(ts) == Ident("var") {
      if Peek(Rest(next)) == Tok.Assign { LevelWf(Rest(Rest(next)), 0); }
    } else if Peek(ts) == Ident("return") {
      if Peek(next) != Semi && Peek(next) != RBrace { LevelWf(next, 0); }
    } else if Peek(ts) == Ident("if") {
      IfWf(next);
    } else if Peek(next) == Tok.Assign {
      LevelWf(Rest(next), 0);
    } else {
      LevelWf(ts, 0);
    }
  }

  lemma {:induction false} IfWf(ts: Toks)
    requires ParseIf(ts).Ok?
    ensures ParseIf(ts).value.If? && WfStmt(ParseIf(ts).value)
    decreases Len(ts), 4
  {
    LevelWf(Rest(ts), 0);
    var body := Rest(ParseLevel(Rest(ts), 0).rest);
    BlockWf(body);
    ElseWf(ParseBlock(body).rest);
  }

  lemma {:induction false} ElseWf(ts: Toks)
    requires ParseElse(ts).Ok?
    ensures WfBlock(ParseElse(ts).value)
    decreases Len(ts), 2
  {
    if Peek(ts) == Ident("else") {
      if Peek(Rest(ts)) == Ident("if") { StmtWf(Rest(ts)); } else { BlockWf(Rest(ts)); }
    }
  }

  lemma {:induction false} BlockWf(ts: Toks)
    requires ParseBlock(ts).Ok?
    ensures WfBlock(ParseBlock(ts).value)
    decreases Len(ts), 3
  {
    StmtsWf(Rest(ts));
  }

  lemma {:induction false} StmtsWf(ts: Toks)
    requires ParseStmts(ts).Ok?
    ensures WfBlock(ParseStmts(ts).value)
    decreases Len(ts), 2
  {
    if Peek(ts) != RBrace {
      StmtWf(ts);
      StmtsWf(ParseStmt(ts).rest);
    }
  }

  lemma {:induction false} ItemsWf(ts: Toks)
    requires ParseItems(ts).Ok?
    ensures forall i <- ParseItems(ts).value :: WfItem(i)
    decreases Len(ts)
  {
    if Peek(ts) != Eof {
      if Peek(ts) == Ident("function") {
        var params := Rest(Rest(Rest(ts)));
        BlockWf(Rest(ParseParams(params).rest));
      } else {
        StmtWf(ts);
      }
      ItemsWf(ParseItem(ts).rest);
    }
  }

  /** The well-formed scripts are exactly the parser's image: nothing else is ever produced. */
  lemma ParserImage(items: seq<Item>)
    ensures (exists ts :: ParseItems(ts).Ok? && ParseItems(ts).value == items)
            <==> (forall i <- items :: WfItem(i))
  {
    if forall i <- items :: WfItem(i) {
      ProgramRoundTrip(items);
    }
    forall ts | ParseItems(ts).Ok? && ParseItems(ts).value == items
      ensures forall i <- items :: WfItem(i)
    {
      ItemsWf(ts);
    }
  }

  /** Reformatting whatever was accepted never changes what it means. */
  lemma ReprintIsStable(ts: Toks)
    requires ParseItems(ts).Ok?
    ensures ParseItems(PrintItems(ParseItems(ts).value)) == Ok(ParseItems(ts).value, End)
  {
    ItemsWf(ts);
    ProgramRoundTrip(ParseItems(ts).value);
  }
}
