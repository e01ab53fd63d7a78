/** The recursive-descent grammar of the PAC language, as functions of the tokens left to read. */
module PacGrammar {
  import opened Wrappers
  import opened PacSyntax

  datatype Parsed<+T> = Ok(value: T, rest: Toks) | Err

  /** The operator a loop at `level` reacts to. */
  function OpAt(t: Tok, level: nat): Option<BinOp> {
    match OpOf(t)
    case Some(op) => if Level(op) == level then Some(op) else None
    case None => None
  }

  // ---- Expressions -----------------------------------------------------------

  function ParseLevel(ts: Toks, level: nat): (r: Parsed<Expr>)
    requires level <= UNARY
    ensures r.Ok? ==> Len(r.rest) < Len(ts)
    decreases Len(ts), 10 - level
  {
    if level == UNARY then ParseUnary(ts)
    else
      match ParseLevel(ts, level + 1)
      case Err => Err
      case Ok(l, rest) => ParseTail(rest, level, l)
  }

  function ParseTail(ts: Toks, level: nat, left: Expr): (r: Parsed<Expr>)
    requires level < UNARY
    ensures r.Ok? ==> Len(r.rest) <= Len(ts)
    decreases Len(ts), 0
  {
    match OpAt(Peek(ts), level)
    case None => Ok(left, ts)
    case Some(op) =>
      match ParseLevel(Rest(ts), level + 1)
      case Err => Err
      case Ok(r, rest) => ParseTail(rest, level, Bin(op, left, r))
  }

  function ParseUnary(ts: Toks): (r: Parsed<Expr>)
    ensures r.Ok? ==> Len(r.rest) < Len(ts)
    decreases Len(ts), 4
  {
    if Peek(ts) == Not then
      match ParseUnary(Rest(ts))
      case Err => Err
      case Ok(e, rest) => Ok(Neg(e), rest)
    else ParsePrimary(ts)
  }

  function ParsePrimary(ts: Toks): (r: Parsed<Expr>)
    ensures r.Ok? ==> Len(r.rest) < Len(ts)
    decreases Len(ts), 3
  {
    match Peek(ts)
    case Str(s) => Ok(StrLit(s), Rest(ts))
    case Num(n) => Ok(NumLit(n), Rest(ts))
    case LParen =>
      (match ParseLevel(Rest(ts), 0)
       case Err => Err
       case Ok(e, rest) => if Peek(rest) == RParen then Ok(e, Rest(rest)) else Err)
    case Ident(name) =>
      if name == "true" then Ok(BoolLit(true), Rest(ts))
      else if name == "false" then Ok(BoolLit(false), Rest(ts))
      else if Peek(Rest(ts)) == LParen then
        match ParseArgs(Rest(Rest(ts)))
        case Err => Err
        case Ok(args, rest) => if Peek(rest) == RParen then Ok(Call(name, args), Rest(rest)) else Err
      else Ok(Var(name), Rest(ts))
    case _ => Err
  }

  function ParseArgs(ts: Toks): (r: Parsed<seq<Expr>>)
    ensures r.Ok? ==> Len(r.rest) <= Len(ts)
    decreases Len(ts), 13
  {
    if Peek(ts) == RParen then Ok([], ts) else ParseArgList(ts)
  }

  function ParseArgList(ts: Toks): (r: Parsed<seq<Expr>>)
    ensures r.Ok? ==> Len(r.rest) < Len(ts)
    decreases Len(ts), 12
  {
    match ParseLevel(ts, 0)
    case Err => Err
    case Ok(e, rest) =>
      if Peek(rest) != Comma then Ok([e], rest)
      else
        match ParseArgList(Rest(rest))
        case Err => Err
        case Ok(es, rest') => Ok([e] + es, rest')
  }

  // ---- Statements ------------------------------------------------------------

  function SkipSemi(ts: Toks): (r: Toks)
    ensures Len(r) <= Len(ts)
  {
    if Peek(ts) == Semi then Rest(ts) else ts
  }

  function ParseStmt(ts: Toks): (r: Parsed<Stmt>)
    ensures r.Ok? ==> Len(r.rest) < Len(ts)
    decreases Len(ts), 1
  {
    if !Peek(ts).Ident? then Err
    else
      var name := Peek(ts).name;
      if name == "var" then ParseVar(Rest(ts))
      else if name == "return" then ParseReturn(Rest(ts))
      else if name == "if" then ParseIf(Rest(ts))
      else if Peek(Rest(ts)) == Tok.Assign then
        match ParseLevel(Rest(Rest(ts)), 0)
        case Err => Err
        case Ok(e, rest) => Ok(Assignment(name, e), SkipSemi(rest))
      else
        match ParseLevel(ts, 0)
        case Err => Err
        case Ok(e, rest) => Ok(ExprStmt(e), SkipSemi(rest))
  }

  function ParseVar(ts: Toks): (r: Parsed<Stmt>)
    ensures r.Ok? ==> Len(r.rest) < Len(ts)
  {
    if !Peek(ts).Ident? then Err
    else if Peek(Rest(ts)) != Tok.Assign then Ok(VarDecl(Peek(ts).name, None), SkipSemi(Rest(ts)))
    else
      match ParseLevel(Rest(Rest(ts)), 0)
      case Err => Err
      case Ok(e, rest) => Ok(VarDecl(Peek(ts).name, Some(e)), SkipSemi(rest))
  }

  function ParseReturn(ts: Toks): (r: Parsed<Stmt>)
    ensures r.Ok? ==> Len(r.rest) <= Len(ts)
  {
    if Peek(ts) == Semi || Peek(ts) == RBrace then Ok(Return(None), SkipSemi(ts))
    else
      match ParseLevel(ts, 0)
      case Err => Err
      case Ok(e, rest) => Ok(Return(Some(e)), SkipSemi(rest))
  }

  function ParseIf(ts: Toks): (r: Parsed<Stmt>)
    ensures r.Ok? ==> Len(r.rest) < Len(ts)
    decreases Len(ts), 4
  {
    if Peek(ts) != LParen then Err
    else
      match ParseLevel(Rest(ts), 0)
      case Err => Err
      case Ok(c, r1) =>
        if Peek(r1) != RParen then Err
        else
          match ParseBlock(Rest(r1))
          case Err => Err
          case Ok(t, r2) =>
            match ParseElse(r2)
            case Err => Err
            case Ok(e, r3) => Ok(If(c, t, e), r3)
  }

  function ParseElse(ts: Toks): (r: Parsed<seq<Stmt>>)
    ensures r.Ok? ==> Len(r.rest) <= Len(ts)
    decreases Len(ts), 2
  {
    if Peek(ts) != Ident("else") then Ok([], ts)
    else if Peek(Rest(ts)) == Ident("if") then
      match ParseStmt(Rest(ts))
      case Err => Err
      case Ok(s, rest) => Ok([s], rest)
    else ParseBlock(Rest(ts))
  }

  function ParseBlock(ts: Toks): (r: Parsed<seq<Stmt>>)
    ensures r.Ok? ==> Len(r.rest) < Len(ts)
    decreases Len(ts), 3
  {
    if Peek(ts) != LBrace then Err else ParseStmts(Rest(ts))
  }

  /** Statements up to and including the closing brace. */
  function ParseStmts(ts: Toks): (r: Parsed<seq<Stmt>>)
    ensures r.Ok? ==> Len(r.rest) < Len(ts)
    decreases Len(ts), 2
  {
    if Peek(ts) == RBrace then Ok([], Rest(ts))
    else if Peek(ts) == Eof then Err
    else
      match ParseStmt(ts)
      case Err => Err
      case Ok(s, rest) =>
        match ParseStmts(rest)
        case Err => Err
        case Ok(ss, rest') => Ok([s] + ss, rest')
  }

  // ---- Programs --------------------------------------------------------------

  function ParseParams(ts: Toks): (r: Parsed<seq<string>>)
    ensures r.Ok? ==> Len(r.rest) <= Len(ts)
  {
    if Peek(ts) == RParen then Ok([], ts) else ParseParamList(ts)
  }

  function ParseParamList(ts: Toks): (r: Parsed<seq<string>>)
    ensures r.Ok? ==> Len(r.rest) < Len(ts)
    decreases Len(ts)
  {
    if !Peek(ts).Ident? then Err
    else if Peek(Rest(ts)) != Comma then Ok([Peek(ts).name], Rest(ts))
    else
      match ParseParamList(Rest(Rest(ts)))
      case Err => Err
      case Ok(ns, rest) => Ok([Peek(ts).name] + ns, rest)
  }

  function ParseFunction(ts: Toks): (r: Parsed<Item>)
    ensures r.Ok? ==> Len(r.rest) < Len(ts)
  {
    if !Peek(ts).Ident? || Peek(Rest(ts)) != LParen then Err
    else
      match ParseParams(Rest(Rest(ts)))
      case Err => Err
      case Ok(ps, r1) =>
        if Peek(r1) != RParen then Err
        else
          match ParseBlock(Rest(r1))
          case Err => Err
          case Ok(b, r2) => Ok(Func(Peek(ts).name, FunctionDecl(ps, b)), r2)
  }

  function ParseItem(ts: Toks): (r: Parsed<Item>)
    ensures r.Ok? ==> Len(r.rest) < Len(ts)
  {
    if Peek(ts) == Ident("function") then ParseFunction(Rest(ts))
    else
      match ParseStmt(ts)
      case Err => Err
      case Ok(s, rest) => Ok(Global(s), rest)
  }

  function ParseItems(ts: Toks): Parsed<seq<Item>>
    decreases Len(ts)
  {
    if Peek(ts) == Eof then Ok([], ts)
    else
      match ParseItem(ts)
      case Err => Err
      case Ok(i, rest) =>
        match ParseItems(rest)
        case Err => Err
        case Ok(items, rest') => Ok([i] + items, rest')
  }
}
