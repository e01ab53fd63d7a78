/** Tokens, syntax trees and the canonical printer of the PAC language. */
module PacSyntax {
  import opened Wrappers

  /** An IEEE 754 double, kept as its bit pattern: arithmetic on it is a parameter of the evaluator. */
  type Number = nat

  datatype Tok =
    | Ident(name: string) | Str(text: string) | Num(num: Number)
    | LParen | RParen | LBrace | RBrace | Semi | Comma | Assign
    | EqEq | NotEq | Not | AndAnd | OrOr | Plus | Lt | Gt | Le | Ge | Eof

  datatype BinOp = OpOr | OpAnd | OpEq | OpNotEq | OpLt | OpGt | OpLe | OpGe | OpAdd

  datatype Expr =
    | StrLit(text: string)
    | NumLit(num: Number)
    | BoolLit(b: bool)
    | Var(name: string)
    | Call(fn: string, args: seq<Expr>)
    | Bin(op: BinOp, left: Expr, right: Expr)
    | Neg(operand: Expr)

  datatype Stmt =
    | VarDecl(name: string, init: Option<Expr>)
    | Assignment(name: string, value: Expr)
    | ExprStmt(e: Expr)
    | If(cond: Expr, thenBranch: seq<Stmt>, elseBranch: seq<Stmt>)
    | Return(result: Option<Expr>)

  datatype FunctionDecl = FunctionDecl(params: seq<string>, body: seq<Stmt>)

  /** One top-level declaration, in source order. */
  datatype Item = Func(name: string, decl: FunctionDecl) | Global(stmt: Stmt)

  datatype Program = Program(functions: map<string, FunctionDecl>, globals: seq<Stmt>)

  /** The binary precedence levels, loosest first; 5 is the unary level. */
  const UNARY := 5

  function Level(op: BinOp): nat {
    match op
    case OpOr => 0
    case OpAnd => 1
    case OpEq | OpNotEq => 2
    case OpLt | OpGt | OpLe | OpGe => 3
    case OpAdd => 4
  }

  function OpTok(op: BinOp): Tok {
    match op
    case OpOr => OrOr
    case OpAnd => AndAnd
    case OpEq => EqEq
    case OpNotEq => NotEq
    case OpLt => Lt
    case OpGt => Gt
    case OpLe => Le
    case OpGe => Ge
    case OpAdd => Plus
  }

  /** The binary operator a token stands for, at whatever level. */
  function OpOf(t: Tok): Option<BinOp> {
    match t
    case OrOr => Some(OpOr)
    case AndAnd => Some(OpAnd)
    case EqEq => Some(OpEq)
    case NotEq => Some(OpNotEq)
    case Lt => Some(OpLt)
    case Gt => Some(OpGt)
    case Le => Some(OpLe)
    case Ge => Some(OpGe)
    case Plus => Some(OpAdd)
    case _ => None
  }

  // ---- Well-formed programs ----------------------------------------------

  /** Only `true` and `false` are taken away from the names an expression may use. */
  predicate WfExpr(e: Expr) {
    match e
    case Var(n) => n != "true" && n != "false"
    case Call(f, args) => f != "true" && f != "false" && forall a <- args :: WfExpr(a)
    case Bin(_, l, r) => WfExpr(l) && WfExpr(r)
    case Neg(x) => WfExpr(x)
    case _ => true
  }

  predicate Keyword(n: string) {
    n == "var" || n == "return" || n == "if"
  }

  predicate WfStmt(s: Stmt) {
    match s
    case VarDecl(_, init) => init.Some? ==> WfExpr(init.value)
    case Assignment(n, e) => !Keyword(n) && WfExpr(e)
    case ExprStmt(e) => WfExpr(e) && HeadTok(e, 0).Ident? && !Keyword(HeadTok(e, 0).name)
    case If(c, t, e) => WfExpr(c) && (forall x <- t :: WfStmt(x)) && (forall x <- e :: WfStmt(x))
    case Return(v) => v.Some? ==> WfExpr(v.value)
  }

  predicate WfBlock(b: seq<Stmt>) {
    forall s <- b :: WfStmt(s)
  }

  predicate WfItem(i: Item) {
    match i
    case Func(_, d) => WfBlock(d.body)
    case Global(s) =>
      && WfStmt(s)
      && (s.Assignment? ==> s.name != "function")
      && (s.ExprStmt? ==> HeadTok(s.e, 0) != Ident("function"))
  }

  /** The first token of an expression printed in a context of precedence `level`. */
  function HeadTok(e: Expr, level: nat): (t: Tok)
    ensures t != RParen && t != Semi && t != RBrace && t != Eof && t != Tok.Assign
  {
    match e
    case StrLit(s) => Str(s)
    case NumLit(n) => Num(n)
    case BoolLit(b) => Ident(if b then "true" else "false")
    case Var(n) => Ident(n)
    case Call(f, _) => Ident(f)
    case Neg(_) => Not
    case Bin(op, l, _) => if level <= Level(op) then HeadTok(l, Level(op)) else LParen
  }

  // ---- Token streams ---------------------------------------------------------

  /** What is left to read; past the end every look-ahead sees the end marker. */
  datatype Toks = End | Cons(head: Tok, tail: Toks)

  function Peek(ts: Toks): Tok {
    if ts.End? then Eof else ts.head
  }

  function Rest(ts: Toks): (r: Toks)
    ensures Len(r) == if ts.End? then 0 else Len(ts) - 1
  {
    if ts.End? then End else ts.tail
  }

  function Len(ts: Toks): nat {
    if ts.End? then 0 else 1 + Len(ts.tail)
  }

  // ---- Printer: parentheses only where precedence demands them. Each function
  // ---- puts its tokens in front of `rest`.

  function PrintExpr(e: Expr, level: nat, rest: Toks): (r: Toks)
    ensures r.Cons? && r.head == HeadTok(e, level)
    decreases e
  {
    match e
    case StrLit(s) => Cons(Str(s), rest)
    case NumLit(n) => Cons(Num(n), rest)
    case BoolLit(b) => Cons(Ident(if b then "true" else "false"), rest)
    case Var(n) => Cons(Ident(n), rest)
    case Call(f, args) => Cons(Ident(f), Cons(LParen, PrintArgs(args, Cons(RParen, rest))))
    case Neg(x) => Cons(Not, PrintExpr(x, UNARY, rest))
    case Bin(op, l, r) =>
      var k := Level(op);
      if level <= k then
        PrintExpr(l, k, Cons(OpTok(op), PrintExpr(r, k + 1, rest)))
      else
        Cons(LParen, PrintExpr(l, k, Cons(OpTok(op), PrintExpr(r, k + 1, Cons(RParen, rest)))))
  }

  function PrintArgs(args: seq<Expr>, rest: Toks): Toks
    decreases args
  {
    if args == [] then rest
    else if |args| == 1 then PrintExpr(args[0], 0, rest)
    else PrintExpr(args[0], 0, Cons(Comma, PrintArgs(args[1..], rest)))
  }

  function PrintStmt(s: Stmt, rest: Toks): (r: Toks)
    ensures r.Cons?
    decreases s
  {
    match s
    case VarDecl(n, None) => Cons(Ident("var"), Cons(Ident(n), Cons(Semi, rest)))
    case VarDecl(n, Some(e)) =>
      Cons(Ident("var"), Cons(Ident(n), Cons(Tok.Assign, PrintExpr(e, 0, Cons(Semi, rest)))))
    case Assignment(n, e) => Cons(Ident(n), Cons(Tok.Assign, PrintExpr(e, 0, Cons(Semi, rest))))
    case ExprStmt(e) => PrintExpr(e, 0, Cons(Semi, rest))
    case Return(None) => Cons(Ident("return"), Cons(Semi, rest))
    case Return(Some(e)) => Cons(Ident("return"), PrintExpr(e, 0, Cons(Semi, rest)))
    case If(c, t, e) =>
      var elsePart := Cons(Ident("else"), Cons(LBrace, PrintStmts(e, Cons(RBrace, rest))));
      var thenPart := Cons(LBrace, PrintStmts(t, Cons(RBrace, elsePart)));
      Cons(Ident("if"), Cons(LParen, PrintExpr(c, 0, Cons(RParen, thenPart))))
  }

  function PrintStmts(b: seq<Stmt>, rest: Toks): Toks
    decreases b
  {
    if b == [] then rest else PrintStmt(b[0], PrintStmts(b[1..], rest))
  }

  function PrintBlock(b: seq<Stmt>, rest: Toks): Toks {
    Cons(LBrace, PrintStmts(b, Cons(RBrace, rest)))
  }

  function PrintParams(ps: seq<string>, rest: Toks): Toks {
    if ps == [] then rest
    else if |ps| == 1 then Cons(Ident(ps[0]), rest)
    else Cons(Ident(ps[0]), Cons(Comma, PrintParams(ps[1..], rest)))
  }

  function PrintItem(i: Item, rest: Toks): Toks {
    match i
    case Func(n, d) =>
      var body := Cons(RParen, PrintBlock(d.body, rest));
      Cons(Ident("function"), Cons(Ident(n), Cons(LParen, PrintParams(d.params, body))))
    case Global(s) => PrintStmt(s, rest)
  }

  function PrintItems(items: seq<Item>): Toks {
    if items == [] then End else PrintItem(items[0], PrintItems(items[1..]))
  }

  // ---- What a declaration list means: the last function of a name wins ---

  function FunctionsOf(items: seq<Item>): map<string, FunctionDecl> {
    if items == [] then map[]
    else
      var rest := FunctionsOf(items[..|items| - 1]);
      match items[|items| - 1]
      case Func(n, d) => rest[n := d]
      case Global(_) => rest
  }

  function GlobalsOf(items: seq<Item>): seq<Stmt> {
    if items == [] then []
    else
      var rest := GlobalsOf(items[..|items| - 1]);
      match items[|items| - 1]
      case Func(_, _) => rest
      case Global(s) => rest + [s]
  }

  function Collect(items: seq<Item>): Program {
    Program(FunctionsOf(items), GlobalsOf(items))
  }
}
