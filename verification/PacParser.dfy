/** The cursor-driven parser over the tokenizer's array, proved against the grammar functions. */
module PacParser {
  import opened Wrappers
  import opened PacSyntax
  import opened PacGrammar
  import PacRoundTrip

  datatype Result<+T> = Success(value: T) | Failure

  /** The tokenizer always closes its output with the end marker. */
  predicate Closed(toks: seq<Tok>) {
    |toks| > 0 && toks[|toks| - 1] == Eof
  }

  /** What is left to read at `pos`; the cursor never moves past the closing marker. */
  function Stream(toks: seq<Tok>, pos: nat): (r: Toks)
    requires Closed(toks) && pos < |toks|
    ensures Peek(r) == toks[pos]
    ensures pos + 1 < |toks| ==> Rest(r) == Stream(toks, pos + 1)
    ensures pos + 1 == |toks| ==> r == End
    ensures Len(r) == |toks| - 1 - pos
    decreases |toks| - pos
  {
    if pos + 1 == |toks| then End else Cons(toks[pos], Stream(toks, pos + 1))
  }

  class Parser {
    const toks: seq<Tok>
    var pos: nat

    ghost predicate Valid()
      reads this
    {
      Closed(toks) && pos < |toks|
    }

    ghost function Input(): Toks
      requires Valid()
      reads this
    {
      Stream(toks, pos)
    }

    /** The outcome and the cursor are those the grammar prescribes; failures leave no promise. */
    ghost predicate Agrees<T>(r: Result<T>, spec: Parsed<T>)
      reads this
    {
      && Valid()
      && match spec
         case Ok(v, rest) => r == Success(v) && Input() == rest
         case Err => r.Failure?
    }

    constructor (toks: seq<Tok>)
      requires Closed(toks)
      ensures Valid() && this.toks == toks && Input() == Stream(toks, 0)
    {
      this.toks := toks;
      this.pos := 0;
    }

    method Advance() returns (t: Tok)
      requires Valid()
      modifies this
      ensures Valid() && t == Peek(old(Input())) && Input() == Rest(old(Input()))
    {
      t := toks[pos];
      if pos + 1 < |toks| { pos := pos + 1; }
    }

    method Expect(want: Tok) returns (r: Result<()>)
      requires Valid()
      modifies this
      ensures Valid() && (r.Success? <==> Peek(old(Input())) == want)
      ensures r.Success? ==> Input() == Rest(old(Input()))
    {
      if toks[pos] == want {
        var _ := Advance();
        r := Success(());
      } else {
        r := Failure;
      }
    }

    method ExpectIdent() returns (r: Result<string>)
      requires Valid()
      modifies this
      ensures Valid() && (r.Success? <==> Peek(old(Input())).Ident?)
      ensures r.Success? ==> r.value == Peek(old(Input())).name && Input() == Rest(old(Input()))
    {
      var t := Advance();
      r := if t.Ident? then Success(t.name) else Failure;
    }

    method DropSemi()
      requires Valid()
      modifies this
      ensures Valid() && Input() == SkipSemi(old(Input()))
    {
      if toks[pos] == Semi { var _ := Advance(); }
    }

    // ---- Expressions ---------------------------------------------------------

    /** One precedence level: an operand of the next level, then its operator loop. */
    method ParseBinary(level: nat) returns (r: Result<Expr>)
      requires Valid() && level <= UNARY
      modifies this
      ensures Agrees(r, ParseLevel(old(Input()), level))
      decreases Len(Input()), 10 - level
    {
      if level == UNARY {
        r := ParseNot();
      } else {
        r := ParseBinary(level + 1);
        if r.Success? { r := OperatorLoop(level, r.value); }
      }
    }

    /** Left-associates operators of one level for as long as they come. */
    method OperatorLoop(level: nat, first: Expr) returns (r: Result<Expr>)
      requires Valid() && level < UNARY
      modifies this
      ensures Agrees(r, ParseTail(old(Input()), level, first))
      decreases Len(Input()), 0
    {
      var left := first;
      while OpAt(toks[pos], level).Some?
        invariant Valid() && Len(Input()) <= Len(old(Input()))
        invariant ParseTail(old(Input()), level, first) == ParseTail(Input(), level, left)
        decreases Len(Input())
      {
        var t := Advance();
        r := ParseBinary(level + 1);
        if r.Failure? { return; }
        left := Bin(OpOf(t).value, left, r.value);
      }
      r := Success(left);
    }

    method ParseNot() returns (r: Result<Expr>)
      requires Valid()
      modifies this
      ensures Agrees(r, ParseUnary(old(Input())))
      decreases Len(Input()), 4
    {
      if toks[pos] == Not {
        var _ := Advance();
        r := ParseNot();
        if r.Success? { r := Success(Neg(r.value)); }
      } else {
        r := ParseAtom();
      }
    }

    method ParseAtom() returns (r: Result<Expr>)
      requires Valid()
      modifies this
      ensures Agrees(r, ParsePrimary(old(Input())))
      decreases Len(Input()), 3
    {
      var t := Advance();
      match t
      case Str(s) => r := Success(StrLit(s));
      case Num(n) => r := Success(NumLit(n));
      case LParen =>
        r := ParseBinary(0);
        if r.Failure? { return; }
        var closed := Expect(RParen);
        if closed.Failure? { r := Failure; }
      case Ident(name) =>
        if name == "true" { return Success(BoolLit(true)); }
        if name == "false" { return Success(BoolLit(false)); }
        if toks[pos] == LParen {
          r := ParseCall(name);
        } else {
          r := Success(Var(name));
        }
      case _ => r := Failure;
    }

    method ParseCall(name: string) returns (r: Result<Expr>)
      requires Valid() && toks[pos] == LParen
      modifies this
      ensures Valid()
      ensures var args := ParseArgs(Rest(old(Input())));
              if args.Ok? && Peek(args.rest) == RParen
              then r == Success(Call(name, args.value)) && Input() == Rest(args.rest)
              else r.Failure?
      decreases Len(Input()), 0
    {
      var _ := Advance();
      var args: Result<seq<Expr>> := Success([]);
      if toks[pos] != RParen { args := ArgLoop(); }
      if args.Failure? { return Failure; }
      var closed := Expect(RParen);
      r := if closed.Success? then Success(Call(name, args.value)) else Failure;
    }

    method ArgLoop() returns (r: Result<seq<Expr>>)
      requires Valid()
      modifies this
      ensures Agrees(r, ParseArgList(old(Input())))
      decreases Len(Input()), 12
    {
      var args: seq<Expr> := [];
      PrependNil(ParseArgList(Input()));
      while true
        invariant Valid() && Len(Input()) <= Len(old(Input()))
        invariant ParseArgList(old(Input())) == Prepend(args, ParseArgList(Input()))
        decreases Len(Input())
      {
        ghost var before := Input();
        var e := ParseBinary(0);
        if e.Failure? { return Failure; }
        var prior := args;
        args := args + [e.value];
        if toks[pos] != Comma { return Success(args); }
        var _ := Advance();
        PrependTwice(prior, [e.value], ParseArgList(Input()));
        assert ParseArgList(before) == Prepend([e.value], ParseArgList(Input()));
      }
    }

    // ---- Statements ----------------------------------------------------------

    method ParseStatement() returns (r: Result<Stmt>)
      requires Valid()
      modifies this
      ensures Agrees(r, ParseStmt(old(Input())))
      decreases Len(Input()), 1
    {
      if !toks[pos].Ident? { return Failure; }
      var name := toks[pos].name;
      if name == "var" {
        var _ := Advance();
        r := ParseVarDecl();
      } else if name == "return" {
        var _ := Advance();
        r := ParseReturnValue();
      } else if name == "if" {
        var _ := Advance();
        r := ParseConditional();
      } else if pos + 1 < |toks| && toks[pos + 1] == Tok.Assign {
        var _ := Advance();
        var _ := Advance();
        var e := ParseBinary(0);
        if e.Failure? { return Failure; }
        DropSemi();
        r := Success(Assignment(name, e.value));
      } else {
        var e := ParseBinary(0);
        if e.Failure? { return Failure; }
        DropSemi();
        r := Success(ExprStmt(e.value));
      }
    }

    method ParseVarDecl() returns (r: Result<Stmt>)
      requires Valid()
      modifies this
      ensures Agrees(r, ParseVar(old(Input())))
    {
      var name := ExpectIdent();
      if name.Failure? { return Failure; }
      var init: Option<Expr> := None;
      if toks[pos] == Tok.Assign {
        var _ := Advance();
        var e := ParseBinary(0);
        if e.Failure? { return Failure; }
        init := Some(e.value);
      }
      DropSemi();
      r := Success(VarDecl(name.value, init));
    }

    method ParseReturnValue() returns (r: Result<Stmt>)
      requires Valid()
      modifies this
      ensures Agrees(r, ParseReturn(old(Input())))
    {
      var value: Option<Expr> := None;
      if toks[pos] != Semi && toks[pos] != RBrace {
        var e := ParseBinary(0);
        if e.Failure? { return Failure; }
        value := Some(e.value);
      }
      DropSemi();
      r := Success(Return(value));
    }

    method ParseConditional() returns (r: Result<Stmt>)
      requires Valid()
      modifies this
      ensures Agrees(r, ParseIf(old(Input())))
      decreases Len(Input()), 4
    {
      var open := Expect(LParen);
      if open.Failure? { return Failure; }
      var cond := ParseBinary(0);
      if cond.Failure? { return Failure; }
      var closed := Expect(RParen);
      if closed.Failure? { return Failure; }
      var thenBranch := ParseBraces();
      if thenBranch.Failure? { return Failure; }
      var elseBranch := ParseElsePart();
      if elseBranch.Failure? { return Failure; }
      r := Success(If(cond.value, thenBranch.value, elseBranch.value));
    }

    method ParseElsePart() returns (r: Result<seq<Stmt>>)
      requires Valid()
      modifies this
      ensures Agrees(r, ParseElse(old(Input())))
      decreases Len(Input()), 2
    {
      if toks[pos] != Ident("else") { return Success([]); }
      var _ := Advance();
      if toks[pos] == Ident("if") {
        var s := ParseStatement();
        r := if s.Success? then Success([s.value]) else Failure;
      } else {
        r := ParseBraces();
      }
    }

    method ParseBraces() returns (r: Result<seq<Stmt>>)
      requires Valid()
      modifies this
      ensures Agrees(r, ParseBlock(old(Input())))
      decreases Len(Input()), 3
    {
      var open := Expect(LBrace);
      if open.Failure? { return Failure; }
      var stmts: seq<Stmt> := [];
      ghost var start := Input();
      PrependNil(ParseStmts(start));
      while toks[pos] != RBrace
        invariant Valid() && Len(Input()) <= Len(start)
        invariant ParseStmts(start) == Prepend(stmts, ParseStmts(Input()))
        decreases Len(Input())
      {
        if toks[pos] == Eof { return Failure; }
        ghost var before := Input();
        var s := ParseStatement();
        if s.Failure? { return Failure; }
        PrependTwice(stmts, [s.value], ParseStmts(Input()));
        assert ParseStmts(before) == Prepend([s.value], ParseStmts(Input()));
        stmts := stmts + [s.value];
      }
      var _ := Expect(RBrace);
      assert stmts + [] == stmts;
      r := Success(stmts);
    }

    // ---- Programs ------------------------------------------------------------

    method ParseParameters() returns (r: Result<seq<string>>)
      requires Valid()
      modifies this
      ensures Agrees(r, ParseParams(old(Input())))
    {
      if toks[pos] == RParen { return Success([]); }
      var params: seq<string> := [];
      PrependNil(ParseParamList(Input()));
      while true
        invariant Valid()
        invariant ParseParamList(old(Input())) == Prepend(params, ParseParamList(Input()))
        decreases Len(Input())
      {
        ghost var before := Input();
        var name := ExpectIdent();
        if name.Failure? { return Failure; }
        if toks[pos] != Comma { return Success(params + [name.value]); }
        var _ := Advance();
        PrependTwice(params, [name.value], ParseParamList(Input()));
        assert ParseParamList(before) == Prepend([name.value], ParseParamList(Input()));
        params := params + [name.value];
      }
    }

    method ParseDeclaration() returns (r: Result<Item>)
      requires Valid()
      modifies this
      ensures Agrees(r, ParseFunction(old(Input())))
    {
      var name := ExpectIdent();
      if name.Failure? { return Failure; }
      var open := Expect(LParen);
      if open.Failure? { return Failure; }
      var params := ParseParameters();
      if params.Failure? { return Failure; }
      var closed := Expect(RParen);
      if closed.Failure? { return Failure; }
      var body := ParseBraces();
      if body.Failure? { return Failure; }
      r := Success(Func(name.value, FunctionDecl(params.value, body.value)));
    }

    method ParseTopLevel() returns (r: Result<Item>)
      requires Valid()
      modifies this
      ensures Agrees(r, ParseItem(old(Input())))
    {
      if toks[pos] == Ident("function") {
        var _ := Advance();
        r := ParseDeclaration();
      } else {
        var s := ParseStatement();
        r := if s.Success? then Success(Global(s.value)) else Failure;
      }
    }

    /** The whole script: functions by name, the last declaration winning, and globals in order. */
    method ParseProgram() returns (r: Result<Program>)
      requires Valid()
      modifies this
      ensures r == match ParseItems(old(Input()))
                   case Err => Failure
                   case Ok(items, _) => Success(Collect(items))
    {
      var functions: map<string, FunctionDecl> := map[];
      var globals: seq<Stmt> := [];
      ghost var items: seq<Item> := [];
      PrependNil(ParseItems(Input()));
      while toks[pos] != Eof
        invariant Valid()
        invariant functions == FunctionsOf(items) && globals == GlobalsOf(items)
        invariant ParseItems(old(Input())) == Prepend(items, ParseItems(Input()))
        decreases Len(Input())
      {
        ghost var before := Input();
        var item := ParseTopLevel();
        if item.Failure? { return Failure; }
        match item.value {
          case Func(name, decl) => functions := functions[name := decl];
          case Global(s) => globals := globals + [s];
        }
        ItemsMoveOn(before, items, item.value, Input());
        CollectSnoc(items, item.value);
        items := items + [item.value];
      }
      assert items + [] == items;
      r := Success(Program(functions, globals));
    }
  }

  function Prepend<T>(xs: seq<T>, p: Parsed<seq<T>>): Parsed<seq<T>> {
    match p
    case Err => Err
    case Ok(ys, rest) => Ok(xs + ys, rest)
  }

  lemma ItemsMoveOn(ts: Toks, items: seq<Item>, i: Item, rest: Toks)
    requires Peek(ts) != Eof && ParseItem(ts) == Ok(i, rest)
    ensures Prepend(items, ParseItems(ts)) == Prepend(items + [i], ParseItems(rest))
  {
    assert ParseItems(ts) == Prepend([i], ParseItems(rest));
    PrependTwice(items, [i], ParseItems(rest));
  }

  lemma CollectSnoc(items: seq<Item>, i: Item)
    ensures FunctionsOf(items + [i])
            == if i.Func? then FunctionsOf(items)[i.name := i.decl] else FunctionsOf(items)
    ensures GlobalsOf(items + [i]) == if i.Global? then GlobalsOf(items) + [i.stmt] else GlobalsOf(items)
  {
    assert (items + [i])[..|items|] == items;
  }

  lemma PrependNil<T>(p: Parsed<seq<T>>)
    ensures Prepend([], p) == p
  {
    if p.Ok? { assert [] + p.value == p.value; }
  }

  lemma PrependTwice<T>(xs: seq<T>, ys: seq<T>, p: Parsed<seq<T>>)
    ensures Prepend(xs, Prepend(ys, p)) == Prepend(xs + ys, p)
  {
    if p.Ok? { assert xs + (ys + p.value) == xs + ys + p.value; }
  }

  /** The token array that carries a stream. */
  function Flatten(ts: Toks): (r: seq<Tok>)
    ensures Closed(r)
  {
    if ts.End? then [Eof] else [ts.head] + Flatten(ts.tail)
  }

  lemma {:induction false} StreamOfSuffix(toks: seq<Tok>, pos: nat, ts: Toks)
    requires Closed(toks) && pos < |toks| && toks[pos..] == Flatten(ts)
    ensures Stream(toks, pos) == ts
    decreases ts
  {
    if ts.Cons? {
      assert toks[pos..][0] == toks[pos];
      assert toks[pos + 1..] == toks[pos..][1..] == Flatten(ts.tail);
      StreamOfSuffix(toks, pos + 1, ts.tail);
    } else {
      assert |toks[pos..]| == 1;
    }
  }

  /** Running the parser on the printed form of any well-formed script gives that script's meaning. */
  method ParsePrinted(items: seq<Item>) returns (p: Program)
    requires forall i <- items :: WfItem(i)
    ensures p == Collect(items)
  {
    var toks := Flatten(PrintItems(items));
    StreamOfSuffix(toks, 0, PrintItems(items));
    PacRoundTrip.ProgramRoundTrip(items);
    var parser := new Parser(toks);
    var r := parser.ParseProgram();
    p := r.value;
  }
}
