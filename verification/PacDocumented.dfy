/**
 * Scripts as their documentation reads: the top-level variables seed the scope of every call, parameters
 * shadowing them. The interpreter starts every call from an empty scope instead; here is when that matters.
 */
module PacDocumented {
  import opened Wrappers
  import opened PacSyntax
  import opened PacEval
  import opened PacInterp

  // ---- The documented evaluator ----------------------------------------------------------

  function NamesOf(params: seq<string>): set<string> { set n | n in params }

  /** The globals a function's body can see. */
  function Visible(g: Scope, f: FunctionDecl): Scope { g - NamesOf(f.params) }

  function CallWith(m: Machine, g: Scope, name: string, args: seq<Value>, depth: nat): Outcome<Value>
    decreases Budget(m, depth), 0
  {
    if depth > m.limit then TooDeep
    else
      match m.host.builtin(name, args)
      case Answer(v) => Done(v)
      case Error(e) => Failed(e)
      case NotBuiltin =>
        if name !in m.script.functions then Failed("undefined function")
        else
          var f := m.script.functions[name];
          CallResult(RunWith(m, g, f.body, Visible(g, f) + Bind(f.params, args), depth + 1))
  }

  function RunWith(m: Machine, g: Scope, b: seq<Stmt>, s: Scope, depth: nat): Outcome<(Signal, Scope)>
    decreases Budget(m, depth), 1, b, 0
  {
    if b == [] then Done((Next, s))
    else
      match StepWith(m, g, b[0], s, depth)
      case Done((Next, s')) => RunWith(m, g, b[1..], s', depth)
      case stop => stop
  }

  function StepWith(m: Machine, g: Scope, st: Stmt, s: Scope, depth: nat): Outcome<(Signal, Scope)>
    decreases Budget(m, depth), 1, st, 1
  {
    match st
    case VarDecl(n, None) => Done((Next, s[n := Null]))
    case VarDecl(n, Some(e)) => Store(n, s, EvalWith(m, g, e, s, depth))
    case Assignment(n, e) => Store(n, s, EvalWith(m, g, e, s, depth))
    case ExprStmt(e) =>
      (match EvalWith(m, g, e, s, depth)
       case Done(_) => Done((Next, s))
       case Failed(x) => Failed(x)
       case TooDeep => TooDeep)
    case If(c, t, e) =>
      (match EvalWith(m, g, c, s, depth)
       case Done(v) => if Truthy(m.host, v) then RunWith(m, g, t, s, depth) else RunWith(m, g, e, s, depth)
       case Failed(x) => Failed(x)
       case TooDeep => TooDeep)
    case Return(None) => Done((Returned(Null), s))
    case Return(Some(e)) =>
      (match EvalWith(m, g, e, s, depth)
       case Done(v) => Done((Returned(v), s))
       case Failed(x) => Failed(x)
       case TooDeep => TooDeep)
  }

  function EvalWith(m: Machine, g: Scope, e: Expr, s: Scope, depth: nat): Outcome<Value>
    decreases Budget(m, depth), 1, e, 1
  {
    match e
    case StrLit(x) => Done(Value.Str(x))
    case NumLit(x) => Done(Value.Num(x))
    case BoolLit(x) => Done(Bool(x))
    case Var(n) => Done(if n in s then s[n] else Null)
    case Call(f, args) =>
      (match EvalAllWith(m, g, args, s, depth)
       case Done(vs) => CallWith(m, g, f, vs, depth)
       case Failed(x) => Failed(x)
       case TooDeep => TooDeep)
    case Neg(x) =>
      (match EvalWith(m, g, x, s, depth)
       case Done(v) => Done(Bool(!Truthy(m.host, v)))
       case stop => stop)
    case Bin(op, l, r) =>
      match EvalWith(m, g, l, s, depth)
      case Done(a) =>
        if op == OpAnd || op == OpOr then
          if Decides(m.host, op, a) then Done(a) else EvalWith(m, g, r, s, depth)
        else
          (match EvalWith(m, g, r, s, depth)
           case Done(b) => Done(Strict(m.host, op, a, b))
           case stop => stop)
      case stop => stop
  }

  function EvalAllWith(m: Machine, g: Scope, es: seq<Expr>, s: Scope, depth: nat): Outcome<seq<Value>>
    decreases Budget(m, depth), 1, es, 0
  {
    if es == [] then Done([])
    else
      match EvalWith(m, g, es[0], s, depth)
      case Done(v) =>
        (match EvalAllWith(m, g, es[1..], s, depth)
         case Done(vs) => Done([v] + vs)
         case stop => stop)
      case Failed(x) => Failed(x)
      case TooDeep => TooDeep
  }

  /** The top-level statements: calls among them see the variables set so far. */
  function SeedWith(m: Machine, globals: seq<Stmt>, s: Scope): Outcome<Scope> {
    if globals == [] then Done(s)
    else
      match StepWith(m, s, globals[0], s, 0)
      case Done((_, s')) => SeedWith(m, globals[1..], s')
      case Failed(e) => Failed(e)
      case TooDeep => TooDeep
  }

  /** What the documentation promises for one URL. */
  function Documented(p: Program, h: Host, url: string, host: string): Outcome<string> {
    var m := Machine(Script(p.functions, h), MAX_CALL_DEPTH);
    if ENTRY !in p.functions then Failed("no FindProxyForURL function")
    else
      match SeedWith(m, p.globals, map[])
      case Failed(e) => Failed(e)
      case TooDeep => TooDeep
      case Done(g) =>
        match CallWith(m, g, ENTRY, [Value.Str(url), Value.Str(host)], 0)
        case Done(Null) => Done("DIRECT")
        case Done(v) => Done(AsString(h, v))
        case Failed(e) => Failed(e)
        case TooDeep => TooDeep
  }

  // ---- A check on the script ---------------------------------------------------------------

  /** No name of the set is read. */
  predicate Ignores(e: Expr, names: set<string>) {
    match e
    case Var(n) => n !in names
    case Call(_, args) => forall a <- args :: Ignores(a, names)
    case Neg(x) => Ignores(x, names)
    case Bin(_, l, r) => Ignores(l, names) && Ignores(r, names)
    case _ => true
  }

  predicate StmtIgnores(st: Stmt, names: set<string>) {
    match st
    case VarDecl(_, Some(e)) => Ignores(e, names)
    case Assignment(_, e) => Ignores(e, names)
    case ExprStmt(e) => Ignores(e, names)
    case If(c, t, e) =>
      && Ignores(c, names)
      && (forall x <- t :: StmtIgnores(x, names)) && (forall x <- e :: StmtIgnores(x, names))
    case Return(Some(e)) => Ignores(e, names)
    case _ => true
  }

  predicate BlockIgnores(b: seq<Stmt>, names: set<string>) {
    forall st <- b :: StmtIgnores(st, names)
  }

  /** The names a statement may set. */
  function Sets(st: Stmt): set<string>
    decreases st, 1
  {
    match st
    case VarDecl(n, _) => {n}
    case Assignment(n, _) => {n}
    case If(_, t, e) => AllSets(t) + AllSets(e)
    case _ => {}
  }

  function AllSets(b: seq<Stmt>): set<string>
    decreases b, 0
  {
    if b == [] then {} else Sets(b[0]) + AllSets(b[1..])
  }

  predicate FunctionsIgnore(functions: map<string, FunctionDecl>, names: set<string>) {
    forall f <- functions :: BlockIgnores(functions[f].body, names - NamesOf(functions[f].params))
  }

  /** No function reads a global that is not one of its parameters. */
  predicate Separate(p: Program) { FunctionsIgnore(p.functions, AllSets(p.globals)) }

  // ---- Where nothing is read, nothing changes ------------------------------------------------

  function Over(base: Scope, x: Outcome<(Signal, Scope)>): Outcome<(Signal, Scope)> {
    match x
    case Done((sig, s)) => Done((sig, base + s))
    case Failed(e) => Failed(e)
    case TooDeep => TooDeep
  }

  lemma CallAgrees(m: Machine, g: Scope, name: string, args: seq<Value>, d: nat)
    requires FunctionsIgnore(m.script.functions, g.Keys)
    ensures CallWith(m, g, name, args, d) == Invoke(m, name, args, d)
    decreases Budget(m, d), 0
  {
    if d <= m.limit && m.host.builtin(name, args).NotBuiltin? && name in m.script.functions {
      var f := m.script.functions[name];
      assert Visible(g, f).Keys == g.Keys - NamesOf(f.params);
      RunAgrees(m, g, f.body, Visible(g, f), Bind(f.params, args), d + 1);
    }
  }

  lemma {:induction false} RunAgrees(m: Machine, g: Scope, b: seq<Stmt>, base: Scope, s: Scope, d: nat)
    requires FunctionsIgnore(m.script.functions, g.Keys) && BlockIgnores(b, base.Keys)
    ensures RunWith(m, g, b, base + s, d) == Over(base, Exec(m, b, s, d))
    decreases Budget(m, d), 1, b, 0
  {
    if b != [] {
      assert b[0] in b && forall x <- b[1..] :: x in b;
      StepAgrees(m, g, b[0], base, s, d);
      var x := Step(m, b[0], s, d);
      if x.Done? && x.value.0 == Next { RunAgrees(m, g, b[1..], base, x.value.1, d); }
    }
  }

  lemma {:induction false} StepAgrees(m: Machine, g: Scope, st: Stmt, base: Scope, s: Scope, d: nat)
    requires FunctionsIgnore(m.script.functions, g.Keys) && StmtIgnores(st, base.Keys)
    ensures StepWith(m, g, st, base + s, d) == Over(base, Step(m, st, s, d))
    decreases Budget(m, d), 1, st, 1
  {
    match st
    case VarDecl(n, None) => StoredOver(base, s, n, Null);
    case VarDecl(n, Some(e)) =>
      EvalAgrees(m, g, e, base, s, d);
      StoreOver(base, s, n, Eval(m, e, s, d));
    case Assignment(n, e) =>
      EvalAgrees(m, g, e, base, s, d);
      StoreOver(base, s, n, Eval(m, e, s, d));
    case ExprStmt(e) => EvalAgrees(m, g, e, base, s, d);
    case If(c, t, e) =>
      EvalAgrees(m, g, c, base, s, d);
      RunAgrees(m, g, t, base, s, d);
      RunAgrees(m, g, e, base, s, d);
    case Return(Some(e)) => EvalAgrees(m, g, e, base, s, d);
    case Return(None) =>
  }

  lemma StoredOver(base: Scope, s: Scope, n: string, v: Value)
    ensures (base + s)[n := v] == base + s[n := v]
  {
  }

  lemma StoreOver(base: Scope, s: Scope, n: string, v: Outcome<Value>)
    ensures Store(n, base + s, v) == Over(base, Store(n, s, v))
  {
    if v.Done? { StoredOver(base, s, n, v.value); }
  }

  lemma {:induction false} EvalAgrees(m: Machine, g: Scope, e: Expr, base: Scope, s: Scope, d: nat)
    requires FunctionsIgnore(m.script.functions, g.Keys) && Ignores(e, base.Keys)
    ensures EvalWith(m, g, e, base + s, d) == Eval(m, e, s, d)
    decreases Budget(m, d), 1, e, 1
  {
    match e
    case Call(f, args) =>
      EvalAllAgrees(m, g, args, base, s, d);
      var vs := EvalAll(m, args, s, d);
      if vs.Done? { CallAgrees(m, g, f, vs.value, d); }
    case Neg(x) => EvalAgrees(m, g, x, base, s, d);
    case Bin(_, l, r) =>
      EvalAgrees(m, g, l, base, s, d);
      EvalAgrees(m, g, r, base, s, d);
    case _ =>
  }

  lemma {:induction false} EvalAllAgrees(m: Machine, g: Scope, es: seq<Expr>, base: Scope, s: Scope, d: nat)
    requires FunctionsIgnore(m.script.functions, g.Keys) && forall e <- es :: Ignores(e, base.Keys)
    ensures EvalAllWith(m, g, es, base + s, d) == EvalAll(m, es, s, d)
    decreases Budget(m, d), 1, es, 0
  {
    if es != [] {
      assert es[0] in es && forall x <- es[1..] :: x in es;
      EvalAgrees(m, g, es[0], base, s, d);
      EvalAllAgrees(m, g, es[1..], base, s, d);
    }
  }

  // ---- Whole scripts --------------------------------------------------------------------------

  lemma {:induction false} StepSets(m: Machine, st: Stmt, s: Scope, d: nat)
    requires Step(m, st, s, d).Done?
    ensures Step(m, st, s, d).value.1.Keys <= s.Keys + Sets(st)
    decreases st, 1
  {
    match st
    case If(c, t, e) =>
      if Truthy(m.host, Eval(m, c, s, d).value) { ExecSets(m, t, s, d); } else { ExecSets(m, e, s, d); }
    case _ =>
  }

  lemma {:induction false} ExecSets(m: Machine, b: seq<Stmt>, s: Scope, d: nat)
    requires Exec(m, b, s, d).Done?
    ensures Exec(m, b, s, d).value.1.Keys <= s.Keys + AllSets(b)
    decreases b, 0
  {
    if b != [] {
      StepSets(m, b[0], s, d);
      var x := Step(m, b[0], s, d);
      if x.value.0 == Next { ExecSets(m, b[1..], x.value.1, d); }
    }
  }

  lemma {:induction false} FewerNames(functions: map<string, FunctionDecl>, names: set<string>, fewer: set<string>)
    requires FunctionsIgnore(functions, names) && fewer <= names
    ensures FunctionsIgnore(functions, fewer)
  {
    forall f | f in functions ensures BlockIgnores(functions[f].body, fewer - NamesOf(functions[f].params)) {
      var params := NamesOf(functions[f].params);
      forall st | st in functions[f].body ensures StmtIgnores(st, fewer - params) {
        StmtIgnoresFewer(st, names - params, fewer - params);
      }
    }
  }

  lemma {:induction false} IgnoresFewer(e: Expr, names: set<string>, fewer: set<string>)
    requires Ignores(e, names) && fewer <= names
    ensures Ignores(e, fewer)
  {
    match e
    case Call(_, args) => forall a | a in args ensures Ignores(a, fewer) { IgnoresFewer(a, names, fewer); }
    case Neg(x) => IgnoresFewer(x, names, fewer);
    case Bin(_, l, r) =>
      IgnoresFewer(l, names, fewer);
      IgnoresFewer(r, names, fewer);
    case _ =>
  }

  lemma {:induction false} StmtIgnoresFewer(st: Stmt, names: set<string>, fewer: set<string>)
    requires StmtIgnores(st, names) && fewer <= names
    ensures StmtIgnores(st, fewer)
  {
    match st
    case VarDecl(_, Some(e)) => IgnoresFewer(e, names, fewer);
    case Assignment(_, e) => IgnoresFewer(e, names, fewer);
    case ExprStmt(e) => IgnoresFewer(e, names, fewer);
    case If(c, t, e) =>
      IgnoresFewer(c, names, fewer);
      forall x | x in t ensures StmtIgnores(x, fewer) { StmtIgnoresFewer(x, names, fewer); }
      forall x | x in e ensures StmtIgnores(x, fewer) { StmtIgnoresFewer(x, names, fewer); }
    case Return(Some(e)) => IgnoresFewer(e, names, fewer);
    case _ =>
  }

  lemma {:induction false} IgnoresNothing(e: Expr, none: set<string>)
    requires |none| == 0
    ensures Ignores(e, none)
  {
    match e
    case Call(_, args) => forall a | a in args ensures Ignores(a, none) { IgnoresNothing(a, none); }
    case Neg(x) => IgnoresNothing(x, none);
    case Bin(_, l, r) =>
      IgnoresNothing(l, none);
      IgnoresNothing(r, none);
    case _ =>
  }

  lemma {:induction false} StmtIgnoresNothing(st: Stmt, none: set<string>)
    requires |none| == 0
    ensures StmtIgnores(st, none)
  {
    match st
    case VarDecl(_, Some(e)) => IgnoresNothing(e, none);
    case Assignment(_, e) => IgnoresNothing(e, none);
    case ExprStmt(e) => IgnoresNothing(e, none);
    case If(c, t, e) =>
      IgnoresNothing(c, none);
      forall x | x in t ensures StmtIgnores(x, none) { StmtIgnoresNothing(x, none); }
      forall x | x in e ensures StmtIgnores(x, none) { StmtIgnoresNothing(x, none); }
    case Return(Some(e)) => IgnoresNothing(e, none);
    case _ =>
  }

  /** At the top level both evaluators read the one scope there is. */
  lemma TopLevelAgrees(m: Machine, st: Stmt, s: Scope)
    requires FunctionsIgnore(m.script.functions, s.Keys)
    ensures StepWith(m, s, st, s, 0) == Step(m, st, s, 0)
  {
    var none: Scope := map[];
    StmtIgnoresNothing(st, none.Keys);
    assert none + s == s;
    StepAgrees(m, s, st, none, s, 0);
    var x := Step(m, st, s, 0);
    if x.Done? { assert none + x.value.1 == x.value.1; }
  }

  lemma {:induction false} SeedingAgrees(m: Machine, globals: seq<Stmt>, s: Scope)
    requires FunctionsIgnore(m.script.functions, s.Keys + AllSets(globals))
    ensures SeedWith(m, globals, s) == RunGlobals(m, globals, s)
    ensures RunGlobals(m, globals, s).Done? ==> RunGlobals(m, globals, s).value.Keys <= s.Keys + AllSets(globals)
    decreases globals
  {
    if globals != [] {
      var names := s.Keys + AllSets(globals);
      FewerNames(m.script.functions, names, s.Keys);
      TopLevelAgrees(m, globals[0], s);
      var x := Step(m, globals[0], s, 0);
      if x.Done? {
        StepSets(m, globals[0], s, 0);
        FewerNames(m.script.functions, names, x.value.1.Keys + AllSets(globals[1..]));
        SeedingAgrees(m, globals[1..], x.value.1);
      }
    }
  }

  /** A script no function of which reads a global beyond its parameters answers as documented, always. */
  lemma SeparateScriptsAnswerAsDocumented(p: Program, h: Host, url: string, host: string)
    requires Separate(p)
    ensures Answered(p, h, url, host) == Documented(p, h, url, host)
  {
    var m := Machine(Script(p.functions, h), MAX_CALL_DEPTH);
    var none: Scope := map[];
    assert none.Keys + AllSets(p.globals) == AllSets(p.globals);
    SeedingAgrees(m, p.globals, none);
    var g := RunGlobals(m, p.globals, none);
    if ENTRY in p.functions && g.Done? {
      FewerNames(p.functions, AllSets(p.globals), g.value.Keys);
      CallAgrees(m, g.value, ENTRY, [Value.Str(url), Value.Str(host)], 0);
    }
  }

  /** One read in a function body gets its documented value exactly when no visible global's value is missed. */
  lemma ReadIsDocumentedExactly(m: Machine, g: Scope, f: FunctionDecl, n: string, s: Scope, d: nat)
    ensures EvalWith(m, g, Var(n), Visible(g, f) + s, d) == Eval(m, Var(n), s, d)
            <==> n in s || n !in g || n in f.params || g[n] == Null
  {
    assert n in NamesOf(f.params) <==> n in f.params;
  }

  // ---- A family of scripts that misses ------------------------------------------------------------

  function Returning(n: string, text: string): Program {
    Program(map[ENTRY := FunctionDecl(["url", "host"], [Return(Some(Var(n)))])], [VarDecl(n, Some(StrLit(text)))])
  }

  lemma ReturnsItsRead(m: Machine, n: string, s: Scope, d: nat)
    ensures Exec(m, [Return(Some(Var(n)))], s, d) == Done((Returned(if n in s then s[n] else Null), s))
  {
    var st := Return(Some(Var(n)));
    assert Step(m, st, s, d) == Done((Returned(if n in s then s[n] else Null), s));
  }

  lemma ReturnsItsReadWith(m: Machine, g: Scope, n: string, s: Scope, d: nat)
    ensures RunWith(m, g, [Return(Some(Var(n)))], s, d) == Done((Returned(if n in s then s[n] else Null), s))
  {
    var st := Return(Some(Var(n)));
    assert StepWith(m, g, st, s, d) == Done((Returned(if n in s then s[n] else Null), s));
  }

  lemma OneGlobal(m: Machine, n: string, text: string)
    ensures RunGlobals(m, [VarDecl(n, Some(StrLit(text)))], map[]) == Done(map[n := Value.Str(text)])
    ensures SeedWith(m, [VarDecl(n, Some(StrLit(text)))], map[]) == Done(map[n := Value.Str(text)])
  {
    var st := VarDecl(n, Some(StrLit(text)));
    var none: Scope := map[];
    assert [st][1..] == [];
    assert Step(m, st, none, 0) == Done((Next, none[n := Value.Str(text)]));
    assert StepWith(m, none, st, none, 0) == Done((Next, none[n := Value.Str(text)]));
  }

  /** A function that returns a global of any name and text: documented to answer the text, it answers "DIRECT". */
  lemma GlobalIsNotSeen(h: Host, n: string, text: string, url: string, host: string)
    requires n != "url" && n != "host" && forall args :: h.builtin(ENTRY, args) == NotBuiltin
    ensures Answered(Returning(n, text), h, url, host) == Done("DIRECT")
    ensures Documented(Returning(n, text), h, url, host) == Done(text)
  {
    var p := Returning(n, text);
    var f := p.functions[ENTRY];
    var m := Machine(Script(p.functions, h), MAX_CALL_DEPTH);
    var args := [Value.Str(url), Value.Str(host)];
    var g: Scope := map[n := Value.Str(text)];
    OneGlobal(m, n, text);
    OnlyParamsBound(f.params, args);
    var s := Bind(f.params, args);
    ReturnsItsRead(m, n, s, 1);
    ReturnsItsReadWith(m, g, n, Visible(g, f) + s, 1);
    assert n !in NamesOf(f.params);
    assert Invoke(m, ENTRY, args, 0) == Done(Null);
    assert CallWith(m, g, ENTRY, args, 0) == Done(Value.Str(text));
  }
}
