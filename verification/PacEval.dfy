/** The depth-bounded PAC evaluator, and the unbounded big-step semantics it cuts off. */
module PacEval {
  import opened Wrappers
  import opened PacSyntax

  datatype Value = Str(s: string) | Num(n: Number) | Bool(b: bool) | Null

  /** What a built-in answers: its value, an error, or "not a built-in". */
  datatype Native = Answer(v: Value) | Error(reason: string) | NotBuiltin

  /**
   * Everything the evaluator takes from outside: floating-point arithmetic, the
   * number/text conversions, and the built-in functions with the clock and DNS
   * answers they see. Every theorem below holds for every choice.
   */
  datatype Host = Host(
    isZero: Number -> bool,
    add: (Number, Number) -> Number,
    equal: (Number, Number) -> bool,
    less: (Number, Number) -> bool,
    lessEq: (Number, Number) -> bool,
    zero: Number,
    one: Number,
    show: Number -> string,
    read: string -> Number,
    builtin: (string, seq<Value>) -> Native)

  /** `TooDeep` is the recursion limit; every other error is an ordinary failure. */
  datatype Outcome<+T> = Done(value: T) | Failed(reason: string) | TooDeep

  type Scope = map<string, Value>

  datatype Signal = Next | Returned(v: Value)

  datatype Script = Script(functions: map<string, FunctionDecl>, host: Host)

  /** A script together with the recursion limit it runs under. */
  datatype Machine = Machine(script: Script, limit: nat) {
    const host: Host := script.host
  }

  /** The source's recursion limit. */
  const MAX_CALL_DEPTH := 64

  const ENTRY := "FindProxyForURL"

  // ---- Values ----------------------------------------------------------------

  function Truthy(h: Host, v: Value): bool {
    match v
    case Str(s) => s != ""
    case Num(n) => !h.isZero(n)
    case Bool(b) => b
    case Null => false
  }

  function AsString(h: Host, v: Value): string {
    match v
    case Str(s) => s
    case Num(n) => h.show(n)
    case Bool(b) => if b then "true" else "false"
    case Null => "null"
  }

  function AsNum(h: Host, v: Value): Number {
    match v
    case Num(n) => n
    case Str(s) => h.read(s)
    case Bool(b) => if b then h.one else h.zero
    case Null => h.zero
  }

  predicate ValuesEq(h: Host, a: Value, b: Value) {
    match (a, b)
    case (Num(x), Num(y)) => h.equal(x, y)
    case (Bool(x), Bool(y)) => x == y
    case (Null, Null) => true
    case _ => AsString(h, a) == AsString(h, b)
  }

  /** The operators that evaluate both operands. */
  function Strict(h: Host, op: BinOp, a: Value, b: Value): Value
    requires op != OpAnd && op != OpOr
  {
    match op
    case OpAdd =>
      if a.Num? && b.Num? then Value.Num(h.add(a.n, b.n)) else Value.Str(AsString(h, a) + AsString(h, b))
    case OpEq => Bool(ValuesEq(h, a, b))
    case OpNotEq => Bool(!ValuesEq(h, a, b))
    case OpLt => Bool(h.less(AsNum(h, a), AsNum(h, b)))
    case OpGt => Bool(h.less(AsNum(h, b), AsNum(h, a)))
    case OpLe => Bool(h.lessEq(AsNum(h, a), AsNum(h, b)))
    case OpGe => Bool(h.lessEq(AsNum(h, b), AsNum(h, a)))
  }

  /** `&&` and `||` stop at the left operand's value when it decides. */
  predicate Decides(h: Host, op: BinOp, a: Value) {
    (op == OpAnd && !Truthy(h, a)) || (op == OpOr && Truthy(h, a))
  }

  /** Parameters take arguments by position; surplus ones on either side are dropped. */
  function Bind(params: seq<string>, args: seq<Value>): Scope {
    if params == [] || args == [] then map[]
    else
      var n := if |params| < |args| then |params| else |args|;
      Bind(params[..n - 1], args[..n - 1])[params[n - 1] := args[n - 1]]
  }

  // ---- The bounded evaluator -------------------------------------------------

  /** Calls still allowed at `depth`. */
  function Budget(m: Machine, depth: nat): nat {
    if depth > m.limit then 0 else m.limit + 1 - depth
  }

  function Invoke(m: Machine, name: string, args: seq<Value>, depth: nat): Outcome<Value>
    decreases Budget(m, depth), 0
  {
    if depth > m.limit then TooDeep
    else
      match m.host.builtin(name, args)
      case Answer(v) => Done(v)
      case Error(e) => Failed(e)
      case NotBuiltin =>
        if name !in m.script.functions then Failed("undefined function")
        else
          var f := m.script.functions[name];
          CallResult(Exec(m, f.body, Bind(f.params, args), depth + 1))
  }

  /** What a call makes of its body's outcome: falling off the end yields null. */
  function CallResult(x: Outcome<(Signal, Scope)>): Outcome<Value> {
    match x
    case Done((Returned(v), _)) => Done(v)
    case Done((Next, _)) => Done(Null)
    case Failed(e) => Failed(e)
    case TooDeep => TooDeep
  }

  function Exec(m: Machine, b: seq<Stmt>, s: Scope, depth: nat): Outcome<(Signal, Scope)>
    decreases Budget(m, depth), 1, b, 0
  {
    if b == [] then Done((Next, s))
    else
      match Step(m, b[0], s, depth)
      case Done((Next, s')) => Exec(m, b[1..], s', depth)
      case stop => stop
  }

  function Step(m: Machine, st: Stmt, s: Scope, depth: nat): Outcome<(Signal, Scope)>
    decreases Budget(m, depth), 1, st, 1
  {
    match st
    case VarDecl(n, None) => Done((Next, s[n := Null]))
    case VarDecl(n, Some(e)) => Store(n, s, Eval(m, e, s, depth))
    case Assignment(n, e) => Store(n, s, Eval(m, e, s, depth))
    case ExprStmt(e) =>
      (match Eval(m, e, s, depth)
       case Done(_) => Done((Next, s))
       case Failed(x) => Failed(x)
       case TooDeep => TooDeep)
    case If(c, t, e) =>
      (match Eval(m, c, s, depth)
       case Done(v) => if Truthy(m.host, v) then Exec(m, t, s, depth) else Exec(m, e, s, depth)
       case Failed(x) => Failed(x)
       case TooDeep => TooDeep)
    case Return(None) => Done((Returned(Null), s))
    case Return(Some(e)) =>
      (match Eval(m, e, s, depth)
       case Done(v) => Done((Returned(v), s))
       case Failed(x) => Failed(x)
       case TooDeep => TooDeep)
  }

  function Store(n: string, s: Scope, v: Outcome<Value>): Outcome<(Signal, Scope)> {
    match v
    case Done(x) => Done((Next, s[n := x]))
    case Failed(e) => Failed(e)
    case TooDeep => TooDeep
  }

  function Eval(m: Machine, e: Expr, s: Scope, depth: nat): Outcome<Value>
    decreases Budget(m, depth), 1, e, 1
  {
    match e
    case StrLit(x) => Done(Value.Str(x))
    case NumLit(x) => Done(Value.Num(x))
    case BoolLit(x) => Done(Bool(x))
    case Var(n) => Done(if n in s then s[n] else Null)
    case Call(f, args) =>
      (match EvalAll(m, args, s, depth)
       case Done(vs) => Invoke(m, f, vs, depth)
       case Failed(x) => Failed(x)
       case TooDeep => TooDeep)
    case Neg(x) =>
      (match Eval(m, x, s, depth)
       case Done(v) => Done(Bool(!Truthy(m.host, v)))
       case stop => stop)
    case Bin(op, l, r) =>
      match Eval(m, l, s, depth)
      case Done(a) =>
        if op == OpAnd || op == OpOr then
          if Decides(m.host, op, a) then Done(a) else Eval(m, r, s, depth)
        else
          (match Eval(m, r, s, depth)
           case Done(b) => Done(Strict(m.host, op, a, b))
           case stop => stop)
      case stop => stop
  }

  function EvalAll(m: Machine, es: seq<Expr>, s: Scope, depth: nat): Outcome<seq<Value>>
    decreases Budget(m, depth), 1, es, 0
  {
    if es == [] then Done([])
    else
      match Eval(m, es[0], s, depth)
      case Done(v) =>
        (match EvalAll(m, es[1..], s, depth)
         case Done(vs) => Done([v] + vs)
         case stop => stop)
      case Failed(x) => Failed(x)
      case TooDeep => TooDeep
  }

  // ---- The unbounded semantics ---------------------------------------------------
  //
  // Inference rules, read as "there is a derivation whose calls nest at most `k`
  // deep". Nothing here knows of a limit, and `TooDeep` is never derived.

  ghost predicate Evaluates(sc: Script, k: nat, e: Expr, s: Scope, r: Outcome<Value>)
    decreases k, 1, e, 1
  {
    match e
    case StrLit(x) => r == Done(Value.Str(x))
    case NumLit(x) => r == Done(Value.Num(x))
    case BoolLit(x) => r == Done(Bool(x))
    case Var(n) => r == Done(if n in s then s[n] else Null)
    case Call(f, args) =>
      exists a :: EvaluatesAll(sc, k, args, s, a) &&
        (match a
         case Done(vs) => Invokes(sc, k, f, vs, r)
         case Failed(x) => r == Failed(x)
         case TooDeep => false)
    case Neg(x) =>
      exists a :: Evaluates(sc, k, x, s, a) &&
        r == if a.Done? then Done(Bool(!Truthy(sc.host, a.value))) else a
    case Bin(op, l, rt) =>
      exists a :: Evaluates(sc, k, l, s, a) &&
        if !a.Done? then r == a
        else if Decides(sc.host, op, a.value) then r == a
        else if op == OpAnd || op == OpOr then Evaluates(sc, k, rt, s, r)
        else
          exists b :: Evaluates(sc, k, rt, s, b) &&
            r == if b.Done? then Done(Strict(sc.host, op, a.value, b.value)) else b
  }

  ghost predicate EvaluatesAll(sc: Script, k: nat, es: seq<Expr>, s: Scope, r: Outcome<seq<Value>>)
    decreases k, 1, es, 0
  {
    if es == [] then r == Done([])
    else
      exists a :: Evaluates(sc, k, es[0], s, a) &&
        match a
        case Failed(x) => r == Failed(x)
        case TooDeep => false
        case Done(v) =>
          exists b :: EvaluatesAll(sc, k, es[1..], s, b) &&
            r == if b.Done? then Done([v] + b.value) else b
  }

  ghost predicate Invokes(sc: Script, k: nat, name: string, args: seq<Value>, r: Outcome<Value>)
    decreases k, 0
  {
    k > 0 &&
    match sc.host.builtin(name, args)
    case Answer(v) => r == Done(v)
    case Error(e) => r == Failed(e)
    case NotBuiltin =>
      if name !in sc.functions then r == Failed("undefined function")
      else
        var f := sc.functions[name];
        exists x :: Executes(sc, k - 1, f.body, Bind(f.params, args), x) && r == CallResult(x)
  }

  ghost predicate Executes(sc: Script, k: nat, b: seq<Stmt>, s: Scope, r: Outcome<(Signal, Scope)>)
    decreases k, 1, b, 0
  {
    if b == [] then r == Done((Next, s))
    else
      exists x :: Steps(sc, k, b[0], s, x) &&
        if x.Done? && x.value.0 == Next then Executes(sc, k, b[1..], x.value.1, r) else r == x
  }

  ghost predicate Steps(sc: Script, k: nat, st: Stmt, s: Scope, r: Outcome<(Signal, Scope)>)
    decreases k, 1, st, 1
  {
    match st
    case VarDecl(n, None) => r == Done((Next, s[n := Null]))
    case VarDecl(n, Some(e)) => exists a :: Evaluates(sc, k, e, s, a) && r == Store(n, s, a)
    case Assignment(n, e) => exists a :: Evaluates(sc, k, e, s, a) && r == Store(n, s, a)
    case ExprStmt(e) =>
      exists a :: Evaluates(sc, k, e, s, a) &&
        r == if a.Done? then Done((Next, s)) else Raise(a)
    case If(c, t, e) =>
      exists a :: Evaluates(sc, k, c, s, a) &&
        if !a.Done? then r == Raise(a)
        else if Truthy(sc.host, a.value) then Executes(sc, k, t, s, r)
        else Executes(sc, k, e, s, r)
    case Return(None) => r == Done((Returned(Null), s))
    case Return(Some(e)) =>
      exists a :: Evaluates(sc, k, e, s, a) &&
        r == if a.Done? then Done((Returned(a.value), s)) else Raise(a)
  }

  function Raise<T, U>(a: Outcome<T>): Outcome<U>
    requires !a.Done?
  {
    if a.Failed? then Failed(a.reason) else TooDeep
  }
}
