/** The running interpreter: a mutable scope, loops over statements, and a count of the nodes it visits. */
module PacInterp {
  import opened Wrappers
  import opened PacSyntax
  import opened PacEval
  import opened PacCost

  // ---- The interpreter -------------------------------------------------------

  class Frame {
    var vars: Scope

    constructor (vars: Scope)
      ensures this.vars == vars
    {
      this.vars := vars;
    }

    /** The signal and the variables left behind are those of the specification. */
    ghost predicate Matches(r: Outcome<Signal>, spec: Outcome<(Signal, Scope)>)
      reads this
    {
      match spec
      case Done((sig, s)) => r == Done(sig) && vars == s
      case Failed(e) => r == Failed(e)
      case TooDeep => r == TooDeep
    }
  }

  method Call(m: Machine, name: string, args: seq<Value>, depth: nat)
    returns (r: Outcome<Value>, visits: nat)
    ensures r == Invoke(m, name, args, depth)
    ensures visits == CallVisits(m, name, args, depth)
    decreases Budget(m, depth), 0
  {
    visits := 0;
    if depth > m.limit { return TooDeep, 0; }
    match m.host.builtin(name, args) {
      case Answer(v) => return Done(v), 0;
      case Error(e) => return Failed(e), 0;
      case NotBuiltin =>
    }
    if name !in m.script.functions { return Failed("undefined function"), 0; }
    var f := m.script.functions[name];
    var frame := new Frame(Bind(f.params, args));
    var sig: Outcome<Signal>;
    sig, visits := RunBlock(m, f.body, frame, depth + 1);
    match sig {
      case Done(Returned(v)) => r := Done(v);
      case Done(Next) => r := Done(Null);
      case Failed(e) => r := Failed(e);
      case TooDeep => r := TooDeep;
    }
  }

  method RunBlock(m: Machine, b: seq<Stmt>, frame: Frame, depth: nat)
    returns (r: Outcome<Signal>, visits: nat)
    modifies frame
    ensures frame.Matches(r, Exec(m, b, old(frame.vars), depth))
    ensures visits == BlockVisits(m, b, old(frame.vars), depth)
    decreases Budget(m, depth), 1, b, 0
  {
    visits := 0;
    assert b[0..] == b;
    var i := 0;
    while i < |b|
      invariant 0 <= i <= |b|
      invariant Exec(m, b, old(frame.vars), depth) == Exec(m, b[i..], frame.vars, depth)
      invariant visits + BlockVisits(m, b[i..], frame.vars, depth) == BlockVisits(m, b, old(frame.vars), depth)
    {
      var sig, more := RunStmt(m, b[i], frame, depth);
      assert b[i..][0] == b[i] && b[i..][1..] == b[i + 1..];
      visits := visits + more;
      if sig != Done(Next) { return sig, visits; }
      i := i + 1;
    }
    r := Done(Next);
  }

  method RunStmt(m: Machine, st: Stmt, frame: Frame, depth: nat)
    returns (r: Outcome<Signal>, visits: nat)
    modifies frame
    ensures frame.Matches(r, Step(m, st, old(frame.vars), depth))
    ensures visits == StmtVisits(m, st, old(frame.vars), depth)
    decreases Budget(m, depth), 1, st, 1
  {
    match st
    case VarDecl(n, init) =>
      var v: Outcome<Value> := Done(Null);
      visits := 0;
      if init.Some? { v, visits := EvalExpr(m, init.value, frame.vars, depth); }
      visits := visits + 1;
      r := Assign(frame, n, v);
    case Assignment(n, e) =>
      var v;
      v, visits := EvalExpr(m, e, frame.vars, depth);
      visits := visits + 1;
      r := Assign(frame, n, v);
    case ExprStmt(e) =>
      var v;
      v, visits := EvalExpr(m, e, frame.vars, depth);
      visits := visits + 1;
      r := if v.Done? then Done(Next) else Raise(v);
    case If(_, _, _) =>
      r, visits := RunIf(m, st, frame, depth);
    case Return(value) =>
      var v: Outcome<Value> := Done(Null);
      visits := 0;
      if value.Some? { v, visits := EvalExpr(m, value.value, frame.vars, depth); }
      visits := visits + 1;
      r := if v.Done? then Done(Returned(v.value)) else Raise(v);
  }

  method Assign(frame: Frame, n: string, v: Outcome<Value>) returns (r: Outcome<Signal>)
    modifies frame
    ensures frame.Matches(r, Store(n, old(frame.vars), v))
  {
    if !v.Done? { return Raise(v); }
    frame.vars := frame.vars[n := v.value];
    r := Done(Next);
  }

  method RunIf(m: Machine, st: Stmt, frame: Frame, depth: nat)
    returns (r: Outcome<Signal>, visits: nat)
    requires st.If?
    modifies frame
    ensures frame.Matches(r, Step(m, st, old(frame.vars), depth))
    ensures visits == StmtVisits(m, st, old(frame.vars), depth)
    decreases Budget(m, depth), 1, st, 0
  {
    var c, vc := EvalExpr(m, st.cond, frame.vars, depth);
    var vb := 0;
    if !c.Done? {
      r := Raise(c);
    } else if Truthy(m.host, c.value) {
      r, vb := RunBlock(m, st.thenBranch, frame, depth);
    } else {
      r, vb := RunBlock(m, st.elseBranch, frame, depth);
    }
    visits := 1 + vc + vb;
  }

  method EvalExpr(m: Machine, e: Expr, s: Scope, depth: nat)
    returns (r: Outcome<Value>, visits: nat)
    ensures r == Eval(m, e, s, depth)
    ensures visits == ExprVisits(m, e, s, depth)
    decreases Budget(m, depth), 1, e, 1
  {
    match e
    case StrLit(x) => return Done(Value.Str(x)), 1;
    case NumLit(x) => return Done(Value.Num(x)), 1;
    case BoolLit(x) => return Done(Bool(x)), 1;
    case Var(n) => return Done(if n in s then s[n] else Null), 1;
    case Neg(x) =>
      r, visits := EvalExpr(m, x, s, depth);
      visits := visits + 1;
      if r.Done? { r := Done(Bool(!Truthy(m.host, r.value))); }
    case Call(f, args) =>
      var vs, va := EvalArgs(m, args, s, depth);
      var vc := 0;
      if vs.Done? {
        r, vc := Call(m, f, vs.value, depth);
      } else {
        r := Raise(vs);
      }
      visits := 1 + va + vc;
    case Bin(_, _, _) =>
      r, visits := EvalBin(m, e, s, depth);
  }

  method EvalBin(m: Machine, e: Expr, s: Scope, depth: nat)
    returns (r: Outcome<Value>, visits: nat)
    requires e.Bin?
    ensures r == Eval(m, e, s, depth)
    ensures visits == ExprVisits(m, e, s, depth)
    decreases Budget(m, depth), 1, e, 0
  {
    var vl, vr := 0, 0;
    r, vl := EvalExpr(m, e.left, s, depth);
    if r.Done? && !Decides(m.host, e.op, r.value) {
      var a := r.value;
      r, vr := EvalExpr(m, e.right, s, depth);
      if e.op != OpAnd && e.op != OpOr && r.Done? { r := Done(Strict(m.host, e.op, a, r.value)); }
    }
    visits := 1 + vl + vr;
  }

  method EvalArgs(m: Machine, es: seq<Expr>, s: Scope, depth: nat)
    returns (r: Outcome<seq<Value>>, visits: nat)
    ensures r == EvalAll(m, es, s, depth)
    ensures visits == ArgVisits(m, es, s, depth)
    decreases Budget(m, depth), 1, es, 0
  {
    visits := 0;
    var vs: seq<Value> := [];
    PrefixedNone(EvalAll(m, es, s, depth));
    assert es[0..] == es;
    var i := 0;
    while i < |es|
      invariant 0 <= i <= |es|
      invariant EvalAll(m, es, s, depth) == Prefixed(vs, EvalAll(m, es[i..], s, depth))
      invariant visits + ArgVisits(m, es[i..], s, depth) == ArgVisits(m, es, s, depth)
    {
      var v, more := EvalExpr(m, es[i], s, depth);
      assert es[i..][0] == es[i] && es[i..][1..] == es[i + 1..];
      visits := visits + more;
      if !v.Done? { return Raise(v), visits; }
      PrefixedTwice(vs, v.value, EvalAll(m, es[i + 1..], s, depth));
      vs := vs + [v.value];
      i := i + 1;
    }
    assert vs + [] == vs;
    r := Done(vs);
  }

  function Prefixed(vs: seq<Value>, r: Outcome<seq<Value>>): Outcome<seq<Value>> {
    if r.Done? then Done(vs + r.value) else r
  }

  lemma PrefixedNone(r: Outcome<seq<Value>>)
    ensures Prefixed([], r) == r
  {
    if r.Done? { assert [] + r.value == r.value; }
  }

  lemma PrefixedTwice(vs: seq<Value>, v: Value, r: Outcome<seq<Value>>)
    ensures Prefixed(vs, Prefixed([v], r)) == Prefixed(vs + [v], r)
  {
    if r.Done? { assert vs + ([v] + r.value) == vs + [v] + r.value; }
  }

  // ---- Whole scripts -----------------------------------------------------------

  /** The top-level statements, in order; a top-level `return` stops nothing. */
  function RunGlobals(m: Machine, globals: seq<Stmt>, s: Scope): Outcome<Scope> {
    if globals == [] then Done(s)
    else
      match Step(m, globals[0], s, 0)
      case Done((_, s')) => RunGlobals(m, globals[1..], s')
      case Failed(e) => Failed(e)
      case TooDeep => TooDeep
  }

  /** What running the script for one URL answers. */
  function Answered(p: Program, h: Host, url: string, host: string): Outcome<string> {
    var m := Machine(Script(p.functions, h), MAX_CALL_DEPTH);
    if ENTRY !in p.functions then Failed("no FindProxyForURL function")
    else
      match RunGlobals(m, p.globals, map[])
      case Failed(e) => Failed(e)
      case TooDeep => TooDeep
      case Done(_) =>
        match Invoke(m, ENTRY, [Value.Str(url), Value.Str(host)], 0)
        case Done(Null) => Done("DIRECT")
        case Done(v) => Done(AsString(h, v))
        case Failed(e) => Failed(e)
        case TooDeep => TooDeep
  }

  method Evaluate(p: Program, h: Host, url: string, host: string) returns (r: Outcome<string>)
    ensures r == Answered(p, h, url, host)
  {
    if ENTRY !in p.functions { return Failed("no FindProxyForURL function"); }
    var m := Machine(Script(p.functions, h), MAX_CALL_DEPTH);
    var frame := new Frame(map[]);
    assert p.globals[0..] == p.globals;
    var i := 0;
    while i < |p.globals|
      invariant 0 <= i <= |p.globals|
      invariant RunGlobals(m, p.globals, map[]) == RunGlobals(m, p.globals[i..], frame.vars)
    {
      var sig, _ := RunStmt(m, p.globals[i], frame, 0);
      assert p.globals[i..][0] == p.globals[i] && p.globals[i..][1..] == p.globals[i + 1..];
      if !sig.Done? { return Raise(sig); }
      i := i + 1;
    }
    var v, _ := Call(m, ENTRY, [Value.Str(url), Value.Str(host)], 0);
    if !v.Done? { return Raise(v); }
    r := Done(if v.value.Null? then "DIRECT" else AsString(h, v.value));
  }

  /** A fresh call scope holds parameters and nothing else. */
  lemma {:induction false} OnlyParamsBound(params: seq<string>, args: seq<Value>)
    ensures forall n <- Bind(params, args) :: n in params
    decreases |params|
  {
    if params != [] && args != [] {
      var n := if |params| < |args| then |params| else |args|;
      OnlyParamsBound(params[..n - 1], args[..n - 1]);
    }
  }
}
