/** How much work an evaluation does: the nodes it visits, and a bound on them. */
module PacCost {
  import opened Wrappers
  import opened PacSyntax
  import opened PacEval

  // ---- Sizes -----------------------------------------------------------------

  function ExprSize(e: Expr): nat {
    match e
    case Call(_, args) => 1 + ExprsSize(args)
    case Bin(_, l, r) => 1 + ExprSize(l) + ExprSize(r)
    case Neg(x) => 1 + ExprSize(x)
    case _ => 1
  }

  function ExprsSize(es: seq<Expr>): nat {
    if es == [] then 0 else ExprSize(es[0]) + ExprsSize(es[1..])
  }

  function OptSize(e: Option<Expr>): nat {
    if e.Some? then ExprSize(e.value) else 0
  }

  function StmtSize(s: Stmt): nat {
    match s
    case VarDecl(_, init) => 1 + OptSize(init)
    case Assignment(_, e) => 1 + ExprSize(e)
    case ExprStmt(e) => 1 + ExprSize(e)
    case If(c, t, e) => 1 + ExprSize(c) + BlockSize(t) + BlockSize(e)
    case Return(v) => 1 + OptSize(v)
  }

  function BlockSize(b: seq<Stmt>): nat {
    if b == [] then 0 else StmtSize(b[0]) + BlockSize(b[1..])
  }

  /** Every function body has at most `k` nodes. */
  ghost predicate BodiesWithin(sc: Script, k: nat) {
    forall f <- sc.functions :: BlockSize(sc.functions[f].body) <= k
  }

  function Pow(base: nat, n: nat): nat {
    if n == 0 then 1 else base * Pow(base, n - 1)
  }

  /** The work one visited node may cause with `Budget(m, d)` nested calls left. */
  function Factor(m: Machine, k: nat, d: nat): nat {
    Pow(k + 1, Budget(m, d))
  }

  lemma {:induction false} PowPositive(base: nat, n: nat)
    requires base > 0
    ensures Pow(base, n) > 0
  {
    if n > 0 {
      PowPositive(base, n - 1);
      MulMonotone(1, base, Pow(base, n - 1));
    }
  }

  lemma MulMonotone(a: nat, b: nat, p: nat)
    requires a <= b
    ensures a * p <= b * p
  {
  }

  lemma Distribute(a: nat, b: nat, p: nat)
    ensures (a + b) * p == a * p + b * p
  {
  }

  lemma FactorStep(m: Machine, k: nat, d: nat)
    ensures Factor(m, k, d) > 0
    ensures d <= m.limit ==> 1 + k * Factor(m, k, d + 1) <= Factor(m, k, d)
  {
    PowPositive(k + 1, Budget(m, d));
    if d <= m.limit {
      PowPositive(k + 1, Budget(m, d + 1));
      var p := Factor(m, k, d + 1);
      assert Factor(m, k, d) == (k + 1) * p == k * p + p;
    }
  }

  /** Visiting one node and then parts of sizes `a` and `b` stays within their sum. */
  lemma Within(p: nat, a: nat, va: nat, b: nat, vb: nat)
    requires p > 0 && va <= a * p && vb <= b * p
    ensures 1 + va + vb <= (1 + a + b) * p
  {
    assert (1 + a + b) * p == p + a * p + b * p;
  }

  // ---- Visited nodes: every expression and statement node counts each time it is entered ----

  function CallVisits(m: Machine, name: string, args: seq<Value>, d: nat): nat
    decreases Budget(m, d), 0
  {
    if d <= m.limit && m.host.builtin(name, args).NotBuiltin? && name in m.script.functions then
      var f := m.script.functions[name];
      BlockVisits(m, f.body, Bind(f.params, args), d + 1)
    else 0
  }

  function BlockVisits(m: Machine, b: seq<Stmt>, s: Scope, d: nat): nat
    decreases Budget(m, d), 1, b, 0
  {
    if b == [] then 0
    else
      StmtVisits(m, b[0], s, d) +
      match Step(m, b[0], s, d)
      case Done((Next, s')) => BlockVisits(m, b[1..], s', d)
      case _ => 0
  }

  function StmtVisits(m: Machine, st: Stmt, s: Scope, d: nat): nat
    decreases Budget(m, d), 1, st, 1
  {
    1 + match st
        case VarDecl(_, Some(e)) => ExprVisits(m, e, s, d)
        case Assignment(_, e) => ExprVisits(m, e, s, d)
        case ExprStmt(e) => ExprVisits(m, e, s, d)
        case Return(Some(e)) => ExprVisits(m, e, s, d)
        case If(c, t, e) =>
          ExprVisits(m, c, s, d) +
          (match Eval(m, c, s, d)
           case Done(v) => if Truthy(m.host, v) then BlockVisits(m, t, s, d) else BlockVisits(m, e, s, d)
           case _ => 0)
        case _ => 0
  }

  function ExprVisits(m: Machine, e: Expr, s: Scope, d: nat): nat
    decreases Budget(m, d), 1, e, 1
  {
    1 + match e
        case Call(f, args) =>
          ArgVisits(m, args, s, d) +
          (match EvalAll(m, args, s, d)
           case Done(vs) => CallVisits(m, f, vs, d)
           case _ => 0)
        case Neg(x) => ExprVisits(m, x, s, d)
        case Bin(op, l, r) =>
          ExprVisits(m, l, s, d) +
          (match Eval(m, l, s, d)
           case Done(a) => if Decides(m.host, op, a) then 0 else ExprVisits(m, r, s, d)
           case _ => 0)
        case _ => 0
  }

  function ArgVisits(m: Machine, es: seq<Expr>, s: Scope, d: nat): nat
    decreases Budget(m, d), 1, es, 0
  {
    if es == [] then 0
    else
      ExprVisits(m, es[0], s, d) +
      match Eval(m, es[0], s, d)
      case Done(_) => ArgVisits(m, es[1..], s, d)
      case _ => 0
  }

  // ---- The bound ---------------------------------------------------------------

  /** A call at depth `d` visits fewer than (k + 1) ^ (65 - d) nodes when no body has more than `k`. */
  lemma {:induction false} CallBound(m: Machine, k: nat, name: string, args: seq<Value>, d: nat)
    requires BodiesWithin(m.script, k)
    ensures CallVisits(m, name, args, d) < Factor(m, k, d)
    decreases Budget(m, d), 0
  {
    FactorStep(m, k, d);
    if d <= m.limit && m.host.builtin(name, args).NotBuiltin? && name in m.script.functions {
      var f := m.script.functions[name];
      BlockBound(m, k, f.body, Bind(f.params, args), d + 1);
      MulMonotone(BlockSize(f.body), k, Factor(m, k, d + 1));
    }
  }

  lemma AddBounds(v: nat, n: nat, v': nat, n': nat, p: nat)
    requires v <= n * p && v' <= n' * p
    ensures v <= (n + n') * p && v + v' <= (n + n') * p
  {
    Distribute(n, n', p);
  }

  lemma {:induction false} BlockBound(m: Machine, k: nat, b: seq<Stmt>, s: Scope, d: nat)
    requires BodiesWithin(m.script, k)
    ensures BlockVisits(m, b, s, d) <= BlockSize(b) * Factor(m, k, d)
    decreases Budget(m, d), 1, b, 0
  {
    if b != [] {
      StmtBound(m, k, b[0], s, d);
      var x := Step(m, b[0], s, d);
      var v := StmtVisits(m, b[0], s, d);
      if x.Done? && x.value.0 == Next {
        BlockBound(m, k, b[1..], x.value.1, d);
        AddBounds(v, StmtSize(b[0]), BlockVisits(m, b[1..], x.value.1, d), BlockSize(b[1..]), Factor(m, k, d));
      } else {
        AddBounds(v, StmtSize(b[0]), 0, BlockSize(b[1..]), Factor(m, k, d));
      }
    }
  }

  lemma {:induction false} StmtBound(m: Machine, k: nat, st: Stmt, s: Scope, d: nat)
    requires BodiesWithin(m.script, k)
    ensures StmtVisits(m, st, s, d) <= StmtSize(st) * Factor(m, k, d)
    decreases Budget(m, d), 1, st, 1
  {
    var p := Factor(m, k, d);
    FactorStep(m, k, d);
    match st
    case VarDecl(_, Some(e)) => NodeAbove(m, k, e, s, d);
    case Assignment(_, e) => NodeAbove(m, k, e, s, d);
    case ExprStmt(e) => NodeAbove(m, k, e, s, d);
    case Return(Some(e)) => NodeAbove(m, k, e, s, d);
    case If(_, _, _) => IfBound(m, k, st, s, d);
    case _ => Within(p, 0, 0, 0, 0);
  }

  lemma {:induction false} IfBound(m: Machine, k: nat, st: Stmt, s: Scope, d: nat)
    requires BodiesWithin(m.script, k) && st.If?
    ensures StmtVisits(m, st, s, d) <= StmtSize(st) * Factor(m, k, d)
    decreases Budget(m, d), 1, st, 0
  {
    var p := Factor(m, k, d);
    FactorStep(m, k, d);
    var t, e := st.thenBranch, st.elseBranch;
    ExprBound(m, k, st.cond, s, d);
    BlockBound(m, k, t, s, d);
    BlockBound(m, k, e, s, d);
    var vc, vt, ve := ExprVisits(m, st.cond, s, d), BlockVisits(m, t, s, d), BlockVisits(m, e, s, d);
    assert StmtVisits(m, st, s, d) <= 1 + vc + (vt + ve);
    Distribute(BlockSize(t), BlockSize(e), p);
    Within(p, ExprSize(st.cond), vc, BlockSize(t) + BlockSize(e), vt + ve);
  }

  /** Evaluating an expression of n nodes at depth `d` visits at most n * (k + 1) ^ (65 - d) nodes. */
  lemma {:induction false} ExprBound(m: Machine, k: nat, e: Expr, s: Scope, d: nat)
    requires BodiesWithin(m.script, k)
    ensures ExprVisits(m, e, s, d) <= ExprSize(e) * Factor(m, k, d)
    decreases Budget(m, d), 1, e, 1
  {
    var p := Factor(m, k, d);
    FactorStep(m, k, d);
    match e
    case Call(_, _) => CallNodeBound(m, k, e, s, d);
    case Neg(x) => NodeAbove(m, k, x, s, d);
    case Bin(_, l, r) =>
      ExprBound(m, k, l, s, d);
      ExprBound(m, k, r, s, d);
      Within(p, ExprSize(l), ExprVisits(m, l, s, d), ExprSize(r), ExprVisits(m, r, s, d));
    case _ => Within(p, 0, 0, 0, 0);
  }

  /** A node over one expression. */
  lemma {:induction false} NodeAbove(m: Machine, k: nat, e: Expr, s: Scope, d: nat)
    requires BodiesWithin(m.script, k)
    ensures 1 + ExprVisits(m, e, s, d) <= (1 + ExprSize(e)) * Factor(m, k, d)
    decreases Budget(m, d), 1, e, 2
  {
    FactorStep(m, k, d);
    ExprBound(m, k, e, s, d);
    Within(Factor(m, k, d), ExprSize(e), ExprVisits(m, e, s, d), 0, 0);
  }

  lemma {:induction false} CallNodeBound(m: Machine, k: nat, e: Expr, s: Scope, d: nat)
    requires BodiesWithin(m.script, k) && e.Call?
    ensures ExprVisits(m, e, s, d) <= ExprSize(e) * Factor(m, k, d)
    decreases Budget(m, d), 1, e, 0
  {
    ArgBound(m, k, e.args, s, d);
    Distribute(1, ExprsSize(e.args), Factor(m, k, d));
    FactorStep(m, k, d);
    var a := EvalAll(m, e.args, s, d);
    if a.Done? { CallBound(m, k, e.fn, a.value, d); }
  }

  lemma {:induction false} ArgBound(m: Machine, k: nat, es: seq<Expr>, s: Scope, d: nat)
    requires BodiesWithin(m.script, k)
    ensures ArgVisits(m, es, s, d) <= ExprsSize(es) * Factor(m, k, d)
    decreases Budget(m, d), 1, es, 0
  {
    if es != [] {
      ExprBound(m, k, es[0], s, d);
      ArgBound(m, k, es[1..], s, d);
      Distribute(ExprSize(es[0]), ExprsSize(es[1..]), Factor(m, k, d));
    }
  }
}
