/** The recursion limit cuts evaluation off; it never changes a result. */
module PacAdequacy {
  import opened Wrappers
  import opened PacSyntax
  import opened PacEval

  // ---- The evaluator at depth d decides derivability with Budget(d) nested calls ----

  lemma {:induction false} EvalExact(m: Machine, e: Expr, s: Scope, d: nat)
    ensures forall r :: Evaluates(m.script, Budget(m, d), e, s, r) <==> r == Eval(m, e, s, d) && r != TooDeep
    decreases Budget(m, d), 1, e, 1
  {
    var k := Budget(m, d);
    match e
    case Call(f, args) =>
      EvalAllExact(m, args, s, d);
      var a := EvalAll(m, args, s, d);
      if a.Done? { InvokeExact(m, f, a.value, d); }
      if a != TooDeep { assert EvaluatesAll(m.script, k, args, s, a); }
    case Neg(x) =>
      EvalExact(m, x, s, d);
      var a := Eval(m, x, s, d);
      if a != TooDeep { assert Evaluates(m.script, k, x, s, a); }
    case Bin(_, _, _) => BinExact(m, e, s, d);
    case _ =>
  }

  /** Once the operands' outcomes are determined, so is the operation's, in both semantics alike. */
  lemma BinDerives(m: Machine, k: nat, e: Expr, s: Scope, d: nat, r: Outcome<Value>)
    requires e.Bin? && r == Eval(m, e, s, d) && r != TooDeep
    requires Eval(m, e.left, s, d) != TooDeep ==> Evaluates(m.script, k, e.left, s, Eval(m, e.left, s, d))
    requires Eval(m, e.right, s, d) != TooDeep ==> Evaluates(m.script, k, e.right, s, Eval(m, e.right, s, d))
    ensures Evaluates(m.script, k, e, s, r)
  {
    var a := Eval(m, e.left, s, d);
    assert Evaluates(m.script, k, e.left, s, a);
  }

  lemma BinDetermined(m: Machine, k: nat, e: Expr, s: Scope, d: nat, r: Outcome<Value>)
    requires e.Bin? && Evaluates(m.script, k, e, s, r)
    requires forall x :: Evaluates(m.script, k, e.left, s, x) ==> x == Eval(m, e.left, s, d) && x != TooDeep
    requires forall x :: Evaluates(m.script, k, e.right, s, x) ==> x == Eval(m, e.right, s, d) && x != TooDeep
    ensures r == Eval(m, e, s, d) && r != TooDeep
  {
  }

  lemma {:induction false} BinExact(m: Machine, e: Expr, s: Scope, d: nat)
    requires e.Bin?
    ensures forall r :: Evaluates(m.script, Budget(m, d), e, s, r) <==> r == Eval(m, e, s, d) && r != TooDeep
    decreases Budget(m, d), 1, e, 0
  {
    var k := Budget(m, d);
    EvalExact(m, e.left, s, d);
    EvalExact(m, e.right, s, d);
    forall r ensures Evaluates(m.script, k, e, s, r) <==> r == Eval(m, e, s, d) && r != TooDeep {
      if Evaluates(m.script, k, e, s, r) {
        BinDetermined(m, k, e, s, d, r);
      } else if r == Eval(m, e, s, d) && r != TooDeep {
        BinDerives(m, k, e, s, d, r);
      }
    }
  }

  lemma {:induction false} EvalAllExact(m: Machine, es: seq<Expr>, s: Scope, d: nat)
    ensures forall r :: EvaluatesAll(m.script, Budget(m, d), es, s, r) <==> r == EvalAll(m, es, s, d) && r != TooDeep
    decreases Budget(m, d), 1, es, 0
  {
    if es != [] {
      var k := Budget(m, d);
      EvalExact(m, es[0], s, d);
      EvalAllExact(m, es[1..], s, d);
      var a, b := Eval(m, es[0], s, d), EvalAll(m, es[1..], s, d);
      if a != TooDeep {
        assert Evaluates(m.script, k, es[0], s, a);
        if b != TooDeep { assert EvaluatesAll(m.script, k, es[1..], s, b); }
      }
    }
  }

  lemma {:induction false} InvokeExact(m: Machine, name: string, args: seq<Value>, d: nat)
    ensures forall r ::
              Invokes(m.script, Budget(m, d), name, args, r) <==> r == Invoke(m, name, args, d) && r != TooDeep
    decreases Budget(m, d), 0
  {
    if d <= m.limit && m.host.builtin(name, args).NotBuiltin? && name in m.script.functions {
      var f := m.script.functions[name];
      var s := Bind(f.params, args);
      ExecExact(m, f.body, s, d + 1);
      var x := Exec(m, f.body, s, d + 1);
      if x != TooDeep { assert Executes(m.script, Budget(m, d + 1), f.body, s, x); }
    }
  }

  lemma {:induction false} ExecExact(m: Machine, b: seq<Stmt>, s: Scope, d: nat)
    ensures forall r :: Executes(m.script, Budget(m, d), b, s, r) <==> r == Exec(m, b, s, d) && r != TooDeep
    decreases Budget(m, d), 1, b, 0
  {
    if b != [] {
      StepExact(m, b[0], s, d);
      var x := Step(m, b[0], s, d);
      if x != TooDeep { assert Steps(m.script, Budget(m, d), b[0], s, x); }
      if x.Done? && x.value.0 == Next { ExecExact(m, b[1..], x.value.1, d); }
    }
  }

  lemma {:induction false} StepExact(m: Machine, st: Stmt, s: Scope, d: nat)
    ensures forall r :: Steps(m.script, Budget(m, d), st, s, r) <==> r == Step(m, st, s, d) && r != TooDeep
    decreases Budget(m, d), 1, st, 1
  {
    var k := Budget(m, d);
    match st
    case VarDecl(_, Some(e)) =>
      EvalExact(m, e, s, d);
      var a := Eval(m, e, s, d);
      if a != TooDeep { assert Evaluates(m.script, k, e, s, a); }
    case Assignment(_, e) =>
      EvalExact(m, e, s, d);
      var a := Eval(m, e, s, d);
      if a != TooDeep { assert Evaluates(m.script, k, e, s, a); }
    case ExprStmt(e) =>
      EvalExact(m, e, s, d);
      var a := Eval(m, e, s, d);
      if a != TooDeep { assert Evaluates(m.script, k, e, s, a); }
    case If(c, t, e) =>
      EvalExact(m, c, s, d);
      ExecExact(m, t, s, d);
      ExecExact(m, e, s, d);
      var a := Eval(m, c, s, d);
      if a != TooDeep { assert Evaluates(m.script, k, c, s, a); }
    case Return(Some(e)) =>
      EvalExact(m, e, s, d);
      var a := Eval(m, e, s, d);
      if a != TooDeep { assert Evaluates(m.script, k, e, s, a); }
    case _ =>
  }

  // ---- More budget never changes an answer ---------------------------------------

  /** Same script, at least as much call depth left: under another limit, another depth, or both. */
  ghost predicate Roomier(m: Machine, d: nat, m': Machine, d': nat) {
    m.script == m'.script && Budget(m, d) <= Budget(m', d')
  }

  lemma {:induction false} EvalStable(m: Machine, d: nat, m': Machine, d': nat, e: Expr, s: Scope)
    requires Roomier(m, d, m', d') && Eval(m, e, s, d) != TooDeep
    ensures Eval(m', e, s, d') == Eval(m, e, s, d)
    decreases Budget(m, d), 1, e, 1
  {
    match e
    case Call(f, args) =>
      EvalAllStable(m, d, m', d', args, s);
      var a := EvalAll(m, args, s, d);
      if a.Done? { InvokeStable(m, d, m', d', f, a.value); }
    case Neg(x) => EvalStable(m, d, m', d', x, s);
    case Bin(op, l, r) =>
      EvalStable(m, d, m', d', l, s);
      var a := Eval(m, l, s, d);
      if a.Done? && !Decides(m.host, op, a.value) { EvalStable(m, d, m', d', r, s); }
    case _ =>
  }

  lemma {:induction false} EvalAllStable(m: Machine, d: nat, m': Machine, d': nat, es: seq<Expr>, s: Scope)
    requires Roomier(m, d, m', d') && EvalAll(m, es, s, d) != TooDeep
    ensures EvalAll(m', es, s, d') == EvalAll(m, es, s, d)
    decreases Budget(m, d), 1, es, 0
  {
    if es != [] {
      EvalStable(m, d, m', d', es[0], s);
      if Eval(m, es[0], s, d).Done? { EvalAllStable(m, d, m', d', es[1..], s); }
    }
  }

  lemma {:induction false} InvokeStable(m: Machine, d: nat, m': Machine, d': nat, name: string, args: seq<Value>)
    requires Roomier(m, d, m', d') && Invoke(m, name, args, d) != TooDeep
    ensures Invoke(m', name, args, d') == Invoke(m, name, args, d)
    decreases Budget(m, d), 0
  {
    if m.host.builtin(name, args).NotBuiltin? && name in m.script.functions {
      var f := m.script.functions[name];
      ExecStable(m, d + 1, m', d' + 1, f.body, Bind(f.params, args));
    }
  }

  lemma {:induction false} ExecStable(m: Machine, d: nat, m': Machine, d': nat, b: seq<Stmt>, s: Scope)
    requires Roomier(m, d, m', d') && Exec(m, b, s, d) != TooDeep
    ensures Exec(m', b, s, d') == Exec(m, b, s, d)
    decreases Budget(m, d), 1, b, 0
  {
    if b != [] {
      StepStable(m, d, m', d', b[0], s);
      var x := Step(m, b[0], s, d);
      if x.Done? && x.value.0 == Next { ExecStable(m, d, m', d', b[1..], x.value.1); }
    }
  }

  lemma {:induction false} StepStable(m: Machine, d: nat, m': Machine, d': nat, st: Stmt, s: Scope)
    requires Roomier(m, d, m', d') && Step(m, st, s, d) != TooDeep
    ensures Step(m', st, s, d') == Step(m, st, s, d)
    decreases Budget(m, d), 1, st, 1
  {
    match st
    case VarDecl(_, Some(e)) => EvalStable(m, d, m', d', e, s);
    case Assignment(_, e) => EvalStable(m, d, m', d', e, s);
    case ExprStmt(e) => EvalStable(m, d, m', d', e, s);
    case Return(Some(e)) => EvalStable(m, d, m', d', e, s);
    case If(c, t, e) =>
      EvalStable(m, d, m', d', c, s);
      var a := Eval(m, c, s, d);
      if a.Done? {
        if Truthy(m.host, a.value) {
          ExecStable(m, d, m', d', t, s);
        } else {
          ExecStable(m, d, m', d', e, s);
        }
      }
    case _ =>
  }

  // ---- Main results --------------------------------------------------------------

  /** The unbounded meaning of a call: some derivation, of whatever depth. */
  ghost predicate Means(sc: Script, name: string, args: seq<Value>, r: Outcome<Value>) {
    exists k :: Invokes(sc, k, name, args, r)
  }

  /** A limit that leaves exactly `k` nested calls at depth 1. */
  lemma AtHeight(sc: Script, k: nat, name: string, args: seq<Value>, r: Outcome<Value>)
    ensures Invokes(sc, k, name, args, r) <==> r == Invoke(Machine(sc, k), name, args, 1) && r != TooDeep
  {
    var m := Machine(sc, k);
    InvokeExact(m, name, args, 1);
    assert Invokes(m.script, Budget(m, 1), name, args, r) <==> Invokes(sc, k, name, args, r);
  }

  /** The unbounded semantics gives a call at most one meaning. */
  lemma MeaningIsUnique(sc: Script, name: string, args: seq<Value>, r: Outcome<Value>, r': Outcome<Value>)
    requires Means(sc, name, args, r) && Means(sc, name, args, r')
    ensures r == r'
  {
    var k :| Invokes(sc, k, name, args, r);
    var k' :| Invokes(sc, k', name, args, r');
    AtHeight(sc, k, name, args, r);
    AtHeight(sc, k', name, args, r');
    if k <= k' {
      InvokeStable(Machine(sc, k), 1, Machine(sc, k'), 1, name, args);
    } else {
      InvokeStable(Machine(sc, k'), 1, Machine(sc, k), 1, name, args);
    }
  }

  /** Whatever the limit and the depth: either "too deep", or precisely the unbounded meaning. */
  lemma LimitOnlyCutsOff(m: Machine, name: string, args: seq<Value>, d: nat, r: Outcome<Value>)
    ensures Invoke(m, name, args, d) != TooDeep ==> Means(m.script, name, args, Invoke(m, name, args, d))
    ensures Means(m.script, name, args, r) ==> Invoke(m, name, args, d) in {r, TooDeep}
  {
    InvokeExact(m, name, args, d);
    var got := Invoke(m, name, args, d);
    if got != TooDeep {
      assert Invokes(m.script, Budget(m, d), name, args, got);
      if Means(m.script, name, args, r) { MeaningIsUnique(m.script, name, args, got, r); }
    }
  }

  /** A call that answers at depth `d` answers the same at every smaller depth. */
  lemma ShallowerAgrees(m: Machine, name: string, args: seq<Value>, d: nat, d': nat)
    requires d' <= d && Invoke(m, name, args, d) != TooDeep
    ensures Invoke(m, name, args, d') == Invoke(m, name, args, d)
  {
    InvokeStable(m, d, m, d', name, args);
  }

  /** "Too deep" is reported exactly when no derivation nests at most 65 calls. */
  lemma TooDeepIsExact(sc: Script, name: string, args: seq<Value>)
    ensures Invoke(Machine(sc, MAX_CALL_DEPTH), name, args, 0) == TooDeep
            <==> forall r :: !Invokes(sc, 65, name, args, r)
  {
    var m := Machine(sc, MAX_CALL_DEPTH);
    InvokeExact(m, name, args, 0);
    var got := Invoke(m, name, args, 0);
    assert Budget(m, 0) == 65;
    if got != TooDeep { assert Invokes(m.script, Budget(m, 0), name, args, got); }
  }
}
