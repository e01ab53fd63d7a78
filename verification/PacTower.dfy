/** A family of scripts whose evaluation really takes exponentially many steps. */
module PacTower {
  import opened Wrappers
  import opened PacSyntax
  import opened PacEval
  import opened PacCost
  import opened PacInterp

  /** The entry point and its descendants: `i` letters after its name. */
  function Name(i: nat): (r: string)
    ensures |r| == |ENTRY| + i
  {
    ENTRY + seq(i, _ => 'x')
  }

  function Names(n: nat): set<string> {
    set i: nat | i <= n :: Name(i)
  }

  /** Each function adds two calls of the next one; the last returns the empty text. */
  function Storey(i: nat, n: nat): FunctionDecl {
    var next := Expr.Call(Name(i + 1), []);
    FunctionDecl([], [Return(Some(if i < n then Bin(OpAdd, next, next) else StrLit("")))])
  }

  function Tower(n: nat): map<string, FunctionDecl> {
    map f | f in Names(n) :: Storey(|f| - |ENTRY|, n)
  }

  ghost predicate NoneBuiltin(h: Host, n: nat) {
    forall i: nat, args :: i <= n ==> h.builtin(Name(i), args).NotBuiltin?
  }

  lemma StoreySize(i: nat, n: nat)
    ensures BlockSize(Storey(i, n).body) <= 4
  {
    var next := Expr.Call(Name(i + 1), []);
    assert ExprSize(next) == 1 && ExprSize(Bin(OpAdd, next, next)) == 3;
    assert Storey(i, n).body[1..] == [];
  }

  /** No function has more than four nodes. */
  lemma TowerIsSmall(n: nat, h: Host)
    ensures BodiesWithin(Script(Tower(n), h), 4)
  {
    forall f <- Tower(n) ensures BlockSize(Tower(n)[f].body) <= 4 { StoreySize(|f| - |ENTRY|, n); }
  }

  lemma CallTwice(m: Machine, call: Expr, d: nat)
    requires call.Call? && call.args == [] && Invoke(m, call.fn, [], d) == Done(Value.Str(""))
    ensures Eval(m, Bin(OpAdd, call, call), map[], d) == Done(Value.Str(""))
    ensures ExprVisits(m, Bin(OpAdd, call, call), map[], d) == 3 + 2 * CallVisits(m, call.fn, [], d)
  {
    assert Eval(m, call, map[], d) == Done(Value.Str(""));
    assert ExprVisits(m, call, map[], d) == 1 + CallVisits(m, call.fn, [], d);
    assert "" + "" == "";
  }

  lemma ReturnOnly(m: Machine, e: Expr, d: nat)
    requires Eval(m, e, map[], d) == Done(Value.Str(""))
    ensures BlockVisits(m, [Return(Some(e))], map[], d) == 1 + ExprVisits(m, e, map[], d)
    ensures CallResult(Exec(m, [Return(Some(e))], map[], d)) == Done(Value.Str(""))
  {
  }

  lemma LastStorey(m: Machine, n: nat, d: nat)
    ensures BlockVisits(m, Storey(n, n).body, map[], d) == 2
    ensures CallResult(Exec(m, Storey(n, n).body, map[], d)) == Done(Value.Str(""))
  {
    ReturnOnly(m, StrLit(""), d);
  }

  lemma LowerStorey(m: Machine, n: nat, i: nat, d: nat)
    requires i < n && Invoke(m, Name(i + 1), [], d) == Done(Value.Str(""))
    ensures BlockVisits(m, Storey(i, n).body, map[], d) == 4 + 2 * CallVisits(m, Name(i + 1), [], d)
    ensures CallResult(Exec(m, Storey(i, n).body, map[], d)) == Done(Value.Str(""))
  {
    var next := Expr.Call(Name(i + 1), []);
    CallTwice(m, next, d);
    ReturnOnly(m, Bin(OpAdd, next, next), d);
  }

  lemma EntersStorey(m: Machine, n: nat, i: nat, args: seq<Value>, d: nat)
    requires m.script.functions == Tower(n) && NoneBuiltin(m.host, n) && i <= n && d <= m.limit
    ensures Invoke(m, Name(i), args, d) == CallResult(Exec(m, Storey(i, n).body, map[], d + 1))
    ensures CallVisits(m, Name(i), args, d) == BlockVisits(m, Storey(i, n).body, map[], d + 1)
  {
    assert Name(i) in Names(n);
    assert Tower(n)[Name(i)] == Storey(i, n) && Bind([], args) == map[];
  }

  /** What a call answers, and the nodes it visits. */
  function Run(m: Machine, name: string, args: seq<Value>, d: nat): (Outcome<Value>, nat) {
    (Invoke(m, name, args, d), CallVisits(m, name, args, d))
  }

  lemma LastCall(m: Machine, n: nat, args: seq<Value>, d: nat)
    requires m.script.functions == Tower(n) && NoneBuiltin(m.host, n) && d <= m.limit
    ensures Run(m, Name(n), args, d) == (Done(Value.Str("")), 2)
  {
    EntersStorey(m, n, n, args, d);
    LastStorey(m, n, d + 1);
  }

  lemma LowerCall(m: Machine, n: nat, i: nat, args: seq<Value>, d: nat, visits: nat)
    requires m.script.functions == Tower(n) && NoneBuiltin(m.host, n) && i < n && d <= m.limit
    requires Run(m, Name(i + 1), [], d + 1) == (Done(Value.Str("")), visits)
    ensures Run(m, Name(i), args, d) == (Done(Value.Str("")), 4 + 2 * visits)
  {
    EntersStorey(m, n, i, args, d);
    LowerStorey(m, n, i, d + 1);
  }

  function Height(k: nat): (r: nat) {
    PowPositive(2, k);
    6 * Pow(2, k) - 4
  }

  lemma HeightDoubles(k: nat)
    ensures Height(0) == 2 && Height(k + 1) == 4 + 2 * Height(k)
  {
  }

  /** Within the depth limit, and without an error, the visits double with every storey: 6 * 2 ^ k - 4 for the k-th. */
  lemma {:induction false} TowerDoubles(m: Machine, n: nat, i: nat, args: seq<Value>, d: nat)
    requires m.script.functions == Tower(n) && NoneBuiltin(m.host, n)
    requires i <= n && d + (n - i) <= m.limit
    ensures Run(m, Name(i), args, d) == (Done(Value.Str("")), Height(n - i))
    decreases n - i
  {
    if i == n {
      HeightDoubles(0);
      LastCall(m, n, args, d);
    } else {
      TowerDoubles(m, n, i + 1, [], d + 1);
      HeightDoubles(n - i - 1);
      LowerCall(m, n, i, args, d, Height(n - i - 1));
    }
  }

  lemma OnlyTheEntry(p: Program, h: Host, url: string, host: string)
    requires ENTRY in p.functions && p.globals == []
    requires Run(Machine(Script(p.functions, h), MAX_CALL_DEPTH), ENTRY, [Value.Str(url), Value.Str(host)], 0).0
             == Done(Value.Str(""))
    ensures Answered(p, h, url, host) == Done("")
  {
  }

  /** Every tower of up to 65 functions answers, for every URL, under the source's depth limit. */
  lemma TowerAnswers(p: Program, h: Host, n: nat, url: string, host: string)
    requires p.functions == Tower(n) && p.globals == [] && n <= MAX_CALL_DEPTH && NoneBuiltin(h, n)
    ensures Answered(p, h, url, host) == Done("")
  {
    assert Name(0) == ENTRY && Name(0) in Names(n);
    TowerDoubles(Machine(Script(p.functions, h), MAX_CALL_DEPTH), n, 0, [Value.Str(url), Value.Str(host)], 0);
    OnlyTheEntry(p, h, url, host);
  }
}
