/** The definite-assignment analysis of mypy-plugins/xn_mypy_plugin.py: which
    variables are surely assigned when control reaches a target node. */
module DefiniteAssignment {
  import opened PyAst
  import opened Wrappers

  datatype Collected =
    | AtTarget(vars: set<Var>)     // VarsAtExpr
    | SoFar(vars: set<Var>)        // VarsSoFar
    | Raises(at: Id)               // UnconditionalRaise

  function LvalueVars(lv: Lvalue): set<Var>
    decreases lv, 1
  {
    match lv
    case NameTarget(v) => {v}
    case TupleTarget(items) => LvaluesVars(items)
    case OtherTarget(_, _) => {}
  }

  function LvaluesVars(lvs: seq<Lvalue>): set<Var>
    decreases lvs, 0
  {
    if lvs == [] then {} else LvalueVars(lvs[0]) + LvaluesVars(lvs[1..])
  }

  function WithVars(ws: seq<WithItem>): set<Var> {
    if ws == [] then {} else
      (if ws[0].target.Some? then LvalueVars(ws[0].target.value) else {}) + WithVars(ws[1..])
  }

  // the target among some expressions, each looked at with the same variables
  function CollectAny(t: Id, es: seq<Expr>, vars: set<Var>): (r: Collected)
    ensures !r.Raises?
    decreases es, 0
  {
    if es == [] then SoFar(vars) else
    var r := CollectE(t, es[0], vars);
    if r.AtTarget? then r else CollectAny(t, es[1..], vars)
  }

  function CollectE(t: Id, e: Expr, vars: set<Var>): (r: Collected)
    ensures !r.Raises?
    decreases e, 1
  {
    if e.id == t then AtTarget(vars) else
    match e
    case Leaf(_, _) => SoFar(vars)
    case Call(_, _, args) => CollectAny(t, args, vars)
    case Dict(_, items) => CollectAny(t, items, vars)
    case Index(_, base, index) =>
      var r := CollectE(t, base, vars);
      if r.AtTarget? then r else
      var r2 := CollectE(t, index, vars);
      if r2.AtTarget? then r2 else SoFar(vars)
    case Slice(_, parts) => CollectAny(t, parts, vars)
    case ListComp(_, generator) => CollectE(t, generator, vars)
    case Walrus(_, target, value) =>
      var r := CollectE(t, value, vars);
      if r.AtTarget? then r else SoFar(vars + {target})
    case Op(_, left, right, rightAlways, _) =>
      var r := CollectE(t, left, vars);
      if r.AtTarget? then r else
      var r2 := CollectE(t, right, r.vars);
      if r2.AtTarget? then r2
      else if rightAlways then SoFar(r.vars + r2.vars) else SoFar(r.vars)
    case Cond(_, ifExpr, cond, elseExpr) =>
      var r := CollectE(t, ifExpr, vars);
      if r.AtTarget? then r else
      var rc := CollectE(t, cond, {});
      if rc.AtTarget? then rc else
      var re := CollectE(t, elseExpr, {});
      if re.AtTarget? then re else SoFar(r.vars + (rc.vars * re.vars))
  }

  function CollectO(t: Id, e: Option<Expr>, vars: set<Var>): (r: Collected)
    ensures !r.Raises?
  {
    if e.Some? then CollectE(t, e.value, vars) else SoFar(vars)
  }

  function CollectS(t: Id, s: Stmt, vars: set<Var>): Collected
    decreases s, 1
  {
    if s.id == t then AtTarget(vars) else
    match s
    case Simple(_, _, _) => SoFar(vars)
    case Del(_, _) => SoFar(vars)
    case Break(_) => SoFar(vars)
    case Continue(_) => SoFar(vars)
    case ExprStmt(_, e) => CollectE(t, e, vars)
    case Assign(_, lvs, rvalue) =>
      var r := CollectO(t, rvalue, vars);
      if r.AtTarget? then r else SoFar(vars + LvaluesVars(lvs))
    case TypeAlias(_, name) => SoFar({name})
    case Class(_, _, name) => SoFar(vars + {name})
    case Return(_, e) => if e.Some? then CollectE(t, e.value, vars) else SoFar({})
    case Raise(id, e) =>
      var r := CollectO(t, e, vars);
      if r.AtTarget? then r else Raises(id)
    case If(_, test, body, orelse) =>
      var r := CollectE(t, test, vars);
      if r.AtTarget? then r else
      var rt := CollectB(t, body, r.vars);
      if rt.AtTarget? then rt else
      var rf := CollectB(t, orelse, r.vars);
      if rf.AtTarget? || rt.Raises? then rf
      else if rf.Raises? then rt
      else SoFar(rt.vars * rf.vars)
    case While(_, test, body, orelse) =>
      var r := CollectE(t, test, vars);
      if r.AtTarget? then r else
      var rb := CollectB(t, body, r.vars);
      if rb.AtTarget? then rb else
      var re := CollectB(t, orelse, r.vars);
      if re.AtTarget? then re else SoFar(r.vars)
    case For(_, index, iter, body, orelse) =>
      var r := CollectE(t, iter, vars);
      if r.AtTarget? then r else
      var rb := CollectB(t, body, r.vars + LvalueVars(index));
      if rb.AtTarget? then rb else
      var re := CollectB(t, orelse, r.vars);
      if re.AtTarget? then re else SoFar(r.vars)
    case Try(_, body, handlers, orelse, final) =>
      var rh := CollectHandlers(t, handlers, vars);
      if rh.AtTarget? then rh else
      var re := CollectB(t, orelse, vars);
      if re.AtTarget? then re else
      var rb := CollectB(t, body, vars);
      if rb.AtTarget? then rb else CollectB(t, final, vars)
    case With(_, items, body, _) =>
      var r := CollectContexts(t, items, vars);
      if r.AtTarget? then r else CollectB(t, body, vars + WithVars(items))
    case Match(_, subject, cases) =>
      var r := CollectE(t, subject, vars);
      if r.AtTarget? then r else CollectCases(t, cases, r.vars)
  }

  function CollectHandlers(t: Id, hs: seq<Handler>, vars: set<Var>): (r: Collected)
    ensures !r.Raises?
    decreases hs, 0
  {
    if hs == [] then SoFar(vars) else
    var r := CollectB(t, hs[0].body, vars);
    if r.AtTarget? then r else CollectHandlers(t, hs[1..], vars)
  }

  function CollectContexts(t: Id, ws: seq<WithItem>, vars: set<Var>): (r: Collected)
    ensures !r.Raises?
    decreases ws, 0
  {
    if ws == [] then SoFar(vars) else
    var r := CollectE(t, ws[0].context, vars);
    if r.AtTarget? then r else CollectContexts(t, ws[1..], vars)
  }

  function CollectCases(t: Id, cs: seq<Case>, vars: set<Var>): (r: Collected)
    ensures !r.Raises?
    decreases cs, 0
  {
    if cs == [] then SoFar(vars) else
    var rg := CollectO(t, cs[0].guard, vars);
    if rg.AtTarget? then rg else
    var rb := CollectB(t, cs[0].body, rg.vars);
    if rb.AtTarget? then rb else CollectCases(t, cs[1..], vars)
  }

  // what CollectFromStatements computes
  function CollectB(t: Id, b: seq<Stmt>, vars: set<Var>): Collected
    decreases b, 0
  {
    if b == [] then SoFar(vars) else
    var r := CollectS(t, b[0], vars);
    if r.SoFar? then CollectB(t, b[1..], r.vars) else r
  }

  /** The statement walker: consume the statements one by one, carrying the
      variables assigned so far, until the target or a sure raise turns up. */
  method CollectFromStatements(t: Id, b: seq<Stmt>, vars: set<Var>) returns (r: Collected)
    ensures r == CollectB(t, b, vars)
  {
    var varsSoFar := vars;
    var i := 0;
    while i < |b|
      invariant 0 <= i <= |b|
      invariant CollectB(t, b, vars) == CollectB(t, b[i..], varsSoFar)
    {
      assert b[i..][0] == b[i] && b[i..][1..] == b[i + 1..];
      var c := CollectS(t, b[i], varsSoFar);
      if !c.SoFar? {
        return c;
      }
      varsSoFar := c.vars;
      i := i + 1;
    }
    return SoFar(varsSoFar);
  }

  // ---- names about which the analysis is told too little

  // names assigned by := somewhere inside an expression
  function WalrusNames(e: Expr): set<Var>
    decreases e, 1
  {
    match e
    case Leaf(_, ops) => WalrusNamesIn(ops.always) + WalrusNamesIn(ops.perhaps)
    case Call(_, callee, args) => WalrusNames(callee) + WalrusNamesIn(args)
    case Dict(_, items) => WalrusNamesIn(items)
    case Index(_, base, index) => WalrusNames(base) + WalrusNames(index)
    case Slice(_, parts) => WalrusNamesIn(parts)
    case ListComp(_, generator) => WalrusNames(generator)
    case Walrus(_, target, value) => {target} + WalrusNames(value)
    case Op(_, left, right, _, _) => WalrusNames(left) + WalrusNames(right)
    case Cond(_, ifExpr, cond, elseExpr) => WalrusNames(ifExpr) + WalrusNames(cond) + WalrusNames(elseExpr)
  }

  function WalrusNamesIn(es: seq<Expr>): set<Var>
    decreases es, 0
  {
    if es == [] then {} else WalrusNames(es[0]) + WalrusNamesIn(es[1..])
  }

  // names assigned by := inside the "a" of some "a if c else b"
  function UnsureE(e: Expr): set<Var>
    decreases e, 1
  {
    match e
    case Leaf(_, ops) => UnsureEs(ops.always) + UnsureEs(ops.perhaps)
    case Call(_, callee, args) => UnsureE(callee) + UnsureEs(args)
    case Dict(_, items) => UnsureEs(items)
    case Index(_, base, index) => UnsureE(base) + UnsureE(index)
    case Slice(_, parts) => UnsureEs(parts)
    case ListComp(_, generator) => UnsureE(generator)
    case Walrus(_, _, value) => UnsureE(value)
    case Op(_, left, right, _, _) => UnsureE(left) + UnsureE(right)
    case Cond(_, ifExpr, cond, elseExpr) => WalrusNames(ifExpr) + UnsureE(ifExpr) + UnsureE(cond) + UnsureE(elseExpr)
  }

  function UnsureEs(es: seq<Expr>): set<Var>
    decreases es, 0
  {
    if es == [] then {} else UnsureE(es[0]) + UnsureEs(es[1..])
  }

  function UnsureO(e: Option<Expr>): set<Var> {
    if e.Some? then UnsureE(e.value) else {}
  }

  /** The names a caller must not trust: deleted by del, bound by except-as
      (deleted when the handler ends), annotated without a value, or assigned by
      := inside the "a" of some "a if c else b". */
  function UnsureS(s: Stmt): set<Var>
    decreases s, 1
  {
    match s
    case Simple(_, _, _) => {}
    case Del(_, vars) => vars
    case Break(_) => {}
    case Continue(_) => {}
    case ExprStmt(_, e) => UnsureE(e)
    case Assign(_, lvs, rvalue) => if rvalue.None? then LvaluesVars(lvs) else UnsureE(rvalue.value)
    case TypeAlias(_, _) => {}
    case Class(_, _, _) => {}
    case Return(_, e) => UnsureO(e)
    case Raise(_, e) => UnsureO(e)
    case If(_, test, body, orelse) => UnsureE(test) + UnsureB(body) + UnsureB(orelse)
    case While(_, test, body, orelse) => UnsureE(test) + UnsureB(body) + UnsureB(orelse)
    case For(_, _, iter, body, orelse) => UnsureE(iter) + UnsureB(body) + UnsureB(orelse)
    case Try(_, body, handlers, orelse, final) =>
      UnsureB(body) + UnsureHs(handlers) + UnsureB(orelse) + UnsureB(final)
    case With(_, items, body, _) => UnsureWs(items) + UnsureB(body)
    case Match(_, subject, cases) => UnsureE(subject) + UnsureCs(cases)
  }

  function UnsureB(b: seq<Stmt>): set<Var>
    decreases b, 0
  {
    if b == [] then {} else UnsureS(b[0]) + UnsureB(b[1..])
  }

  function UnsureHs(hs: seq<Handler>): set<Var>
    decreases hs, 0
  {
    if hs == [] then {} else
      (if hs[0].name.Some? then {hs[0].name.value} else {}) + UnsureB(hs[0].body) + UnsureHs(hs[1..])
  }

  function UnsureWs(ws: seq<WithItem>): set<Var>
    decreases ws, 0
  {
    if ws == [] then {} else UnsureE(ws[0].context) + UnsureWs(ws[1..])
  }

  function UnsureCs(cs: seq<Case>): set<Var>
    decreases cs, 0
  {
    if cs == [] then {} else UnsureO(cs[0].guard) + UnsureB(cs[0].body) + UnsureCs(cs[1..])
  }

  // whether some with-block may suppress an exception
  function SwallowsS(s: Stmt): bool
    decreases s, 1
  {
    match s
    case If(_, _, body, orelse) => SwallowsB(body) || SwallowsB(orelse)
    case While(_, _, body, orelse) => SwallowsB(body) || SwallowsB(orelse)
    case For(_, _, _, body, orelse) => SwallowsB(body) || SwallowsB(orelse)
    case Try(_, body, handlers, orelse, final) =>
      SwallowsB(body) || SwallowsHs(handlers) || SwallowsB(orelse) || SwallowsB(final)
    case With(_, _, body, swallows) => swallows || SwallowsB(body)
    case Match(_, _, cases) => SwallowsCs(cases)
    case _ => false
  }

  function SwallowsB(b: seq<Stmt>): bool
    decreases b, 0
  {
    b != [] && (SwallowsS(b[0]) || SwallowsB(b[1..]))
  }

  function SwallowsHs(hs: seq<Handler>): bool
    decreases hs, 0
  {
    hs != [] && (SwallowsB(hs[0].body) || SwallowsHs(hs[1..]))
  }

  function SwallowsCs(cs: seq<Case>): bool
    decreases cs, 0
  {
    cs != [] && (SwallowsB(cs[0].body) || SwallowsCs(cs[1..]))
  }
}
