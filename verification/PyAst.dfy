/** The part of Python's syntax tree that the definite-assignment analysis of
    mypy-plugins/xn_mypy_plugin.py distinguishes.  Every node carries the identity
    that the analysis compares its target against. */
module PyAst {
  import opened Wrappers

  type Id = nat
  type Var = string

  /** The operands of a node the analysis does not look into: those Python always
      evaluates, in order, and those that come after them and may be evaluated any
      number of times or never, such as the later operands of a chained comparison,
      the message of an assert or the inside of a comprehension. */
  datatype Operands = Operands(always: seq<Expr>, perhaps: seq<Expr>)

  const NONE := Operands([], [])

  datatype Expr =
      // a node kind the analysis does not look into: names, literals, comparisons, lambdas, displays, ...
    | Leaf(id: Id, ops: Operands)
    | Call(id: Id, callee: Expr, args: seq<Expr>)
      // keys and values present, in evaluation order
    | Dict(id: Id, items: seq<Expr>)
    | Index(id: Id, base: Expr, index: Expr)
      // the bounds and stride present
    | Slice(id: Id, parts: seq<Expr>)
    | ListComp(id: Id, generator: Expr)
      // target := value
    | Walrus(id: Id, target: Var, value: Expr)
      // shortCircuit for "and" and "or"; rightAlways is mypy's right_always flag, which is for these
    | Op(id: Id, left: Expr, right: Expr, rightAlways: bool, shortCircuit: bool)
      // ifExpr if cond else elseExpr
    | Cond(id: Id, ifExpr: Expr, cond: Expr, elseExpr: Expr)

  datatype Lvalue =
    | NameTarget(v: Var)
    | TupleTarget(items: seq<Lvalue>)
      // a[i], a.b, *a, [a,b]: may bind names the analysis does not see
    | OtherTarget(ops: Operands, binds: set<Var>)

  datatype Handler = Handler(types: Operands, name: Option<Var>, body: seq<Stmt>)

  datatype WithItem = WithItem(context: Expr, target: Option<Lvalue>)

  datatype Case = Case(captures: set<Var>, guard: Option<Expr>, body: seq<Stmt>)

  // an absent else or finally block is the empty sequence
  datatype Stmt =
      // import, def, assert, pass, x += 1, global, del a[i], ...
    | Simple(id: Id, ops: Operands, binds: set<Var>)
    | Del(id: Id, vars: set<Var>)
    | Break(id: Id)
    | Continue(id: Id)
    | ExprStmt(id: Id, e: Expr)
      // rvalue is None for the bare annotation "x: int"
    | Assign(id: Id, lvalues: seq<Lvalue>, rvalue: Option<Expr>)
    | TypeAlias(id: Id, name: Var)
    | Class(id: Id, ops: Operands, name: Var)
    | Return(id: Id, result: Option<Expr>)
    | Raise(id: Id, exception: Option<Expr>)
    | If(id: Id, test: Expr, body: seq<Stmt>, orelse: seq<Stmt>)
    | While(id: Id, test: Expr, body: seq<Stmt>, orelse: seq<Stmt>)
    | For(id: Id, index: Lvalue, iter: Expr, body: seq<Stmt>, orelse: seq<Stmt>)
    | Try(id: Id, body: seq<Stmt>, handlers: seq<Handler>, orelse: seq<Stmt>, final: seq<Stmt>)
      // swallows: __exit__ of the context manager may suppress an exception
    | With(id: Id, items: seq<WithItem>, body: seq<Stmt>, swallows: bool)
    | Match(id: Id, subject: Expr, cases: seq<Case>)

  // ---- how often a node occurs, anywhere (a node of a syntax tree occurs once)

  function CountE(t: Id, e: Expr): nat
    decreases e, 1
  {
    (if e.id == t then 1 else 0) +
    match e
    case Leaf(_, ops) => CountOps(t, ops)
    case Call(_, callee, args) => CountE(t, callee) + CountEs(t, args)
    case Dict(_, items) => CountEs(t, items)
    case Index(_, base, index) => CountE(t, base) + CountE(t, index)
    case Slice(_, parts) => CountEs(t, parts)
    case ListComp(_, generator) => CountE(t, generator)
    case Walrus(_, _, value) => CountE(t, value)
    case Op(_, left, right, _, _) => CountE(t, left) + CountE(t, right)
    case Cond(_, ifExpr, cond, elseExpr) => CountE(t, ifExpr) + CountE(t, cond) + CountE(t, elseExpr)
  }

  function CountEs(t: Id, es: seq<Expr>): nat
    decreases es, 0
  {
    if es == [] then 0 else CountE(t, es[0]) + CountEs(t, es[1..])
  }

  function CountOps(t: Id, ops: Operands): nat
    decreases ops
  {
    CountEs(t, ops.always) + CountEs(t, ops.perhaps)
  }

  function CountO(t: Id, e: Option<Expr>): nat {
    if e.Some? then CountE(t, e.value) else 0
  }

  function CountLv(t: Id, lv: Lvalue): nat
    decreases lv, 1
  {
    match lv
    case NameTarget(_) => 0
    case TupleTarget(items) => CountLvs(t, items)
    case OtherTarget(ops, _) => CountOps(t, ops)
  }

  function CountLvs(t: Id, lvs: seq<Lvalue>): nat
    decreases lvs, 0
  {
    if lvs == [] then 0 else CountLv(t, lvs[0]) + CountLvs(t, lvs[1..])
  }

  function CountS(t: Id, s: Stmt): nat
    decreases s, 1
  {
    (if s.id == t then 1 else 0) +
    match s
    case Simple(_, ops, _) => CountOps(t, ops)
    case Del(_, _) => 0
    case Break(_) => 0
    case Continue(_) => 0
    case ExprStmt(_, e) => CountE(t, e)
    case Assign(_, lvs, rvalue) => CountLvs(t, lvs) + CountO(t, rvalue)
    case TypeAlias(_, _) => 0
    case Class(_, ops, _) => CountOps(t, ops)
    case Return(_, e) => CountO(t, e)
    case Raise(_, e) => CountO(t, e)
    case If(_, test, body, orelse) => CountE(t, test) + CountB(t, body) + CountB(t, orelse)
    case While(_, test, body, orelse) => CountE(t, test) + CountB(t, body) + CountB(t, orelse)
    case For(_, index, iter, body, orelse) =>
      CountLv(t, index) + CountE(t, iter) + CountB(t, body) + CountB(t, orelse)
    case Try(_, body, handlers, orelse, final) =>
      CountB(t, body) + CountHs(t, handlers) + CountB(t, orelse) + CountB(t, final)
    case With(_, items, body, _) => CountWs(t, items) + CountB(t, body)
    case Match(_, subject, cases) => CountE(t, subject) + CountCs(t, cases)
  }

  function CountB(t: Id, b: seq<Stmt>): nat
    decreases b, 0
  {
    if b == [] then 0 else CountS(t, b[0]) + CountB(t, b[1..])
  }

  function CountHs(t: Id, hs: seq<Handler>): nat
    decreases hs, 0
  {
    if hs == [] then 0 else CountOps(t, hs[0].types) + CountB(t, hs[0].body) + CountHs(t, hs[1..])
  }

  function CountWs(t: Id, ws: seq<WithItem>): nat
    decreases ws, 0
  {
    if ws == [] then 0 else
      CountE(t, ws[0].context) +
      (if ws[0].target.Some? then CountLv(t, ws[0].target.value) else 0) +
      CountWs(t, ws[1..])
  }

  function CountCs(t: Id, cs: seq<Case>): nat
    decreases cs, 0
  {
    if cs == [] then 0 else CountO(t, cs[0].guard) + CountB(t, cs[0].body) + CountCs(t, cs[1..])
  }

  // ---- whether a node occurs somewhere the analysis never looks

  function HiddenE(t: Id, e: Expr): bool
    decreases e, 1
  {
    match e
    case Leaf(_, ops) => CountOps(t, ops) > 0
    case Call(_, callee, args) => CountE(t, callee) > 0 || HiddenEs(t, args)
    case Dict(_, items) => HiddenEs(t, items)
    case Index(_, base, index) => HiddenE(t, base) || HiddenE(t, index)
    case Slice(_, parts) => HiddenEs(t, parts)
    case ListComp(_, generator) => HiddenE(t, generator)
    case Walrus(_, _, value) => HiddenE(t, value)
    case Op(_, left, right, _, _) => HiddenE(t, left) || HiddenE(t, right)
    case Cond(_, ifExpr, cond, elseExpr) => HiddenE(t, ifExpr) || HiddenE(t, cond) || HiddenE(t, elseExpr)
  }

  function HiddenEs(t: Id, es: seq<Expr>): bool
    decreases es, 0
  {
    es != [] && (HiddenE(t, es[0]) || HiddenEs(t, es[1..]))
  }

  predicate HiddenO(t: Id, e: Option<Expr>) {
    e.Some? && HiddenE(t, e.value)
  }

  function HiddenS(t: Id, s: Stmt): bool
    decreases s, 1
  {
    match s
    case Simple(_, ops, _) => CountOps(t, ops) > 0
    case Del(_, _) => false
    case Break(_) => false
    case Continue(_) => false
    case ExprStmt(_, e) => HiddenE(t, e)
    case Assign(_, lvs, rvalue) => CountLvs(t, lvs) > 0 || HiddenO(t, rvalue)
    case TypeAlias(_, _) => false
    case Class(_, ops, _) => CountOps(t, ops) > 0
    case Return(_, e) => HiddenO(t, e)
    case Raise(_, e) => HiddenO(t, e)
    case If(_, test, body, orelse) => HiddenE(t, test) || HiddenB(t, body) || HiddenB(t, orelse)
    case While(_, test, body, orelse) => HiddenE(t, test) || HiddenB(t, body) || HiddenB(t, orelse)
    case For(_, index, iter, body, orelse) =>
      CountLv(t, index) > 0 || HiddenE(t, iter) || HiddenB(t, body) || HiddenB(t, orelse)
    case Try(_, body, handlers, orelse, final) =>
      HiddenB(t, body) || HiddenHs(t, handlers) || HiddenB(t, orelse) || HiddenB(t, final)
    case With(_, items, body, _) => HiddenWs(t, items) || HiddenB(t, body)
    case Match(_, subject, cases) => HiddenE(t, subject) || HiddenCs(t, cases)
  }

  function HiddenB(t: Id, b: seq<Stmt>): bool
    decreases b, 0
  {
    b != [] && (HiddenS(t, b[0]) || HiddenB(t, b[1..]))
  }

  function HiddenHs(t: Id, hs: seq<Handler>): bool
    decreases hs, 0
  {
    hs != [] && (CountOps(t, hs[0].types) > 0 || HiddenB(t, hs[0].body) || HiddenHs(t, hs[1..]))
  }

  function HiddenWs(t: Id, ws: seq<WithItem>): bool
    decreases ws, 0
  {
    ws != [] &&
    (HiddenE(t, ws[0].context) ||
     (ws[0].target.Some? && CountLv(t, ws[0].target.value) > 0) ||
     HiddenWs(t, ws[1..]))
  }

  function HiddenCs(t: Id, cs: seq<Case>): bool
    decreases cs, 0
  {
    cs != [] && (HiddenO(t, cs[0].guard) || HiddenB(t, cs[0].body) || HiddenCs(t, cs[1..]))
  }
}
