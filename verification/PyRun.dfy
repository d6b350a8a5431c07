/** What a Python function body does to its local variables, one run at a time.

    A run is driven by a sequence of choices: which way a test goes, whether an
    operation raises, how often a loop repeats.  Running out of choices leaves
    the run unfinished (outcome Cut), so quantifying over all choice sequences
    covers every prefix of every run, including the runs that never end. */
module PyRun {
  import opened PyAst
  import opened Wrappers

  datatype Outcome = Normal | Raised | Broke | Continued | Returned | Cut

  // the variables assigned when control reached a node
  datatype Event = Event(node: Id, bound: set<Var>)

  datatype State = State(bound: set<Var>, log: seq<Event>, ch: seq<nat>) {
    function Reach(t: Id): State {
      State(bound, log + [Event(t, bound)], ch)
    }

    function Bind(vs: set<Var>): State {
      State(bound + vs, log, ch)
    }

    function Unbind(vs: set<Var>): State {
      State(bound - vs, log, ch)
    }

    function Choose(): (st: State)
      requires ch != []
    {
      State(bound, log, ch[1..])
    }
  }

  datatype Run = Run(out: Outcome, st: State)

  // any operation may raise
  function MayRaise(st: State): (r: Run)
    ensures |r.st.ch| <= |st.ch|
  {
    if st.ch == [] then Run(Cut, st)
    else Run(if st.ch[0] == 0 then Normal else Raised, st.Choose())
  }

  // the right operand may be left out
  predicate MaySkip(e: Expr)
    requires e.Op?
  {
    e.shortCircuit && !e.rightAlways
  }

  function Eval(e: Expr, st0: State): (r: Run)
    ensures |r.st.ch| <= |st0.ch|
    decreases |st0.ch|, e, 2
  {
    var st := st0.Reach(e.id);
    match e
    case Leaf(_, ops) => EvalOps(ops, st)
    case Call(_, callee, args) =>
      var r := Eval(callee, st);
      if r.out != Normal then r else EvalThenMayRaise(args, r.st)
    case Dict(_, items) => EvalThenMayRaise(items, st)
    case Index(_, base, index) =>
      var r := Eval(base, st);
      if r.out != Normal then r else
      var r2 := Eval(index, r.st);
      if r2.out != Normal then r2 else MayRaise(r2.st)
    case Slice(_, parts) => EvalThenMayRaise(parts, st)
    case ListComp(_, generator) => Eval(generator, st)
    case Walrus(_, target, value) =>
      var r := Eval(value, st);
      if r.out != Normal then r else Run(Normal, r.st.Bind({target}))
    case Op(_, left, right, _, _) =>
      var r := Eval(left, st);
      if r.out != Normal then r
      else if r.st.ch == [] then Run(Cut, r.st)
      else if !MaySkip(e) || r.st.ch[0] != 0 then
        var r2 := Eval(right, r.st.Choose());
        if r2.out != Normal then r2 else MayRaise(r2.st)
      else MayRaise(r.st.Choose())
    case Cond(_, ifExpr, cond, elseExpr) =>
      var r := Eval(cond, st);
      if r.out != Normal then r
      else if r.st.ch == [] then Run(Cut, r.st)
      else Eval(if r.st.ch[0] != 0 then ifExpr else elseExpr, r.st.Choose())
  }

  // every expression in turn
  function EvalAll(es: seq<Expr>, st: State): (r: Run)
    ensures |r.st.ch| <= |st.ch|
    decreases |st.ch|, es, 0
  {
    if es == [] then Run(Normal, st) else
    var r := Eval(es[0], st);
    if r.out != Normal then r else EvalAll(es[1..], r.st)
  }

  function EvalThenMayRaise(es: seq<Expr>, st: State): (r: Run)
    ensures |r.st.ch| <= |st.ch|
    decreases |st.ch|, es, 1
  {
    var r := EvalAll(es, st);
    if r.out != Normal then r else MayRaise(r.st)
  }

  // any of the expressions, any number of times, in any order
  function EvalSome(es: seq<Expr>, st: State): (r: Run)
    ensures |r.st.ch| <= |st.ch|
    decreases |st.ch|, es, 0
  {
    if st.ch == [] then Run(Cut, st)
    else if st.ch[0] == 0 then Run(Normal, st.Choose())
    else if st.ch[0] == 1 || es == [] then Run(Raised, st.Choose())
    else
      var r := Eval(es[(st.ch[0] - 2) % |es|], st.Choose());
      if r.out != Normal then r else EvalSome(es, r.st)
  }

  function EvalOps(ops: Operands, st: State): (r: Run)
    ensures |r.st.ch| <= |st.ch|
    decreases |st.ch|, ops, 0
  {
    var r := EvalAll(ops.always, st);
    if r.out != Normal then r else EvalSome(ops.perhaps, r.st)
  }

  function EvalO(e: Option<Expr>, st: State): (r: Run)
    ensures |r.st.ch| <= |st.ch|
  {
    if e.Some? then Eval(e.value, st) else Run(Normal, st)
  }

  function Store(lv: Lvalue, st: State): (r: Run)
    ensures |r.st.ch| <= |st.ch|
    decreases lv, 1
  {
    match lv
    case NameTarget(v) => Run(Normal, st.Bind({v}))
    case TupleTarget(items) =>
      var r := MayRaise(st);
      if r.out != Normal then r else StoreAll(items, r.st)
    case OtherTarget(ops, binds) =>
      var r := EvalOps(ops, st);
      if r.out != Normal then r else Run(Normal, r.st.Bind(binds))
  }

  function StoreAll(lvs: seq<Lvalue>, st: State): (r: Run)
    ensures |r.st.ch| <= |st.ch|
    decreases lvs, 0
  {
    if lvs == [] then Run(Normal, st) else
    var r := Store(lvs[0], st);
    if r.out != Normal then r else StoreAll(lvs[1..], r.st)
  }

  function Exec(s: Stmt, st0: State): (r: Run)
    ensures |r.st.ch| <= |st0.ch|
    decreases |st0.ch|, s, 2
  {
    var st := st0.Reach(s.id);
    match s
    case Simple(_, ops, binds) =>
      var r := EvalOps(ops, st);
      if r.out != Normal then r else Run(Normal, r.st.Bind(binds))
    case Del(_, vars) =>
      var r := MayRaise(st);
      if r.out != Normal then r else Run(Normal, r.st.Unbind(vars))
    case Break(_) => Run(Broke, st)
    case Continue(_) => Run(Continued, st)
    case ExprStmt(_, e) => Eval(e, st)
    case Assign(_, lvs, rvalue) =>
      if rvalue.None? then Run(Normal, st) else
      var r := Eval(rvalue.value, st);
      if r.out != Normal then r else StoreAll(lvs, r.st)
    case TypeAlias(_, name) => Run(Normal, st.Bind({name}))
    case Class(_, ops, name) =>
      var r := EvalOps(ops, st);
      if r.out != Normal then r else Run(Normal, r.st.Bind({name}))
    case Return(_, e) =>
      var r := EvalO(e, st);
      if r.out != Normal then r else Run(Returned, r.st)
    case Raise(_, e) =>
      var r := EvalO(e, st);
      if r.out != Normal then r else Run(Raised, r.st)
    case If(_, test, body, orelse) =>
      var r := Eval(test, st);
      if r.out != Normal then r
      else if r.st.ch == [] then Run(Cut, r.st)
      else ExecBlock(if r.st.ch[0] != 0 then body else orelse, r.st.Choose())
    case While(_, _, _, _) => Repeat(s, st)
    case For(_, _, iter, _, _) =>
      var r := Eval(iter, st);
      if r.out != Normal then r else Iterate(s, r.st)
    case Try(_, body, handlers, orelse, final) =>
      var rb := ExecBlock(body, st);
      var rm := if rb.out == Raised then Handle(handlers, rb.st)
                else if rb.out == Normal then ExecBlock(orelse, rb.st)
                else rb;
      if rm.out == Cut then rm else
      var rf := ExecBlock(final, rm.st);
      if rf.out == Normal then Run(rm.out, rf.st) else rf
    case With(_, items, body, swallows) =>
      var re := Enter(items, st);
      if re.out != Normal then re else
      var rb := ExecBlock(body, re.st);
      if rb.out == Cut then rb
      else if rb.st.ch == [] then Run(Cut, rb.st)
      else if rb.st.ch[0] == 0 then Run(rb.out, rb.st.Choose())
      else if swallows && rb.out == Raised && rb.st.ch[0] == 1 then Run(Normal, rb.st.Choose())
      else Run(Raised, rb.st.Choose())
    case Match(_, subject, cases) =>
      var r := Eval(subject, st);
      if r.out != Normal then r else Select(cases, r.st)
  }

  function ExecBlock(b: seq<Stmt>, st: State): (r: Run)
    ensures |r.st.ch| <= |st.ch|
    decreases |st.ch|, b, 0
  {
    if b == [] then Run(Normal, st) else
    var r := Exec(b[0], st);
    if r.out != Normal then r else ExecBlock(b[1..], r.st)
  }

  // while test: body else: orelse
  function Repeat(s: Stmt, st: State): (r: Run)
    requires s.While?
    ensures |r.st.ch| <= |st.ch|
    decreases |st.ch|, s, 1
  {
    var r := Eval(s.test, st);
    if r.out != Normal then r
    else if r.st.ch == [] then Run(Cut, r.st)
    else if r.st.ch[0] == 0 then ExecBlock(s.orelse, r.st.Choose())
    else
      var rb := ExecBlock(s.body, r.st.Choose());
      if rb.out == Normal || rb.out == Continued then Repeat(s, rb.st)
      else if rb.out == Broke then Run(Normal, rb.st)
      else rb
  }

  // for index in (the evaluated iterable): body else: orelse
  function Iterate(s: Stmt, st: State): (r: Run)
    requires s.For?
    ensures |r.st.ch| <= |st.ch|
    decreases |st.ch|, s, 1
  {
    if st.ch == [] then Run(Cut, st)
    else if st.ch[0] == 0 then ExecBlock(s.orelse, st.Choose())
    else if st.ch[0] == 1 then Run(Raised, st.Choose())
    else
      var r := Store(s.index, st.Choose());
      if r.out != Normal then r else
      var rb := ExecBlock(s.body, r.st);
      if rb.out == Normal || rb.out == Continued then Iterate(s, rb.st)
      else if rb.out == Broke then Run(Normal, rb.st)
      else rb
  }

  // the handlers are tried in order; the "as" name is deleted when its handler ends
  function Handle(hs: seq<Handler>, st: State): (r: Run)
    ensures |r.st.ch| <= |st.ch|
    decreases |st.ch|, hs, 0
  {
    if hs == [] then Run(Raised, st) else
    var r := EvalOps(hs[0].types, st);
    if r.out != Normal then r
    else if r.st.ch == [] then Run(Cut, r.st)
    else if r.st.ch[0] == 0 then Handle(hs[1..], r.st.Choose())
    else if hs[0].name.None? then ExecBlock(hs[0].body, r.st.Choose())
    else
      var rb := ExecBlock(hs[0].body, r.st.Choose().Bind({hs[0].name.value}));
      Run(rb.out, rb.st.Unbind({hs[0].name.value}))
  }

  function Enter(ws: seq<WithItem>, st: State): (r: Run)
    ensures |r.st.ch| <= |st.ch|
    decreases |st.ch|, ws, 0
  {
    if ws == [] then Run(Normal, st) else
    var r := Eval(ws[0].context, st);
    if r.out != Normal then r else
    var rs := if ws[0].target.Some? then Store(ws[0].target.value, r.st) else Run(Normal, r.st);
    if rs.out != Normal then rs else Enter(ws[1..], rs.st)
  }

  // a pattern may bind its captures whether or not it matches
  function Select(cs: seq<Case>, st: State): (r: Run)
    ensures |r.st.ch| <= |st.ch|
    decreases |st.ch|, cs, 0
  {
    if cs == [] then Run(Normal, st)
    else if st.ch == [] then Run(Cut, st)
    else if st.ch[0] == 0 then Select(cs[1..], st.Choose())
    else if st.ch[0] == 1 then Select(cs[1..], st.Choose().Bind(cs[0].captures))
    else if st.ch[0] == 2 then Run(Raised, st.Choose())
    else
      var r := EvalO(cs[0].guard, st.Choose().Bind(cs[0].captures));
      if r.out != Normal then r
      else if cs[0].guard.Some? && r.st.ch == [] then Run(Cut, r.st)
      else if cs[0].guard.Some? && r.st.ch[0] == 0 then Select(cs[1..], r.st.Choose())
      else ExecBlock(cs[0].body, if cs[0].guard.Some? then r.st.Choose() else r.st)
  }
}
