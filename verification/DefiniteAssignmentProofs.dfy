/** Soundness of the definite-assignment analysis with respect to every run. */
module DefiniteAssignmentProofs {
  import opened PyAst
  import opened PyRun
  import opened DefiniteAssignment
  import opened Wrappers

  // at every arrival at t so far, the variables w were assigned
  ghost predicate Kept(t: Id, w: set<Var>, log: seq<Event>) {
    forall i :: 0 <= i < |log| && log[i].node == t ==> w <= log[i].bound
  }

  // ---- the analysis finds only targets that are there, and what it never enters counts as an occurrence

  lemma {:induction false} FoundE(t: Id, e: Expr, vars: set<Var>)
    ensures CollectE(t, e, vars).AtTarget? ==> CountE(t, e) >= 1
    ensures HiddenE(t, e) ==> CountE(t, e) >= 1
    decreases e, 1
  {
    if e.id != t {
      match e
      case Leaf(_, _) =>
      case Call(_, callee, args) => FoundEs(t, args, vars);
      case Dict(_, items) => FoundEs(t, items, vars);
      case Index(_, base, index) => FoundE(t, base, vars); FoundE(t, index, vars);
      case Slice(_, parts) => FoundEs(t, parts, vars);
      case ListComp(_, generator) => FoundE(t, generator, vars);
      case Walrus(_, target, value) => FoundE(t, value, vars);
      case Op(_, left, right, _, _) =>
        FoundE(t, left, vars); FoundE(t, right, CollectE(t, left, vars).vars);
      case Cond(_, ifExpr, cond, elseExpr) =>
        FoundE(t, ifExpr, vars); FoundE(t, cond, {}); FoundE(t, elseExpr, {});
    }
  }

  lemma {:induction false} FoundEs(t: Id, es: seq<Expr>, vars: set<Var>)
    ensures CollectAny(t, es, vars).AtTarget? ==> CountEs(t, es) >= 1
    ensures HiddenEs(t, es) ==> CountEs(t, es) >= 1
    decreases es, 0
  {
    if es != [] {
      FoundE(t, es[0], vars);
      FoundEs(t, es[1..], vars);
    }
  }

  lemma FoundO(t: Id, e: Option<Expr>, vars: set<Var>)
    ensures CollectO(t, e, vars).AtTarget? ==> CountO(t, e) >= 1
    ensures HiddenO(t, e) ==> CountO(t, e) >= 1
  {
    if e.Some? { FoundE(t, e.value, vars); }
  }

  lemma {:induction false} FoundS(t: Id, s: Stmt, vars: set<Var>)
    ensures CollectS(t, s, vars).AtTarget? ==> CountS(t, s) >= 1
    ensures HiddenS(t, s) ==> CountS(t, s) >= 1
    decreases s, 1
  {
    if s.id != t {
      match s
      case Simple(_, _, _) =>
      case Del(_, _) =>
      case Break(_) =>
      case Continue(_) =>
      case ExprStmt(_, e) => FoundE(t, e, vars);
      case Assign(_, lvs, rvalue) => FoundO(t, rvalue, vars);
      case TypeAlias(_, _) =>
      case Class(_, _, _) =>
      case Return(_, e) => FoundO(t, e, vars);
      case Raise(_, e) => FoundO(t, e, vars);
      case If(_, test, body, orelse) =>
        FoundE(t, test, vars);
        var v := CollectE(t, test, vars).vars;
        FoundB(t, body, v); FoundB(t, orelse, v);
      case While(_, test, body, orelse) =>
        FoundE(t, test, vars);
        var v := CollectE(t, test, vars).vars;
        FoundB(t, body, v); FoundB(t, orelse, v);
      case For(_, index, iter, body, orelse) =>
        FoundE(t, iter, vars);
        var v := CollectE(t, iter, vars).vars;
        FoundB(t, body, v + LvalueVars(index)); FoundB(t, orelse, v);
      case Try(_, body, handlers, orelse, final) =>
        FoundHs(t, handlers, vars); FoundB(t, orelse, vars); FoundB(t, body, vars); FoundB(t, final, vars);
      case With(_, items, body, _) =>
        FoundWs(t, items, vars); FoundB(t, body, vars + WithVars(items));
      case Match(_, subject, cases) =>
        FoundE(t, subject, vars); FoundCs(t, cases, CollectE(t, subject, vars).vars);
    }
  }

  lemma {:induction false} FoundB(t: Id, b: seq<Stmt>, vars: set<Var>)
    ensures CollectB(t, b, vars).AtTarget? ==> CountB(t, b) >= 1
    ensures HiddenB(t, b) ==> CountB(t, b) >= 1
    decreases b, 0
  {
    if b != [] {
      FoundS(t, b[0], vars);
      var r := CollectS(t, b[0], vars);
      FoundB(t, b[1..], if r.SoFar? then r.vars else vars);
    }
  }

  lemma {:induction false} FoundHs(t: Id, hs: seq<Handler>, vars: set<Var>)
    ensures CollectHandlers(t, hs, vars).AtTarget? ==> CountHs(t, hs) >= 1
    ensures HiddenHs(t, hs) ==> CountHs(t, hs) >= 1
    decreases hs, 0
  {
    if hs != [] {
      FoundB(t, hs[0].body, vars);
      FoundHs(t, hs[1..], vars);
    }
  }

  lemma {:induction false} FoundWs(t: Id, ws: seq<WithItem>, vars: set<Var>)
    ensures CollectContexts(t, ws, vars).AtTarget? ==> CountWs(t, ws) >= 1
    ensures HiddenWs(t, ws) ==> CountWs(t, ws) >= 1
    decreases ws, 0
  {
    if ws != [] {
      FoundE(t, ws[0].context, vars);
      FoundWs(t, ws[1..], vars);
    }
  }

  lemma {:induction false} FoundCs(t: Id, cs: seq<Case>, vars: set<Var>)
    ensures CollectCases(t, cs, vars).AtTarget? ==> CountCs(t, cs) >= 1
    ensures HiddenCs(t, cs) ==> CountCs(t, cs) >= 1
    decreases cs, 0
  {
    if cs != [] {
      FoundO(t, cs[0].guard, vars);
      FoundB(t, cs[0].body, CollectO(t, cs[0].guard, vars).vars);
      FoundCs(t, cs[1..], vars);
    }
  }

  // ---- a sure raise never completes normally

  lemma {:induction false} RaisesS(t: Id, s: Stmt, vars: set<Var>, st: State)
    requires !SwallowsS(s)
    ensures CollectS(t, s, vars).Raises? ==> Exec(s, st).out != Normal
    decreases s, 1
  {
    var st1 := st.Reach(s.id);
    if CollectS(t, s, vars).Raises? {
      match s
      case Raise(_, e) =>
      case If(_, test, body, orelse) =>
        var r := Eval(test, st1);
        if r.out == Normal && r.st.ch != [] {
          var v := CollectE(t, test, vars).vars;
          RaisesB(t, body, v, r.st.Choose());
          RaisesB(t, orelse, v, r.st.Choose());
        }
      case Try(_, body, handlers, orelse, final) =>
        var rb := ExecBlock(body, st1);
        var rm := if rb.out == Raised then Handle(handlers, rb.st)
                  else if rb.out == Normal then ExecBlock(orelse, rb.st)
                  else rb;
        RaisesB(t, final, vars, rm.st);
      case With(_, items, body, _) =>
        RaisesB(t, body, vars + WithVars(items), Enter(items, st1).st);
      case _ =>
    }
  }

  /** A statement list classed as an unconditional raise never completes
      normally, whatever was assigned before and whatever choices the run makes. */
  lemma {:induction false} RaisesB(t: Id, b: seq<Stmt>, vars: set<Var>, st: State)
    requires !SwallowsB(b)
    ensures CollectB(t, b, vars).Raises? ==> ExecBlock(b, st).out != Normal
    decreases b, 0
  {
    if b != [] {
      RaisesS(t, b[0], vars, st);
      var c := CollectS(t, b[0], vars);
      var r := Exec(b[0], st);
      if c.SoFar? && r.out == Normal {
        RaisesB(t, b[1..], c.vars, r.st);
      }
    }
  }

  // ---- nothing is unassigned, except names the caller must not trust

  // from st to st2 only names in u were unassigned, and no arrival in between missed any other name
  ghost predicate Later(u: set<Var>, st: State, st2: State) {
    st.bound - u <= st2.bound && st.log <= st2.log &&
    forall i :: |st.log| <= i < |st2.log| ==> st.bound - u <= st2.log[i].bound
  }

  lemma {:induction false} GrowE(e: Expr, st0: State)
    ensures Later({}, st0, Eval(e, st0).st)
    decreases |st0.ch|, e, 2
  {
    var st := st0.Reach(e.id);
    match e
    case Leaf(_, ops) => GrowOps(ops, st);
    case Call(_, callee, args) => GrowE(callee, st); GrowAll(args, Eval(callee, st).st);
    case Dict(_, items) => GrowAll(items, st);
    case Index(_, _, _) => GrowIndex(e, st0);
    case Slice(_, parts) => GrowAll(parts, st);
    case ListComp(_, generator) => GrowE(generator, st);
    case Walrus(_, _, value) => GrowE(value, st);
    case Op(_, _, _, _, _) => GrowOp(e, st0);
    case Cond(_, ifExpr, cond, elseExpr) => GrowCond(e, st);
  }

  lemma {:induction false} GrowIndex(e: Expr, st0: State)
    requires e.Index?
    ensures Later({}, st0, Eval(e, st0).st)
    decreases |st0.ch|, e, 1
  {
    var st := st0.Reach(e.id);
    GrowE(e.base, st);
    GrowE(e.index, Eval(e.base, st).st);
  }

  lemma {:induction false} GrowOp(e: Expr, st0: State)
    requires e.Op?
    ensures Later({}, st0, Eval(e, st0).st)
    decreases |st0.ch|, e, 1
  {
    var st := st0.Reach(e.id);
    GrowE(e.left, st);
    var r := Eval(e.left, st);
    if r.st.ch != [] { GrowE(e.right, r.st.Choose()); }
  }

  lemma {:induction false} GrowCond(e: Expr, st: State)
    requires e.Cond?
    ensures var r := Eval(e.cond, st);
      Later({}, st, r.st) &&
      (r.st.ch != [] ==>
        Later({}, st, Eval(e.ifExpr, r.st.Choose()).st) && Later({}, st, Eval(e.elseExpr, r.st.Choose()).st))
    decreases |st.ch|, e, 1
  {
    GrowE(e.cond, st);
    var r := Eval(e.cond, st);
    if r.st.ch != [] {
      GrowE(e.ifExpr, r.st.Choose());
      GrowE(e.elseExpr, r.st.Choose());
    }
  }

  lemma {:induction false} GrowAll(es: seq<Expr>, st: State)
    ensures Later({}, st, EvalAll(es, st).st)
    decreases |st.ch|, es, 0
  {
    if es != [] {
      GrowE(es[0], st);
      GrowAll(es[1..], Eval(es[0], st).st);
    }
  }

  lemma {:induction false} GrowSome(es: seq<Expr>, st: State)
    ensures Later({}, st, EvalSome(es, st).st)
    decreases |st.ch|, es, 0
  {
    if st.ch != [] && st.ch[0] >= 2 && es != [] {
      var e := es[(st.ch[0] - 2) % |es|];
      GrowE(e, st.Choose());
      GrowSome(es, Eval(e, st.Choose()).st);
    }
  }

  lemma {:induction false} GrowOps(ops: Operands, st: State)
    ensures Later({}, st, EvalOps(ops, st).st)
    decreases |st.ch|, ops, 0
  {
    GrowAll(ops.always, st);
    GrowSome(ops.perhaps, EvalAll(ops.always, st).st);
  }

  lemma {:induction false} GrowO(e: Option<Expr>, st: State)
    ensures Later({}, st, EvalO(e, st).st)
  {
    if e.Some? { GrowE(e.value, st); }
  }

  lemma {:induction false} GrowStore(lv: Lvalue, st: State)
    ensures Later({}, st, Store(lv, st).st)
    ensures Store(lv, st).out == Normal ==> LvalueVars(lv) <= Store(lv, st).st.bound
    decreases lv, 1
  {
    match lv
    case NameTarget(_) =>
    case TupleTarget(items) => GrowStores(items, MayRaise(st).st);
    case OtherTarget(ops, _) => GrowOps(ops, st);
  }

  lemma {:induction false} GrowStores(lvs: seq<Lvalue>, st: State)
    ensures Later({}, st, StoreAll(lvs, st).st)
    ensures StoreAll(lvs, st).out == Normal ==> LvaluesVars(lvs) <= StoreAll(lvs, st).st.bound
    decreases lvs, 0
  {
    if lvs != [] {
      GrowStore(lvs[0], st);
      GrowStores(lvs[1..], Store(lvs[0], st).st);
    }
  }

  lemma {:induction false} GrowS(u: set<Var>, s: Stmt, st0: State)
    requires UnsureS(s) <= u
    ensures Later(u, st0, Exec(s, st0).st)
    decreases |st0.ch|, s, 4
  {
    if s.If? || s.While? || s.For? {
      GrowFlow(u, s, st0);
    } else if s.Try? || s.With? || s.Match? {
      GrowGuarded(u, s, st0);
    } else {
      GrowSimple(u, s, st0);
    }
  }

  lemma {:induction false} GrowFlow(u: set<Var>, s: Stmt, st0: State)
    requires UnsureS(s) <= u && (s.If? || s.While? || s.For?)
    ensures Later(u, st0, Exec(s, st0).st)
    decreases |st0.ch|, s, 3
  {
    var st := st0.Reach(s.id);
    match s
    case If(_, _, _, _) => GrowIf(u, s, st0);
    case While(_, _, _, _) => GrowRepeat(u, s, st);
    case For(_, _, iter, _, _) => GrowE(iter, st); GrowIterate(u, s, Eval(iter, st).st);
  }

  lemma {:induction false} GrowGuarded(u: set<Var>, s: Stmt, st0: State)
    requires UnsureS(s) <= u && (s.Try? || s.With? || s.Match?)
    ensures Later(u, st0, Exec(s, st0).st)
    decreases |st0.ch|, s, 3
  {
    var st := st0.Reach(s.id);
    match s
    case Try(_, _, _, _, _) => GrowTry(u, s, st);
    case With(_, _, _, _) => GrowWith(u, s, st0);
    case Match(_, subject, cases) =>
      GrowE(subject, st);
      GrowSelect(u, cases, Eval(subject, st).st);
  }

  lemma {:induction false} GrowIf(u: set<Var>, s: Stmt, st0: State)
    requires s.If? && UnsureS(s) <= u
    ensures Later(u, st0, Exec(s, st0).st)
    decreases |st0.ch|, s, 2
  {
    var st := st0.Reach(s.id);
    GrowE(s.test, st);
    var r := Eval(s.test, st);
    if r.st.ch != [] {
      GrowB(u, s.body, r.st.Choose());
      GrowB(u, s.orelse, r.st.Choose());
    }
  }

  lemma {:induction false} GrowWith(u: set<Var>, s: Stmt, st0: State)
    requires s.With? && UnsureS(s) <= u
    ensures Later(u, st0, Exec(s, st0).st)
    decreases |st0.ch|, s, 2
  {
    var st := st0.Reach(s.id);
    GrowEnter(s.items, st);
    GrowB(u, s.body, Enter(s.items, st).st);
  }

  lemma {:induction false} GrowSimple(u: set<Var>, s: Stmt, st0: State)
    requires UnsureS(s) <= u
    requires !s.If? && !s.While? && !s.For? && !s.Try? && !s.With? && !s.Match?
    ensures Later(u, st0, Exec(s, st0).st)
  {
    var st := st0.Reach(s.id);
    match s
    case Simple(_, ops, _) => GrowOps(ops, st);
    case Class(_, ops, _) => GrowOps(ops, st);
    case ExprStmt(_, e) => GrowE(e, st);
    case Assign(_, lvs, rvalue) =>
      if rvalue.Some? {
        GrowE(rvalue.value, st);
        GrowStores(lvs, Eval(rvalue.value, st).st);
      }
    case Return(_, e) => GrowO(e, st);
    case Raise(_, e) => GrowO(e, st);
    case _ =>
  }

  lemma {:induction false} GrowTry(u: set<Var>, s: Stmt, st: State)
    requires s.Try? && UnsureS(s) <= u
    ensures var rb := ExecBlock(s.body, st);
      var rm := if rb.out == Raised then Handle(s.handlers, rb.st)
                else if rb.out == Normal then ExecBlock(s.orelse, rb.st)
                else rb;
      Later(u, st, rm.st) && Later(u, st, ExecBlock(s.final, rm.st).st)
    decreases |st.ch|, s, 1
  {
    GrowB(u, s.body, st);
    var rb := ExecBlock(s.body, st);
    GrowHandle(u, s.handlers, rb.st);
    GrowB(u, s.orelse, rb.st);
    var rm := if rb.out == Raised then Handle(s.handlers, rb.st)
              else if rb.out == Normal then ExecBlock(s.orelse, rb.st)
              else rb;
    GrowB(u, s.final, rm.st);
  }

  lemma {:induction false} GrowB(u: set<Var>, b: seq<Stmt>, st: State)
    requires UnsureB(b) <= u
    ensures Later(u, st, ExecBlock(b, st).st)
    decreases |st.ch|, b, 0
  {
    if b != [] {
      GrowS(u, b[0], st);
      GrowB(u, b[1..], Exec(b[0], st).st);
    }
  }

  lemma {:induction false} GrowRepeat(u: set<Var>, s: Stmt, st: State)
    requires s.While? && UnsureS(s) <= u
    ensures Later(u, st, Repeat(s, st).st)
    decreases |st.ch|, s, 1
  {
    GrowE(s.test, st);
    var r := Eval(s.test, st);
    if r.out == Normal && r.st.ch != [] {
      GrowB(u, s.orelse, r.st.Choose());
      GrowB(u, s.body, r.st.Choose());
      GrowRepeat(u, s, ExecBlock(s.body, r.st.Choose()).st);
    }
  }

  lemma {:induction false} GrowIterate(u: set<Var>, s: Stmt, st: State)
    requires s.For? && UnsureS(s) <= u
    ensures Later(u, st, Iterate(s, st).st)
    decreases |st.ch|, s, 1
  {
    if st.ch != [] {
      GrowB(u, s.orelse, st.Choose());
      GrowStore(s.index, st.Choose());
      var r := Store(s.index, st.Choose());
      GrowB(u, s.body, r.st);
      GrowIterate(u, s, ExecBlock(s.body, r.st).st);
    }
  }

  lemma {:induction false} GrowHandle(u: set<Var>, hs: seq<Handler>, st: State)
    requires UnsureHs(hs) <= u
    ensures Later(u, st, Handle(hs, st).st)
    decreases |st.ch|, hs, 0
  {
    if hs != [] {
      GrowOps(hs[0].types, st);
      var r := EvalOps(hs[0].types, st);
      if r.out == Normal && r.st.ch != [] {
        GrowHandle(u, hs[1..], r.st.Choose());
        GrowB(u, hs[0].body, r.st.Choose());
        if hs[0].name.Some? {
          GrowB(u, hs[0].body, r.st.Choose().Bind({hs[0].name.value}));
        }
      }
    }
  }

  lemma {:induction false} GrowEnter(ws: seq<WithItem>, st: State)
    ensures Later({}, st, Enter(ws, st).st)
    ensures Enter(ws, st).out == Normal ==> WithVars(ws) <= Enter(ws, st).st.bound
    decreases ws
  {
    if ws != [] {
      GrowE(ws[0].context, st);
      var r := Eval(ws[0].context, st);
      if ws[0].target.Some? { GrowStore(ws[0].target.value, r.st); }
      var rs := if ws[0].target.Some? then Store(ws[0].target.value, r.st) else Run(Normal, r.st);
      GrowEnter(ws[1..], rs.st);
    }
  }

  lemma {:induction false} GrowSelect(u: set<Var>, cs: seq<Case>, st: State)
    requires UnsureCs(cs) <= u
    ensures Later(u, st, Select(cs, st).st)
    decreases |st.ch|, cs, 0
  {
    if cs != [] && st.ch != [] {
      if st.ch[0] == 0 {
        GrowSelect(u, cs[1..], st.Choose());
      } else if st.ch[0] == 1 {
        GrowSelect(u, cs[1..], st.Choose().Bind(cs[0].captures));
      } else if st.ch[0] > 2 {
        var sg := st.Choose().Bind(cs[0].captures);
        GrowO(cs[0].guard, sg);
        var r := EvalO(cs[0].guard, sg);
        if cs[0].guard.None? {
          GrowB(u, cs[0].body, r.st);
        } else if r.st.ch != [] && r.st.ch[0] == 0 {
          GrowSelect(u, cs[1..], r.st.Choose());
        } else if r.st.ch != [] {
          GrowB(u, cs[0].body, r.st.Choose());
        }
      }
    }
  }

  // ---- soundness

  // w is what the analysis reports at its target, less the names u; or the target is not hidden from it
  ghost predicate Fits(r: Collected, w: set<Var>, u: set<Var>, hidden: bool) {
    if r.AtTarget? then w <= r.vars && w !! u else !hidden
  }

  lemma {:induction false} GainsE(t: Id, e: Expr, vars: set<Var>)
    ensures CollectE(t, e, vars).SoFar? ==> CollectE(t, e, vars).vars <= vars + WalrusNames(e)
    decreases e, 1
  {
    match e
    case Leaf(_, _) =>
    case Call(_, _, args) => GainsEs(t, args, vars);
    case Dict(_, items) => GainsEs(t, items, vars);
    case Index(_, base, index) =>
    case Slice(_, parts) => GainsEs(t, parts, vars);
    case ListComp(_, generator) => GainsE(t, generator, vars);
    case Walrus(_, _, value) =>
    case Op(_, left, right, _, _) =>
      GainsE(t, left, vars); GainsE(t, right, CollectE(t, left, vars).vars);
    case Cond(_, ifExpr, cond, elseExpr) =>
      GainsE(t, ifExpr, vars); GainsE(t, cond, {}); GainsE(t, elseExpr, {});
  }

  lemma {:induction false} GainsEs(t: Id, es: seq<Expr>, vars: set<Var>)
    ensures CollectAny(t, es, vars).SoFar? ==> CollectAny(t, es, vars).vars == vars
    decreases es, 0
  {
    if es != [] { GainsEs(t, es[1..], vars); }
  }

  lemma {:induction false} SoundE(t: Id, u: set<Var>, w: set<Var>, e: Expr, vars: set<Var>, st0: State)
    requires CountE(t, e) <= 1 && UnsureE(e) <= u && vars <= st0.bound + u
    requires Kept(t, w, st0.log) && Fits(CollectE(t, e, vars), w, u, HiddenE(t, e))
    ensures Kept(t, w, Eval(e, st0).st.log)
    ensures CollectE(t, e, vars).SoFar? && Eval(e, st0).out == Normal ==>
              CollectE(t, e, vars).vars <= Eval(e, st0).st.bound + u
    decreases |st0.ch|, e, 2
  {
    var st := st0.Reach(e.id);
    GrowE(e, st0);
    match e
    case Leaf(_, ops) => QuietOps(t, w, ops, st);
    case Call(_, callee, args) =>
      FoundE(t, callee, vars); FoundEs(t, args, vars);
      SoundE(t, u, w, callee, vars, st);
      GrowE(callee, st);
      SoundAny(t, u, w, args, vars, Eval(callee, st).st);
      GainsEs(t, args, vars);
    case Dict(_, items) =>
      FoundEs(t, items, vars); SoundAny(t, u, w, items, vars, st); GainsEs(t, items, vars);
    case Index(_, base, index) =>
      FoundE(t, base, vars); FoundE(t, index, vars);
      SoundE(t, u, w, base, vars, st);
      GrowE(base, st);
      SoundE(t, u, w, index, vars, Eval(base, st).st);
    case Slice(_, parts) =>
      FoundEs(t, parts, vars); SoundAny(t, u, w, parts, vars, st); GainsEs(t, parts, vars);
    case ListComp(_, generator) => FoundE(t, generator, vars); SoundE(t, u, w, generator, vars, st);
    case Walrus(_, _, value) => FoundE(t, value, vars); SoundE(t, u, w, value, vars, st);
    case Op(_, _, _, _, _) => SoundOp(t, u, w, e, vars, st);
    case Cond(_, _, _, _) => SoundCond(t, u, w, e, vars, st);
  }

  lemma {:induction false} SoundOp(t: Id, u: set<Var>, w: set<Var>, e: Expr, vars: set<Var>, st: State)
    requires e.Op? && CountE(t, e) <= 1 && UnsureE(e) <= u && vars <= st.bound + u
    requires Kept(t, w, st.log) && Fits(CollectE(t, e, vars), w, u, HiddenE(t, e))
    ensures var r := Eval(e.left, st);
      Kept(t, w, r.st.log) &&
      (CollectE(t, e, vars).SoFar? && r.out == Normal ==> CollectE(t, e.left, vars).vars <= r.st.bound + u) &&
      (r.out == Normal && r.st.ch != [] ==>
        var r2 := Eval(e.right, r.st.Choose());
        Kept(t, w, r2.st.log) && r.st.bound <= r2.st.bound &&
        (CollectE(t, e, vars).SoFar? && r2.out == Normal ==>
          CollectE(t, e.right, CollectE(t, e.left, vars).vars).vars <= r2.st.bound + u))
    decreases |st.ch|, e, 1
  {
    FoundE(t, e.left, vars);
    var c := CollectE(t, e.left, vars);
    FoundE(t, e.right, c.vars);
    SoundE(t, u, w, e.left, vars, st);
    var r := Eval(e.left, st);
    if r.out == Normal && r.st.ch != [] {
      GrowE(e.left, st);
      var v := if c.SoFar? then c.vars else vars;
      FoundE(t, e.right, v);
      SoundE(t, u, w, e.right, v, r.st.Choose());
      GrowE(e.right, r.st.Choose());
    }
  }

  lemma {:induction false} SoundCond(t: Id, u: set<Var>, w: set<Var>, e: Expr, vars: set<Var>, st: State)
    requires e.Cond? && CountE(t, e) <= 1 && UnsureE(e) <= u && vars <= st.bound + u
    requires Kept(t, w, st.log) && Fits(CollectE(t, e, vars), w, u, HiddenE(t, e))
    ensures var r := Eval(e.cond, st);
      Kept(t, w, r.st.log) &&
      (r.out == Normal && r.st.ch != [] ==>
        Kept(t, w, Eval(e.ifExpr, r.st.Choose()).st.log) &&
        Kept(t, w, Eval(e.elseExpr, r.st.Choose()).st.log) &&
        (CollectE(t, e, vars).SoFar? ==>
          CollectE(t, e, vars).vars <= Eval(e.ifExpr, r.st.Choose()).st.bound + u &&
          CollectE(t, e, vars).vars <= Eval(e.elseExpr, r.st.Choose()).st.bound + u))
    decreases |st.ch|, e, 1
  {
    FoundE(t, e.ifExpr, vars); FoundE(t, e.cond, {}); FoundE(t, e.elseExpr, {});
    GainsE(t, e.ifExpr, vars);
    SoundE(t, u, w, e.cond, {}, st);
    GrowE(e.cond, st);
    var r := Eval(e.cond, st);
    if r.out == Normal && r.st.ch != [] {
      SoundE(t, u, w, e.ifExpr, vars, r.st.Choose());
      GrowE(e.ifExpr, r.st.Choose());
      SoundE(t, u, w, e.elseExpr, {}, r.st.Choose());
      GrowE(e.elseExpr, r.st.Choose());
    }
  }

  lemma {:induction false} SoundAny(t: Id, u: set<Var>, w: set<Var>, es: seq<Expr>, vars: set<Var>, st: State)
    requires CountEs(t, es) <= 1 && UnsureEs(es) <= u && vars <= st.bound + u
    requires Kept(t, w, st.log) && Fits(CollectAny(t, es, vars), w, u, HiddenEs(t, es))
    ensures Kept(t, w, EvalAll(es, st).st.log)
    ensures Later({}, st, EvalAll(es, st).st)
    decreases |st.ch|, es, 0
  {
    GrowAll(es, st);
    if es != [] {
      FoundE(t, es[0], vars); FoundEs(t, es[1..], vars);
      SoundE(t, u, w, es[0], vars, st);
      GrowE(es[0], st);
      SoundAny(t, u, w, es[1..], vars, Eval(es[0], st).st);
    }
  }

  lemma {:induction false} QuietSome(t: Id, w: set<Var>, es: seq<Expr>, st: State)
    requires CountEs(t, es) == 0 && Kept(t, w, st.log)
    ensures Kept(t, w, EvalSome(es, st).st.log)
    decreases |st.ch|, es, 0
  {
    if st.ch != [] && st.ch[0] >= 2 && es != [] {
      var i := (st.ch[0] - 2) % |es|;
      PartOf(t, es, i);
      FoundE(t, es[i], {});
      SoundE(t, UnsureE(es[i]), w, es[i], {}, st.Choose());
      QuietSome(t, w, es, Eval(es[i], st.Choose()).st);
    }
  }

  lemma {:induction false} QuietAll(t: Id, w: set<Var>, es: seq<Expr>, st: State)
    requires CountEs(t, es) == 0 && Kept(t, w, st.log)
    ensures Kept(t, w, EvalAll(es, st).st.log)
    decreases |st.ch|, es, 0
  {
    if es != [] {
      FoundE(t, es[0], {});
      SoundE(t, UnsureE(es[0]), w, es[0], {}, st);
      QuietAll(t, w, es[1..], Eval(es[0], st).st);
    }
  }

  lemma {:induction false} QuietOps(t: Id, w: set<Var>, ops: Operands, st: State)
    requires CountOps(t, ops) == 0 && Kept(t, w, st.log)
    ensures Kept(t, w, EvalOps(ops, st).st.log)
    decreases |st.ch|, ops, 0
  {
    QuietAll(t, w, ops.always, st);
    QuietSome(t, w, ops.perhaps, EvalAll(ops.always, st).st);
  }

  lemma {:induction false} PartOf(t: Id, es: seq<Expr>, i: nat)
    requires i < |es|
    ensures CountE(t, es[i]) <= CountEs(t, es)
  {
    if i > 0 {
      PartOf(t, es[1..], i - 1);
      assert es[1..][i - 1] == es[i];
    }
  }

  lemma {:induction false} QuietStore(t: Id, w: set<Var>, lv: Lvalue, st: State)
    requires CountLv(t, lv) == 0 && Kept(t, w, st.log)
    ensures Kept(t, w, Store(lv, st).st.log)
    decreases lv, 1
  {
    match lv
    case NameTarget(_) =>
    case TupleTarget(items) => QuietStores(t, w, items, MayRaise(st).st);
    case OtherTarget(ops, _) => QuietOps(t, w, ops, st);
  }

  lemma {:induction false} QuietStores(t: Id, w: set<Var>, lvs: seq<Lvalue>, st: State)
    requires CountLvs(t, lvs) == 0 && Kept(t, w, st.log)
    ensures Kept(t, w, StoreAll(lvs, st).st.log)
    decreases lvs, 0
  {
    if lvs != [] {
      QuietStore(t, w, lvs[0], st);
      QuietStores(t, w, lvs[1..], Store(lvs[0], st).st);
    }
  }

  lemma SoundO(t: Id, u: set<Var>, w: set<Var>, e: Option<Expr>, vars: set<Var>, st: State)
    requires CountO(t, e) <= 1 && UnsureO(e) <= u && vars <= st.bound + u
    requires Kept(t, w, st.log) && Fits(CollectO(t, e, vars), w, u, HiddenO(t, e))
    ensures Kept(t, w, EvalO(e, st).st.log)
    ensures CollectO(t, e, vars).SoFar? && EvalO(e, st).out == Normal ==>
              CollectO(t, e, vars).vars <= EvalO(e, st).st.bound + u
  {
    if e.Some? { SoundE(t, u, w, e.value, vars, st); }
  }

  // what every lemma below assumes of the part of the program it is about
  ghost predicate Pre(t: Id, u: set<Var>, w: set<Var>, vars: set<Var>, st: State) {
    vars <= st.bound + u && Kept(t, w, st.log)
  }

  ghost predicate Post(t: Id, u: set<Var>, w: set<Var>, c: Collected, r: Run) {
    Kept(t, w, r.st.log) && (c.SoFar? && r.out == Normal ==> c.vars <= r.st.bound + u)
  }

  // the targets of an assignment, its value being known
  lemma {:induction false} QuietlyStored(t: Id, w: set<Var>, lvs: seq<Lvalue>, e: Expr, st: State)
    requires CountLvs(t, lvs) == 0 && Kept(t, w, Eval(e, st).st.log)
    ensures Later({}, st, Eval(e, st).st)
    ensures var r := StoreAll(lvs, Eval(e, st).st);
      Kept(t, w, r.st.log) && Later({}, st, r.st) && (r.out == Normal ==> LvaluesVars(lvs) <= r.st.bound)
  {
    GrowE(e, st);
    QuietStores(t, w, lvs, Eval(e, st).st);
    GrowStores(lvs, Eval(e, st).st);
  }

  lemma {:induction false} SoundS(t: Id, u: set<Var>, w: set<Var>, s: Stmt, vars: set<Var>, st0: State)
    requires CountS(t, s) <= 1 && UnsureS(s) <= u && !SwallowsS(s)
    requires Pre(t, u, w, vars, st0) && Fits(CollectS(t, s, vars), w, u, HiddenS(t, s))
    ensures Post(t, u, w, CollectS(t, s, vars), Exec(s, st0))
    decreases |st0.ch|, s, 4
  {
    if s.If? || s.While? || s.For? {
      SoundFlow(t, u, w, s, vars, st0);
    } else if s.Try? || s.With? || s.Match? {
      SoundGuarded(t, u, w, s, vars, st0);
    } else {
      SoundSimple(t, u, w, s, vars, st0);
    }
  }

  lemma {:induction false} SoundFlow(t: Id, u: set<Var>, w: set<Var>, s: Stmt, vars: set<Var>, st0: State)
    requires CountS(t, s) <= 1 && UnsureS(s) <= u && !SwallowsS(s) && (s.If? || s.While? || s.For?)
    requires Pre(t, u, w, vars, st0) && Fits(CollectS(t, s, vars), w, u, HiddenS(t, s))
    ensures Post(t, u, w, CollectS(t, s, vars), Exec(s, st0))
    decreases |st0.ch|, s, 3
  {
    var st := st0.Reach(s.id);
    match s
    case If(_, _, _, _) => SoundIf(t, u, w, s, vars, st);
    case While(_, test, _, _) =>
      FoundE(t, test, vars);
      SoundRepeat(t, u, w, s, vars, st);
    case For(_, _, _, _, _) => SoundFor(t, u, w, s, vars, st);
  }

  lemma {:induction false} SoundGuarded(t: Id, u: set<Var>, w: set<Var>, s: Stmt, vars: set<Var>, st0: State)
    requires CountS(t, s) <= 1 && UnsureS(s) <= u && !SwallowsS(s) && (s.Try? || s.With? || s.Match?)
    requires Pre(t, u, w, vars, st0) && Fits(CollectS(t, s, vars), w, u, HiddenS(t, s))
    ensures Post(t, u, w, CollectS(t, s, vars), Exec(s, st0))
    decreases |st0.ch|, s, 3
  {
    var st := st0.Reach(s.id);
    match s
    case Try(_, _, _, _, _) => SoundTry(t, u, w, s, vars, st);
    case With(_, _, _, _) => SoundWith(t, u, w, s, vars, st);
    case Match(_, _, _) => SoundMatch(t, u, w, s, vars, st);
  }

  lemma {:induction false} SoundSimple(t: Id, u: set<Var>, w: set<Var>, s: Stmt, vars: set<Var>, st0: State)
    requires CountS(t, s) <= 1 && UnsureS(s) <= u && !SwallowsS(s)
    requires !s.If? && !s.While? && !s.For? && !s.Try? && !s.With? && !s.Match?
    requires Pre(t, u, w, vars, st0) && Fits(CollectS(t, s, vars), w, u, HiddenS(t, s))
    ensures Post(t, u, w, CollectS(t, s, vars), Exec(s, st0))
  {
    var st := st0.Reach(s.id);
    match s
    case Simple(_, ops, _) => QuietOps(t, w, ops, st); GrowOps(ops, st);
    case Class(_, ops, _) => QuietOps(t, w, ops, st); GrowOps(ops, st);
    case ExprStmt(_, e) => FoundE(t, e, vars); SoundE(t, u, w, e, vars, st);
    case Assign(_, lvs, rvalue) =>
      if rvalue.Some? {
        FoundE(t, rvalue.value, vars);
        SoundE(t, u, w, rvalue.value, vars, st);
        QuietlyStored(t, w, lvs, rvalue.value, st);
      }
    case Return(_, e) => FoundO(t, e, vars); SoundO(t, u, w, e, vars, st);
    case Raise(_, e) => FoundO(t, e, vars); SoundO(t, u, w, e, vars, st);
    case _ =>
  }

  lemma {:induction false} SoundFor(t: Id, u: set<Var>, w: set<Var>, s: Stmt, vars: set<Var>, st: State)
    requires s.For? && CountS(t, s) <= 1 && UnsureS(s) <= u && !SwallowsS(s)
    requires Pre(t, u, w, vars, st) && Fits(CollectS(t, s, vars), w, u, HiddenS(t, s))
    ensures var r := Eval(s.iter, st);
      Kept(t, w, r.st.log) &&
      (r.out == Normal ==> Post(t, u, w, CollectS(t, s, vars), Iterate(s, r.st)))
    decreases |st.ch|, s, 2
  {
    var c := CollectE(t, s.iter, vars);
    FoundE(t, s.iter, vars);
    FoundB(t, s.body, c.vars + LvalueVars(s.index)); FoundB(t, s.orelse, c.vars);
    SoundE(t, u, w, s.iter, vars, st);
    GrowE(s.iter, st);
    var r := Eval(s.iter, st);
    if r.out == Normal {
      var v := if c.SoFar? then c.vars else vars;
      FoundB(t, s.body, v + LvalueVars(s.index)); FoundB(t, s.orelse, v);
      SoundIterate(t, u, w, s, v, r.st);
    }
  }

  lemma {:induction false} SoundMatch(t: Id, u: set<Var>, w: set<Var>, s: Stmt, vars: set<Var>, st: State)
    requires s.Match? && CountS(t, s) <= 1 && UnsureS(s) <= u && !SwallowsS(s)
    requires Pre(t, u, w, vars, st) && Fits(CollectS(t, s, vars), w, u, HiddenS(t, s))
    ensures var r := Eval(s.subject, st);
      Kept(t, w, r.st.log) &&
      (r.out == Normal ==> Post(t, u, w, CollectS(t, s, vars), Select(s.cases, r.st)))
    decreases |st.ch|, s, 1
  {
    var c := CollectE(t, s.subject, vars);
    FoundE(t, s.subject, vars);
    FoundCs(t, s.cases, c.vars);
    SoundE(t, u, w, s.subject, vars, st);
    GrowE(s.subject, st);
    var r := Eval(s.subject, st);
    if r.out == Normal {
      var v := if c.SoFar? then c.vars else vars;
      FoundCs(t, s.cases, v);
      CasesKeep(t, s.cases, v);
      SoundSelect(t, u, w, s.cases, v, r.st);
    }
  }

  lemma {:induction false} CasesKeep(t: Id, cs: seq<Case>, vars: set<Var>)
    ensures CollectCases(t, cs, vars).SoFar? ==> CollectCases(t, cs, vars).vars == vars
  {
    if cs != [] { CasesKeep(t, cs[1..], vars); }
  }

  lemma {:induction false} SoundB(t: Id, u: set<Var>, w: set<Var>, b: seq<Stmt>, vars: set<Var>, st: State)
    requires CountB(t, b) <= 1 && UnsureB(b) <= u && !SwallowsB(b)
    requires Pre(t, u, w, vars, st) && Fits(CollectB(t, b, vars), w, u, HiddenB(t, b))
    ensures Post(t, u, w, CollectB(t, b, vars), ExecBlock(b, st))
    decreases |st.ch|, b, 0
  {
    if b != [] {
      var c := CollectS(t, b[0], vars);
      var r := Exec(b[0], st);
      FoundS(t, b[0], vars);
      FoundB(t, b[1..], if c.SoFar? then c.vars else {});
      SoundS(t, u, w, b[0], vars, st);
      RaisesS(t, b[0], vars, st);
      if r.out == Normal {
        SoundB(t, u, w, b[1..], if c.SoFar? then c.vars else {}, r.st);
      }
    }
  }

  lemma {:induction false} SoundIf(t: Id, u: set<Var>, w: set<Var>, s: Stmt, vars: set<Var>, st: State)
    requires s.If? && CountS(t, s) <= 1 && UnsureS(s) <= u && !SwallowsS(s)
    requires Pre(t, u, w, vars, st) && Fits(CollectS(t, s, vars), w, u, HiddenS(t, s))
    ensures var r := Eval(s.test, st);
      Kept(t, w, r.st.log) &&
      (r.out == Normal && r.st.ch != [] ==>
        Post(t, u, w, CollectS(t, s, vars), ExecBlock(s.body, r.st.Choose())) &&
        Post(t, u, w, CollectS(t, s, vars), ExecBlock(s.orelse, r.st.Choose())))
    decreases |st.ch|, s, 1
  {
    var c := CollectE(t, s.test, vars);
    FoundE(t, s.test, vars); FoundB(t, s.body, c.vars); FoundB(t, s.orelse, c.vars);
    SoundE(t, u, w, s.test, vars, st);
    GrowE(s.test, st);
    var r := Eval(s.test, st);
    if r.out == Normal && r.st.ch != [] {
      var v := if c.SoFar? then c.vars else vars;
      FoundB(t, s.body, v); FoundB(t, s.orelse, v);
      RaisesB(t, s.body, v, r.st.Choose()); RaisesB(t, s.orelse, v, r.st.Choose());
      SoundB(t, u, w, s.body, v, r.st.Choose());
      SoundB(t, u, w, s.orelse, v, r.st.Choose());
      GrowB(u, s.body, r.st.Choose());
      GrowB(u, s.orelse, r.st.Choose());
    }
  }

  // the pieces of CollectS for a loop, each looked at with variables v that hold at every turn
  ghost predicate LoopFits(t: Id, u: set<Var>, w: set<Var>, s: Stmt, v: set<Var>)
    requires s.While? || s.For?
  {
    var vb := if s.For? then v + LvalueVars(s.index) else v;
    Fits(CollectB(t, s.body, vb), w, u, HiddenB(t, s.body)) &&
    Fits(CollectB(t, s.orelse, v), w, u, HiddenB(t, s.orelse))
  }

  lemma {:induction false} SoundRepeat(t: Id, u: set<Var>, w: set<Var>, s: Stmt, vars: set<Var>, st: State)
    requires s.While? && CountS(t, s) <= 1 && UnsureS(s) <= u && !SwallowsS(s)
    requires Pre(t, u, w, vars, st) && Fits(CollectS(t, s, vars), w, u, HiddenS(t, s))
    ensures Post(t, u, w, CollectS(t, s, vars), Repeat(s, st))
    decreases |st.ch|, s, 1
  {
    var c := CollectE(t, s.test, vars);
    FoundE(t, s.test, vars); FoundB(t, s.body, c.vars); FoundB(t, s.orelse, c.vars);
    SoundE(t, u, w, s.test, vars, st);
    GrowE(s.test, st);
    var r := Eval(s.test, st);
    if r.out == Normal && r.st.ch != [] {
      var v := if c.SoFar? then c.vars else vars;
      FoundB(t, s.body, v); FoundB(t, s.orelse, v);
      if r.st.ch[0] == 0 {
        SoundB(t, u, w, s.orelse, v, r.st.Choose());
        GrowB(u, s.orelse, r.st.Choose());
      } else {
        SoundB(t, u, w, s.body, v, r.st.Choose());
        GrowB(u, s.body, r.st.Choose());
        var rb := ExecBlock(s.body, r.st.Choose());
        if rb.out == Normal || rb.out == Continued {
          SoundRepeat(t, u, w, s, vars, rb.st);
        }
      }
    }
  }

  lemma {:induction false} SoundIterate(t: Id, u: set<Var>, w: set<Var>, s: Stmt, v: set<Var>, st: State)
    requires s.For? && CountB(t, s.body) + CountB(t, s.orelse) <= 1 && CountLv(t, s.index) == 0
    requires UnsureS(s) <= u && !SwallowsS(s)
    requires Pre(t, u, w, v, st) && LoopFits(t, u, w, s, v)
    ensures Kept(t, w, Iterate(s, st).st.log) && v <= Iterate(s, st).st.bound + u
    decreases |st.ch|, s, 1
  {
    if st.ch != [] {
      if st.ch[0] == 0 {
        SoundB(t, u, w, s.orelse, v, st.Choose());
        GrowB(u, s.orelse, st.Choose());
      } else if st.ch[0] != 1 {
        QuietStore(t, w, s.index, st.Choose());
        GrowStore(s.index, st.Choose());
        var r := Store(s.index, st.Choose());
        if r.out == Normal {
          SoundB(t, u, w, s.body, v + LvalueVars(s.index), r.st);
          GrowB(u, s.body, r.st);
          var rb := ExecBlock(s.body, r.st);
          if rb.out == Normal || rb.out == Continued {
            SoundIterate(t, u, w, s, v, rb.st);
          }
        }
      }
    }
  }

  lemma {:induction false} SoundTry(t: Id, u: set<Var>, w: set<Var>, s: Stmt, vars: set<Var>, st: State)
    requires s.Try? && CountS(t, s) <= 1 && UnsureS(s) <= u && !SwallowsS(s)
    requires Pre(t, u, w, vars, st) && Fits(CollectS(t, s, vars), w, u, HiddenS(t, s))
    ensures var rb := ExecBlock(s.body, st);
      var rm := if rb.out == Raised then Handle(s.handlers, rb.st)
                else if rb.out == Normal then ExecBlock(s.orelse, rb.st)
                else rb;
      Kept(t, w, rm.st.log) && Post(t, u, w, CollectS(t, s, vars), ExecBlock(s.final, rm.st))
    decreases |st.ch|, s, 1
  {
    FoundHs(t, s.handlers, vars); FoundB(t, s.orelse, vars); FoundB(t, s.body, vars); FoundB(t, s.final, vars);
    SoundB(t, u, w, s.body, vars, st);
    GrowB(u, s.body, st);
    var rb := ExecBlock(s.body, st);
    var rm := if rb.out == Raised then Handle(s.handlers, rb.st)
              else if rb.out == Normal then ExecBlock(s.orelse, rb.st)
              else rb;
    if rb.out == Raised {
      SoundHandle(t, u, w, s.handlers, vars, rb.st);
      GrowHandle(u, s.handlers, rb.st);
    } else if rb.out == Normal {
      SoundB(t, u, w, s.orelse, vars, rb.st);
      GrowB(u, s.orelse, rb.st);
    }
    SoundB(t, u, w, s.final, vars, rm.st);
    GrowB(u, s.final, rm.st);
  }

  lemma {:induction false} SoundHandle(t: Id, u: set<Var>, w: set<Var>, hs: seq<Handler>, vars: set<Var>, st: State)
    requires CountHs(t, hs) <= 1 && UnsureHs(hs) <= u && !SwallowsHs(hs)
    requires Pre(t, u, w, vars, st) && Fits(CollectHandlers(t, hs, vars), w, u, HiddenHs(t, hs))
    ensures Kept(t, w, Handle(hs, st).st.log)
    decreases |st.ch|, hs, 0
  {
    if hs != [] {
      FoundB(t, hs[0].body, vars); FoundHs(t, hs[1..], vars);
      QuietOps(t, w, hs[0].types, st);
      GrowOps(hs[0].types, st);
      var r := EvalOps(hs[0].types, st);
      if r.out == Normal && r.st.ch != [] {
        if r.st.ch[0] == 0 {
          SoundHandle(t, u, w, hs[1..], vars, r.st.Choose());
        } else {
          var bs := if hs[0].name.Some? then {hs[0].name.value} else {};
          SoundB(t, u, w, hs[0].body, vars, if hs[0].name.Some? then r.st.Choose().Bind(bs) else r.st.Choose());
        }
      }
    }
  }

  lemma {:induction false} SoundWith(t: Id, u: set<Var>, w: set<Var>, s: Stmt, vars: set<Var>, st: State)
    requires s.With? && CountS(t, s) <= 1 && UnsureS(s) <= u && !SwallowsS(s)
    requires Pre(t, u, w, vars, st) && Fits(CollectS(t, s, vars), w, u, HiddenS(t, s))
    ensures var re := Enter(s.items, st);
      Kept(t, w, re.st.log) &&
      (re.out == Normal ==> Post(t, u, w, CollectS(t, s, vars), ExecBlock(s.body, re.st)))
    decreases |st.ch|, s, 1
  {
    var v := vars + WithVars(s.items);
    FoundWs(t, s.items, vars); FoundB(t, s.body, v);
    SoundEnter(t, u, w, s.items, vars, st);
    GrowEnter(s.items, st);
    var re := Enter(s.items, st);
    if re.out == Normal {
      SoundB(t, u, w, s.body, v, re.st);
    }
  }

  lemma {:induction false} SoundEnter(t: Id, u: set<Var>, w: set<Var>, ws: seq<WithItem>, vars: set<Var>, st: State)
    requires CountWs(t, ws) <= 1 && UnsureWs(ws) <= u
    requires Pre(t, u, w, vars, st) && Fits(CollectContexts(t, ws, vars), w, u, HiddenWs(t, ws))
    ensures Kept(t, w, Enter(ws, st).st.log)
    decreases |st.ch|, ws, 0
  {
    if ws != [] {
      FoundE(t, ws[0].context, vars); FoundWs(t, ws[1..], vars);
      SoundE(t, u, w, ws[0].context, vars, st);
      GrowE(ws[0].context, st);
      var r := Eval(ws[0].context, st);
      if r.out == Normal {
        if ws[0].target.Some? {
          QuietStore(t, w, ws[0].target.value, r.st);
          GrowStore(ws[0].target.value, r.st);
        }
        var rs := if ws[0].target.Some? then Store(ws[0].target.value, r.st) else Run(Normal, r.st);
        SoundEnter(t, u, w, ws[1..], vars, rs.st);
      }
    }
  }

  lemma {:induction false} SoundSelect(t: Id, u: set<Var>, w: set<Var>, cs: seq<Case>, vars: set<Var>, st: State)
    requires CountCs(t, cs) <= 1 && UnsureCs(cs) <= u && !SwallowsCs(cs)
    requires Pre(t, u, w, vars, st) && Fits(CollectCases(t, cs, vars), w, u, HiddenCs(t, cs))
    ensures Kept(t, w, Select(cs, st).st.log)
    ensures vars <= Select(cs, st).st.bound + u
    decreases |st.ch|, cs, 0
  {
    GrowSelect(u, cs, st);
    if cs != [] && st.ch != [] {
      var cg := CollectO(t, cs[0].guard, vars);
      FoundO(t, cs[0].guard, vars);
      FoundB(t, cs[0].body, cg.vars);
      FoundCs(t, cs[1..], vars);
      if st.ch[0] == 0 {
        SoundSelect(t, u, w, cs[1..], vars, st.Choose());
      } else if st.ch[0] == 1 {
        SoundSelect(t, u, w, cs[1..], vars, st.Choose().Bind(cs[0].captures));
      } else if st.ch[0] > 2 {
        var sg := st.Choose().Bind(cs[0].captures);
        SoundO(t, u, w, cs[0].guard, vars, sg);
        GrowO(cs[0].guard, sg);
        var r := EvalO(cs[0].guard, sg);
        if r.out == Normal {
          if cs[0].guard.Some? && r.st.ch != [] && r.st.ch[0] == 0 {
            SoundSelect(t, u, w, cs[1..], vars, r.st.Choose());
          } else if cs[0].guard.None? || r.st.ch != [] {
            var v := if cg.SoFar? then cg.vars else vars;
            FoundB(t, cs[0].body, v);
            SoundB(t, u, w, cs[0].body, v, if cs[0].guard.Some? then r.st.Choose() else r.st);
          }
        }
      }
    }
  }
}
