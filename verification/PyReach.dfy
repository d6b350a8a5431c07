/** What the runs of module PyRun can come to, as far as one variable goes: a
    recursion over the syntax tree that knows of the variable only whether it is
    assigned, proved to find exactly what some run does. */
module PyReach {
  import opened PyAst
  import opened PyRun
  import opened Wrappers
  import opened DefiniteAssignment
  import opened DefiniteAssignmentProofs

  // what a run may come to: an end, or control reaching a node
  datatype Goal = Ends(out: Outcome) | Visits(t: Id)

  predicate Abrupt(g: Goal) {
    g != Ends(Normal)
  }

  // an operation that may raise and assigns nothing
  predicate OrRaises(g: Goal) {
    g == Ends(Normal) || g == Ends(Raised)
  }

  // ---- MayX(x, v, h, g, k): from where v is assigned (h) or not, x may come to g with v assigned (k) or not

  predicate MayE(e: Expr, v: Var, h: bool, g: Goal, k: bool)
    decreases e, 2
  {
    (g == Visits(e.id) && k == h) ||
    match e
    case Leaf(_, ops) => MayOps(ops, v, h, g, k)
    case Call(_, callee, args) =>
      (Abrupt(g) && MayE(callee, v, h, g, k)) ||
      exists m: bool :: MayE(callee, v, h, Ends(Normal), m) && MayAllThenRaise(args, v, m, g, k)
    case Dict(_, items) => MayAllThenRaise(items, v, h, g, k)
    case Index(_, base, index) =>
      (Abrupt(g) && MayE(base, v, h, g, k)) ||
      exists m: bool :: MayE(base, v, h, Ends(Normal), m) && MayThenRaise(index, v, m, g, k)
    case Slice(_, parts) => MayAllThenRaise(parts, v, h, g, k)
    case ListComp(_, generator) => MayE(generator, v, h, g, k)
    case Walrus(_, target, value) =>
      if Abrupt(g) then MayE(value, v, h, g, k)
      else exists m: bool :: MayE(value, v, h, g, m) && k == (m || v == target)
    case Op(_, left, right, _, _) =>
      (Abrupt(g) && MayE(left, v, h, g, k)) ||
      exists m: bool :: MayE(left, v, h, Ends(Normal), m) &&
        (MayThenRaise(right, v, m, g, k) || (MaySkip(e) && OrRaises(g) && k == m))
    case Cond(_, ifExpr, cond, elseExpr) =>
      (Abrupt(g) && MayE(cond, v, h, g, k)) ||
      exists m: bool :: MayE(cond, v, h, Ends(Normal), m) &&
        (MayE(ifExpr, v, m, g, k) || MayE(elseExpr, v, m, g, k))
  }

  predicate MayThenRaise(e: Expr, v: Var, h: bool, g: Goal, k: bool)
    decreases e, 3
  {
    (Abrupt(g) && MayE(e, v, h, g, k)) || (OrRaises(g) && MayE(e, v, h, Ends(Normal), k))
  }

  predicate MayAll(es: seq<Expr>, v: Var, h: bool, g: Goal, k: bool)
    decreases es, 0
  {
    if es == [] then g == Ends(Normal) && k == h else
      (Abrupt(g) && MayE(es[0], v, h, g, k)) ||
      exists m: bool :: MayE(es[0], v, h, Ends(Normal), m) && MayAll(es[1..], v, m, g, k)
  }

  predicate MayAllThenRaise(es: seq<Expr>, v: Var, h: bool, g: Goal, k: bool)
    decreases es, 1
  {
    (Abrupt(g) && MayAll(es, v, h, g, k)) || (OrRaises(g) && MayAll(es, v, h, Ends(Normal), k))
  }

  predicate MayAny(es: seq<Expr>, v: Var, h: bool, g: Goal, k: bool)
    decreases es, 0
  {
    es != [] && (MayE(es[0], v, h, g, k) || MayAny(es[1..], v, h, g, k))
  }

  // before the next of some expressions: with two statuses, any number of steps is one or none
  predicate SomeHead(es: seq<Expr>, v: Var, h: bool, k: bool)
    decreases es, 1
  {
    k == h || MayAny(es, v, h, Ends(Normal), k)
  }

  predicate MaySome(es: seq<Expr>, v: Var, h: bool, g: Goal, k: bool)
    decreases es, 2
  {
    (OrRaises(g) && SomeHead(es, v, h, k)) ||
    (Abrupt(g) && exists m: bool :: SomeHead(es, v, h, m) && MayAny(es, v, m, g, k))
  }

  predicate MayOps(ops: Operands, v: Var, h: bool, g: Goal, k: bool)
    decreases ops, 0
  {
    (Abrupt(g) && MayAll(ops.always, v, h, g, k)) ||
    exists m: bool :: MayAll(ops.always, v, h, Ends(Normal), m) && MaySome(ops.perhaps, v, m, g, k)
  }

  // operands, after which names are bound
  predicate MayOpsBind(ops: Operands, binds: set<Var>, v: Var, h: bool, g: Goal, k: bool) {
    if Abrupt(g) then MayOps(ops, v, h, g, k)
    else exists m: bool :: MayOps(ops, v, h, g, m) && k == (m || v in binds)
  }

  predicate MayO(e: Option<Expr>, v: Var, h: bool, g: Goal, k: bool) {
    if e.Some? then MayE(e.value, v, h, g, k) else g == Ends(Normal) && k == h
  }

  predicate MayStore(lv: Lvalue, v: Var, h: bool, g: Goal, k: bool)
    decreases lv, 1
  {
    match lv
    case NameTarget(x) => g == Ends(Normal) && k == (h || v == x)
    case TupleTarget(items) => (g == Ends(Raised) && k == h) || MayStoreAll(items, v, h, g, k)
    case OtherTarget(ops, binds) => MayOpsBind(ops, binds, v, h, g, k)
  }

  predicate MayStoreAll(lvs: seq<Lvalue>, v: Var, h: bool, g: Goal, k: bool)
    decreases lvs, 0
  {
    if lvs == [] then g == Ends(Normal) && k == h else
      (Abrupt(g) && MayStore(lvs[0], v, h, g, k)) ||
      exists m: bool :: MayStore(lvs[0], v, h, Ends(Normal), m) && MayStoreAll(lvs[1..], v, m, g, k)
  }

  predicate MayS(s: Stmt, v: Var, h: bool, g: Goal, k: bool)
    decreases s, 4
  {
    (g == Visits(s.id) && k == h) ||
    match s
    case Simple(_, ops, binds) => MayOpsBind(ops, binds, v, h, g, k)
    case Del(_, vars) => (g == Ends(Raised) && k == h) || (g == Ends(Normal) && k == (h && v !in vars))
    case Break(_) => g == Ends(Broke) && k == h
    case Continue(_) => g == Ends(Continued) && k == h
    case ExprStmt(_, e) => MayE(e, v, h, g, k)
    case Assign(_, lvs, rvalue) =>
      if rvalue.None? then g == Ends(Normal) && k == h else
        (Abrupt(g) && MayE(rvalue.value, v, h, g, k)) ||
        exists m: bool :: MayE(rvalue.value, v, h, Ends(Normal), m) && MayStoreAll(lvs, v, m, g, k)
    case TypeAlias(_, name) => g == Ends(Normal) && k == (h || v == name)
    case Class(_, ops, name) => MayOpsBind(ops, {name}, v, h, g, k)
    case Return(_, e) => (Abrupt(g) && MayO(e, v, h, g, k)) || (g == Ends(Returned) && MayO(e, v, h, Ends(Normal), k))
    case Raise(_, e) => (Abrupt(g) && MayO(e, v, h, g, k)) || (g == Ends(Raised) && MayO(e, v, h, Ends(Normal), k))
    case If(_, _, _, _) => MayIf(s, v, h, g, k)
    case While(_, _, _, _) => MayRepeat(s, v, h, g, k)
    case For(_, _, _, _, _) => MayFor(s, v, h, g, k)
    case Try(_, _, _, _, _) => MayTry(s, v, h, g, k)
    case With(_, _, _, _) => MayWith(s, v, h, g, k)
    case Match(_, _, _) => MayMatch(s, v, h, g, k)
  }

  predicate MayIf(s: Stmt, v: Var, h: bool, g: Goal, k: bool)
    requires s.If?
    decreases s, 2
  {
    (Abrupt(g) && MayE(s.test, v, h, g, k)) ||
    exists m: bool :: MayE(s.test, v, h, Ends(Normal), m) && (MayB(s.body, v, m, g, k) || MayB(s.orelse, v, m, g, k))
  }

  predicate MayFor(s: Stmt, v: Var, h: bool, g: Goal, k: bool)
    requires s.For?
    decreases s, 3
  {
    (Abrupt(g) && MayE(s.iter, v, h, g, k)) ||
    exists m: bool :: MayE(s.iter, v, h, Ends(Normal), m) && MayIterate(s, v, m, g, k)
  }

  predicate MayTry(s: Stmt, v: Var, h: bool, g: Goal, k: bool)
    requires s.Try?
    decreases s, 2
  {
    (g.Visits? && MayProtect(s, v, h, g, k)) ||
    (g.Ends? && exists m: bool :: MayProtect(s, v, h, g, m) && MayB(s.final, v, m, Ends(Normal), k)) ||
    (Abrupt(g) && exists o: Outcome, m: bool :: o != Cut && MayProtect(s, v, h, Ends(o), m) && MayB(s.final, v, m, g, k))
  }

  predicate MayWith(s: Stmt, v: Var, h: bool, g: Goal, k: bool)
    requires s.With?
    decreases s, 2
  {
    (Abrupt(g) && MayEnter(s.items, v, h, g, k)) ||
    exists m: bool :: MayEnter(s.items, v, h, Ends(Normal), m) && MayExit(s.body, s.swallows, v, m, g, k)
  }

  predicate MayMatch(s: Stmt, v: Var, h: bool, g: Goal, k: bool)
    requires s.Match?
    decreases s, 2
  {
    (Abrupt(g) && MayE(s.subject, v, h, g, k)) ||
    exists m: bool :: MayE(s.subject, v, h, Ends(Normal), m) && MaySelect(s.cases, v, m, g, k)
  }

  predicate MayB(b: seq<Stmt>, v: Var, h: bool, g: Goal, k: bool)
    decreases b, 0
  {
    if b == [] then g == Ends(Normal) && k == h else
      (Abrupt(g) && MayS(b[0], v, h, g, k)) ||
      exists m: bool :: MayS(b[0], v, h, Ends(Normal), m) && MayB(b[1..], v, m, g, k)
  }

  // a loop's body goes round again ...
  predicate MayTurn(b: seq<Stmt>, v: Var, h: bool, k: bool)
    decreases b, 1
  {
    MayB(b, v, h, Ends(Normal), k) || MayB(b, v, h, Ends(Continued), k)
  }

  // ... or is left
  predicate MayLeave(b: seq<Stmt>, v: Var, h: bool, g: Goal, k: bool)
    decreases b, 1
  {
    if g == Ends(Normal) then MayB(b, v, h, Ends(Broke), k)
    else g != Ends(Broke) && g != Ends(Continued) && MayB(b, v, h, g, k)
  }

  predicate RepeatHead(s: Stmt, v: Var, h: bool, k: bool)
    requires s.While?
    decreases s, 1
  {
    k == h || exists m: bool :: MayE(s.test, v, h, Ends(Normal), m) && MayTurn(s.body, v, m, k)
  }

  predicate MayRepeatOnce(s: Stmt, v: Var, h: bool, g: Goal, k: bool)
    requires s.While?
    decreases s, 1
  {
    (Abrupt(g) && MayE(s.test, v, h, g, k)) ||
    exists m: bool :: MayE(s.test, v, h, Ends(Normal), m) &&
      (MayB(s.orelse, v, m, g, k) || MayLeave(s.body, v, m, g, k))
  }

  predicate MayRepeat(s: Stmt, v: Var, h: bool, g: Goal, k: bool)
    requires s.While?
    decreases s, 2
  {
    exists m: bool :: RepeatHead(s, v, h, m) && MayRepeatOnce(s, v, m, g, k)
  }

  predicate IterateHead(s: Stmt, v: Var, h: bool, k: bool)
    requires s.For?
    decreases s, 1
  {
    k == h || exists m: bool :: MayStore(s.index, v, h, Ends(Normal), m) && MayTurn(s.body, v, m, k)
  }

  predicate MayIterateOnce(s: Stmt, v: Var, h: bool, g: Goal, k: bool)
    requires s.For?
    decreases s, 1
  {
    MayB(s.orelse, v, h, g, k) || (g == Ends(Raised) && k == h) ||
    (Abrupt(g) && MayStore(s.index, v, h, g, k)) ||
    exists m: bool :: MayStore(s.index, v, h, Ends(Normal), m) && MayLeave(s.body, v, m, g, k)
  }

  predicate MayIterate(s: Stmt, v: Var, h: bool, g: Goal, k: bool)
    requires s.For?
    decreases s, 2
  {
    exists m: bool :: IterateHead(s, v, h, m) && MayIterateOnce(s, v, m, g, k)
  }

  // a try statement up to its finally block
  predicate MayProtect(s: Stmt, v: Var, h: bool, g: Goal, k: bool)
    requires s.Try?
    decreases s, 1
  {
    (!OrRaises(g) && MayB(s.body, v, h, g, k)) ||
    (exists m: bool :: MayB(s.body, v, h, Ends(Raised), m) && MayHandle(s.handlers, v, m, g, k)) ||
    (exists m: bool :: MayB(s.body, v, h, Ends(Normal), m) && MayB(s.orelse, v, m, g, k))
  }

  predicate MayHandle(hs: seq<Handler>, v: Var, h: bool, g: Goal, k: bool)
    decreases hs, 0
  {
    if hs == [] then g == Ends(Raised) && k == h else
      (Abrupt(g) && MayOps(hs[0].types, v, h, g, k)) ||
      exists m: bool :: MayOps(hs[0].types, v, h, Ends(Normal), m) &&
        (MayHandle(hs[1..], v, m, g, k) || MayCatch(hs[0], v, m, g, k))
  }

  predicate MayCatch(hd: Handler, v: Var, h: bool, g: Goal, k: bool)
    decreases hd, 0
  {
    if hd.name.None? then MayB(hd.body, v, h, g, k)
    else if v != hd.name.value then MayB(hd.body, v, h, g, k)
    else if g.Visits? then MayB(hd.body, v, true, g, k)
    else !k && exists m: bool :: MayB(hd.body, v, true, g, m)
  }

  predicate MayEnter(ws: seq<WithItem>, v: Var, h: bool, g: Goal, k: bool)
    decreases ws, 0
  {
    if ws == [] then g == Ends(Normal) && k == h else
      (Abrupt(g) && MayE(ws[0].context, v, h, g, k)) ||
      exists m: bool :: MayE(ws[0].context, v, h, Ends(Normal), m) && MayEnterOne(ws, v, m, g, k)
  }

  predicate MayEnterOne(ws: seq<WithItem>, v: Var, h: bool, g: Goal, k: bool)
    requires ws != []
    decreases ws[1..], 1
  {
    if ws[0].target.None? then MayEnter(ws[1..], v, h, g, k) else
      (Abrupt(g) && MayStore(ws[0].target.value, v, h, g, k)) ||
      exists m: bool :: MayStore(ws[0].target.value, v, h, Ends(Normal), m) && MayEnter(ws[1..], v, m, g, k)
  }

  predicate MayExit(b: seq<Stmt>, swallows: bool, v: Var, h: bool, g: Goal, k: bool)
    decreases b, 1
  {
    MayB(b, v, h, g, k) ||
    (g == Ends(Raised) && exists o: Outcome :: o != Cut && MayB(b, v, h, Ends(o), k)) ||
    (g == Ends(Normal) && swallows && MayB(b, v, h, Ends(Raised), k))
  }

  predicate MaySelect(cs: seq<Case>, v: Var, h: bool, g: Goal, k: bool)
    decreases cs, 1
  {
    if cs == [] then g == Ends(Normal) && k == h else
      MaySelect(cs[1..], v, h, g, k) || MaySelect(cs[1..], v, h || v in cs[0].captures, g, k) ||
      (g == Ends(Raised) && k == h) || MayCase(cs, v, h || v in cs[0].captures, g, k)
  }

  predicate MayCase(cs: seq<Case>, v: Var, h: bool, g: Goal, k: bool)
    requires cs != []
    decreases cs, 0
  {
    if cs[0].guard.None? then MayB(cs[0].body, v, h, g, k) else
      (Abrupt(g) && MayE(cs[0].guard.value, v, h, g, k)) ||
      exists m: bool :: MayE(cs[0].guard.value, v, h, Ends(Normal), m) &&
        (MaySelect(cs[1..], v, m, g, k) || MayB(cs[0].body, v, m, g, k))
  }

  // ---- whatever a run comes to is found

  // what happened between st and the end of r, as far as v goes, is allowed by may
  ghost predicate Sees(v: Var, st: State, r: Run, may: (Goal, bool) -> bool) {
    (r.out != Cut ==> may(Ends(r.out), v in r.st.bound)) &&
    forall i :: |st.log| <= i < |r.st.log| ==> may(Visits(r.st.log[i].node), v in r.st.log[i].bound)
  }

  // r goes on where r1 ended
  lemma SeesThen(v: Var, st: State, r1: Run, r: Run, may1: (Goal, bool) -> bool, may2: (Goal, bool) -> bool,
                 may: (Goal, bool) -> bool)
    requires r1.out != Cut && Sees(v, st, r1, may1) && Sees(v, r1.st, r, may2)
    requires st.log <= r1.st.log <= r.st.log
    requires forall t, k :: may1(Visits(t), k) ==> may(Visits(t), k)
    requires forall g, k :: may2(g, k) && may1(Ends(r1.out), v in r1.st.bound) ==> may(g, k)
    ensures Sees(v, st, r, may)
  {
    forall i | |st.log| <= i < |r.st.log| ensures may(Visits(r.st.log[i].node), v in r.st.log[i].bound) {
      if i < |r1.st.log| { assert r.st.log[i] == r1.st.log[i]; }
    }
  }

  // control reaches a node before anything else happens
  lemma SeesFrom(v: Var, st: State, t: Id, r: Run, may1: (Goal, bool) -> bool, may: (Goal, bool) -> bool)
    requires Sees(v, st.Reach(t), r, may1) && st.Reach(t).log <= r.st.log
    requires may(Visits(t), v in st.bound) && forall g, k :: may1(g, k) ==> may(g, k)
    ensures Sees(v, st, r, may) && st.log <= r.st.log
  {
  }

  // an operation that may raise comes last
  lemma SeesRaise(v: Var, st: State, r: Run, may: (Goal, bool) -> bool)
    requires Sees(v, st, r, may)
    ensures Sees(v, st, if r.out == Normal then MayRaise(r.st) else r,
                 (g, k) => (Abrupt(g) && may(g, k)) || (OrRaises(g) && may(Ends(Normal), k)))
  {
    var r2 := if r.out == Normal then MayRaise(r.st) else r;
    assert r2.st.log == r.st.log && r2.st.bound == r.st.bound;
    assert forall t :: Abrupt(Visits(t));
    assert r2.out != Cut ==> if r.out == Normal then OrRaises(Ends(r2.out)) else r2 == r && Abrupt(Ends(r2.out));
  }

  lemma {:induction false} SeesE(v: Var, e: Expr, st0: State)
    ensures Sees(v, st0, Eval(e, st0), (g, k) => MayE(e, v, v in st0.bound, g, k))
    decreases |st0.ch|, e, 2
  {
    var st := st0.Reach(e.id);
    match e
    case Leaf(_, ops) => SeesOps(v, ops, st); GrowOps(ops, st);
    case Call(_, _, _) => SeesCall(v, e, st0);
    case Dict(_, items) => SeesAllThenRaise(v, items, st);
    case Index(_, _, _) => SeesIndex(v, e, st0);
    case Slice(_, parts) => SeesAllThenRaise(v, parts, st);
    case ListComp(_, generator) => SeesE(v, generator, st); GrowE(generator, st);
    case Walrus(_, _, value) => SeesE(v, value, st); GrowE(value, st);
    case Op(_, _, _, _, _) => SeesOp(v, e, st0);
    case Cond(_, _, _, _) => SeesCond(v, e, st0);
  }

  lemma {:induction false} SeesAll(v: Var, es: seq<Expr>, st: State)
    ensures Sees(v, st, EvalAll(es, st), (g, k) => MayAll(es, v, v in st.bound, g, k))
    decreases |st.ch|, es, 0
  {
    if es != [] {
      SeesE(v, es[0], st);
      var r := Eval(es[0], st);
      if r.out == Normal { SeesAll(v, es[1..], r.st); GrowAll(es[1..], r.st); }
    }
  }

  lemma {:induction false} SeesAllThenRaise(v: Var, es: seq<Expr>, st: State)
    ensures Sees(v, st, EvalThenMayRaise(es, st), (g, k) => MayAllThenRaise(es, v, v in st.bound, g, k))
    ensures st.log <= EvalThenMayRaise(es, st).st.log
    decreases |st.ch|, es, 1
  {
    SeesAll(v, es, st);
    GrowAll(es, st);
    SeesRaise(v, st, EvalAll(es, st), (g, k) => MayAll(es, v, v in st.bound, g, k));
  }

  lemma {:induction false} SeesThenRaise(v: Var, e: Expr, st: State)
    ensures var r := Eval(e, st);
      Sees(v, st, if r.out == Normal then MayRaise(r.st) else r, (g, k) => MayThenRaise(e, v, v in st.bound, g, k))
    decreases |st.ch|, e, 3
  {
    SeesE(v, e, st);
    RaisesThen(v, e, st, Eval(e, st));
  }

  lemma {:induction false} RaisesThen(v: Var, e: Expr, st: State, r: Run)
    requires Sees(v, st, r, (g, k) => MayE(e, v, v in st.bound, g, k))
    ensures Sees(v, st, if r.out == Normal then MayRaise(r.st) else r, (g, k) => MayThenRaise(e, v, v in st.bound, g, k))
  {
    SeesRaise(v, st, r, (g, k) => MayE(e, v, v in st.bound, g, k));
  }

  lemma {:induction false} SeesCall(v: Var, e: Expr, st0: State)
    requires e.Call?
    ensures Sees(v, st0, Eval(e, st0), (g, k) => MayE(e, v, v in st0.bound, g, k))
    decreases |st0.ch|, e, 1
  {
    var st := st0.Reach(e.id);
    SeesE(v, e.callee, st);
    GrowE(e.callee, st);
    var r := Eval(e.callee, st);
    if r.out == Normal {
      SeesAllThenRaise(v, e.args, r.st);
      SeesThen(v, st, r, Eval(e, st0), (g, k) => MayE(e.callee, v, v in st.bound, g, k),
               (g, k) => MayAllThenRaise(e.args, v, v in r.st.bound, g, k), (g, k) => MayE(e, v, v in st.bound, g, k));
    }
  }

  lemma {:induction false} SeesIndex(v: Var, e: Expr, st0: State)
    requires e.Index?
    ensures Sees(v, st0, Eval(e, st0), (g, k) => MayE(e, v, v in st0.bound, g, k))
    decreases |st0.ch|, e, 1
  {
    var st := st0.Reach(e.id);
    SeesE(v, e.base, st);
    GrowE(e.base, st);
    var r := Eval(e.base, st);
    if r.out == Normal {
      SeesThenRaise(v, e.index, r.st);
      GrowE(e.index, r.st);
      SeesThen(v, st, r, Eval(e, st0), (g, k) => MayE(e.base, v, v in st.bound, g, k),
               (g, k) => MayThenRaise(e.index, v, v in r.st.bound, g, k), (g, k) => MayE(e, v, v in st.bound, g, k));
    }
  }

  lemma {:induction false} SeesOp(v: Var, e: Expr, st0: State)
    requires e.Op?
    ensures Sees(v, st0, Eval(e, st0), (g, k) => MayE(e, v, v in st0.bound, g, k))
    decreases |st0.ch|, e, 1
  {
    var st := st0.Reach(e.id);
    SeesE(v, e.left, st);
    GrowE(e.left, st);
    var r := Eval(e.left, st);
    if r.out == Normal && r.st.ch != [] {
      SeesThenRaise(v, e.right, r.st.Choose());
      GrowE(e.right, r.st.Choose());
      SeesThen(v, st, r, Eval(e, st0), (g, k) => MayE(e.left, v, v in st.bound, g, k),
               (g, k) => MayThenRaise(e.right, v, v in r.st.bound, g, k) ||
                         (MaySkip(e) && OrRaises(g) && k == (v in r.st.bound)),
               (g, k) => MayE(e, v, v in st.bound, g, k));
    }
  }

  lemma {:induction false} SeesCond(v: Var, e: Expr, st0: State)
    requires e.Cond?
    ensures Sees(v, st0, Eval(e, st0), (g, k) => MayE(e, v, v in st0.bound, g, k))
    decreases |st0.ch|, e, 1
  {
    var st := st0.Reach(e.id);
    SeesE(v, e.cond, st);
    GrowE(e.cond, st);
    var r := Eval(e.cond, st);
    if r.out == Normal && r.st.ch != [] {
      var branch := if r.st.ch[0] != 0 then e.ifExpr else e.elseExpr;
      SeesE(v, branch, r.st.Choose());
      GrowE(branch, r.st.Choose());
      SeesThen(v, st, r, Eval(e, st0), (g, k) => MayE(e.cond, v, v in st.bound, g, k),
               (g, k) => MayE(branch, v, v in r.st.bound, g, k), (g, k) => MayE(e, v, v in st.bound, g, k));
    }
  }

  lemma {:induction false} SeesSome(v: Var, es: seq<Expr>, st: State)
    ensures Sees(v, st, EvalSome(es, st), (g, k) => MaySome(es, v, v in st.bound, g, k))
    decreases |st.ch|, es, 0
  {
    SomeHere(es, v, v in st.bound);
    if st.ch != [] && st.ch[0] >= 2 && es != [] {
      var j := (st.ch[0] - 2) % |es|;
      SeesE(v, es[j], st.Choose());
      GrowE(es[j], st.Choose());
      AnyHas(es, j, v);
      var r := Eval(es[j], st.Choose());
      if r.out == Normal {
        SeesSome(v, es, r.st);
        GrowSome(es, r.st);
        SomeOn(es, v, v in st.bound, v in r.st.bound);
        SeesThen(v, st, r, EvalSome(es, st), (g, k) => MayAny(es, v, v in st.bound, g, k),
                 (g, k) => MaySome(es, v, v in r.st.bound, g, k), (g, k) => MaySome(es, v, v in st.bound, g, k));
      }
    }
  }

  lemma {:induction false} SeesOps(v: Var, ops: Operands, st: State)
    ensures Sees(v, st, EvalOps(ops, st), (g, k) => MayOps(ops, v, v in st.bound, g, k))
    decreases |st.ch|, ops, 0
  {
    SeesAll(v, ops.always, st);
    GrowAll(ops.always, st);
    var r := EvalAll(ops.always, st);
    if r.out == Normal {
      SeesSome(v, ops.perhaps, r.st);
      GrowSome(ops.perhaps, r.st);
      SeesThen(v, st, r, EvalOps(ops, st), (g, k) => MayAll(ops.always, v, v in st.bound, g, k),
               (g, k) => MaySome(ops.perhaps, v, v in r.st.bound, g, k), (g, k) => MayOps(ops, v, v in st.bound, g, k));
    }
  }

  lemma {:induction false} AnyHas(es: seq<Expr>, j: nat, v: Var)
    requires j < |es|
    ensures forall h, g, k :: MayE(es[j], v, h, g, k) ==> MayAny(es, v, h, g, k)
  {
    if j > 0 { AnyHas(es[1..], j - 1, v); }
  }

  lemma SomeHere(es: seq<Expr>, v: Var, h: bool)
    ensures forall g, k :: Abrupt(g) && MayAny(es, v, h, g, k) ==> MaySome(es, v, h, g, k)
    ensures forall g :: OrRaises(g) ==> MaySome(es, v, h, g, h)
  {
    assert SomeHead(es, v, h, h);
  }

  // one step on
  lemma {:induction false} SomeOn(es: seq<Expr>, v: Var, h: bool, m: bool)
    requires MayAny(es, v, h, Ends(Normal), m)
    ensures forall g, k :: MaySome(es, v, m, g, k) ==> MaySome(es, v, h, g, k)
  {
  }

  lemma SeesO(v: Var, e: Option<Expr>, st: State)
    ensures Sees(v, st, EvalO(e, st), (g, k) => MayO(e, v, v in st.bound, g, k)) && st.log <= EvalO(e, st).st.log
  {
    if e.Some? { SeesE(v, e.value, st); GrowE(e.value, st); }
  }

  lemma {:induction false} SeesOpsBind(v: Var, ops: Operands, binds: set<Var>, st: State)
    ensures var r := EvalOps(ops, st);
      Sees(v, st, if r.out == Normal then Run(Normal, r.st.Bind(binds)) else r,
           (g, k) => MayOpsBind(ops, binds, v, v in st.bound, g, k)) &&
      st.log <= r.st.log
  {
    SeesOps(v, ops, st);
    GrowOps(ops, st);
  }

  lemma {:induction false} SeesStore(v: Var, lv: Lvalue, st: State)
    ensures Sees(v, st, Store(lv, st), (g, k) => MayStore(lv, v, v in st.bound, g, k))
    ensures st.log <= Store(lv, st).st.log
    decreases lv, 1
  {
    match lv
    case NameTarget(_) =>
    case TupleTarget(items) => if st.ch != [] { SeesStoreAll(v, items, st.Choose()); }
    case OtherTarget(ops, binds) => SeesOpsBind(v, ops, binds, st);
  }

  lemma {:induction false} SeesStoreAll(v: Var, lvs: seq<Lvalue>, st: State)
    ensures Sees(v, st, StoreAll(lvs, st), (g, k) => MayStoreAll(lvs, v, v in st.bound, g, k))
    ensures st.log <= StoreAll(lvs, st).st.log
    decreases lvs, 0
  {
    if lvs != [] {
      SeesStore(v, lvs[0], st);
      var r := Store(lvs[0], st);
      if r.out == Normal {
        SeesStoreAll(v, lvs[1..], r.st);
        SeesThen(v, st, r, StoreAll(lvs, st), (g, k) => MayStore(lvs[0], v, v in st.bound, g, k),
                 (g, k) => MayStoreAll(lvs[1..], v, v in r.st.bound, g, k), (g, k) => MayStoreAll(lvs, v, v in st.bound, g, k));
      }
    }
  }

  lemma {:induction false} SeesS(v: Var, s: Stmt, st0: State)
    ensures Sees(v, st0, Exec(s, st0), (g, k) => MayS(s, v, v in st0.bound, g, k)) && st0.log <= Exec(s, st0).st.log
    decreases |st0.ch|, s, 6
  {
    if s.If? || s.While? || s.For? {
      SeesFlow(v, s, st0);
    } else if s.Try? || s.With? || s.Match? {
      SeesGuarded(v, s, st0);
    } else {
      SeesSimple(v, s, st0);
    }
  }

  lemma {:induction false} SeesFlow(v: Var, s: Stmt, st0: State)
    requires s.If? || s.While? || s.For?
    ensures Sees(v, st0, Exec(s, st0), (g, k) => MayS(s, v, v in st0.bound, g, k)) && st0.log <= Exec(s, st0).st.log
    decreases |st0.ch|, s, 5
  {
    var st := st0.Reach(s.id);
    var may := (g, k) => MayS(s, v, v in st0.bound, g, k);
    match s
    case If(_, _, _, _) =>
      SeesIf(v, s, st);
      SeesFrom(v, st0, s.id, IfRun(s, st), (g, k) => MayIf(s, v, v in st.bound, g, k), may);
    case While(_, _, _, _) =>
      SeesRepeat(v, s, st);
      SeesFrom(v, st0, s.id, Repeat(s, st), (g, k) => MayRepeat(s, v, v in st.bound, g, k), may);
    case For(_, _, _, _, _) =>
      SeesFor(v, s, st);
      SeesFrom(v, st0, s.id, ForRun(s, st), (g, k) => MayFor(s, v, v in st.bound, g, k), may);
  }

  lemma {:induction false} SeesGuarded(v: Var, s: Stmt, st0: State)
    requires s.Try? || s.With? || s.Match?
    ensures Sees(v, st0, Exec(s, st0), (g, k) => MayS(s, v, v in st0.bound, g, k)) && st0.log <= Exec(s, st0).st.log
    decreases |st0.ch|, s, 5
  {
    var st := st0.Reach(s.id);
    var may := (g, k) => MayS(s, v, v in st0.bound, g, k);
    match s
    case Try(_, _, _, _, _) =>
      SeesTry(v, s, st);
      TryRunIs(s, st0);
      SeesFrom(v, st0, s.id, TryRun(s, st), (g, k) => MayTry(s, v, v in st.bound, g, k), may);
    case With(_, _, _, _) =>
      SeesWith(v, s, st);
      WithRunIs(s, st0);
      SeesFrom(v, st0, s.id, WithRun(s, st), (g, k) => MayWith(s, v, v in st.bound, g, k), may);
    case Match(_, _, _) =>
      SeesMatch(v, s, st);
      SeesFrom(v, st0, s.id, MatchRun(s, st), (g, k) => MayMatch(s, v, v in st.bound, g, k), may);
  }

  function ForRun(s: Stmt, st: State): Run
    requires s.For?
  {
    var r := Eval(s.iter, st);
    if r.out != Normal then r else Iterate(s, r.st)
  }

  lemma {:induction false} SeesFor(v: Var, s: Stmt, st: State)
    requires s.For?
    ensures Sees(v, st, ForRun(s, st), (g, k) => MayFor(s, v, v in st.bound, g, k)) && st.log <= ForRun(s, st).st.log
    decreases |st.ch|, s, 4
  {
    SeesE(v, s.iter, st);
    GrowE(s.iter, st);
    var r := Eval(s.iter, st);
    if r.out == Normal {
      SeesIterate(v, s, r.st);
      SeesThen(v, st, r, ForRun(s, st), (g, k) => MayE(s.iter, v, v in st.bound, g, k),
               (g, k) => MayIterate(s, v, v in r.st.bound, g, k), (g, k) => MayFor(s, v, v in st.bound, g, k));
    }
  }

  function MatchRun(s: Stmt, st: State): Run
    requires s.Match?
  {
    var r := Eval(s.subject, st);
    if r.out != Normal then r else Select(s.cases, r.st)
  }

  lemma {:induction false} SeesMatch(v: Var, s: Stmt, st: State)
    requires s.Match?
    ensures Sees(v, st, MatchRun(s, st), (g, k) => MayMatch(s, v, v in st.bound, g, k))
    ensures st.log <= MatchRun(s, st).st.log
    decreases |st.ch|, s, 4
  {
    SeesE(v, s.subject, st);
    GrowE(s.subject, st);
    var r := Eval(s.subject, st);
    if r.out == Normal {
      SeesSelect(v, s.cases, r.st);
      SeesThen(v, st, r, MatchRun(s, st), (g, k) => MayE(s.subject, v, v in st.bound, g, k),
               (g, k) => MaySelect(s.cases, v, v in r.st.bound, g, k), (g, k) => MayMatch(s, v, v in st.bound, g, k));
    }
  }

  lemma {:induction false} SeesAssign(v: Var, s: Stmt, st0: State)
    requires s.Assign?
    ensures Sees(v, st0, Exec(s, st0), (g, k) => MayS(s, v, v in st0.bound, g, k)) && st0.log <= Exec(s, st0).st.log
  {
    if s.rvalue.Some? {
      var st, e := st0.Reach(s.id), s.rvalue.value;
      SeesE(v, e, st);
      GrowE(e, st);
      var r := Eval(e, st);
      if r.out == Normal {
        SeesStoreAll(v, s.lvalues, r.st);
        SeesThen(v, st, r, Exec(s, st0), (g, k) => MayE(e, v, v in st.bound, g, k),
                 (g, k) => MayStoreAll(s.lvalues, v, v in r.st.bound, g, k), (g, k) => MayS(s, v, v in st.bound, g, k));
      }
    }
  }

  lemma {:induction false} SeesLeaving(v: Var, s: Stmt, st0: State)
    requires s.Return? || s.Raise?
    ensures Sees(v, st0, Exec(s, st0), (g, k) => MayS(s, v, v in st0.bound, g, k)) && st0.log <= Exec(s, st0).st.log
  {
    SeesO(v, if s.Return? then s.result else s.exception, st0.Reach(s.id));
  }

  lemma {:induction false} SeesSimple(v: Var, s: Stmt, st0: State)
    requires !s.If? && !s.While? && !s.For? && !s.Try? && !s.With? && !s.Match?
    ensures Sees(v, st0, Exec(s, st0), (g, k) => MayS(s, v, v in st0.bound, g, k)) && st0.log <= Exec(s, st0).st.log
  {
    var st := st0.Reach(s.id);
    match s
    case Simple(_, ops, binds) => SeesOpsBind(v, ops, binds, st);
    case Class(_, ops, name) => SeesOpsBind(v, ops, {name}, st);
    case ExprStmt(_, e) => SeesE(v, e, st); GrowE(e, st);
    case Assign(_, _, _) => SeesAssign(v, s, st0);
    case Return(_, _) => SeesLeaving(v, s, st0);
    case Raise(_, _) => SeesLeaving(v, s, st0);
    case _ =>
  }

  lemma {:induction false} SeesB(v: Var, b: seq<Stmt>, st: State)
    ensures Sees(v, st, ExecBlock(b, st), (g, k) => MayB(b, v, v in st.bound, g, k)) && st.log <= ExecBlock(b, st).st.log
    decreases |st.ch|, b, 0
  {
    if b != [] {
      SeesS(v, b[0], st);
      var r := Exec(b[0], st);
      if r.out == Normal {
        SeesB(v, b[1..], r.st);
        SeesThen(v, st, r, ExecBlock(b, st), (g, k) => MayS(b[0], v, v in st.bound, g, k),
                 (g, k) => MayB(b[1..], v, v in r.st.bound, g, k), (g, k) => MayB(b, v, v in st.bound, g, k));
      }
    }
  }

  function IfRun(s: Stmt, st: State): Run
    requires s.If?
  {
    var r := Eval(s.test, st);
    if r.out != Normal then r
    else if r.st.ch == [] then Run(Cut, r.st)
    else ExecBlock(if r.st.ch[0] != 0 then s.body else s.orelse, r.st.Choose())
  }

  lemma {:induction false} SeesIf(v: Var, s: Stmt, st: State)
    requires s.If?
    ensures Sees(v, st, IfRun(s, st), (g, k) => MayIf(s, v, v in st.bound, g, k)) && st.log <= IfRun(s, st).st.log
    decreases |st.ch|, s, 2
  {
    SeesE(v, s.test, st);
    GrowE(s.test, st);
    var r := Eval(s.test, st);
    if r.out == Normal && r.st.ch != [] {
      var branch := if r.st.ch[0] != 0 then s.body else s.orelse;
      SeesB(v, branch, r.st.Choose());
      SeesThen(v, st, r, IfRun(s, st), (g, k) => MayE(s.test, v, v in st.bound, g, k),
               (g, k) => MayB(branch, v, v in r.st.bound, g, k), (g, k) => MayIf(s, v, v in st.bound, g, k));
    }
  }

  lemma {:induction false} SeesRepeat(v: Var, s: Stmt, st: State)
    requires s.While?
    ensures Sees(v, st, Repeat(s, st), (g, k) => MayRepeat(s, v, v in st.bound, g, k)) && st.log <= Repeat(s, st).st.log
    decreases |st.ch|, s, 2
  {
    SeesE(v, s.test, st);
    GrowE(s.test, st);
    RepeatHere(s, v, v in st.bound);
    var r := Eval(s.test, st);
    if r.out == Normal && r.st.ch != [] {
      var st1 := r.st.Choose();
      if r.st.ch[0] == 0 {
        SeesB(v, s.orelse, st1);
        SeesThen(v, st, r, Repeat(s, st), (g, k) => MayE(s.test, v, v in st.bound, g, k),
                 (g, k) => MayB(s.orelse, v, v in r.st.bound, g, k), (g, k) => MayRepeat(s, v, v in st.bound, g, k));
      } else {
        SeesTurn(v, s, st, r);
      }
    }
  }

  lemma {:induction false} SeesTurn(v: Var, s: Stmt, st: State, r: Run)
    requires s.While? && r == Eval(s.test, st) && r.out == Normal && r.st.ch != [] && r.st.ch[0] != 0
    ensures Sees(v, st, Repeat(s, st), (g, k) => MayRepeat(s, v, v in st.bound, g, k)) && st.log <= Repeat(s, st).st.log
    decreases |st.ch|, s, 1
  {
    SeesE(v, s.test, st);
    GrowE(s.test, st);
    SeesB(v, s.body, r.st.Choose());
    var rb := ExecBlock(s.body, r.st.Choose());
    if rb.out == Normal || rb.out == Continued {
      SeesRepeat(v, s, rb.st);
      TurnsAgain(v, s, st, r, rb, Repeat(s, st));
    } else {
      TurnLeaves(v, s, st, r, rb, Repeat(s, st));
    }
  }

  // a turn, the test having come out as r and the body as rb; all comes to end
  lemma {:induction false} TurnsAgain(v: Var, s: Stmt, st: State, r: Run, rb: Run, end: Run)
    requires s.While? && r.out == Normal && (rb.out == Normal || rb.out == Continued)
    requires st.log <= r.st.log <= rb.st.log <= end.st.log
    requires Sees(v, st, r, (g, k) => MayE(s.test, v, v in st.bound, g, k))
    requires Sees(v, r.st, rb, (g, k) => MayB(s.body, v, v in r.st.bound, g, k))
    requires Sees(v, rb.st, end, (g, k) => MayRepeat(s, v, v in rb.st.bound, g, k))
    ensures Sees(v, st, end, (g, k) => MayRepeat(s, v, v in st.bound, g, k))
  {
    TurnVisits(v, s, st, r, rb);
    RepeatOn(s, v, v in st.bound, v in r.st.bound, v in rb.st.bound);
    SeesThen(v, st, rb, end, (g: Goal, k) => g.Visits? ==> MayRepeat(s, v, v in st.bound, g, k),
             (g, k) => MayRepeat(s, v, v in rb.st.bound, g, k), (g, k) => MayRepeat(s, v, v in st.bound, g, k));
  }

  lemma {:induction false} TurnLeaves(v: Var, s: Stmt, st: State, r: Run, rb: Run, end: Run)
    requires s.While? && r.out == Normal && rb.out != Normal && rb.out != Continued
    requires end == if rb.out == Broke then Run(Normal, rb.st) else rb
    requires st.log <= r.st.log <= rb.st.log
    requires Sees(v, st, r, (g, k) => MayE(s.test, v, v in st.bound, g, k))
    requires Sees(v, r.st, rb, (g, k) => MayB(s.body, v, v in r.st.bound, g, k))
    ensures Sees(v, st, end, (g, k) => MayRepeat(s, v, v in st.bound, g, k))
  {
    RepeatHere(s, v, v in st.bound);
    SeesThen(v, st, r, end, (g, k) => MayE(s.test, v, v in st.bound, g, k),
             (g, k) => MayLeave(s.body, v, v in r.st.bound, g, k), (g, k) => MayRepeat(s, v, v in st.bound, g, k));
  }

  // what is reached in a turn, the test having come out as r and the body as rb
  lemma {:induction false} TurnVisits(v: Var, s: Stmt, st: State, r: Run, rb: Run)
    requires s.While? && r.out == Normal && st.log <= r.st.log <= rb.st.log
    requires Sees(v, st, r, (g, k) => MayE(s.test, v, v in st.bound, g, k))
    requires Sees(v, r.st, rb, (g, k) => MayB(s.body, v, v in r.st.bound, g, k))
    ensures Sees(v, st, rb, (g: Goal, k) => g.Visits? ==> MayRepeat(s, v, v in st.bound, g, k))
  {
    RepeatHere(s, v, v in st.bound);
    SeesThen(v, st, r, rb, (g, k) => MayE(s.test, v, v in st.bound, g, k), (g, k) => MayB(s.body, v, v in r.st.bound, g, k),
             (g: Goal, k) => g.Visits? ==> MayRepeat(s, v, v in st.bound, g, k));
  }

  lemma RepeatHere(s: Stmt, v: Var, h: bool)
    requires s.While?
    ensures forall g, k :: MayRepeatOnce(s, v, h, g, k) ==> MayRepeat(s, v, h, g, k)
    ensures forall t, m, k :: MayE(s.test, v, h, Ends(Normal), m) && MayB(s.body, v, m, Visits(t), k) ==>
              MayRepeat(s, v, h, Visits(t), k)
  {
    assert RepeatHead(s, v, h, h);
    forall t, m, k | MayE(s.test, v, h, Ends(Normal), m) && MayB(s.body, v, m, Visits(t), k)
      ensures MayRepeat(s, v, h, Visits(t), k)
    {
      assert MayLeave(s.body, v, m, Visits(t), k);
      assert MayRepeatOnce(s, v, h, Visits(t), k);
    }
  }

  lemma {:induction false} RepeatOn(s: Stmt, v: Var, h: bool, m: bool, n: bool)
    requires s.While? && MayE(s.test, v, h, Ends(Normal), m) && MayTurn(s.body, v, m, n)
    ensures forall g, k :: MayRepeat(s, v, n, g, k) ==> MayRepeat(s, v, h, g, k)
  {
    assert RepeatHead(s, v, h, n) && RepeatHead(s, v, h, h);
  }

  lemma {:induction false} SeesIterate(v: Var, s: Stmt, st: State)
    requires s.For?
    ensures Sees(v, st, Iterate(s, st), (g, k) => MayIterate(s, v, v in st.bound, g, k)) && st.log <= Iterate(s, st).st.log
    decreases |st.ch|, s, 2
  {
    IterateHere(s, v, v in st.bound);
    if st.ch != [] && st.ch[0] == 0 {
      SeesB(v, s.orelse, st.Choose());
    } else if st.ch != [] && st.ch[0] > 1 {
      SeesIterateTurn(v, s, st);
    }
  }

  lemma {:induction false} SeesIterateTurn(v: Var, s: Stmt, st: State)
    requires s.For? && st.ch != [] && st.ch[0] > 1
    ensures Sees(v, st, Iterate(s, st), (g, k) => MayIterate(s, v, v in st.bound, g, k)) && st.log <= Iterate(s, st).st.log
    decreases |st.ch|, s, 1
  {
    SeesStore(v, s.index, st.Choose());
    var r := Store(s.index, st.Choose());
    if r.out == Normal {
      SeesB(v, s.body, r.st);
      var rb := ExecBlock(s.body, r.st);
      if rb.out == Normal || rb.out == Continued {
        SeesIterate(v, s, rb.st);
        IteratesAgain(v, s, st, r, rb, Iterate(s, st));
      } else {
        IterateLeaves(v, s, st, r, rb, Iterate(s, st));
      }
    } else {
      IterateHere(s, v, v in st.bound);
    }
  }

  // one item, storing it having come out as r and the body as rb; all comes to end
  lemma {:induction false} IteratesAgain(v: Var, s: Stmt, st: State, r: Run, rb: Run, end: Run)
    requires s.For? && r.out == Normal && (rb.out == Normal || rb.out == Continued)
    requires st.log <= r.st.log <= rb.st.log <= end.st.log
    requires Sees(v, st, r, (g, k) => MayStore(s.index, v, v in st.bound, g, k))
    requires Sees(v, r.st, rb, (g, k) => MayB(s.body, v, v in r.st.bound, g, k))
    requires Sees(v, rb.st, end, (g, k) => MayIterate(s, v, v in rb.st.bound, g, k))
    ensures Sees(v, st, end, (g, k) => MayIterate(s, v, v in st.bound, g, k))
  {
    ItemVisits(v, s, st, r, rb);
    IterateOn(s, v, v in st.bound, v in r.st.bound, v in rb.st.bound);
    SeesThen(v, st, rb, end, (g: Goal, k) => g.Visits? ==> MayIterate(s, v, v in st.bound, g, k),
             (g, k) => MayIterate(s, v, v in rb.st.bound, g, k), (g, k) => MayIterate(s, v, v in st.bound, g, k));
  }

  lemma {:induction false} IterateLeaves(v: Var, s: Stmt, st: State, r: Run, rb: Run, end: Run)
    requires s.For? && r.out == Normal && rb.out != Normal && rb.out != Continued
    requires end == if rb.out == Broke then Run(Normal, rb.st) else rb
    requires st.log <= r.st.log <= rb.st.log
    requires Sees(v, st, r, (g, k) => MayStore(s.index, v, v in st.bound, g, k))
    requires Sees(v, r.st, rb, (g, k) => MayB(s.body, v, v in r.st.bound, g, k))
    ensures Sees(v, st, end, (g, k) => MayIterate(s, v, v in st.bound, g, k))
  {
    IterateHere(s, v, v in st.bound);
    SeesThen(v, st, r, end, (g, k) => MayStore(s.index, v, v in st.bound, g, k),
             (g, k) => MayLeave(s.body, v, v in r.st.bound, g, k), (g, k) => MayIterate(s, v, v in st.bound, g, k));
  }

  // what is reached for an item, storing it having come out as r and the body as rb
  lemma {:induction false} ItemVisits(v: Var, s: Stmt, st: State, r: Run, rb: Run)
    requires s.For? && r.out == Normal && st.log <= r.st.log <= rb.st.log
    requires Sees(v, st, r, (g, k) => MayStore(s.index, v, v in st.bound, g, k))
    requires Sees(v, r.st, rb, (g, k) => MayB(s.body, v, v in r.st.bound, g, k))
    ensures Sees(v, st, rb, (g: Goal, k) => g.Visits? ==> MayIterate(s, v, v in st.bound, g, k))
  {
    IterateHere(s, v, v in st.bound);
    SeesThen(v, st, r, rb, (g, k) => MayStore(s.index, v, v in st.bound, g, k), (g, k) => MayB(s.body, v, v in r.st.bound, g, k),
             (g: Goal, k) => g.Visits? ==> MayIterate(s, v, v in st.bound, g, k));
  }

  lemma IterateHere(s: Stmt, v: Var, h: bool)
    requires s.For?
    ensures forall g, k :: MayIterateOnce(s, v, h, g, k) ==> MayIterate(s, v, h, g, k)
    ensures forall t, m, k :: MayStore(s.index, v, h, Ends(Normal), m) && MayB(s.body, v, m, Visits(t), k) ==>
              MayIterate(s, v, h, Visits(t), k)
  {
    assert IterateHead(s, v, h, h);
    forall t, m, k | MayStore(s.index, v, h, Ends(Normal), m) && MayB(s.body, v, m, Visits(t), k)
      ensures MayIterate(s, v, h, Visits(t), k)
    {
      assert MayLeave(s.body, v, m, Visits(t), k);
      assert MayIterateOnce(s, v, h, Visits(t), k);
    }
  }

  lemma {:induction false} IterateOn(s: Stmt, v: Var, h: bool, m: bool, n: bool)
    requires s.For? && MayStore(s.index, v, h, Ends(Normal), m) && MayTurn(s.body, v, m, n)
    ensures forall g, k :: MayIterate(s, v, n, g, k) ==> MayIterate(s, v, h, g, k)
  {
    assert IterateHead(s, v, h, n) && IterateHead(s, v, h, h);
  }

  // what a try statement has come to before its finally block
  function Protect(s: Stmt, st: State): (r: Run)
    requires s.Try?
    ensures |r.st.ch| <= |st.ch|
  {
    var rb := ExecBlock(s.body, st);
    if rb.out == Raised then Handle(s.handlers, rb.st)
    else if rb.out == Normal then ExecBlock(s.orelse, rb.st)
    else rb
  }

  lemma {:induction false} SeesProtect(v: Var, s: Stmt, st: State)
    requires s.Try?
    ensures Sees(v, st, Protect(s, st), (g, k) => MayProtect(s, v, v in st.bound, g, k)) && st.log <= Protect(s, st).st.log
    decreases |st.ch|, s, 1
  {
    SeesB(v, s.body, st);
    var rb := ExecBlock(s.body, st);
    if rb.out == Raised {
      SeesHandle(v, s.handlers, rb.st);
      SeesThen(v, st, rb, Protect(s, st), (g, k) => MayB(s.body, v, v in st.bound, g, k),
               (g, k) => MayHandle(s.handlers, v, v in rb.st.bound, g, k), (g, k) => MayProtect(s, v, v in st.bound, g, k));
    } else if rb.out == Normal {
      SeesB(v, s.orelse, rb.st);
      SeesThen(v, st, rb, Protect(s, st), (g, k) => MayB(s.body, v, v in st.bound, g, k),
               (g, k) => MayB(s.orelse, v, v in rb.st.bound, g, k), (g, k) => MayProtect(s, v, v in st.bound, g, k));
    }
  }

  // a finally block run where rm ended
  function Finish(b: seq<Stmt>, rm: Run): Run {
    if rm.out == Cut then rm else
    var rf := ExecBlock(b, rm.st);
    if rf.out == Normal then Run(rm.out, rf.st) else rf
  }

  function TryRun(s: Stmt, st: State): Run
    requires s.Try?
  {
    Finish(s.final, Protect(s, st))
  }

  lemma {:induction false} TryRunIs(s: Stmt, st: State)
    requires s.Try?
    ensures Exec(s, st) == TryRun(s, st.Reach(s.id))
  {
    var rb := ExecBlock(s.body, st.Reach(s.id));
    assert Protect(s, st.Reach(s.id)) ==
      if rb.out == Raised then Handle(s.handlers, rb.st) else if rb.out == Normal then ExecBlock(s.orelse, rb.st) else rb;
  }

  lemma {:induction false} SeesTry(v: Var, s: Stmt, st: State)
    requires s.Try?
    ensures Sees(v, st, TryRun(s, st), (g, k) => MayTry(s, v, v in st.bound, g, k)) && st.log <= TryRun(s, st).st.log
    decreases |st.ch|, s, 2
  {
    SeesProtect(v, s, st);
    var rm := Protect(s, st);
    if rm.out != Cut {
      SeesFinish(v, s.final, rm);
      SeesThen(v, st, rm, TryRun(s, st), (g, k) => MayProtect(s, v, v in st.bound, g, k),
               (g, k) => MayFinish(s.final, rm.out, v, v in rm.st.bound, g, k), (g, k) => MayTry(s, v, v in st.bound, g, k));
    }
  }

  // the finally block completes and o stands, or it ends otherwise itself
  predicate MayFinish(b: seq<Stmt>, o: Outcome, v: Var, h: bool, g: Goal, k: bool) {
    (g == Ends(o) && MayB(b, v, h, Ends(Normal), k)) || (Abrupt(g) && MayB(b, v, h, g, k))
  }

  lemma {:induction false} SeesFinish(v: Var, b: seq<Stmt>, rm: Run)
    requires rm.out != Cut
    ensures Sees(v, rm.st, Finish(b, rm), (g, k) => MayFinish(b, rm.out, v, v in rm.st.bound, g, k))
    ensures rm.st.log <= Finish(b, rm).st.log
    decreases |rm.st.ch|, b, 1
  {
    SeesB(v, b, rm.st);
  }

  lemma {:induction false} SeesHandle(v: Var, hs: seq<Handler>, st: State)
    ensures Sees(v, st, Handle(hs, st), (g, k) => MayHandle(hs, v, v in st.bound, g, k)) && st.log <= Handle(hs, st).st.log
    decreases |st.ch|, hs, 1
  {
    if hs != [] {
      SeesOps(v, hs[0].types, st);
      GrowOps(hs[0].types, st);
      var r := EvalOps(hs[0].types, st);
      if r.out == Normal && r.st.ch != [] {
        if r.st.ch[0] == 0 {
          SeesHandle(v, hs[1..], r.st.Choose());
        } else {
          SeesCatch(v, hs[0], r.st.Choose());
        }
        HandlesOn(v, hs, st, r, Handle(hs, st), r.st.ch[0] == 0);
      }
    }
  }

  // the types of the first handler having come out as r, it is passed over or not
  lemma {:induction false} HandlesOn(v: Var, hs: seq<Handler>, st: State, r: Run, end: Run, passes: bool)
    requires hs != [] && r.out == Normal && st.log <= r.st.log <= end.st.log
    requires Sees(v, st, r, (g, k) => MayOps(hs[0].types, v, v in st.bound, g, k))
    requires passes ==> Sees(v, r.st, end, (g, k) => MayHandle(hs[1..], v, v in r.st.bound, g, k))
    requires !passes ==> Sees(v, r.st, end, (g, k) => MayCatch(hs[0], v, v in r.st.bound, g, k))
    ensures Sees(v, st, end, (g, k) => MayHandle(hs, v, v in st.bound, g, k))
  {
    SeesThen(v, st, r, end, (g, k) => MayOps(hs[0].types, v, v in st.bound, g, k),
             (g, k) => if passes then MayHandle(hs[1..], v, v in r.st.bound, g, k) else MayCatch(hs[0], v, v in r.st.bound, g, k),
             (g, k) => MayHandle(hs, v, v in st.bound, g, k));
  }

  // the handler that matches
  function Catch(hd: Handler, st: State): Run {
    if hd.name.None? then ExecBlock(hd.body, st)
    else
      var rb := ExecBlock(hd.body, st.Bind({hd.name.value}));
      Run(rb.out, rb.st.Unbind({hd.name.value}))
  }

  lemma {:induction false} SeesCatch(v: Var, hd: Handler, st: State)
    ensures Sees(v, st, Catch(hd, st), (g, k) => MayCatch(hd, v, v in st.bound, g, k)) && st.log <= Catch(hd, st).st.log
    decreases |st.ch|, hd, 0
  {
    SeesB(v, hd.body, if hd.name.None? then st else st.Bind({hd.name.value}));
  }

  // the body of a with statement, and what its managers make of how it ended
  function Exit(b: seq<Stmt>, swallows: bool, st: State): Run {
    var rb := ExecBlock(b, st);
    if rb.out == Cut then rb
    else if rb.st.ch == [] then Run(Cut, rb.st)
    else if rb.st.ch[0] == 0 then Run(rb.out, rb.st.Choose())
    else if swallows && rb.out == Raised && rb.st.ch[0] == 1 then Run(Normal, rb.st.Choose())
    else Run(Raised, rb.st.Choose())
  }

  lemma {:induction false} SeesExit(v: Var, b: seq<Stmt>, swallows: bool, st: State)
    ensures Sees(v, st, Exit(b, swallows, st), (g, k) => MayExit(b, swallows, v, v in st.bound, g, k))
    ensures st.log <= Exit(b, swallows, st).st.log
    decreases |st.ch|, b, 1
  {
    SeesB(v, b, st);
  }

  function WithRun(s: Stmt, st: State): Run
    requires s.With?
  {
    var re := Enter(s.items, st);
    if re.out != Normal then re else Exit(s.body, s.swallows, re.st)
  }

  lemma {:induction false} WithRunIs(s: Stmt, st: State)
    requires s.With?
    ensures Exec(s, st) == WithRun(s, st.Reach(s.id))
  {
  }

  lemma {:induction false} SeesWith(v: Var, s: Stmt, st: State)
    requires s.With?
    ensures Sees(v, st, WithRun(s, st), (g, k) => MayWith(s, v, v in st.bound, g, k)) && st.log <= WithRun(s, st).st.log
    decreases |st.ch|, s, 2
  {
    SeesEnter(v, s.items, st);
    var re := Enter(s.items, st);
    if re.out == Normal {
      SeesExit(v, s.body, s.swallows, re.st);
      SeesThen(v, st, re, WithRun(s, st), (g, k) => MayEnter(s.items, v, v in st.bound, g, k),
               (g, k) => MayExit(s.body, s.swallows, v, v in re.st.bound, g, k), (g, k) => MayWith(s, v, v in st.bound, g, k));
    }
  }

  lemma {:induction false} SeesEnter(v: Var, ws: seq<WithItem>, st: State)
    ensures Sees(v, st, Enter(ws, st), (g, k) => MayEnter(ws, v, v in st.bound, g, k)) && st.log <= Enter(ws, st).st.log
    decreases |st.ch|, ws, 0
  {
    if ws != [] {
      SeesE(v, ws[0].context, st);
      GrowE(ws[0].context, st);
      var r := Eval(ws[0].context, st);
      if r.out == Normal {
        SeesEnterOne(v, ws, r.st);
        SeesThen(v, st, r, Enter(ws, st), (g, k) => MayE(ws[0].context, v, v in st.bound, g, k),
                 (g, k) => MayEnterOne(ws, v, v in r.st.bound, g, k), (g, k) => MayEnter(ws, v, v in st.bound, g, k));
      }
    }
  }

  // the first manager's value is stored, and the rest entered
  function EnterOne(ws: seq<WithItem>, st: State): Run
    requires ws != []
  {
    var rs := if ws[0].target.Some? then Store(ws[0].target.value, st) else Run(Normal, st);
    if rs.out != Normal then rs else Enter(ws[1..], rs.st)
  }

  lemma {:induction false} SeesEnterOne(v: Var, ws: seq<WithItem>, st: State)
    requires ws != []
    ensures Sees(v, st, EnterOne(ws, st), (g, k) => MayEnterOne(ws, v, v in st.bound, g, k))
    ensures st.log <= EnterOne(ws, st).st.log
    decreases |st.ch|, ws[1..], 1
  {
    if ws[0].target.None? {
      SeesEnter(v, ws[1..], st);
    } else {
      SeesStore(v, ws[0].target.value, st);
      var rs := Store(ws[0].target.value, st);
      if rs.out == Normal {
        SeesEnter(v, ws[1..], rs.st);
        SeesThen(v, st, rs, EnterOne(ws, st), (g, k) => MayStore(ws[0].target.value, v, v in st.bound, g, k),
                 (g, k) => MayEnter(ws[1..], v, v in rs.st.bound, g, k), (g, k) => MayEnterOne(ws, v, v in st.bound, g, k));
      }
    }
  }

  lemma {:induction false} SeesSelect(v: Var, cs: seq<Case>, st: State)
    ensures Sees(v, st, Select(cs, st), (g, k) => MaySelect(cs, v, v in st.bound, g, k)) && st.log <= Select(cs, st).st.log
    decreases |st.ch|, cs, 1
  {
    if cs != [] && st.ch != [] {
      if st.ch[0] == 0 {
        SeesSelect(v, cs[1..], st.Choose());
      } else if st.ch[0] == 1 {
        SeesSelect(v, cs[1..], st.Choose().Bind(cs[0].captures));
      } else if st.ch[0] > 2 {
        SeesCase(v, cs, st.Choose().Bind(cs[0].captures));
      }
    }
  }

  // a case whose pattern matches
  function TryCase(cs: seq<Case>, st: State): Run
    requires cs != []
  {
    var r := EvalO(cs[0].guard, st);
    if r.out != Normal then r
    else if cs[0].guard.Some? && r.st.ch == [] then Run(Cut, r.st)
    else if cs[0].guard.Some? && r.st.ch[0] == 0 then Select(cs[1..], r.st.Choose())
    else ExecBlock(cs[0].body, if cs[0].guard.Some? then r.st.Choose() else r.st)
  }

  lemma {:induction false} SeesCase(v: Var, cs: seq<Case>, st: State)
    requires cs != []
    ensures Sees(v, st, TryCase(cs, st), (g, k) => MayCase(cs, v, v in st.bound, g, k)) && st.log <= TryCase(cs, st).st.log
    decreases |st.ch|, cs, 0
  {
    if cs[0].guard.None? {
      SeesB(v, cs[0].body, st);
    } else {
      SeesE(v, cs[0].guard.value, st);
      GrowE(cs[0].guard.value, st);
      var r := Eval(cs[0].guard.value, st);
      if r.out == Normal && r.st.ch != [] {
        if r.st.ch[0] == 0 { SeesSelect(v, cs[1..], r.st.Choose()); } else { SeesB(v, cs[0].body, r.st.Choose()); }
        SeesThen(v, st, r, TryCase(cs, st), (g, k) => MayE(cs[0].guard.value, v, v in st.bound, g, k),
                 (g, k) => MaySelect(cs[1..], v, v in r.st.bound, g, k) || MayB(cs[0].body, v, v in r.st.bound, g, k),
                 (g, k) => MayCase(cs, v, v in st.bound, g, k));
      }
    }
  }
}
