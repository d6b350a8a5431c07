/** Exactly when what the analysis reports is right, for every expression, every
    statement and every target, constructs it treats loosely included. */
module ExactReports {
  import opened PyAst
  import opened PyRun
  import opened DefiniteAssignment
  import opened DefiniteAssignmentProofs
  import opened PyReach
  import opened PyWitness
  import opened Wrappers

  // ---- module PyReach finds just what runs do

  /** A block may end so just when some run of it does. */
  lemma {:induction false} EndsExactly(b: seq<Stmt>, v: Var, h: bool, o: Outcome, k: bool)
    requires o != Cut
    ensures MayB(b, v, h, Ends(o), k) <==> exists st :: EndsSo(b, v, h, o, k, st)
  {
    if MayB(b, v, h, Ends(o), k) {
      var ch := DriveB(b, v, h, Ends(o), k);
      var st := From(if h then {v} else {}, ch);
      assert Hits(BlockF(b)(st), st, v, Ends(o), k, []);
      assert EndsSo(b, v, h, o, k, st);
    }
    forall st | EndsSo(b, v, h, o, k, st) ensures MayB(b, v, h, Ends(o), k) { SeesB(v, b, st); }
  }

  predicate EndsSo(b: seq<Stmt>, v: Var, h: bool, o: Outcome, k: bool, st: State) {
    (v in st.bound) == h && ExecBlock(b, st).out == o && (v in ExecBlock(b, st).st.bound) == k
  }

  // the state in which ch is to drive a run
  function From(bound: set<Var>, ch: seq<nat>): (st: State)
    ensures st.ch == ch + []
  {
    State(bound, [], ch)
  }

  // some run of b that starts with bound assigned reaches t while v is not
  ghost predicate ReachedWithout(b: seq<Stmt>, t: Id, v: Var, bound: set<Var>) {
    exists ch: seq<nat>, i: nat :: ReachedAt(b, t, v, bound, ch, i)
  }

  ghost predicate ReachedAt(b: seq<Stmt>, t: Id, v: Var, bound: set<Var>, ch: seq<nat>, i: nat) {
    var log := ExecBlock(b, State(bound, [], ch)).st.log;
    i < |log| && log[i].node == t && v !in log[i].bound
  }

  /** Control may reach a node without v just when some run does. */
  lemma {:induction false} VisitsExactly(b: seq<Stmt>, t: Id, v: Var, bound: set<Var>)
    ensures MayB(b, v, v in bound, Visits(t), false) <==> ReachedWithout(b, t, v, bound)
  {
    if MayB(b, v, v in bound, Visits(t), false) {
      var ch := DriveB(b, v, v in bound, Visits(t), false);
      var st := From(bound, ch);
      assert Hits(BlockF(b)(st), st, v, Visits(t), false, []);
      var i :| 0 <= i < |ExecBlock(b, st).st.log| && ExecBlock(b, st).st.log[i].node == t &&
               v !in ExecBlock(b, st).st.log[i].bound;
      assert ReachedAt(b, t, v, bound, ch, i);
    }
    if ReachedWithout(b, t, v, bound) {
      var ch: seq<nat>, i: nat :| ReachedAt(b, t, v, bound, ch, i);
      SeesB(v, b, State(bound, [], ch));
    }
  }

  /** The report at a target, parameters included, is right on every run that
      arrives there just when none of its names may be missing there. */
  lemma {:induction false} TargetReportHoldsExactly(t: Id, args: set<Var>, body: seq<Stmt>)
    requires CollectB(t, body, {}).AtTarget?
    ensures var names := CollectB(t, body, {}).vars + args;
      (forall ch: seq<nat>, i: nat :: NamesHoldAt(t, args, body, names, ch, i)) <==>
      forall v :: v in names ==> !MayB(body, v, v in args, Visits(t), false)
  {
    var names := CollectB(t, body, {}).vars + args;
    forall v | v in names ensures MayB(body, v, v in args, Visits(t), false) <==> ReachedWithout(body, t, v, args) {
      VisitsExactly(body, t, v, args);
    }
    if forall v :: v in names ==> !MayB(body, v, v in args, Visits(t), false) {
      forall ch: seq<nat>, i: nat ensures NamesHoldAt(t, args, body, names, ch, i) {
        forall v | v in names ensures !ReachedAt(body, t, v, args, ch, i) {}
      }
    } else {
      var v :| v in names && MayB(body, v, v in args, Visits(t), false);
      var ch: seq<nat>, i: nat :| ReachedAt(body, t, v, args, ch, i);
      assert !NamesHoldAt(t, args, body, names, ch, i);
    }
  }

  ghost predicate NamesHoldAt(t: Id, args: set<Var>, body: seq<Stmt>, names: set<Var>, ch: seq<nat>, i: nat) {
    var log := ExecBlock(body, State(args, [], ch)).st.log;
    i < |log| && log[i].node == t ==> names <= log[i].bound
  }

  // ---- reports after statements and expressions

  // what the analysis reports after e is assigned on every run that completes e
  ghost predicate ReportHoldsE(t: Id, e: Expr, vars: set<Var>) {
    forall log: seq<Event>, ch: seq<nat> :: HoldsAfterE(t, e, vars, State(vars, log, ch))
  }

  predicate HoldsAfterE(t: Id, e: Expr, vars: set<Var>, st: State) {
    Eval(e, st).out == Normal ==> CollectE(t, e, vars).vars <= Eval(e, st).st.bound
  }

  ghost predicate ReportHoldsS(t: Id, s: Stmt, vars: set<Var>) {
    forall log: seq<Event>, ch: seq<nat> :: HoldsAfterS(t, s, vars, State(vars, log, ch))
  }

  predicate HoldsAfterS(t: Id, s: Stmt, vars: set<Var>, st: State) {
    Exec(s, st).out == Normal ==> CollectS(t, s, vars).SoFar? && CollectS(t, s, vars).vars <= Exec(s, st).st.bound
  }

  /** The report after a statement is right just when the statement may not
      complete without one of the names; an unconditional raise, just when it may
      not complete. */
  lemma {:induction false} StmtReportHoldsExactly(t: Id, s: Stmt, vars: set<Var>)
    requires !CollectS(t, s, vars).AtTarget?
    ensures ReportHoldsS(t, s, vars) <==>
              match CollectS(t, s, vars)
              case SoFar(names) => forall v :: v in names ==> !MayS(s, v, v in vars, Ends(Normal), false)
              case _ => forall v, k :: !MayS(s, v, v in vars, Ends(Normal), k)
  {
    if ReportHoldsS(t, s, vars) {
      forall v, k | MayS(s, v, v in vars, Ends(Normal), k)
        ensures CollectS(t, s, vars).SoFar? && (v in CollectS(t, s, vars).vars ==> k)
      {
        var ch := StmtRun(s, v, vars, k);
        assert HoldsAfterS(t, s, vars, State(vars, [], ch));
      }
    } else {
      ReportFails(t, s, vars);
    }
  }

  lemma StmtRun(s: Stmt, v: Var, vars: set<Var>, k: bool) returns (ch: seq<nat>)
    requires MayS(s, v, v in vars, Ends(Normal), k)
    ensures var r := Exec(s, State(vars, [], ch)); r.out == Normal && (v in r.st.bound) == k
  {
    ch := DriveS(s, v, v in vars, Ends(Normal), k);
    var st := From(vars, ch);
    assert Hits(ExecF(s)(st), st, v, Ends(Normal), k, []);
  }

  lemma {:induction false} ReportFails(t: Id, s: Stmt, vars: set<Var>)
    requires !ReportHoldsS(t, s, vars)
    ensures CollectS(t, s, vars).SoFar? ==>
              exists v :: v in CollectS(t, s, vars).vars && MayS(s, v, v in vars, Ends(Normal), false)
    ensures exists v, k :: MayS(s, v, v in vars, Ends(Normal), k)
  {
    var log: seq<Event>, ch: seq<nat> :| !HoldsAfterS(t, s, vars, State(vars, log, ch));
    var v := MissingAfter(t, s, vars, State(vars, log, ch));
    StmtMay(s, v, State(vars, log, ch));
  }

  lemma MissingAfter(t: Id, s: Stmt, vars: set<Var>, st: State) returns (v: Var)
    requires !HoldsAfterS(t, s, vars, st)
    ensures Exec(s, st).out == Normal
    ensures CollectS(t, s, vars).SoFar? ==> v in CollectS(t, s, vars).vars && v !in Exec(s, st).st.bound
  {
    v := "";
    if CollectS(t, s, vars).SoFar? { v :| v in CollectS(t, s, vars).vars && v !in Exec(s, st).st.bound; }
  }

  lemma {:induction false} StmtMay(s: Stmt, v: Var, st: State)
    requires Exec(s, st).out == Normal
    ensures MayS(s, v, v in st.bound, Ends(Normal), v in Exec(s, st).st.bound)
  {
    SeesS(v, s, st);
  }

  /** A list classed as an unconditional raise completes on no run just when it may not complete. */
  lemma {:induction false} RaiseReportHoldsExactly(t: Id, b: seq<Stmt>, vars: set<Var>)
    requires CollectB(t, b, vars).Raises?
    ensures (forall st: State :: ExecBlock(b, st).out != Normal) <==>
              forall v, h, k :: !MayB(b, v, h, Ends(Normal), k)
  {
    if forall st: State :: ExecBlock(b, st).out != Normal {
      forall v, h, k ensures !MayB(b, v, h, Ends(Normal), k) {
        EndsExactly(b, v, h, Normal, k);
        forall st ensures !EndsSo(b, v, h, Normal, k, st) {}
      }
    } else {
      var st: State :| ExecBlock(b, st).out == Normal;
      SeesB("", b, st);
      assert MayB(b, "", "" in st.bound, Ends(Normal), "" in ExecBlock(b, st).st.bound);
    }
  }

  // ---- expressions

  // the names e assigns whenever it completes
  function Must(e: Expr): set<Var>
    decreases e, 1
  {
    match e
    case Leaf(_, ops) => MustAll(ops.always)
    case Call(_, callee, args) => Must(callee) + MustAll(args)
    case Dict(_, items) => MustAll(items)
    case Index(_, base, index) => Must(base) + Must(index)
    case Slice(_, parts) => MustAll(parts)
    case ListComp(_, generator) => Must(generator)
    case Walrus(_, target, value) => Must(value) + {target}
    case Op(_, left, right, _, _) => Must(left) + (if MaySkip(e) then {} else Must(right))
    case Cond(_, ifExpr, cond, elseExpr) => Must(cond) + (Must(ifExpr) * Must(elseExpr))
  }

  function MustAll(es: seq<Expr>): set<Var>
    decreases es, 0
  {
    if es == [] then {} else Must(es[0]) + MustAll(es[1..])
  }

  // an expression unbinds nothing
  lemma {:induction false} ExprKeeps(e: Expr, v: Var)
    ensures !MayE(e, v, true, Ends(Normal), false)
  {
    if MayE(e, v, true, Ends(Normal), false) {
      var ch := DriveE(e, v, true, Ends(Normal), false);
      var st := From({v}, ch);
      assert Hits(EvalF(e)(st), st, v, Ends(Normal), false, []);
      GrowE(e, st);
    }
  }

  lemma {:induction false} AllKeep(es: seq<Expr>, v: Var)
    ensures !MayAll(es, v, true, Ends(Normal), false)
  {
    if MayAll(es, v, true, Ends(Normal), false) {
      var ch := DriveAll(es, v, true, Ends(Normal), false);
      var st := From({v}, ch);
      assert Hits(AllF(es)(st), st, v, Ends(Normal), false, []);
      GrowAll(es, st);
    }
  }

  lemma {:induction false} OpsMay(ops: Operands, v: Var)
    ensures MayOps(ops, v, false, Ends(Normal), false) <==> MayAll(ops.always, v, false, Ends(Normal), false)
  {
    SomeKeep(ops.perhaps, v);
    SomeHere(ops.perhaps, v, false);
    assert MaySome(ops.perhaps, v, false, Ends(Normal), false);
  }

  /** Must(e) is just what e may not complete without. */
  lemma {:induction false} MustExactly(e: Expr, v: Var)
    ensures v in Must(e) <==> !MayE(e, v, false, Ends(Normal), false)
    decreases e, 1
  {
    match e
    case Leaf(_, ops) => MustAllExactly(ops.always, v); OpsMay(ops, v);
    case Call(_, callee, args) => MustExactly(callee, v); MustAllExactly(args, v); AllKeep(args, v);
    case Dict(_, items) => MustAllExactly(items, v);
    case Index(_, base, index) => MustExactly(base, v); MustExactly(index, v); ExprKeeps(index, v);
    case Slice(_, parts) => MustAllExactly(parts, v);
    case ListComp(_, generator) => MustExactly(generator, v);
    case Walrus(_, _, value) => MustExactly(value, v);
    case Op(_, left, right, _, _) => MustExactly(left, v); MustExactly(right, v); ExprKeeps(right, v);
    case Cond(_, ifExpr, cond, elseExpr) =>
      MustExactly(cond, v); MustExactly(ifExpr, v); MustExactly(elseExpr, v);
      ExprKeeps(ifExpr, v); ExprKeeps(elseExpr, v);
  }

  lemma {:induction false} MustAllExactly(es: seq<Expr>, v: Var)
    ensures v in MustAll(es) <==> !MayAll(es, v, false, Ends(Normal), false)
    decreases es, 0
  {
    if es != [] {
      MustExactly(es[0], v);
      MustAllExactly(es[1..], v);
      AllKeep(es[1..], v);
    }
  }

  /** The report after any expression is right just when it claims no more than
      was assigned before or the expression must assign. */
  lemma {:induction false} ExprReportHoldsExactly(t: Id, e: Expr, vars: set<Var>)
    requires CountE(t, e) == 0
    ensures ReportHoldsE(t, e, vars) <==> CollectE(t, e, vars).vars <= vars + Must(e)
  {
    FoundE(t, e, vars);
    if !(CollectE(t, e, vars).vars <= vars + Must(e)) {
      var v :| v in CollectE(t, e, vars).vars && v !in vars + Must(e);
      MustExactly(e, v);
      var ch := ExprRun(e, v, vars);
      assert !HoldsAfterE(t, e, vars, State(vars, [], ch));
    } else if !ReportHoldsE(t, e, vars) {
      var log: seq<Event>, ch: seq<nat> :| !HoldsAfterE(t, e, vars, State(vars, log, ch));
      var v :| v in CollectE(t, e, vars).vars && v !in Eval(e, State(vars, log, ch)).st.bound;
      ExprMay(e, v, State(vars, log, ch));
    }
  }

  lemma ExprRun(e: Expr, v: Var, vars: set<Var>) returns (ch: seq<nat>)
    requires v !in vars && MayE(e, v, false, Ends(Normal), false)
    ensures var r := Eval(e, State(vars, [], ch)); r.out == Normal && v !in r.st.bound
  {
    ch := DriveE(e, v, false, Ends(Normal), false);
    var st := From(vars, ch);
    assert Hits(EvalF(e)(st), st, v, Ends(Normal), false, []);
  }

  lemma {:induction false} ExprMay(e: Expr, v: Var, st: State)
    requires Eval(e, st).out == Normal && v !in Eval(e, st).st.bound
    ensures v !in st.bound && v !in Must(e)
  {
    SeesE(v, e, st);
    MustExactly(e, v);
    ExprKeeps(e, v);
  }

  /** "a if c else b" is analysed as if "a" were always evaluated: the report is
      right exactly when what it claims is assigned by c, or by both a and b. */
  lemma {:induction false} CondReportHoldsExactly(t: Id, e: Expr, vars: set<Var>)
    requires e.Cond? && CountE(t, e) == 0
    ensures ReportHoldsE(t, e, vars) <==>
              CollectE(t, e.ifExpr, vars).vars + (CollectE(t, e.cond, {}).vars * CollectE(t, e.elseExpr, {}).vars) <=
              vars + Must(e.cond) + (Must(e.ifExpr) * Must(e.elseExpr))
  {
    FoundE(t, e.ifExpr, vars);
    FoundE(t, e.cond, {});
    FoundE(t, e.elseExpr, {});
    ExprReportHoldsExactly(t, e, vars);
  }

  // ---- statements

  /** del is not looked at: the report after it is right exactly when it deletes nothing reported. */
  lemma DelReportHoldsExactly(t: Id, s: Stmt, vars: set<Var>)
    requires s.Del? && s.id != t
    ensures ReportHoldsS(t, s, vars) <==> vars !! s.vars
  {
    StmtReportHoldsExactly(t, s, vars);
  }

  /** "x: int" counts as an assignment: the report is right exactly when its names were assigned before. */
  lemma AnnotationReportHoldsExactly(t: Id, s: Stmt, vars: set<Var>)
    requires s.Assign? && s.rvalue.None? && s.id != t
    ensures ReportHoldsS(t, s, vars) <==> LvaluesVars(s.lvalues) <= vars
  {
    StmtReportHoldsExactly(t, s, vars);
  }

  // b may end with o, v being assigned or not when it begins
  predicate MayEnd(b: seq<Stmt>, v: Var, h: bool, o: Outcome) {
    exists k: bool :: MayB(b, v, h, Ends(o), k)
  }

  // handler i is entered with v as its "as" name, which is deleted when the handler's body completes
  predicate MayDelete(s: Stmt, v: Var, h: bool, i: nat)
    requires s.Try? && i < |s.handlers|
  {
    s.handlers[i].name == Some(v) && MayEnd(s.body, v, h, Raised) && MayEnd(s.handlers[i].body, v, true, Normal)
  }

  // no part of the statement unbinds anything by itself
  predicate PartsKeep(s: Stmt)
    requires s.Try?
  {
    UnsureB(s.body) == {} && UnsureB(s.orelse) == {} && UnsureB(s.final) == {} &&
    forall i :: 0 <= i < |s.handlers| ==> UnsureB(s.handlers[i].body) == {}
  }

  /** "except E as e" deletes e: the report after a try statement is right exactly
      when no reported name may be deleted so and be missing still after the
      finally block. */
  lemma {:induction false} ExceptReportHoldsExactly(t: Id, s: Stmt, vars: set<Var>)
    requires s.Try? && CountS(t, s) == 0 && !SwallowsS(s) && PartsKeep(s) && CollectB(t, s.final, vars).SoFar?
    ensures ReportHoldsS(t, s, vars) <==>
              forall v, i :: 0 <= i < |s.handlers| && v in CollectB(t, s.final, vars).vars && MayDelete(s, v, v in vars, i) ==>
                !MayB(s.final, v, false, Ends(Normal), false)
  {
    TryIsSoFar(t, s, vars);
    StmtReportHoldsExactly(t, s, vars);
    forall v, i: int | 0 <= i < |s.handlers| && MayDelete(s, v, v in vars, i) && MayB(s.final, v, false, Ends(Normal), false)
      ensures MayS(s, v, v in vars, Ends(Normal), false)
    {
      Deletes(s, v, v in vars, i);
    }
    forall v | v in CollectB(t, s.final, vars).vars && MayS(s, v, v in vars, Ends(Normal), false)
      ensures exists i :: 0 <= i < |s.handlers| && MayDelete(s, v, v in vars, i)
      ensures MayB(s.final, v, false, Ends(Normal), false)
    {
      assert MayTry(s, v, v in vars, Ends(Normal), false);
      var m :| MayProtect(s, v, v in vars, Ends(Normal), m) && MayB(s.final, v, m, Ends(Normal), false);
      FinalAssigns(t, s, vars, v, m);
      var i := OnlyHandlersDelete(s, v);
    }
  }

  /** ... without a finally block: exactly when no name assigned before may be deleted. */
  lemma {:induction false} ExceptNameHoldsExactly(t: Id, s: Stmt, vars: set<Var>)
    requires s.Try? && CountS(t, s) == 0 && !SwallowsS(s) && PartsKeep(s) && s.final == []
    ensures ReportHoldsS(t, s, vars) <==>
              forall v, i :: 0 <= i < |s.handlers| && MayDelete(s, v, v in vars, i) ==> v !in vars
  {
    ExceptReportHoldsExactly(t, s, vars);
  }

  lemma {:induction false} TryIsSoFar(t: Id, s: Stmt, vars: set<Var>)
    requires s.Try? && CountS(t, s) == 0
    ensures CollectS(t, s, vars) == CollectB(t, s.final, vars)
  {
    FoundHs(t, s.handlers, vars);
    FoundB(t, s.orelse, vars);
    FoundB(t, s.body, vars);
  }

  // a run that deletes v
  lemma {:induction false} Deletes(s: Stmt, v: Var, h: bool, i: nat)
    requires s.Try? && i < |s.handlers| && MayDelete(s, v, h, i) && MayB(s.final, v, false, Ends(Normal), false)
    ensures MayS(s, v, h, Ends(Normal), false)
  {
    var m :| MayB(s.body, v, h, Ends(Raised), m);
    HandlerDeletes(s.handlers, i, v, m);
    assert MayProtect(s, v, h, Ends(Normal), false);
  }

  // every expression may complete
  lemma {:induction false} ExprMayEnd(e: Expr, v: Var, h: bool) returns (k: bool)
    ensures MayE(e, v, h, Ends(Normal), k)
    decreases e, 1
  {
    match e
    case Leaf(_, ops) => k := OpsMayEnd(ops, v, h);
    case Call(_, callee, args) =>
      var m := ExprMayEnd(callee, v, h);
      k := AllMayEnd(args, v, m);
      assert MayAllThenRaise(args, v, m, Ends(Normal), k);
    case Dict(_, items) => k := AllMayEnd(items, v, h);
    case Index(_, base, index) =>
      var m := ExprMayEnd(base, v, h);
      k := ExprMayEnd(index, v, m);
      assert MayThenRaise(index, v, m, Ends(Normal), k);
    case Slice(_, parts) => k := AllMayEnd(parts, v, h);
    case ListComp(_, generator) => k := ExprMayEnd(generator, v, h);
    case Walrus(_, target, value) => var m := ExprMayEnd(value, v, h); k := m || v == target;
    case Op(_, left, right, _, _) =>
      var m := ExprMayEnd(left, v, h);
      k := ExprMayEnd(right, v, m);
      assert MayThenRaise(right, v, m, Ends(Normal), k);
    case Cond(_, ifExpr, cond, _) => var m := ExprMayEnd(cond, v, h); k := ExprMayEnd(ifExpr, v, m);
  }

  lemma {:induction false} AllMayEnd(es: seq<Expr>, v: Var, h: bool) returns (k: bool)
    ensures MayAll(es, v, h, Ends(Normal), k)
    decreases es, 0
  {
    if es == [] {
      k := h;
    } else {
      var m := ExprMayEnd(es[0], v, h);
      k := AllMayEnd(es[1..], v, m);
    }
  }

  lemma {:induction false} OpsMayEnd(ops: Operands, v: Var, h: bool) returns (k: bool)
    ensures MayOps(ops, v, h, Ends(Normal), k)
    decreases ops, 0
  {
    k := AllMayEnd(ops.always, v, h);
    SomeHere(ops.perhaps, v, k);
    assert MaySome(ops.perhaps, v, k, Ends(Normal), k);
  }

  lemma {:induction false} HandlerDeletes(hs: seq<Handler>, i: nat, v: Var, h: bool)
    requires i < |hs| && hs[i].name == Some(v) && MayEnd(hs[i].body, v, true, Normal)
    ensures MayHandle(hs, v, h, Ends(Normal), false)
  {
    var m := OpsMayEnd(hs[0].types, v, h);
    if i == 0 {
      assert MayCatch(hs[0], v, m, Ends(Normal), false);
    } else {
      HandlerDeletes(hs[1..], i - 1, v, m);
    }
  }

  // a block that unbinds nothing
  lemma {:induction false} BlockKeeps(b: seq<Stmt>, v: Var, o: Outcome)
    requires UnsureB(b) == {} && o != Cut
    ensures !MayB(b, v, true, Ends(o), false)
  {
    if MayB(b, v, true, Ends(o), false) {
      var ch := DriveB(b, v, true, Ends(o), false);
      var st := From({v}, ch);
      assert Hits(BlockF(b)(st), st, v, Ends(o), false, []);
      GrowB({}, b, st);
    }
  }

  lemma {:induction false} SomeKeep(es: seq<Expr>, v: Var)
    ensures !MaySome(es, v, true, Ends(Normal), false)
  {
    if MaySome(es, v, true, Ends(Normal), false) {
      var ch := DriveSome(es, v, true, Ends(Normal), false);
      var st := From({v}, ch);
      assert Hits(SomeF(es)(st), st, v, Ends(Normal), false, []);
      GrowSome(es, st);
    }
  }

  // what is reported after the finally block was assigned before, or else is assigned by it
  lemma {:induction false} FinalAssigns(t: Id, s: Stmt, vars: set<Var>, v: Var, m: bool)
    requires s.Try? && CountS(t, s) == 0 && !SwallowsS(s) && PartsKeep(s) && CollectB(t, s.final, vars).SoFar?
    requires v in CollectB(t, s.final, vars).vars && MayB(s.final, v, m, Ends(Normal), false)
    ensures v in vars && !m
  {
    if m {
      BlockKeeps(s.final, v, Normal);
    } else if v !in vars {
      var ch := DriveB(s.final, v, false, Ends(Normal), false);
      var st := From(vars, ch);
      assert Hits(BlockF(s.final)(st), st, v, Ends(Normal), false, []);
      FoundB(t, s.final, vars);
      SoundB(t, {}, {}, s.final, vars, st);
    }
  }

  lemma OnlyHandlersDelete(s: Stmt, v: Var) returns (i: nat)
    requires s.Try? && PartsKeep(s) && MayProtect(s, v, true, Ends(Normal), false)
    ensures i < |s.handlers| && MayDelete(s, v, true, i)
  {
    BlockKeeps(s.body, v, Raised);
    BlockKeeps(s.body, v, Normal);
    BlockKeeps(s.orelse, v, Normal);
    assert MayB(s.body, v, true, Ends(Raised), true) && MayHandle(s.handlers, v, true, Ends(Normal), false);
    i := HandlerThatDeletes(s.handlers, v);
  }

  lemma {:induction false} HandlerThatDeletes(hs: seq<Handler>, v: Var) returns (i: nat)
    requires MayHandle(hs, v, true, Ends(Normal), false)
    requires forall i :: 0 <= i < |hs| ==> UnsureB(hs[i].body) == {}
    ensures i < |hs| && hs[i].name == Some(v) && MayEnd(hs[i].body, v, true, Normal)
  {
    AllKeep(hs[0].types.always, v);
    SomeKeep(hs[0].types.perhaps, v);
    if MayCatch(hs[0], v, true, Ends(Normal), false) {
      BlockKeeps(hs[0].body, v, Normal);
      assert MayB(hs[0].body, v, true, Ends(Normal), true);
      i := 0;
    } else {
      i := HandlerThatDeletes(hs[1..], v);
      i := i + 1;
    }
  }

  // a node that is not there is not visited
  lemma {:induction false} NotVisited(t: Id, e: Expr, v: Var, h: bool)
    requires CountE(t, e) == 0
    ensures !MayE(e, v, h, Visits(t), false)
  {
    if MayE(e, v, h, Visits(t), false) {
      var ch := DriveE(e, v, h, Visits(t), false);
      var st := From(if h then {v} else {}, ch);
      assert Hits(EvalF(e)(st), st, v, Visits(t), false, []);
      FoundE(t, e, {});
      SoundE(t, UnsureE(e), {v}, e, {}, st);
    }
  }

  lemma {:induction false} BlockVisits(b: seq<Stmt>, v: Var, t: Id)
    requires UnsureB(b) == {}
    ensures !MayB(b, v, true, Visits(t), false)
  {
    if MayB(b, v, true, Visits(t), false) {
      var ch := DriveB(b, v, true, Visits(t), false);
      var st := From({v}, ch);
      assert Hits(BlockF(b)(st), st, v, Visits(t), false, []);
      GrowB({}, b, st);
    }
  }

  /** What the test of an if assigns on every run, as in "if (x := f()) > 0:", is
      assigned wherever control gets to in its branches. */
  lemma {:induction false} TestAssigns(t: Id, s: Stmt, v: Var, h: bool)
    requires s.If? && v in Must(s.test) && s.id != t && CountE(t, s.test) == 0
    requires UnsureB(s.body) == {} && UnsureB(s.orelse) == {}
    ensures !MayS(s, v, h, Visits(t), false)
  {
    NotVisited(t, s.test, v, h);
    MustExactly(s.test, v);
    ExprKeeps(s.test, v);
    BlockVisits(s.body, v, t);
    BlockVisits(s.orelse, v, t);
  }

  // ---- examples

  lemma {:induction false} NoOperands(st: State)
    ensures EvalOps(NONE, st) == if st.ch == [] then Run(Cut, st) else
              Run(if st.ch[0] == 0 then Normal else Raised, st.Choose())
  {
    assert EvalAll(NONE.always, st) == Run(Normal, st);
  }

  /** e assigned; try: f() except X as e: pass; then e is still reported, yet a
      run that enters the handler arrives without it. */
  lemma ExceptNameIsReported()
    ensures var body := [Try(4, [ExprStmt(2, Leaf(3, NONE))], [Handler(NONE, Some("e"), [])], [], []),
                         ExprStmt(6, Leaf(7, NONE))];
      CollectB(7, body, {"e"}) == AtTarget({"e"}) &&
      exists choices :: Event(7, {}) in ExecBlock(body, State({"e"}, [], choices)).st.log
  {
    var f := ExprStmt(2, Leaf(3, NONE));
    var h := Handler(NONE, Some("e"), []);
    var s1 := Try(4, [f], [h], [], []);
    var s2 := ExprStmt(6, Leaf(7, NONE));
    assert [s1, s2][1..] == [s2];
    assert CollectHandlers(7, [h], {"e"}) == SoFar({"e"});
    assert CollectB(7, [f], {"e"}) == SoFar({"e"});
    assert CollectS(7, s1, {"e"}) == SoFar({"e"});
    assert CollectS(7, s2, {"e"}) == AtTarget({"e"});
    assert CollectB(7, [s2], {"e"}) == AtTarget({"e"});
    assert CollectB(7, [s1, s2], {"e"}) == AtTarget({"e"});
    NoOperands(State({"e"}, [], [1, 0, 1]).Reach(4).Reach(2).Reach(3));
    // 1: f() raises; 0, 1: there is no type to evaluate and the handler matches
    var a1 := State({"e"}, [], [1, 0, 1]);
    var a2 := a1.Reach(4).Reach(2).Reach(3).Choose();
    assert EvalOps(NONE, a1.Reach(4).Reach(2).Reach(3)) == Run(Raised, a2);
    assert Exec(f, a1.Reach(4)) == Run(Raised, a2);
    assert ExecBlock([f], a1.Reach(4)) == Run(Raised, a2);
    assert a2.ch == [0, 1];
    NoOperands(a2);
    assert EvalOps(NONE, a2) == Run(Normal, a2.Choose());
    var a3 := Handle([h], a2).st;
    assert ExecBlock(h.body, a2.Choose().Choose().Bind({"e"})).st.bound == {"e"};
    assert Handle([h], a2) == Run(Normal, a3) && a3.bound == {};
    assert Exec(s1, a1) == Run(Normal, a3);
    var end := ExecBlock([s2], a3);
    assert a3.ch == [];
    NoOperands(a3.Reach(6).Reach(7));
    assert Eval(s2.e, a3.Reach(6)) == Run(Cut, a3.Reach(6).Reach(7));
    assert Exec(s2, a3) == Run(Cut, a3.Reach(6).Reach(7));
    assert end == Run(Cut, a3.Reach(6).Reach(7));
    assert end.st.log[|a3.log| + 1] == Event(7, {});
    assert ExecBlock([s1, s2], a1) == end;
  }

  /** with suppress(E): raise E — classed as an unconditional raise, yet a run
      completes it normally. */
  lemma SwallowedRaiseCompletes()
    ensures var b := [With(0, [WithItem(Leaf(1, NONE), None)], [Raise(2, None)], true)];
      CollectB(9, b, {}).Raises? &&
      exists choices :: ExecBlock(b, State({}, [], choices)).out == Normal
  {
    var w := With(0, [WithItem(Leaf(1, NONE), None)], [Raise(2, None)], true);
    var st := State({}, [], [0, 1]);
    assert CollectS(9, w.body[0], {}) == Raises(2);
    assert CollectB(9, w.body, {}) == Raises(2);
    assert CollectContexts(9, w.items, {}) == SoFar({});
    assert CollectS(9, w, {}) == Raises(2);
    NoOperands(st.Reach(0).Reach(1));
    var st1 := st.Reach(0).Reach(1).Choose();
    assert Eval(w.items[0].context, st.Reach(0)) == Run(Normal, st1);
    assert Enter(w.items, st.Reach(0)) == Run(Normal, st1);
    assert Exec(w.body[0], st1) == Run(Raised, st1.Reach(2));
    assert ExecBlock(w.body, st1) == Run(Raised, st1.Reach(2));
    assert Exec(w, st).out == Normal;
    assert ExecBlock([w], st).out == Normal;
  }
}
