/** The other half of module PyReach: everything it allows is done by some run.
    The choices that drive that run are put together along the syntax tree. */
module PyWitness {
  import opened PyAst
  import opened PyRun
  import opened Wrappers
  import opened DefiniteAssignmentProofs
  import opened PyReach

  // the run r from st comes to g with v's status k, the choices rest being left if it ends
  ghost predicate Hits(r: Run, st: State, v: Var, g: Goal, k: bool, rest: seq<nat>) {
    match g
    case Ends(o) => r.out == o && (v in r.st.bound) == k && r.st.ch == rest
    case Visits(t) => exists i :: |st.log| <= i < |r.st.log| && r.st.log[i].node == t && (v in r.st.log[i].bound) == k
  }

  // the choices ch take what f runs to g, from wherever v has status h
  ghost predicate Drives(f: State -> Run, v: Var, h: bool, g: Goal, k: bool, ch: seq<nat>) {
    forall st: State, rest: seq<nat> :: st.ch == ch + rest && (v in st.bound) == h ==> Hits(f(st), st, v, g, k, rest)
  }

  ghost predicate Longer(st: State, r: Run) {
    st.log <= r.st.log
  }

  ghost predicate Grows(f: State -> Run) {
    forall st: State :: Longer(st, f(st))
  }

  // ---- putting runs together

  // f2 goes on as f3 where f ends with o
  ghost predicate Follows(f: State -> Run, f3: State -> Run, f2: State -> Run, o: Outcome) {
    forall st: State :: f(st).out == o ==> f2(st) == f3(f(st).st)
  }

  // f2 begins as f does
  ghost predicate Begins(f: State -> Run, f2: State -> Run) {
    forall st: State :: Longer(f(st).st, f2(st))
  }

  lemma DriveOn(f: State -> Run, f3: State -> Run, f2: State -> Run, v: Var, h: bool, o: Outcome, m: bool, g: Goal,
                k: bool,
                ch: seq<nat>, ch3: seq<nat>)
    requires Drives(f, v, h, Ends(o), m, ch) && Drives(f3, v, m, g, k, ch3) && Grows(f)
    requires Follows(f, f3, f2, o)
    ensures Drives(f2, v, h, g, k, ch + ch3)
  {
    forall st: State, rest: seq<nat> | st.ch == (ch + ch3) + rest && (v in st.bound) == h
      ensures Hits(f2(st), st, v, g, k, rest)
    {
      assert st.ch == ch + (ch3 + rest);
      assert Hits(f(st), st, v, Ends(o), m, ch3 + rest);
      assert Hits(f3(f(st).st), f(st).st, v, g, k, rest);
      assert f2(st) == f3(f(st).st);
      assert st.log <= f(st).st.log;
    }
  }

  // f2 does no more than f where f has come to g
  lemma DriveStop(f: State -> Run, f2: State -> Run, v: Var, h: bool, g: Goal, k: bool, ch: seq<nat>)
    requires Drives(f, v, h, g, k, ch)
    requires Begins(f, f2)
    requires g.Ends? ==> forall st: State :: f(st).out == g.out ==> f2(st) == f(st)
    ensures Drives(f2, v, h, g, k, ch)
  {
    forall st: State, rest: seq<nat> | st.ch == ch + rest && (v in st.bound) == h
      ensures Hits(f2(st), st, v, g, k, rest)
    {
      assert Hits(f(st), st, v, g, k, rest);
      assert Longer(f(st).st, f2(st));
      if g.Visits? {
        var i :| |st.log| <= i < |f(st).st.log| && f(st).st.log[i].node == g.t && (v in f(st).st.log[i].bound) == k;
        assert f2(st).st.log[i] == f(st).st.log[i];
      }
    }
  }

  // a node is reached first
  lemma DriveReach(f: State -> Run, f2: State -> Run, t: Id, v: Var, h: bool, g: Goal, k: bool, ch: seq<nat>)
    requires Drives(f, v, h, g, k, ch) && forall st: State :: f2(st) == f(st.Reach(t))
    ensures Drives(f2, v, h, g, k, ch)
  {
    forall st: State, rest: seq<nat> | st.ch == ch + rest && (v in st.bound) == h
      ensures Hits(f2(st), st, v, g, k, rest)
    {
      assert Hits(f(st.Reach(t)), st.Reach(t), v, g, k, rest);
      assert f2(st) == f(st.Reach(t));
    }
  }

  lemma DriveVisit(f: State -> Run, f2: State -> Run, t: Id, v: Var, h: bool)
    requires Grows(f) && forall st: State :: f2(st) == f(st.Reach(t))
    ensures Drives(f2, v, h, Visits(t), h, [])
  {
    forall st: State, rest: seq<nat> | st.ch == [] + rest && (v in st.bound) == h
      ensures Hits(f2(st), st, v, Visits(t), h, rest)
    {
      assert f2(st) == f(st.Reach(t)) && st.Reach(t).log <= f(st.Reach(t)).st.log;
      assert f2(st).st.log[|st.log|] == Event(t, st.bound);
    }
  }

  // a choice is made first
  lemma DriveChoose(f: State -> Run, f2: State -> Run, c: nat, v: Var, h: bool, g: Goal, k: bool, ch: seq<nat>)
    requires Drives(f, v, h, g, k, ch)
    requires forall st: State :: st.ch != [] && st.ch[0] == c ==> f2(st) == f(st.Choose())
    ensures Drives(f2, v, h, g, k, [c] + ch)
  {
    forall st: State, rest: seq<nat> | st.ch == ([c] + ch) + rest && (v in st.bound) == h
      ensures Hits(f2(st), st, v, g, k, rest)
    {
      assert st.Choose().ch == ch + rest;
      assert Hits(f(st.Choose()), st.Choose(), v, g, k, rest);
      assert f2(st) == f(st.Choose());
    }
  }

  // f ends at once, having changed names only
  lemma DriveEnd(f: State -> Run, v: Var, h: bool, o: Outcome, k: bool)
    requires forall st: State :: (v in st.bound) == h ==> Hits(f(st), st, v, Ends(o), k, st.ch)
    ensures Drives(f, v, h, Ends(o), k, [])
  {
    forall st: State, rest: seq<nat> | st.ch == [] + rest && (v in st.bound) == h
      ensures Hits(f(st), st, v, Ends(o), k, rest)
    {
      assert Hits(f(st), st, v, Ends(o), k, st.ch);
    }
  }

  // ---- the functions of module PyRun as such functions

  ghost function EvalF(e: Expr): State -> Run { (st: State) => Eval(e, st) }
  ghost function AllF(es: seq<Expr>): State -> Run { (st: State) => EvalAll(es, st) }
  ghost function AllThenRaiseF(es: seq<Expr>): State -> Run { (st: State) => EvalThenMayRaise(es, st) }
  ghost function SomeF(es: seq<Expr>): State -> Run { (st: State) => EvalSome(es, st) }
  ghost function OpsF(ops: Operands): State -> Run { (st: State) => EvalOps(ops, st) }
  ghost function RaiseF(): State -> Run { (st: State) => MayRaise(st) }

  // one, and where it completes the other
  ghost function ThenF(f: State -> Run, f2: State -> Run): State -> Run {
    (st: State) => if f(st).out != Normal then f(st) else f2(f(st).st)
  }

  lemma ThenGrows(f: State -> Run, f2: State -> Run)
    requires Grows(f) && Grows(f2)
    ensures Grows(ThenF(f, f2))
  {
    forall st: State ensures Longer(st, ThenF(f, f2)(st)) {
      assert st.log <= f(st).st.log && f(st).st.log <= f2(f(st).st).st.log;
    }
  }

  lemma DriveFirst(f: State -> Run, f2: State -> Run, v: Var, h: bool, g: Goal, k: bool, ch: seq<nat>)
    requires Drives(f, v, h, g, k, ch) && Abrupt(g) && Grows(f2)
    ensures Drives(ThenF(f, f2), v, h, g, k, ch)
  {
    forall st: State ensures Longer(f(st).st, ThenF(f, f2)(st)) { assert Longer(f(st).st, f2(f(st).st)); }
    DriveStop(f, ThenF(f, f2), v, h, g, k, ch);
  }

  lemma DriveThen(f: State -> Run, f2: State -> Run, v: Var, h: bool, m: bool, g: Goal, k: bool, ch: seq<nat>,
                  ch2: seq<nat>)
    requires Drives(f, v, h, Ends(Normal), m, ch) && Drives(f2, v, m, g, k, ch2) && Grows(f)
    ensures Drives(ThenF(f, f2), v, h, g, k, ch + ch2)
  {
    DriveOn(f, f2, ThenF(f, f2), v, h, Normal, m, g, k, ch, ch2);
  }

  lemma EvalGrows(e: Expr)
    ensures Grows(EvalF(e))
  {
    forall st: State ensures Longer(st, EvalF(e)(st)) { GrowE(e, st); }
  }

  lemma AllGrows(es: seq<Expr>)
    ensures Grows(AllF(es)) && Grows(AllThenRaiseF(es))
  {
    forall st: State ensures Longer(st, AllF(es)(st)) && Longer(st, AllThenRaiseF(es)(st)) { GrowAll(es, st); }
  }

  lemma SomeGrows(es: seq<Expr>)
    ensures Grows(SomeF(es))
  {
    forall st: State ensures Longer(st, SomeF(es)(st)) { GrowSome(es, st); }
  }

  lemma {:induction false} OpsGrows(ops: Operands)
    ensures Grows(OpsF(ops))
  {
    forall st: State ensures Longer(st, OpsF(ops)(st)) { GrowOps(ops, st); }
  }

  // an operation that may raise does either
  lemma DriveRaise(v: Var, h: bool, g: Goal)
    returns (ch: seq<nat>)
    requires OrRaises(g)
    ensures Drives(RaiseF(), v, h, g, h, ch)
  {
    var c := if g == Ends(Normal) then 0 else 1;
    var f := (st: State) => Run(g.out, st);
    DriveEnd(f, v, h, g.out, h);
    DriveChoose(f, RaiseF(), c, v, h, g, h, []);
    ch := [c] + [];
  }

  lemma DriveSame(f: State -> Run, f2: State -> Run, v: Var, h: bool, g: Goal, k: bool, ch: seq<nat>)
    requires Drives(f, v, h, g, k, ch) && forall st: State :: f2(st) == f(st)
    ensures Drives(f2, v, h, g, k, ch)
  {
    forall st: State, rest: seq<nat> | st.ch == ch + rest && (v in st.bound) == h
      ensures Hits(f2(st), st, v, g, k, rest)
    {
      assert Hits(f(st), st, v, g, k, rest) && f2(st) == f(st);
    }
  }

  // ---- expressions

  ghost function EndF(o: Outcome): State -> Run { (st: State) => Run(o, st) }
  ghost function BindF(vs: set<Var>): State -> Run { (st: State) => Run(Normal, st.Bind(vs)) }

  lemma DriveEndF(v: Var, h: bool, o: Outcome)
    ensures Drives(EndF(o), v, h, Ends(o), h, [])
  {
    DriveEnd(EndF(o), v, h, o, h);
  }

  lemma DriveBindF(vs: set<Var>, v: Var, h: bool)
    ensures Drives(BindF(vs), v, h, Ends(Normal), h || v in vs, []) && Grows(BindF(vs))
  {
    DriveEnd(BindF(vs), v, h, Normal, h || v in vs);
  }

  // the right operand, or not
  ghost function RightF(e: Expr): State -> Run
    requires e.Op?
  {
    (st: State) =>
      if st.ch == [] then Run(Cut, st)
      else if !MaySkip(e) || st.ch[0] != 0 then ThenF(EvalF(e.right), RaiseF())(st.Choose())
      else MayRaise(st.Choose())
  }

  // one branch or the other
  ghost function BranchF(f: State -> Run, f2: State -> Run): State -> Run {
    (st: State) => if st.ch == [] then Run(Cut, st) else if st.ch[0] != 0 then f(st.Choose()) else f2(st.Choose())
  }

  // what evaluating e does once e is reached
  ghost function BodyF(e: Expr): State -> Run {
    match e
    case Leaf(_, ops) => OpsF(ops)
    case Call(_, callee, args) => ThenF(EvalF(callee), AllThenRaiseF(args))
    case Dict(_, items) => AllThenRaiseF(items)
    case Index(_, base, index) => ThenF(EvalF(base), ThenF(EvalF(index), RaiseF()))
    case Slice(_, parts) => AllThenRaiseF(parts)
    case ListComp(_, generator) => EvalF(generator)
    case Walrus(_, target, value) => ThenF(EvalF(value), BindF({target}))
    case Op(_, left, _, _, _) => ThenF(EvalF(left), RightF(e))
    case Cond(_, ifExpr, cond, elseExpr) => ThenF(EvalF(cond), BranchF(EvalF(ifExpr), EvalF(elseExpr)))
  }

  lemma BodyIs(e: Expr)
    ensures forall st: State :: EvalF(e)(st) == BodyF(e)(st.Reach(e.id))
  {
    forall st: State ensures EvalF(e)(st) == BodyF(e)(st.Reach(e.id)) { BodyHere(e, st); }
  }

  lemma {:induction false} BodyHere(e: Expr, st: State)
    ensures Eval(e, st) == BodyF(e)(st.Reach(e.id))
  {
    if e.Index? {
      BodyOfIndex(e, st);
    } else if e.Op? {
      BodyOfOp(e, st);
    }
  }

  lemma {:induction false} BodyOfIndex(e: Expr, st: State)
    requires e.Index?
    ensures Eval(e, st) == BodyF(e)(st.Reach(e.id))
  {
    var st1 := st.Reach(e.id);
    var r := Eval(e.base, st1);
    var f := ThenF(EvalF(e.index), RaiseF());
    assert BodyF(e)(st1) == if r.out != Normal then r else f(r.st);
    assert f(r.st) == if Eval(e.index, r.st).out != Normal then Eval(e.index, r.st) else MayRaise(Eval(e.index, r.st).st);
  }

  lemma {:induction false} BodyOfOp(e: Expr, st: State)
    requires e.Op?
    ensures Eval(e, st) == BodyF(e)(st.Reach(e.id))
  {
    var st1 := st.Reach(e.id);
    var r := Eval(e.left, st1);
    assert BodyF(e)(st1) == if r.out != Normal then r else RightF(e)(r.st);
    if r.out == Normal && r.st.ch != [] {
      var st2 := r.st.Choose();
      assert ThenF(EvalF(e.right), RaiseF())(st2) ==
        if Eval(e.right, st2).out != Normal then Eval(e.right, st2) else MayRaise(Eval(e.right, st2).st);
    }
  }

  lemma RaiseGrows()
    ensures Grows(RaiseF())
  {
  }

  lemma BranchGrows(f: State -> Run, f2: State -> Run)
    requires Grows(f) && Grows(f2)
    ensures Grows(BranchF(f, f2))
  {
    forall st: State ensures Longer(st, BranchF(f, f2)(st)) {
      if st.ch != [] { assert st.Choose().log <= f(st.Choose()).st.log && st.Choose().log <= f2(st.Choose()).st.log; }
    }
  }

  lemma RightGrows(e: Expr)
    requires e.Op?
    ensures Grows(RightF(e))
  {
    EvalGrows(e.right);
    RaiseGrows();
    ThenGrows(EvalF(e.right), RaiseF());
    forall st: State ensures Longer(st, RightF(e)(st)) {
      if st.ch != [] { assert st.Choose().log <= ThenF(EvalF(e.right), RaiseF())(st.Choose()).st.log; }
    }
  }

  lemma BodyGrows(e: Expr)
    ensures Grows(BodyF(e))
  {
    RaiseGrows();
    match e
    case Leaf(_, ops) => OpsGrows(ops);
    case Call(_, callee, args) => EvalGrows(callee); AllGrows(args); ThenGrows(EvalF(callee), AllThenRaiseF(args));
    case Dict(_, items) => AllGrows(items);
    case Index(_, base, index) =>
      EvalGrows(base); EvalGrows(index); ThenGrows(EvalF(index), RaiseF());
      ThenGrows(EvalF(base), ThenF(EvalF(index), RaiseF()));
    case Slice(_, parts) => AllGrows(parts);
    case ListComp(_, generator) => EvalGrows(generator);
    case Walrus(_, target, value) =>
      EvalGrows(value); DriveBindF({target}, target, false); ThenGrows(EvalF(value), BindF({target}));
    case Op(_, left, _, _, _) => EvalGrows(left); RightGrows(e); ThenGrows(EvalF(left), RightF(e));
    case Cond(_, ifExpr, cond, elseExpr) =>
      EvalGrows(cond); EvalGrows(ifExpr); EvalGrows(elseExpr); BranchGrows(EvalF(ifExpr), EvalF(elseExpr));
      ThenGrows(EvalF(cond), BranchF(EvalF(ifExpr), EvalF(elseExpr)));
  }

  lemma {:induction false} DriveE(e: Expr, v: Var, h: bool, g: Goal, k: bool) returns (ch: seq<nat>)
    requires MayE(e, v, h, g, k)
    ensures Drives(EvalF(e), v, h, g, k, ch)
    decreases e, 5
  {
    BodyIs(e);
    BodyGrows(e);
    if g == Visits(e.id) && k == h {
      ch := [];
      DriveVisit(BodyF(e), EvalF(e), e.id, v, h);
    } else {
      ch := DriveBody(e, v, h, g, k);
      DriveReach(BodyF(e), EvalF(e), e.id, v, h, g, k, ch);
    }
  }

  lemma {:induction false} DriveBody(e: Expr, v: Var, h: bool, g: Goal, k: bool) returns (ch: seq<nat>)
    requires MayE(e, v, h, g, k) && !(g == Visits(e.id) && k == h)
    ensures Drives(BodyF(e), v, h, g, k, ch)
    decreases e, 4
  {
    match e
    case Leaf(_, ops) => ch := DriveOps(ops, v, h, g, k);
    case Call(_, callee, args) =>
      EvalGrows(callee);
      AllGrows(args);
      if Abrupt(g) && MayE(callee, v, h, g, k) {
        ch := DriveE(callee, v, h, g, k);
        DriveFirst(EvalF(callee), AllThenRaiseF(args), v, h, g, k, ch);
      } else {
        var m :| MayE(callee, v, h, Ends(Normal), m) && MayAllThenRaise(args, v, m, g, k);
        var ch1 := DriveE(callee, v, h, Ends(Normal), m);
        var ch2 := DriveAllThenRaise(args, v, m, g, k);
        DriveThen(EvalF(callee), AllThenRaiseF(args), v, h, m, g, k, ch1, ch2);
        ch := ch1 + ch2;
      }
    case Dict(_, items) => ch := DriveAllThenRaise(items, v, h, g, k);
    case Index(_, base, index) => ch := DriveIndex(e, v, h, g, k);
    case Slice(_, parts) => ch := DriveAllThenRaise(parts, v, h, g, k);
    case ListComp(_, generator) => ch := DriveE(generator, v, h, g, k);
    case Walrus(_, target, value) =>
      EvalGrows(value);
      if Abrupt(g) {
        ch := DriveE(value, v, h, g, k);
        DriveBindF({target}, v, h);
        DriveFirst(EvalF(value), BindF({target}), v, h, g, k, ch);
      } else {
        var m :| MayE(value, v, h, g, m) && k == (m || v == target);
        ch := DriveE(value, v, h, g, m);
        DriveBindF({target}, v, m);
        DriveThen(EvalF(value), BindF({target}), v, h, m, g, k, ch, []);
        ch := ch + [];
      }
    case Op(_, _, _, _, _) => ch := DriveOp(e, v, h, g, k);
    case Cond(_, _, _, _) => ch := DriveCond(e, v, h, g, k);
  }

  lemma {:induction false} DriveIndex(e: Expr, v: Var, h: bool, g: Goal, k: bool) returns (ch: seq<nat>)
    requires e.Index? && MayE(e, v, h, g, k) && !(g == Visits(e.id) && k == h)
    ensures Drives(BodyF(e), v, h, g, k, ch)
    decreases e, 3
  {
    EvalGrows(e.base);
    EvalGrows(e.index);
    RaiseGrows();
    ThenGrows(EvalF(e.index), RaiseF());
    if Abrupt(g) && MayE(e.base, v, h, g, k) {
      ch := DriveE(e.base, v, h, g, k);
      DriveFirst(EvalF(e.base), ThenF(EvalF(e.index), RaiseF()), v, h, g, k, ch);
    } else {
      var m :| MayE(e.base, v, h, Ends(Normal), m) && MayThenRaise(e.index, v, m, g, k);
      var ch1 := DriveE(e.base, v, h, Ends(Normal), m);
      var ch2 := DriveThenRaise(e.index, v, m, g, k);
      DriveThen(EvalF(e.base), ThenF(EvalF(e.index), RaiseF()), v, h, m, g, k, ch1, ch2);
      ch := ch1 + ch2;
    }
  }

  lemma {:induction false} DriveThenRaise(e: Expr, v: Var, h: bool, g: Goal, k: bool) returns (ch: seq<nat>)
    requires MayThenRaise(e, v, h, g, k)
    ensures Drives(ThenF(EvalF(e), RaiseF()), v, h, g, k, ch)
    decreases e, 6
  {
    EvalGrows(e);
    RaiseGrows();
    if Abrupt(g) && MayE(e, v, h, g, k) {
      ch := DriveE(e, v, h, g, k);
      DriveFirst(EvalF(e), RaiseF(), v, h, g, k, ch);
    } else {
      var ch1 := DriveE(e, v, h, Ends(Normal), k);
      var ch2 := DriveRaise(v, k, g);
      DriveThen(EvalF(e), RaiseF(), v, h, k, g, k, ch1, ch2);
      ch := ch1 + ch2;
    }
  }

  lemma {:induction false} DriveOp(e: Expr, v: Var, h: bool, g: Goal, k: bool) returns (ch: seq<nat>)
    requires e.Op? && MayE(e, v, h, g, k) && !(g == Visits(e.id) && k == h)
    ensures Drives(BodyF(e), v, h, g, k, ch)
    decreases e, 3
  {
    EvalGrows(e.left);
    RightGrows(e);
    if Abrupt(g) && MayE(e.left, v, h, g, k) {
      ch := DriveE(e.left, v, h, g, k);
      DriveFirst(EvalF(e.left), RightF(e), v, h, g, k, ch);
    } else {
      var m :| MayE(e.left, v, h, Ends(Normal), m) &&
               (MayThenRaise(e.right, v, m, g, k) || (MaySkip(e) && OrRaises(g) && k == m));
      var ch1 := DriveE(e.left, v, h, Ends(Normal), m);
      var ch2: seq<nat>;
      if MayThenRaise(e.right, v, m, g, k) {
        ch2 := DriveThenRaise(e.right, v, m, g, k);
        DriveChoose(ThenF(EvalF(e.right), RaiseF()), RightF(e), 1, v, m, g, k, ch2);
        ch2 := [1] + ch2;
      } else {
        ch2 := DriveRaise(v, m, g);
        DriveChoose(RaiseF(), RightF(e), 0, v, m, g, k, ch2);
        ch2 := [0] + ch2;
      }
      DriveThen(EvalF(e.left), RightF(e), v, h, m, g, k, ch1, ch2);
      ch := ch1 + ch2;
    }
  }

  lemma {:induction false} DriveCond(e: Expr, v: Var, h: bool, g: Goal, k: bool) returns (ch: seq<nat>)
    requires e.Cond? && MayE(e, v, h, g, k) && !(g == Visits(e.id) && k == h)
    ensures Drives(BodyF(e), v, h, g, k, ch)
    decreases e, 3
  {
    var branches := BranchF(EvalF(e.ifExpr), EvalF(e.elseExpr));
    EvalGrows(e.cond);
    EvalGrows(e.ifExpr);
    EvalGrows(e.elseExpr);
    BranchGrows(EvalF(e.ifExpr), EvalF(e.elseExpr));
    if Abrupt(g) && MayE(e.cond, v, h, g, k) {
      ch := DriveE(e.cond, v, h, g, k);
      DriveFirst(EvalF(e.cond), branches, v, h, g, k, ch);
    } else {
      var m :| MayE(e.cond, v, h, Ends(Normal), m) && (MayE(e.ifExpr, v, m, g, k) || MayE(e.elseExpr, v, m, g, k));
      var ch1 := DriveE(e.cond, v, h, Ends(Normal), m);
      var first := MayE(e.ifExpr, v, m, g, k);
      var ch2 := DriveE(if first then e.ifExpr else e.elseExpr, v, m, g, k);
      ch2 := DriveBranch(EvalF(e.ifExpr), EvalF(e.elseExpr), first, v, m, g, k, ch2);
      DriveThen(EvalF(e.cond), branches, v, h, m, g, k, ch1, ch2);
      ch := ch1 + ch2;
    }
  }

  lemma DriveBranch(f: State -> Run, f2: State -> Run, first: bool, v: Var, h: bool, g: Goal, k: bool, ch: seq<nat>)
    returns (ch2: seq<nat>)
    requires Drives(if first then f else f2, v, h, g, k, ch)
    ensures Drives(BranchF(f, f2), v, h, g, k, ch2)
  {
    var c := if first then 1 else 0;
    DriveChoose(if first then f else f2, BranchF(f, f2), c, v, h, g, k, ch);
    ch2 := [c] + ch;
  }

  lemma {:induction false} DriveAll(es: seq<Expr>, v: Var, h: bool, g: Goal, k: bool) returns (ch: seq<nat>)
    requires MayAll(es, v, h, g, k)
    ensures Drives(AllF(es), v, h, g, k, ch)
    decreases es, 0
  {
    if es == [] {
      ch := [];
      DriveEnd(AllF(es), v, h, Normal, h);
    } else {
      var f, f2 := EvalF(es[0]), AllF(es[1..]);
      EvalGrows(es[0]);
      AllGrows(es[1..]);
      if Abrupt(g) && MayE(es[0], v, h, g, k) {
        ch := DriveE(es[0], v, h, g, k);
        DriveFirst(f, f2, v, h, g, k, ch);
      } else {
        var m :| MayE(es[0], v, h, Ends(Normal), m) && MayAll(es[1..], v, m, g, k);
        var ch1 := DriveE(es[0], v, h, Ends(Normal), m);
        var ch2 := DriveAll(es[1..], v, m, g, k);
        DriveThen(f, f2, v, h, m, g, k, ch1, ch2);
        ch := ch1 + ch2;
      }
      DriveSame(ThenF(f, f2), AllF(es), v, h, g, k, ch);
    }
  }

  lemma {:induction false} DriveAllThenRaise(es: seq<Expr>, v: Var, h: bool, g: Goal, k: bool) returns (ch: seq<nat>)
    requires MayAllThenRaise(es, v, h, g, k)
    ensures Drives(AllThenRaiseF(es), v, h, g, k, ch)
    decreases es, 1
  {
    AllGrows(es);
    RaiseGrows();
    if Abrupt(g) && MayAll(es, v, h, g, k) {
      ch := DriveAll(es, v, h, g, k);
      DriveFirst(AllF(es), RaiseF(), v, h, g, k, ch);
    } else {
      var ch1 := DriveAll(es, v, h, Ends(Normal), k);
      var ch2 := DriveRaise(v, k, g);
      DriveThen(AllF(es), RaiseF(), v, h, k, g, k, ch1, ch2);
      ch := ch1 + ch2;
    }
    DriveSame(ThenF(AllF(es), RaiseF()), AllThenRaiseF(es), v, h, g, k, ch);
  }

  lemma {:induction false} DriveAny(es: seq<Expr>, v: Var, h: bool, g: Goal, k: bool) returns (j: nat, ch: seq<nat>)
    requires MayAny(es, v, h, g, k)
    ensures j < |es| && Drives(EvalF(es[j]), v, h, g, k, ch)
    decreases es, 0
  {
    if MayE(es[0], v, h, g, k) {
      j := 0;
      ch := DriveE(es[0], v, h, g, k);
    } else {
      j, ch := DriveAny(es[1..], v, h, g, k);
      j := j + 1;
    }
  }

  lemma {:induction false} DriveSome(es: seq<Expr>, v: Var, h: bool, g: Goal, k: bool) returns (ch: seq<nat>)
    requires MaySome(es, v, h, g, k)
    ensures Drives(SomeF(es), v, h, g, k, ch)
    decreases es, 2
  {
    SomeGrows(es);
    if OrRaises(g) && SomeHead(es, v, h, k) {
      var c := if g == Ends(Normal) then 0 else 1;
      DriveEndF(v, k, g.out);
      DriveChoose(EndF(g.out), SomeF(es), c, v, k, g, k, []);
      ch := DriveSomeOn(es, v, h, k, g, k, [c] + []);
    } else {
      var m: bool :| SomeHead(es, v, h, m) && MayAny(es, v, m, g, k);
      var j, ch2 := DriveAny(es, v, m, g, k);
      EvalGrows(es[j]);
      DriveFirst(EvalF(es[j]), SomeF(es), v, m, g, k, ch2);
      SomeTurn(es, j);
      DriveChoose(ThenF(EvalF(es[j]), SomeF(es)), SomeF(es), j + 2, v, m, g, k, ch2);
      ch := DriveSomeOn(es, v, h, m, g, k, [j + 2] + ch2);
    }
  }

  lemma SomeTurn(es: seq<Expr>, j: nat)
    requires j < |es|
    ensures forall st: State :: st.ch != [] && st.ch[0] == j + 2 ==>
              SomeF(es)(st) == ThenF(EvalF(es[j]), SomeF(es))(st.Choose())
  {
    assert (j + 2 - 2) % |es| == j;
  }

  // one step before
  lemma {:induction false} DriveSomeOn(es: seq<Expr>, v: Var, h: bool, m: bool, g: Goal, k: bool, ch: seq<nat>)
    returns (ch2: seq<nat>)
    requires SomeHead(es, v, h, m) && Drives(SomeF(es), v, m, g, k, ch)
    ensures Drives(SomeF(es), v, h, g, k, ch2)
    decreases es, 1
  {
    if m == h {
      ch2 := ch;
    } else {
      var j, ch1 := DriveAny(es, v, h, Ends(Normal), m);
      EvalGrows(es[j]);
      DriveThen(EvalF(es[j]), SomeF(es), v, h, m, g, k, ch1, ch);
      SomeTurn(es, j);
      DriveChoose(ThenF(EvalF(es[j]), SomeF(es)), SomeF(es), j + 2, v, h, g, k, ch1 + ch);
      ch2 := [j + 2] + (ch1 + ch);
    }
  }

  lemma {:induction false} DriveOps(ops: Operands, v: Var, h: bool, g: Goal, k: bool) returns (ch: seq<nat>)
    requires MayOps(ops, v, h, g, k)
    ensures Drives(OpsF(ops), v, h, g, k, ch)
    decreases ops, 0
  {
    var f, f2 := AllF(ops.always), SomeF(ops.perhaps);
    AllGrows(ops.always);
    SomeGrows(ops.perhaps);
    if Abrupt(g) && MayAll(ops.always, v, h, g, k) {
      ch := DriveAll(ops.always, v, h, g, k);
      DriveFirst(f, f2, v, h, g, k, ch);
    } else {
      var m :| MayAll(ops.always, v, h, Ends(Normal), m) && MaySome(ops.perhaps, v, m, g, k);
      var ch1 := DriveAll(ops.always, v, h, Ends(Normal), m);
      var ch2 := DriveSome(ops.perhaps, v, m, g, k);
      DriveThen(f, f2, v, h, m, g, k, ch1, ch2);
      ch := ch1 + ch2;
    }
    DriveSame(ThenF(f, f2), OpsF(ops), v, h, g, k, ch);
  }

  // ---- statements

  ghost function OptionF(e: Option<Expr>): State -> Run { (st: State) => EvalO(e, st) }
  ghost function StoreF(lv: Lvalue): State -> Run { (st: State) => Store(lv, st) }
  ghost function StoreAllF(lvs: seq<Lvalue>): State -> Run { (st: State) => StoreAll(lvs, st) }
  ghost function ExecF(s: Stmt): State -> Run { (st: State) => Exec(s, st) }
  ghost function BlockF(b: seq<Stmt>): State -> Run { (st: State) => ExecBlock(b, st) }
  ghost function RepeatF(s: Stmt): State -> Run requires s.While? { (st: State) => Repeat(s, st) }
  ghost function IterateF(s: Stmt): State -> Run requires s.For? { (st: State) => Iterate(s, st) }
  ghost function ProtectF(s: Stmt): State -> Run requires s.Try? { (st: State) => Protect(s, st) }
  ghost function HandleF(hs: seq<Handler>): State -> Run { (st: State) => Handle(hs, st) }
  ghost function CatchF(hd: Handler): State -> Run { (st: State) => Catch(hd, st) }
  ghost function EnterF(ws: seq<WithItem>): State -> Run { (st: State) => Enter(ws, st) }
  ghost function EnterOneF(ws: seq<WithItem>): State -> Run requires ws != [] { (st: State) => EnterOne(ws, st) }
  ghost function ExitF(b: seq<Stmt>, swallows: bool): State -> Run { (st: State) => Exit(b, swallows, st) }
  ghost function SelectF(cs: seq<Case>): State -> Run { (st: State) => Select(cs, st) }
  ghost function CaseF(cs: seq<Case>): State -> Run requires cs != [] { (st: State) => TryCase(cs, st) }

  // a loop's body, and then what follows
  ghost function LoopF(b: seq<Stmt>, again: State -> Run): State -> Run {
    (st: State) =>
      var rb := ExecBlock(b, st);
      if rb.out == Normal || rb.out == Continued then again(rb.st)
      else if rb.out == Broke then Run(Normal, rb.st)
      else rb
  }

  lemma FinishGrows(b: seq<Stmt>, st: State, rm: Run)
    requires Longer(st, rm)
    ensures Longer(st, Finish(b, rm))
  {
    SeesB("", b, rm.st);
  }

  lemma ProtectLonger(s: Stmt, st: State)
    requires s.Try?
    ensures Longer(st, Protect(s, st))
  {
    SeesProtect("", s, st);
  }

  ghost function FinishF(b: seq<Stmt>, o: Outcome): State -> Run { (st: State) => Finish(b, Run(o, st)) }

  ghost function TryF(s: Stmt): State -> Run
    requires s.Try?
  {
    (st: State) => TryRun(s, st)
  }

  // what managers make of a body that ended with o
  ghost function AfterF(swallows: bool, o: Outcome): State -> Run {
    (st: State) =>
      if st.ch == [] then Run(Cut, st)
      else if st.ch[0] == 0 then Run(o, st.Choose())
      else if swallows && o == Raised && st.ch[0] == 1 then Run(Normal, st.Choose())
      else Run(Raised, st.Choose())
  }

  ghost function StmtF(s: Stmt): State -> Run {
    match s
    case Simple(_, ops, binds) => ThenF(OpsF(ops), BindF(binds))
    case Del(_, vars) => ThenF(RaiseF(), (st: State) => Run(Normal, st.Unbind(vars)))
    case Break(_) => EndF(Broke)
    case Continue(_) => EndF(Continued)
    case ExprStmt(_, e) => EvalF(e)
    case Assign(_, lvs, rvalue) => if rvalue.None? then EndF(Normal) else ThenF(EvalF(rvalue.value), StoreAllF(lvs))
    case TypeAlias(_, name) => BindF({name})
    case Class(_, ops, name) => ThenF(OpsF(ops), BindF({name}))
    case Return(_, e) => ThenF(OptionF(e), EndF(Returned))
    case Raise(_, e) => ThenF(OptionF(e), EndF(Raised))
    case If(_, test, body, orelse) => ThenF(EvalF(test), BranchF(BlockF(body), BlockF(orelse)))
    case While(_, _, _, _) => RepeatF(s)
    case For(_, _, iter, _, _) => ThenF(EvalF(iter), IterateF(s))
    case Try(_, _, _, _, _) => TryF(s)
    case With(_, items, body, swallows) => ThenF(EnterF(items), ExitF(body, swallows))
    case Match(_, subject, cases) => ThenF(EvalF(subject), SelectF(cases))
  }

  lemma StmtIs(s: Stmt)
    ensures forall st: State :: ExecF(s)(st) == StmtF(s)(st.Reach(s.id))
  {
    if s.Try? {
      TryStmtIs(s, StmtF(s));
    } else {
      forall st: State ensures ExecF(s)(st) == StmtF(s)(st.Reach(s.id)) { StmtHere(s, st); }
    }
  }

  lemma {:induction false} StmtHere(s: Stmt, st: State)
    requires !s.Try?
    ensures Exec(s, st) == StmtF(s)(st.Reach(s.id))
  {
    match s
    case If(_, _, _, _) => IfHere(s, st);
    case With(_, _, _, _) => WithHere(s, st);
    case For(_, _, _, _, _) =>
    case Match(_, _, _) =>
    case While(_, _, _, _) =>
    case _ => SimpleHere(s, st);
  }

  lemma {:induction false} SimpleHere(s: Stmt, st: State)
    requires !s.If? && !s.While? && !s.For? && !s.Try? && !s.With? && !s.Match?
    ensures Exec(s, st) == StmtF(s)(st.Reach(s.id))
  {
  }

  lemma {:induction false} IfHere(s: Stmt, st: State)
    requires s.If?
    ensures Exec(s, st) == StmtF(s)(st.Reach(s.id))
  {
    var st1 := st.Reach(s.id);
    var r := Eval(s.test, st1);
    assert StmtF(s)(st1) == if r.out != Normal then r else BranchF(BlockF(s.body), BlockF(s.orelse))(r.st);
  }

  lemma TryOn(s: Stmt, o: Outcome)
    requires s.Try? && o != Cut
    ensures Follows(ProtectF(s), FinishF(s.final, o), TryF(s), o)
  {
  }

  lemma TryBegins(s: Stmt)
    requires s.Try?
    ensures Begins(ProtectF(s), TryF(s))
  {
    forall st: State ensures Longer(ProtectF(s)(st).st, TryF(s)(st)) {
      FinishGrows(s.final, Protect(s, st).st, Protect(s, st));
    }
  }

  lemma TryStmtIs(s: Stmt, f: State -> Run)
    requires s.Try? && f == TryF(s)
    ensures forall st: State :: ExecF(s)(st) == f(st.Reach(s.id))
  {
    forall st: State ensures ExecF(s)(st) == f(st.Reach(s.id)) { TryRunIs(s, st); }
  }

  lemma {:induction false} WithHere(s: Stmt, st: State)
    requires s.With?
    ensures Exec(s, st) == StmtF(s)(st.Reach(s.id))
  {
    var st1 := st.Reach(s.id);
    var r := Enter(s.items, st1);
    assert StmtF(s)(st1) == if r.out != Normal then r else Exit(s.body, s.swallows, r.st);
  }

  lemma EndGrows(o: Outcome)
    ensures Grows(EndF(o))
  {
  }

  lemma ProtectGrows(s: Stmt)
    requires s.Try?
    ensures Grows(ProtectF(s))
  {
    forall st: State ensures Longer(st, ProtectF(s)(st)) { ProtectLonger(s, st); }
  }

  lemma TryGrows(s: Stmt)
    requires s.Try?
    ensures Grows(TryF(s))
  {
    forall st: State ensures Longer(st, TryF(s)(st)) {
      ProtectLonger(s, st);
      FinishGrows(s.final, st, Protect(s, st));
    }
  }

  lemma RepeatGrows(s: Stmt)
    requires s.While?
    ensures Grows(RepeatF(s))
  {
    forall st: State ensures Longer(st, RepeatF(s)(st)) { SeesRepeat("", s, st); }
  }

  lemma IterateGrows(s: Stmt)
    requires s.For?
    ensures Grows(IterateF(s))
  {
    forall st: State ensures Longer(st, IterateF(s)(st)) { SeesIterate("", s, st); }
  }

  lemma HandleGrows(hs: seq<Handler>)
    ensures Grows(HandleF(hs))
  {
    forall st: State ensures Longer(st, HandleF(hs)(st)) { SeesHandle("", hs, st); }
  }

  lemma CatchGrows(hd: Handler)
    ensures Grows(CatchF(hd))
  {
    forall st: State ensures Longer(st, CatchF(hd)(st)) { SeesCatch("", hd, st); }
  }

  lemma EnterGrows(ws: seq<WithItem>)
    ensures Grows(EnterF(ws)) && (ws != [] ==> Grows(EnterOneF(ws)))
  {
    forall st: State ensures Longer(st, EnterF(ws)(st)) { SeesEnter("", ws, st); }
    if ws != [] {
      forall st: State ensures Longer(st, EnterOneF(ws)(st)) { SeesEnterOne("", ws, st); }
    }
  }

  lemma ExitGrows(b: seq<Stmt>, swallows: bool)
    ensures Grows(ExitF(b, swallows))
  {
    forall st: State ensures Longer(st, ExitF(b, swallows)(st)) { SeesExit("", b, swallows, st); }
  }

  lemma SelectGrows(cs: seq<Case>)
    ensures Grows(SelectF(cs)) && (cs != [] ==> Grows(CaseF(cs)))
  {
    forall st: State ensures Longer(st, SelectF(cs)(st)) { SeesSelect("", cs, st); }
    if cs != [] {
      forall st: State ensures Longer(st, CaseF(cs)(st)) { SeesCase("", cs, st); }
    }
  }

  lemma OptionGrows(e: Option<Expr>)
    ensures Grows(OptionF(e))
  {
    forall st: State ensures Longer(st, OptionF(e)(st)) { SeesO("", e, st); }
  }

  lemma TryStmtGrows(s: Stmt)
    requires s.Try?
    ensures Grows(StmtF(s))
  {
    TryGrows(s);
    assert StmtF(s) == TryF(s);
  }

  lemma StmtGrows(s: Stmt)
    ensures Grows(StmtF(s))
  {
    match s
    case If(_, test, body, orelse) =>
      EvalGrows(test); BlockGrows(body); BlockGrows(orelse); BranchGrows(BlockF(body), BlockF(orelse));
      ThenGrows(EvalF(test), BranchF(BlockF(body), BlockF(orelse)));
    case While(_, _, _, _) => RepeatGrows(s);
    case For(_, _, iter, _, _) => EvalGrows(iter); IterateGrows(s); ThenGrows(EvalF(iter), IterateF(s));
    case Try(_, _, _, _, _) => TryStmtGrows(s);
    case With(_, items, body, swallows) =>
      EnterGrows(items); ExitGrows(body, swallows); ThenGrows(EnterF(items), ExitF(body, swallows));
    case Match(_, subject, cases) => EvalGrows(subject); SelectGrows(cases); ThenGrows(EvalF(subject), SelectF(cases));
    case _ => SimpleGrows(s);
  }

  lemma SimpleGrows(s: Stmt)
    requires !s.If? && !s.While? && !s.For? && !s.Try? && !s.With? && !s.Match?
    ensures Grows(StmtF(s))
  {
    RaiseGrows();
    match s
    case Simple(_, ops, binds) => OpsGrows(ops); DriveBindF(binds, "", false); ThenGrows(OpsF(ops), BindF(binds));
    case Del(_, vars) => ThenGrows(RaiseF(), (st: State) => Run(Normal, st.Unbind(vars)));
    case ExprStmt(_, e) => EvalGrows(e);
    case Assign(_, lvs, rvalue) =>
      if rvalue.Some? { EvalGrows(rvalue.value); StoreAllGrows(lvs); ThenGrows(EvalF(rvalue.value), StoreAllF(lvs)); }
    case TypeAlias(_, name) => DriveBindF({name}, "", false);
    case Class(_, ops, name) => OpsGrows(ops); DriveBindF({name}, "", false); ThenGrows(OpsF(ops), BindF({name}));
    case Return(_, e) => OptionGrows(e); EndGrows(Returned); ThenGrows(OptionF(e), EndF(Returned));
    case Raise(_, e) => OptionGrows(e); EndGrows(Raised); ThenGrows(OptionF(e), EndF(Raised));
    case _ =>
  }

  lemma BlockGrows(b: seq<Stmt>)
    ensures Grows(BlockF(b))
  {
    forall st: State ensures Longer(st, BlockF(b)(st)) { SeesB("", b, st); }
  }

  lemma StoreGrows(lv: Lvalue)
    ensures Grows(StoreF(lv))
  {
    forall st: State ensures Longer(st, StoreF(lv)(st)) { SeesStore("", lv, st); }
  }

  lemma StoreAllGrows(lvs: seq<Lvalue>)
    ensures Grows(StoreAllF(lvs))
  {
    forall st: State ensures Longer(st, StoreAllF(lvs)(st)) { SeesStoreAll("", lvs, st); }
  }

  lemma {:induction false} DriveOpsBind(ops: Operands, binds: set<Var>, v: Var, h: bool, g: Goal, k: bool)
    returns (ch: seq<nat>)
    requires MayOpsBind(ops, binds, v, h, g, k)
    ensures Drives(ThenF(OpsF(ops), BindF(binds)), v, h, g, k, ch)
  {
    OpsGrows(ops);
    if Abrupt(g) {
      ch := DriveOps(ops, v, h, g, k);
      DriveBindF(binds, v, h);
      DriveFirst(OpsF(ops), BindF(binds), v, h, g, k, ch);
    } else {
      var m :| MayOps(ops, v, h, g, m) && k == (m || v in binds);
      ch := DriveOps(ops, v, h, g, m);
      DriveBindF(binds, v, m);
      DriveThen(OpsF(ops), BindF(binds), v, h, m, g, k, ch, []);
      ch := ch + [];
    }
  }

  lemma {:induction false} DriveStore(lv: Lvalue, v: Var, h: bool, g: Goal, k: bool) returns (ch: seq<nat>)
    requires MayStore(lv, v, h, g, k)
    ensures Drives(StoreF(lv), v, h, g, k, ch)
    decreases lv, 1
  {
    match lv
    case NameTarget(x) =>
      ch := [];
      DriveBindF({x}, v, h);
      DriveSame(BindF({x}), StoreF(lv), v, h, g, k, ch);
    case TupleTarget(items) =>
      if MayStoreAll(items, v, h, g, k) {
        ch := DriveStoreAll(items, v, h, g, k);
        DriveChoose(StoreAllF(items), StoreF(lv), 0, v, h, g, k, ch);
        ch := [0] + ch;
      } else {
        DriveEndF(v, h, Raised);
        DriveChoose(EndF(Raised), StoreF(lv), 1, v, h, g, k, []);
        ch := [1] + [];
      }
    case OtherTarget(ops, binds) =>
      ch := DriveOpsBind(ops, binds, v, h, g, k);
      DriveSame(ThenF(OpsF(ops), BindF(binds)), StoreF(lv), v, h, g, k, ch);
  }

  lemma {:induction false} DriveStoreAll(lvs: seq<Lvalue>, v: Var, h: bool, g: Goal, k: bool) returns (ch: seq<nat>)
    requires MayStoreAll(lvs, v, h, g, k)
    ensures Drives(StoreAllF(lvs), v, h, g, k, ch)
    decreases lvs, 0
  {
    if lvs == [] {
      ch := [];
      DriveEnd(StoreAllF(lvs), v, h, Normal, h);
    } else {
      var f, f2 := StoreF(lvs[0]), StoreAllF(lvs[1..]);
      StoreGrows(lvs[0]);
      StoreAllGrows(lvs[1..]);
      if Abrupt(g) && MayStore(lvs[0], v, h, g, k) {
        ch := DriveStore(lvs[0], v, h, g, k);
        DriveFirst(f, f2, v, h, g, k, ch);
      } else {
        var m :| MayStore(lvs[0], v, h, Ends(Normal), m) && MayStoreAll(lvs[1..], v, m, g, k);
        var ch1 := DriveStore(lvs[0], v, h, Ends(Normal), m);
        var ch2 := DriveStoreAll(lvs[1..], v, m, g, k);
        DriveThen(f, f2, v, h, m, g, k, ch1, ch2);
        ch := ch1 + ch2;
      }
      DriveSame(ThenF(f, f2), StoreAllF(lvs), v, h, g, k, ch);
    }
  }

  lemma {:induction false} DriveS(s: Stmt, v: Var, h: bool, g: Goal, k: bool) returns (ch: seq<nat>)
    requires MayS(s, v, h, g, k) && g != Ends(Cut)
    ensures Drives(ExecF(s), v, h, g, k, ch)
    decreases s, 10
  {
    StmtIs(s);
    StmtGrows(s);
    if g == Visits(s.id) && k == h {
      ch := [];
      DriveVisit(StmtF(s), ExecF(s), s.id, v, h);
    } else {
      match s {
        case If(_, _, _, _) => assert MayIf(s, v, h, g, k); ch := DriveIf(s, v, h, g, k);
        case While(_, _, _, _) => ch := DriveRepeat(s, v, h, g, k);
        case For(_, _, _, _, _) => assert MayFor(s, v, h, g, k); ch := DriveFor(s, v, h, g, k);
        case Try(_, _, _, _, _) => assert MayTry(s, v, h, g, k); ch := DriveTry(s, v, h, g, k);
        case With(_, _, _, _) => assert MayWith(s, v, h, g, k); ch := DriveWith(s, v, h, g, k);
        case Match(_, _, _) => assert MayMatch(s, v, h, g, k); ch := DriveMatch(s, v, h, g, k);
        case _ => ch := DriveSimple(s, v, h, g, k);
      }
      DriveReach(StmtF(s), ExecF(s), s.id, v, h, g, k, ch);
    }
  }

  lemma DriveSimple(s: Stmt, v: Var, h: bool, g: Goal, k: bool) returns (ch: seq<nat>)
    requires !s.If? && !s.While? && !s.For? && !s.Try? && !s.With? && !s.Match?
    requires MayS(s, v, h, g, k) && g != Ends(Cut) && !(g == Visits(s.id) && k == h)
    ensures Drives(StmtF(s), v, h, g, k, ch)
  {
    match s
    case Simple(_, ops, binds) => ch := DriveOpsBind(ops, binds, v, h, g, k);
    case Del(_, vars) => ch := DriveDel(s, v, h, g, k);
    case Break(_) => ch := []; DriveEndF(v, h, Broke);
    case Continue(_) => ch := []; DriveEndF(v, h, Continued);
    case ExprStmt(_, e) => ch := DriveE(e, v, h, g, k);
    case Assign(_, lvs, rvalue) => ch := DriveAssign(s, v, h, g, k);
    case TypeAlias(_, name) => ch := []; DriveBindF({name}, v, h);
    case Class(_, ops, name) => ch := DriveOpsBind(ops, {name}, v, h, g, k);
    case Return(_, e) => ch := DriveLeaving(e, Returned, v, h, g, k);
    case Raise(_, e) => ch := DriveLeaving(e, Raised, v, h, g, k);
  }

  lemma DriveDel(s: Stmt, v: Var, h: bool, g: Goal, k: bool) returns (ch: seq<nat>)
    requires s.Del? && MayS(s, v, h, g, k) && !(g == Visits(s.id) && k == h)
    ensures Drives(StmtF(s), v, h, g, k, ch)
  {
    var unbind := (st: State) => Run(Normal, st.Unbind(s.vars));
    RaiseGrows();
    if g == Ends(Raised) {
      ch := DriveRaise(v, h, g);
      DriveFirst(RaiseF(), unbind, v, h, g, k, ch);
    } else {
      ch := DriveRaise(v, h, Ends(Normal));
      DriveEnd(unbind, v, h, Normal, k);
      DriveThen(RaiseF(), unbind, v, h, h, g, k, ch, []);
      ch := ch + [];
    }
  }

  lemma DriveAssign(s: Stmt, v: Var, h: bool, g: Goal, k: bool) returns (ch: seq<nat>)
    requires s.Assign? && MayS(s, v, h, g, k) && !(g == Visits(s.id) && k == h)
    ensures Drives(StmtF(s), v, h, g, k, ch)
  {
    if s.rvalue.None? {
      ch := [];
      DriveEndF(v, h, Normal);
    } else {
      var f, f2 := EvalF(s.rvalue.value), StoreAllF(s.lvalues);
      EvalGrows(s.rvalue.value);
      StoreAllGrows(s.lvalues);
      if Abrupt(g) && MayE(s.rvalue.value, v, h, g, k) {
        ch := DriveE(s.rvalue.value, v, h, g, k);
        DriveFirst(f, f2, v, h, g, k, ch);
      } else {
        var m :| MayE(s.rvalue.value, v, h, Ends(Normal), m) && MayStoreAll(s.lvalues, v, m, g, k);
        var ch1 := DriveE(s.rvalue.value, v, h, Ends(Normal), m);
        var ch2 := DriveStoreAll(s.lvalues, v, m, g, k);
        DriveThen(f, f2, v, h, m, g, k, ch1, ch2);
        ch := ch1 + ch2;
      }
    }
  }

  lemma DriveOption(e: Option<Expr>, v: Var, h: bool, g: Goal, k: bool) returns (ch: seq<nat>)
    requires MayO(e, v, h, g, k)
    ensures Drives(OptionF(e), v, h, g, k, ch)
  {
    if e.Some? {
      ch := DriveE(e.value, v, h, g, k);
      DriveSame(EvalF(e.value), OptionF(e), v, h, g, k, ch);
    } else {
      ch := [];
      DriveEnd(OptionF(e), v, h, Normal, h);
    }
  }

  // return and raise
  lemma DriveLeaving(e: Option<Expr>, o: Outcome, v: Var, h: bool, g: Goal, k: bool) returns (ch: seq<nat>)
    requires (Abrupt(g) && MayO(e, v, h, g, k)) || (g == Ends(o) && MayO(e, v, h, Ends(Normal), k))
    ensures Drives(ThenF(OptionF(e), EndF(o)), v, h, g, k, ch)
  {
    OptionGrows(e);
    EndGrows(o);
    if Abrupt(g) && MayO(e, v, h, g, k) {
      ch := DriveOption(e, v, h, g, k);
      DriveFirst(OptionF(e), EndF(o), v, h, g, k, ch);
    } else {
      ch := DriveOption(e, v, h, Ends(Normal), k);
      DriveEndF(v, k, o);
      DriveThen(OptionF(e), EndF(o), v, h, k, g, k, ch, []);
      ch := ch + [];
    }
  }

  lemma {:induction false} DriveB(b: seq<Stmt>, v: Var, h: bool, g: Goal, k: bool) returns (ch: seq<nat>)
    requires MayB(b, v, h, g, k) && g != Ends(Cut)
    ensures Drives(BlockF(b), v, h, g, k, ch)
    decreases b, 0
  {
    if b == [] {
      ch := [];
      DriveEnd(BlockF(b), v, h, Normal, h);
    } else {
      var f, f2 := ExecF(b[0]), BlockF(b[1..]);
      ExecGrows(b[0]);
      BlockGrows(b[1..]);
      if Abrupt(g) && MayS(b[0], v, h, g, k) {
        ch := DriveS(b[0], v, h, g, k);
        DriveFirst(f, f2, v, h, g, k, ch);
      } else {
        var m :| MayS(b[0], v, h, Ends(Normal), m) && MayB(b[1..], v, m, g, k);
        var ch1 := DriveS(b[0], v, h, Ends(Normal), m);
        var ch2 := DriveB(b[1..], v, m, g, k);
        DriveThen(f, f2, v, h, m, g, k, ch1, ch2);
        ch := ch1 + ch2;
      }
      DriveSame(ThenF(f, f2), BlockF(b), v, h, g, k, ch);
    }
  }

  lemma ExecGrows(s: Stmt)
    ensures Grows(ExecF(s))
  {
    forall st: State ensures Longer(st, ExecF(s)(st)) { SeesS("", s, st); }
  }

  lemma {:induction false} DriveIf(s: Stmt, v: Var, h: bool, g: Goal, k: bool) returns (ch: seq<nat>)
    requires s.If? && MayIf(s, v, h, g, k) && g != Ends(Cut)
    ensures Drives(StmtF(s), v, h, g, k, ch)
    decreases s, 8
  {
    var branches := BranchF(BlockF(s.body), BlockF(s.orelse));
    EvalGrows(s.test);
    BlockGrows(s.body);
    BlockGrows(s.orelse);
    BranchGrows(BlockF(s.body), BlockF(s.orelse));
    if Abrupt(g) && MayE(s.test, v, h, g, k) {
      ch := DriveE(s.test, v, h, g, k);
      DriveFirst(EvalF(s.test), branches, v, h, g, k, ch);
    } else {
      var m :| MayE(s.test, v, h, Ends(Normal), m) && (MayB(s.body, v, m, g, k) || MayB(s.orelse, v, m, g, k));
      var ch1 := DriveE(s.test, v, h, Ends(Normal), m);
      var first := MayB(s.body, v, m, g, k);
      var ch2 := DriveB(if first then s.body else s.orelse, v, m, g, k);
      ch2 := DriveBranch(BlockF(s.body), BlockF(s.orelse), first, v, m, g, k, ch2);
      DriveThen(EvalF(s.test), branches, v, h, m, g, k, ch1, ch2);
      ch := ch1 + ch2;
    }
  }

  // ---- loops

  lemma {:induction false} DriveLeave(b: seq<Stmt>, again: State -> Run, v: Var, h: bool, g: Goal, k: bool)
    returns (ch: seq<nat>)
    requires MayLeave(b, v, h, g, k) && g != Ends(Cut) && Grows(again)
    ensures Drives(LoopF(b, again), v, h, g, k, ch)
    decreases b, 1
  {
    BlockGrows(b);
    if g == Ends(Normal) {
      ch := DriveB(b, v, h, Ends(Broke), k);
      DriveEndF(v, k, Normal);
      DriveOn(BlockF(b), EndF(Normal), LoopF(b, again), v, h, Broke, k, g, k, ch, []);
      ch := ch + [];
    } else {
      ch := DriveB(b, v, h, g, k);
      forall st: State ensures Longer(BlockF(b)(st).st, LoopF(b, again)(st)) {
        assert Longer(BlockF(b)(st).st, again(BlockF(b)(st).st));
      }
      DriveStop(BlockF(b), LoopF(b, again), v, h, g, k, ch);
    }
  }

  lemma {:induction false} DriveTurn(b: seq<Stmt>, again: State -> Run, v: Var, h: bool, m: bool, g: Goal, k: bool,
                                     ch: seq<nat>)
    returns (ch2: seq<nat>)
    requires MayTurn(b, v, h, m) && Drives(again, v, m, g, k, ch)
    ensures Drives(LoopF(b, again), v, h, g, k, ch2)
    decreases b, 1
  {
    BlockGrows(b);
    var o := if MayB(b, v, h, Ends(Normal), m) then Normal else Continued;
    var ch1 := DriveB(b, v, h, Ends(o), m);
    DriveOn(BlockF(b), again, LoopF(b, again), v, h, o, m, g, k, ch1, ch);
    ch2 := ch1 + ch;
  }

  ghost function RepeatBranchF(s: Stmt): State -> Run
    requires s.While?
  {
    BranchF(LoopF(s.body, RepeatF(s)), BlockF(s.orelse))
  }

  lemma RepeatIs(s: Stmt)
    requires s.While?
    ensures forall st: State :: RepeatF(s)(st) == ThenF(EvalF(s.test), RepeatBranchF(s))(st)
    ensures Grows(RepeatF(s)) && Grows(RepeatBranchF(s))
  {
    RepeatGrows(s);
    BlockGrows(s.body);
    BlockGrows(s.orelse);
    forall st: State ensures Longer(st, LoopF(s.body, RepeatF(s))(st)) {
      assert st.log <= BlockF(s.body)(st).st.log <= RepeatF(s)(BlockF(s.body)(st).st).st.log;
    }
    BranchGrows(LoopF(s.body, RepeatF(s)), BlockF(s.orelse));
    forall st: State ensures RepeatF(s)(st) == ThenF(EvalF(s.test), RepeatBranchF(s))(st) { RepeatAt(s, st); }
  }

  lemma {:induction false} RepeatAt(s: Stmt, st: State)
    requires s.While?
    ensures Repeat(s, st) == ThenF(EvalF(s.test), RepeatBranchF(s))(st)
  {
    var r := Eval(s.test, st);
    assert ThenF(EvalF(s.test), RepeatBranchF(s))(st) == if r.out != Normal then r else RepeatBranchF(s)(r.st);
  }

  lemma {:induction false} DriveRepeat(s: Stmt, v: Var, h: bool, g: Goal, k: bool) returns (ch: seq<nat>)
    requires s.While? && MayRepeat(s, v, h, g, k) && g != Ends(Cut)
    ensures Drives(RepeatF(s), v, h, g, k, ch)
    decreases s, 8
  {
    var m :| RepeatHead(s, v, h, m) && MayRepeatOnce(s, v, m, g, k);
    ch := DriveRepeatOnce(s, v, m, g, k);
    if m != h {
      var n :| MayE(s.test, v, h, Ends(Normal), n) && MayTurn(s.body, v, n, m);
      RepeatIs(s);
      EvalGrows(s.test);
      var ch1 := DriveE(s.test, v, h, Ends(Normal), n);
      var ch2 := DriveTurn(s.body, RepeatF(s), v, n, m, g, k, ch);
      ch2 := DriveBranch(LoopF(s.body, RepeatF(s)), BlockF(s.orelse), true, v, n, g, k, ch2);
      DriveThen(EvalF(s.test), RepeatBranchF(s), v, h, n, g, k, ch1, ch2);
      ch := ch1 + ch2;
      DriveSame(ThenF(EvalF(s.test), RepeatBranchF(s)), RepeatF(s), v, h, g, k, ch);
    }
  }

  lemma {:induction false} DriveRepeatOnce(s: Stmt, v: Var, h: bool, g: Goal, k: bool) returns (ch: seq<nat>)
    requires s.While? && MayRepeatOnce(s, v, h, g, k) && g != Ends(Cut)
    ensures Drives(RepeatF(s), v, h, g, k, ch)
    decreases s, 7
  {
    RepeatIs(s);
    EvalGrows(s.test);
    if Abrupt(g) && MayE(s.test, v, h, g, k) {
      ch := DriveE(s.test, v, h, g, k);
      DriveFirst(EvalF(s.test), RepeatBranchF(s), v, h, g, k, ch);
    } else {
      var m :| MayE(s.test, v, h, Ends(Normal), m) && (MayB(s.orelse, v, m, g, k) || MayLeave(s.body, v, m, g, k));
      var ch1 := DriveE(s.test, v, h, Ends(Normal), m);
      var leaves := MayLeave(s.body, v, m, g, k);
      var ch2: seq<nat>;
      if leaves {
        ch2 := DriveLeave(s.body, RepeatF(s), v, m, g, k);
      } else {
        ch2 := DriveB(s.orelse, v, m, g, k);
      }
      ch2 := DriveBranch(LoopF(s.body, RepeatF(s)), BlockF(s.orelse), leaves, v, m, g, k, ch2);
      DriveThen(EvalF(s.test), RepeatBranchF(s), v, h, m, g, k, ch1, ch2);
      ch := ch1 + ch2;
    }
    DriveSame(ThenF(EvalF(s.test), RepeatBranchF(s)), RepeatF(s), v, h, g, k, ch);
  }

  lemma {:induction false} DriveFor(s: Stmt, v: Var, h: bool, g: Goal, k: bool) returns (ch: seq<nat>)
    requires s.For? && MayFor(s, v, h, g, k) && g != Ends(Cut)
    ensures Drives(StmtF(s), v, h, g, k, ch)
    decreases s, 8
  {
    EvalGrows(s.iter);
    IterateGrows(s);
    if Abrupt(g) && MayE(s.iter, v, h, g, k) {
      ch := DriveE(s.iter, v, h, g, k);
      DriveFirst(EvalF(s.iter), IterateF(s), v, h, g, k, ch);
    } else {
      var m :| MayE(s.iter, v, h, Ends(Normal), m) && MayIterate(s, v, m, g, k);
      var ch1 := DriveE(s.iter, v, h, Ends(Normal), m);
      var ch2 := DriveIterate(s, v, m, g, k);
      DriveThen(EvalF(s.iter), IterateF(s), v, h, m, g, k, ch1, ch2);
      ch := ch1 + ch2;
    }
  }

  // one more item
  ghost function ItemF(s: Stmt): State -> Run
    requires s.For?
  {
    ThenF(StoreF(s.index), LoopF(s.body, IterateF(s)))
  }

  lemma IterateIs(s: Stmt)
    requires s.For?
    ensures forall st: State :: st.ch != [] && st.ch[0] == 2 ==> IterateF(s)(st) == ItemF(s)(st.Choose())
    ensures Grows(IterateF(s)) && Grows(LoopF(s.body, IterateF(s)))
  {
    IterateGrows(s);
    BlockGrows(s.body);
    forall st: State ensures Longer(st, LoopF(s.body, IterateF(s))(st)) {
      assert st.log <= BlockF(s.body)(st).st.log <= IterateF(s)(BlockF(s.body)(st).st).st.log;
    }
    forall st: State | st.ch != [] && st.ch[0] == 2 ensures IterateF(s)(st) == ItemF(s)(st.Choose()) {
      var r := Store(s.index, st.Choose());
      assert ItemF(s)(st.Choose()) == if r.out != Normal then r else LoopF(s.body, IterateF(s))(r.st);
    }
  }

  lemma {:induction false} DriveIterate(s: Stmt, v: Var, h: bool, g: Goal, k: bool) returns (ch: seq<nat>)
    requires s.For? && MayIterate(s, v, h, g, k) && g != Ends(Cut)
    ensures Drives(IterateF(s), v, h, g, k, ch)
    decreases s, 7
  {
    var m :| IterateHead(s, v, h, m) && MayIterateOnce(s, v, m, g, k);
    ch := DriveIterateOnce(s, v, m, g, k);
    if m != h {
      var n :| MayStore(s.index, v, h, Ends(Normal), n) && MayTurn(s.body, v, n, m);
      IterateIs(s);
      StoreGrows(s.index);
      var ch1 := DriveStore(s.index, v, h, Ends(Normal), n);
      var ch2 := DriveTurn(s.body, IterateF(s), v, n, m, g, k, ch);
      DriveThen(StoreF(s.index), LoopF(s.body, IterateF(s)), v, h, n, g, k, ch1, ch2);
      DriveChoose(ItemF(s), IterateF(s), 2, v, h, g, k, ch1 + ch2);
      ch := [2] + (ch1 + ch2);
    }
  }

  lemma {:induction false} DriveIterateOnce(s: Stmt, v: Var, h: bool, g: Goal, k: bool) returns (ch: seq<nat>)
    requires s.For? && MayIterateOnce(s, v, h, g, k) && g != Ends(Cut)
    ensures Drives(IterateF(s), v, h, g, k, ch)
    decreases s, 6
  {
    IterateIs(s);
    StoreGrows(s.index);
    if MayB(s.orelse, v, h, g, k) {
      ch := DriveB(s.orelse, v, h, g, k);
      DriveChoose(BlockF(s.orelse), IterateF(s), 0, v, h, g, k, ch);
      ch := [0] + ch;
    } else if g == Ends(Raised) && k == h {
      DriveEndF(v, h, Raised);
      DriveChoose(EndF(Raised), IterateF(s), 1, v, h, g, k, []);
      ch := [1] + [];
    } else {
      if Abrupt(g) && MayStore(s.index, v, h, g, k) {
        ch := DriveStore(s.index, v, h, g, k);
        DriveFirst(StoreF(s.index), LoopF(s.body, IterateF(s)), v, h, g, k, ch);
      } else {
        var m :| MayStore(s.index, v, h, Ends(Normal), m) && MayLeave(s.body, v, m, g, k);
        var ch1 := DriveStore(s.index, v, h, Ends(Normal), m);
        var ch2 := DriveLeave(s.body, IterateF(s), v, m, g, k);
        DriveThen(StoreF(s.index), LoopF(s.body, IterateF(s)), v, h, m, g, k, ch1, ch2);
        ch := ch1 + ch2;
      }
      DriveChoose(ItemF(s), IterateF(s), 2, v, h, g, k, ch);
      ch := [2] + ch;
    }
  }

  // ---- try

  lemma {:induction false} DriveTry(s: Stmt, v: Var, h: bool, g: Goal, k: bool) returns (ch: seq<nat>)
    requires s.Try? && MayTry(s, v, h, g, k) && g != Ends(Cut)
    ensures Drives(TryF(s), v, h, g, k, ch)
    decreases s, 9
  {
    if g.Visits? && MayProtect(s, v, h, g, k) {
      ch := DriveProtect(s, v, h, g, k);
      TryBegins(s);
      DriveStop(ProtectF(s), TryF(s), v, h, g, k, ch);
    } else {
      var o, m := TryEnds(s, v, h, g, k);
      ch := DriveTryOn(s, v, h, o, m, g, k);
    }
  }

  lemma TryEnds(s: Stmt, v: Var, h: bool, g: Goal, k: bool) returns (o: Outcome, m: bool)
    requires s.Try? && MayTry(s, v, h, g, k) && g != Ends(Cut)
    requires !(g.Visits? && MayProtect(s, v, h, g, k))
    ensures o != Cut && MayProtect(s, v, h, Ends(o), m) && MayFinish(s.final, o, v, m, g, k)
  {
    if g.Ends? && exists m: bool :: MayProtect(s, v, h, g, m) && MayB(s.final, v, m, Ends(Normal), k) {
      m :| MayProtect(s, v, h, g, m) && MayB(s.final, v, m, Ends(Normal), k);
      o := g.out;
    } else {
      o, m :| o != Cut && MayProtect(s, v, h, Ends(o), m) && MayB(s.final, v, m, g, k);
    }
  }

  lemma {:induction false} DriveTryOn(s: Stmt, v: Var, h: bool, o: Outcome, m: bool, g: Goal, k: bool)
    returns (ch: seq<nat>)
    requires s.Try? && o != Cut && g != Ends(Cut) && MayProtect(s, v, h, Ends(o), m) && MayFinish(s.final, o, v, m, g, k)
    ensures Drives(TryF(s), v, h, g, k, ch)
    decreases s, 8
  {
    ProtectGrows(s);
    var ch1 := DriveProtect(s, v, h, Ends(o), m);
    var ch2 := DriveFinish(s.final, o, v, m, g, k);
    TryOn(s, o);
    DriveOn(ProtectF(s), FinishF(s.final, o), TryF(s), v, h, o, m, g, k, ch1, ch2);
    ch := ch1 + ch2;
  }

  // the finally block completes and o stands, or it ends otherwise itself
  lemma {:induction false} DriveFinish(b: seq<Stmt>, o: Outcome, v: Var, h: bool, g: Goal, k: bool)
    returns (ch: seq<nat>)
    requires o != Cut && g != Ends(Cut)
    requires MayFinish(b, o, v, h, g, k)
    ensures Drives(FinishF(b, o), v, h, g, k, ch)
    decreases b, 1
  {
    BlockGrows(b);
    if g == Ends(o) && MayB(b, v, h, Ends(Normal), k) {
      ch := DriveB(b, v, h, Ends(Normal), k);
      DriveEndF(v, k, o);
      DriveOn(BlockF(b), EndF(o), FinishF(b, o), v, h, Normal, k, g, k, ch, []);
      ch := ch + [];
    } else {
      ch := DriveB(b, v, h, g, k);
      DriveStop(BlockF(b), FinishF(b, o), v, h, g, k, ch);
    }
  }

  lemma {:induction false} DriveProtect(s: Stmt, v: Var, h: bool, g: Goal, k: bool) returns (ch: seq<nat>)
    requires s.Try? && MayProtect(s, v, h, g, k) && g != Ends(Cut)
    ensures Drives(ProtectF(s), v, h, g, k, ch)
    decreases s, 7
  {
    BlockGrows(s.body);
    BlockGrows(s.orelse);
    HandleGrows(s.handlers);
    if !OrRaises(g) && MayB(s.body, v, h, g, k) {
      ch := DriveB(s.body, v, h, g, k);
      forall st: State ensures Longer(BlockF(s.body)(st).st, ProtectF(s)(st)) {
        var rb := BlockF(s.body)(st);
        assert Longer(rb.st, HandleF(s.handlers)(rb.st)) && Longer(rb.st, BlockF(s.orelse)(rb.st));
      }
      DriveStop(BlockF(s.body), ProtectF(s), v, h, g, k, ch);
    } else if exists m: bool :: MayB(s.body, v, h, Ends(Raised), m) && MayHandle(s.handlers, v, m, g, k) {
      var m: bool :| MayB(s.body, v, h, Ends(Raised), m) && MayHandle(s.handlers, v, m, g, k);
      ch := DriveB(s.body, v, h, Ends(Raised), m);
      var ch2 := DriveHandle(s.handlers, v, m, g, k);
      DriveOn(BlockF(s.body), HandleF(s.handlers), ProtectF(s), v, h, Raised, m, g, k, ch, ch2);
      ch := ch + ch2;
    } else {
      var m: bool :| MayB(s.body, v, h, Ends(Normal), m) && MayB(s.orelse, v, m, g, k);
      ch := DriveB(s.body, v, h, Ends(Normal), m);
      var ch2 := DriveB(s.orelse, v, m, g, k);
      DriveOn(BlockF(s.body), BlockF(s.orelse), ProtectF(s), v, h, Normal, m, g, k, ch, ch2);
      ch := ch + ch2;
    }
  }

  lemma {:induction false} DriveHandle(hs: seq<Handler>, v: Var, h: bool, g: Goal, k: bool) returns (ch: seq<nat>)
    requires MayHandle(hs, v, h, g, k) && g != Ends(Cut)
    ensures Drives(HandleF(hs), v, h, g, k, ch)
    decreases hs, 0
  {
    if hs == [] {
      ch := [];
      DriveEnd(HandleF(hs), v, h, Raised, h);
    } else {
      var f, f2 := OpsF(hs[0].types), BranchF(CatchF(hs[0]), HandleF(hs[1..]));
      OpsGrows(hs[0].types);
      CatchGrows(hs[0]);
      HandleGrows(hs[1..]);
      BranchGrows(CatchF(hs[0]), HandleF(hs[1..]));
      if Abrupt(g) && MayOps(hs[0].types, v, h, g, k) {
        ch := DriveOps(hs[0].types, v, h, g, k);
        DriveFirst(f, f2, v, h, g, k, ch);
      } else {
        var m :| MayOps(hs[0].types, v, h, Ends(Normal), m) && (MayHandle(hs[1..], v, m, g, k) || MayCatch(hs[0], v, m, g, k));
        var ch1 := DriveOps(hs[0].types, v, h, Ends(Normal), m);
        var first := MayCatch(hs[0], v, m, g, k);
        var ch2: seq<nat>;
        if first {
          ch2 := DriveCatch(hs[0], v, m, g, k);
        } else {
          ch2 := DriveHandle(hs[1..], v, m, g, k);
        }
        ch2 := DriveBranch(CatchF(hs[0]), HandleF(hs[1..]), first, v, m, g, k, ch2);
        DriveThen(f, f2, v, h, m, g, k, ch1, ch2);
        ch := ch1 + ch2;
      }
      HandleIs(hs);
      DriveSame(ThenF(f, f2), HandleF(hs), v, h, g, k, ch);
    }
  }

  lemma HandleIs(hs: seq<Handler>)
    requires hs != []
    ensures forall st: State :: HandleF(hs)(st) == ThenF(OpsF(hs[0].types), BranchF(CatchF(hs[0]), HandleF(hs[1..])))(st)
  {
    forall st: State
      ensures HandleF(hs)(st) == ThenF(OpsF(hs[0].types), BranchF(CatchF(hs[0]), HandleF(hs[1..])))(st)
    {
      var r := EvalOps(hs[0].types, st);
      var f2 := BranchF(CatchF(hs[0]), HandleF(hs[1..]));
      assert ThenF(OpsF(hs[0].types), f2)(st) == if r.out != Normal then r else f2(r.st);
    }
  }

  lemma {:induction false} DriveCatch(hd: Handler, v: Var, h: bool, g: Goal, k: bool) returns (ch: seq<nat>)
    requires MayCatch(hd, v, h, g, k) && g != Ends(Cut)
    ensures Drives(CatchF(hd), v, h, g, k, ch)
    decreases hd, 0
  {
    if hd.name.None? {
      ch := DriveB(hd.body, v, h, g, k);
      DriveSame(BlockF(hd.body), CatchF(hd), v, h, g, k, ch);
    } else {
      var bound := h || v == hd.name.value;
      var m := if v == hd.name.value && g.Ends? then MayB(hd.body, v, true, g, true) else k;
      ch := DriveB(hd.body, v, bound, g, m);
      forall st: State, rest: seq<nat> | st.ch == ch + rest && (v in st.bound) == h
        ensures Hits(CatchF(hd)(st), st, v, g, k, rest)
      {
        var st1 := st.Bind({hd.name.value});
        assert Hits(BlockF(hd.body)(st1), st1, v, g, m, rest);
      }
    }
  }

  // ---- with and match

  lemma {:induction false} DriveWith(s: Stmt, v: Var, h: bool, g: Goal, k: bool) returns (ch: seq<nat>)
    requires s.With? && MayWith(s, v, h, g, k) && g != Ends(Cut)
    ensures Drives(StmtF(s), v, h, g, k, ch)
    decreases s, 8
  {
    EnterGrows(s.items);
    ExitGrows(s.body, s.swallows);
    if Abrupt(g) && MayEnter(s.items, v, h, g, k) {
      ch := DriveEnter(s.items, v, h, g, k);
      DriveFirst(EnterF(s.items), ExitF(s.body, s.swallows), v, h, g, k, ch);
    } else {
      var m :| MayEnter(s.items, v, h, Ends(Normal), m) && MayExit(s.body, s.swallows, v, m, g, k);
      var ch1 := DriveEnter(s.items, v, h, Ends(Normal), m);
      var ch2 := DriveExit(s.body, s.swallows, v, m, g, k);
      DriveThen(EnterF(s.items), ExitF(s.body, s.swallows), v, h, m, g, k, ch1, ch2);
      ch := ch1 + ch2;
    }
  }

  lemma {:induction false} DriveEnter(ws: seq<WithItem>, v: Var, h: bool, g: Goal, k: bool) returns (ch: seq<nat>)
    requires MayEnter(ws, v, h, g, k)
    ensures Drives(EnterF(ws), v, h, g, k, ch)
    decreases ws, 0
  {
    if ws == [] {
      ch := [];
      DriveEnd(EnterF(ws), v, h, Normal, h);
    } else {
      var f, f2 := EvalF(ws[0].context), EnterOneF(ws);
      EvalGrows(ws[0].context);
      EnterGrows(ws);
      if Abrupt(g) && MayE(ws[0].context, v, h, g, k) {
        ch := DriveE(ws[0].context, v, h, g, k);
        DriveFirst(f, f2, v, h, g, k, ch);
      } else {
        var m :| MayE(ws[0].context, v, h, Ends(Normal), m) && MayEnterOne(ws, v, m, g, k);
        var ch1 := DriveE(ws[0].context, v, h, Ends(Normal), m);
        var ch2 := DriveEnterOne(ws, v, m, g, k);
        DriveThen(f, f2, v, h, m, g, k, ch1, ch2);
        ch := ch1 + ch2;
      }
      DriveSame(ThenF(f, f2), EnterF(ws), v, h, g, k, ch);
    }
  }

  lemma {:induction false} DriveEnterOne(ws: seq<WithItem>, v: Var, h: bool, g: Goal, k: bool) returns (ch: seq<nat>)
    requires ws != [] && MayEnterOne(ws, v, h, g, k)
    ensures Drives(EnterOneF(ws), v, h, g, k, ch)
    decreases ws[1..], 1
  {
    if ws[0].target.None? {
      ch := DriveEnter(ws[1..], v, h, g, k);
      DriveSame(EnterF(ws[1..]), EnterOneF(ws), v, h, g, k, ch);
    } else {
      var f, f2 := StoreF(ws[0].target.value), EnterF(ws[1..]);
      StoreGrows(ws[0].target.value);
      EnterGrows(ws[1..]);
      if Abrupt(g) && MayStore(ws[0].target.value, v, h, g, k) {
        ch := DriveStore(ws[0].target.value, v, h, g, k);
        DriveFirst(f, f2, v, h, g, k, ch);
      } else {
        var m :| MayStore(ws[0].target.value, v, h, Ends(Normal), m) && MayEnter(ws[1..], v, m, g, k);
        var ch1 := DriveStore(ws[0].target.value, v, h, Ends(Normal), m);
        var ch2 := DriveEnter(ws[1..], v, m, g, k);
        DriveThen(f, f2, v, h, m, g, k, ch1, ch2);
        ch := ch1 + ch2;
      }
      DriveSame(ThenF(f, f2), EnterOneF(ws), v, h, g, k, ch);
    }
  }

  lemma {:induction false} DriveExit(b: seq<Stmt>, swallows: bool, v: Var, h: bool, g: Goal, k: bool)
    returns (ch: seq<nat>)
    requires MayExit(b, swallows, v, h, g, k) && g != Ends(Cut)
    ensures Drives(ExitF(b, swallows), v, h, g, k, ch)
    decreases b, 1
  {
    BlockGrows(b);
    if g.Visits? {
      ch := DriveB(b, v, h, g, k);
      DriveStop(BlockF(b), ExitF(b, swallows), v, h, g, k, ch);
    } else {
      var o, c := g.out, 0;
      if !MayB(b, v, h, g, k) {
        if g == Ends(Raised) && exists o: Outcome :: o != Cut && MayB(b, v, h, Ends(o), k) {
          o :| o != Cut && MayB(b, v, h, Ends(o), k);
          c := 2;
        } else {
          o, c := Raised, 1;
        }
      }
      ch := DriveB(b, v, h, Ends(o), k);
      DriveEndF(v, k, g.out);
      DriveChoose(EndF(g.out), AfterF(swallows, o), c, v, k, g, k, []);
      DriveOn(BlockF(b), AfterF(swallows, o), ExitF(b, swallows), v, h, o, k, g, k, ch, [c] + []);
      ch := ch + ([c] + []);
    }
  }

  lemma {:induction false} DriveMatch(s: Stmt, v: Var, h: bool, g: Goal, k: bool) returns (ch: seq<nat>)
    requires s.Match? && MayMatch(s, v, h, g, k) && g != Ends(Cut)
    ensures Drives(StmtF(s), v, h, g, k, ch)
    decreases s, 8
  {
    EvalGrows(s.subject);
    SelectGrows(s.cases);
    if Abrupt(g) && MayE(s.subject, v, h, g, k) {
      ch := DriveE(s.subject, v, h, g, k);
      DriveFirst(EvalF(s.subject), SelectF(s.cases), v, h, g, k, ch);
    } else {
      var m :| MayE(s.subject, v, h, Ends(Normal), m) && MaySelect(s.cases, v, m, g, k);
      var ch1 := DriveE(s.subject, v, h, Ends(Normal), m);
      var ch2 := DriveSelect(s.cases, v, m, g, k);
      DriveThen(EvalF(s.subject), SelectF(s.cases), v, h, m, g, k, ch1, ch2);
      ch := ch1 + ch2;
    }
  }

  // f after names are bound
  lemma DriveBound(f: State -> Run, vs: set<Var>, v: Var, h: bool, g: Goal, k: bool, ch: seq<nat>)
    requires Drives(f, v, h || v in vs, g, k, ch)
    ensures Drives(ThenF(BindF(vs), f), v, h, g, k, [] + ch)
  {
    DriveBindF(vs, v, h);
    DriveThen(BindF(vs), f, v, h, h || v in vs, g, k, [], ch);
  }

  lemma {:induction false} DriveSelect(cs: seq<Case>, v: Var, h: bool, g: Goal, k: bool) returns (ch: seq<nat>)
    requires MaySelect(cs, v, h, g, k) && g != Ends(Cut)
    ensures Drives(SelectF(cs), v, h, g, k, ch)
    decreases cs, 1
  {
    if cs == [] {
      ch := [];
      DriveEnd(SelectF(cs), v, h, Normal, h);
    } else {
      var vs := cs[0].captures;
      if MaySelect(cs[1..], v, h, g, k) {
        ch := DriveSelect(cs[1..], v, h, g, k);
        DriveChoose(SelectF(cs[1..]), SelectF(cs), 0, v, h, g, k, ch);
        ch := [0] + ch;
      } else if MaySelect(cs[1..], v, h || v in vs, g, k) {
        ch := DriveSelect(cs[1..], v, h || v in vs, g, k);
        DriveBound(SelectF(cs[1..]), vs, v, h, g, k, ch);
        DriveChoose(ThenF(BindF(vs), SelectF(cs[1..])), SelectF(cs), 1, v, h, g, k, [] + ch);
        ch := [1] + ([] + ch);
      } else if g == Ends(Raised) && k == h {
        DriveEndF(v, h, Raised);
        DriveChoose(EndF(Raised), SelectF(cs), 2, v, h, g, k, []);
        ch := [2] + [];
      } else {
        ch := DriveCase(cs, v, h || v in vs, g, k);
        DriveBound(CaseF(cs), vs, v, h, g, k, ch);
        DriveChoose(ThenF(BindF(vs), CaseF(cs)), SelectF(cs), 3, v, h, g, k, [] + ch);
        ch := [3] + ([] + ch);
      }
    }
  }

  lemma {:induction false} DriveCase(cs: seq<Case>, v: Var, h: bool, g: Goal, k: bool) returns (ch: seq<nat>)
    requires cs != [] && MayCase(cs, v, h, g, k) && g != Ends(Cut)
    ensures Drives(CaseF(cs), v, h, g, k, ch)
    decreases cs, 0
  {
    if cs[0].guard.None? {
      ch := DriveB(cs[0].body, v, h, g, k);
      DriveSame(BlockF(cs[0].body), CaseF(cs), v, h, g, k, ch);
    } else {
      var f, f2 := EvalF(cs[0].guard.value), BranchF(BlockF(cs[0].body), SelectF(cs[1..]));
      EvalGrows(cs[0].guard.value);
      BlockGrows(cs[0].body);
      SelectGrows(cs[1..]);
      BranchGrows(BlockF(cs[0].body), SelectF(cs[1..]));
      if Abrupt(g) && MayE(cs[0].guard.value, v, h, g, k) {
        ch := DriveE(cs[0].guard.value, v, h, g, k);
        DriveFirst(f, f2, v, h, g, k, ch);
      } else {
        var m :| MayE(cs[0].guard.value, v, h, Ends(Normal), m) &&
                 (MaySelect(cs[1..], v, m, g, k) || MayB(cs[0].body, v, m, g, k));
        var ch1 := DriveE(cs[0].guard.value, v, h, Ends(Normal), m);
        var first := MayB(cs[0].body, v, m, g, k);
        var ch2: seq<nat>;
        if first {
          ch2 := DriveB(cs[0].body, v, m, g, k);
        } else {
          ch2 := DriveSelect(cs[1..], v, m, g, k);
        }
        ch2 := DriveBranch(BlockF(cs[0].body), SelectF(cs[1..]), first, v, m, g, k, ch2);
        DriveThen(f, f2, v, h, m, g, k, ch1, ch2);
        ch := ch1 + ch2;
      }
      CaseIs(cs);
      DriveSame(ThenF(f, f2), CaseF(cs), v, h, g, k, ch);
    }
  }

  lemma CaseIs(cs: seq<Case>)
    requires cs != [] && cs[0].guard.Some?
    ensures forall st: State ::
              CaseF(cs)(st) == ThenF(EvalF(cs[0].guard.value), BranchF(BlockF(cs[0].body), SelectF(cs[1..])))(st)
  {
    forall st: State
      ensures CaseF(cs)(st) == ThenF(EvalF(cs[0].guard.value), BranchF(BlockF(cs[0].body), SelectF(cs[1..])))(st)
    {
      var r := Eval(cs[0].guard.value, st);
      var f2 := BranchF(BlockF(cs[0].body), SelectF(cs[1..]));
      assert ThenF(EvalF(cs[0].guard.value), f2)(st) == if r.out != Normal then r else f2(r.st);
    }
  }
}
