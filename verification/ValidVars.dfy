/** get_valid_vars_at: the variables a caller of in_function_context may name,
    and what that promises on every run. */
module ValidVars {
  import opened PyAst
  import opened PyRun
  import opened DefiniteAssignment
  import opened DefiniteAssignmentProofs
  import opened Wrappers

  datatype Scope =
    | ClassScope(id: Id, name: Var)
    | FuncScope(id: Id, args: set<Var>, body: seq<Stmt>)

  // scopes[0] is the function that holds the target; the scope that provides a name is kept with it
  datatype Validity =
    | Valid(provider: map<Var, nat>)
    | Unreachable(at: Id)
    | NotFound

  // the target looked for in a scope is the definition of the scope just inside it
  function TargetIn(t: Id, scopes: seq<Scope>, k: nat): Id
    requires k < |scopes|
  {
    if k == 0 then t else scopes[k - 1].id
  }

  function NamesIn(t: Id, scopes: seq<Scope>, k: nat): Collected
    requires k < |scopes|
  {
    match scopes[k]
    case ClassScope(_, name) => AtTarget({name})
    case FuncScope(_, args, body) =>
      var r := CollectB(TargetIn(t, scopes, k), body, {});
      if r.AtTarget? then AtTarget(r.vars + args) else r
  }

  /** The loop over the enclosing scopes, innermost first: an inner scope's
      variable hides an outer one of the same name. */
  method ValidVarsAt(t: Id, scopes: seq<Scope>) returns (r: Validity)
    ensures r.Valid? <==> forall k :: 0 <= k < |scopes| ==> NamesIn(t, scopes, k).AtTarget?
    ensures r.Valid? ==> forall v :: v in r.provider <==> exists k :: 0 <= k < |scopes| && v in NamesIn(t, scopes, k).vars
    ensures r.Valid? ==> forall v :: v in r.provider ==>
              r.provider[v] < |scopes| && v in NamesIn(t, scopes, r.provider[v]).vars &&
              forall k :: 0 <= k < r.provider[v] ==> v !in NamesIn(t, scopes, k).vars
    ensures !r.Valid? ==>
              (exists k :: 0 <= k < |scopes| &&
                (forall j :: 0 <= j < k ==> NamesIn(t, scopes, j).AtTarget?) &&
                (if r.Unreachable? then NamesIn(t, scopes, k) == Raises(r.at) else NamesIn(t, scopes, k).SoFar?))
  {
    var provider: map<Var, nat> := map[];
    var target := t;
    for i := 0 to |scopes|
      invariant i < |scopes| ==> target == TargetIn(t, scopes, i)
      invariant forall k :: 0 <= k < i ==> NamesIn(t, scopes, k).AtTarget?
      invariant forall v :: v in provider <==> exists k :: 0 <= k < i && v in NamesIn(t, scopes, k).vars
      invariant forall v :: v in provider ==>
                  provider[v] < i && v in NamesIn(t, scopes, provider[v]).vars &&
                  forall k :: 0 <= k < provider[v] ==> v !in NamesIn(t, scopes, k).vars
    {
      var names: set<Var> := {};
      match scopes[i] {
        case ClassScope(_, name) =>
          names := {name};
        case FuncScope(_, args, body) =>
          var c := CollectFromStatements(target, body, {});
          assert NamesIn(t, scopes, i) == if c.AtTarget? then AtTarget(c.vars + args) else c;
          if c.Raises? { return Unreachable(c.at); }
          if c.SoFar? { return NotFound; }
          names := c.vars + args;
      }
      assert NamesIn(t, scopes, i) == AtTarget(names);
      provider := map v | v in provider.Keys + names :: if v in provider then provider[v] else i;
      target := scopes[i].id;
    }
    return Valid(provider);
  }

  /** Soundness: on every run of a function body that arrives at t, the analysis
      has found t (unless t sits where it never looks), and every variable it
      reports, parameters included, is assigned at that moment, save for names
      the body deletes, binds by "except E as e", annotates without a value, or
      assigns only inside the "a" of an "a if c else b"; for these module
      ExactReports says exactly when the report is right. */
  lemma {:induction false} ReportedVarsAreAssigned(t: Id, args: set<Var>, body: seq<Stmt>, choices: seq<nat>)
    requires CountB(t, body) <= 1 && !SwallowsB(body)
    ensures var run := ExecBlock(body, State(args, [], choices));
      var r := CollectB(t, body, {});
      forall i :: 0 <= i < |run.st.log| && run.st.log[i].node == t ==>
        (r.AtTarget? || HiddenB(t, body)) &&
        (r.AtTarget? ==> (r.vars + args) - UnsureB(body) <= run.st.log[i].bound)
  {
    var st := State(args, [], choices);
    var u := UnsureB(body);
    var run := ExecBlock(body, st);
    var r := CollectB(t, body, {});
    GrowB(u, body, st);
    if r.AtTarget? {
      SoundB(t, u, r.vars - u, body, {}, st);
    } else if !HiddenB(t, body) {
      // a name that occurs nowhere: had t been reached, the name would have been assigned there
      forall i | 0 <= i < |run.st.log| && run.st.log[i].node == t ensures false {
        var w := Unheard(run.st.log[i].bound);
        SoundB(t, u, w, body, {}, st);
      }
    }
  }

  // a set of names not contained in s
  lemma Unheard(s: set<Var>) returns (w: set<Var>)
    ensures !(w <= s)
  {
    var n := Longer(s);
    w := {seq(n, i => 'x')};
  }

  lemma {:induction false} Longer(s: set<Var>) returns (n: nat)
    ensures forall v :: v in s ==> |v| < n
    decreases s
  {
    if s == {} {
      n := 0;
    } else {
      var v :| v in s;
      var m := Longer(s - {v});
      n := if |v| < m then m else |v| + 1;
      forall x | x in s ensures |x| < n {
        if x != v { assert x in s - {v}; }
      }
    }
  }

  /** Where the analysis calls the target unreachable, no run arrives at it. */
  lemma {:induction false} UnreachableIsNeverReached(t: Id, args: set<Var>, body: seq<Stmt>, choices: seq<nat>)
    requires CountB(t, body) <= 1 && !SwallowsB(body) && !HiddenB(t, body)
    requires !CollectB(t, body, {}).AtTarget?
    ensures var run := ExecBlock(body, State(args, [], choices));
      forall i :: 0 <= i < |run.st.log| ==> run.st.log[i].node != t
  {
    ReportedVarsAreAssigned(t, args, body, choices);
  }
}
