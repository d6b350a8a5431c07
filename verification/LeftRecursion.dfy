/** Which grammars the engine terminates on: those without left recursion whose
    repeated bodies never succeed on no text. */
module LeftRecursion {
  import opened Peg
  import opened Wrappers

  // the parsers that parser id may call before anything is consumed
  function Heads(nodes: seq<Node>, empty: seq<bool>, id: nat): set<nat>
    requires id < |nodes| == |empty|
  {
    match nodes[id]
    case Optional(x) => {x}
    case ZeroOrMore(x) => {x}
    case And(terms) => FirstTerms(empty, terms)
    case Or(terms) => set i | 0 <= i < |terms| :: terms[i]
    case Not(x) => {x}
    case Until(x) => {x}
    case SpecificUntil(item, until) => {item, until}
    case NonEmptyListOf(x, more) => if x < |empty| && empty[x] then {x, more} else {x}
    case NToM(_, _, x) => {x}
    case Named(_, x) => {x}
    case Anon(x) => {x}
    case Self(x) => {x}
    case Class(template, plain) => {template, plain}
    case RawString(prefix) => {prefix}
    case Balanced(until, _, raw, chr, str, comments) => {until, raw, chr, str, comments}
    case _ => {}
  }

  // the terms of a sequence up to the first that must consume something
  function FirstTerms(empty: seq<bool>, terms: seq<nat>): set<nat> {
    if terms == [] then {}
    else {terms[0]} + if terms[0] < |empty| && empty[terms[0]] then FirstTerms(empty, terms[1..]) else {}
  }

  // NodeOk, but for the ranks
  predicate Shape(nodes: seq<Node>, empty: seq<bool>, id: nat)
    requires id < |nodes| == |empty|
  {
    (forall x :: x in Heads(nodes, empty, id) ==> x < |nodes|) &&
    match nodes[id]
    case Literal(text) => text == "" ==> empty[id]
    case EndOfFile => empty[id]
    case Optional(_) => empty[id]
    case ZeroOrMore(x) => !empty[x] && empty[id]
    case And(terms) =>
      terms != [] && (forall i :: 0 <= i < |terms| ==> terms[i] < |nodes|) &&
      ((forall i :: 0 <= i < |terms| ==> empty[terms[i]]) ==> empty[id])
    case Or(terms) => terms != [] && forall i :: 0 <= i < |terms| ==> terms[i] in Heads(nodes, empty, id) && (empty[terms[i]] ==> empty[id])
    case Not(_) => empty[id]
    case Until(_) => empty[id]
    case SpecificUntil(item, _) => !empty[item] && empty[id]
    case NonEmptyListOf(x, more) => more < |nodes| && (empty[x] ==> empty[id]) && !(empty[x] && empty[more])
    case NToM(n, m, x) => n == 0 || m == 0 || empty[x] ==> empty[id]
    case Named(_, x) => empty[x] ==> empty[id]
    case Anon(x) => empty[x] ==> empty[id]
    case Self(x) => empty[x] ==> empty[id]
    case Class(template, plain) => empty[template] || empty[plain] ==> empty[id]
    case Balanced(_, _, raw, chr, str, comments) =>
      !empty[raw] && !empty[chr] && !empty[str] && !empty[comments] && empty[id]
    case _ => true
  }

  predicate Shapes(nodes: seq<Node>, empty: seq<bool>) {
    |nodes| == |empty| && forall id :: 0 <= id < |nodes| ==> Shape(nodes, empty, id)
  }

  // a chain of calls none of which consumes anything
  predicate IsPath(nodes: seq<Node>, empty: seq<bool>, p: seq<nat>)
    requires |nodes| == |empty|
  {
    |p| >= 2 && (forall i :: 0 <= i < |p| ==> p[i] < |nodes|) &&
    forall i :: 0 < i < |p| ==> p[i] in Heads(nodes, empty, p[i - 1])
  }

  ghost predicate NoLeftRecursion(nodes: seq<Node>, empty: seq<bool>)
    requires |nodes| == |empty|
  {
    forall p :: IsPath(nodes, empty, p) ==> p[0] != p[|p| - 1]
  }

  lemma {:induction false} HeadsBelowIsFirstTerms(c: Ctx, terms: seq<nat>, id: nat)
    requires |c.rank| == |c.nodes| == |c.empty| && id < |c.nodes|
    ensures HeadsBelow(c, terms, id) <==> forall x :: x in FirstTerms(c.empty, terms) ==> Below(c, x, id)
  {
    if terms != [] {
      assert terms[0] in FirstTerms(c.empty, terms);
      HeadsBelowIsFirstTerms(c, terms[1..], id);
    }
  }

  lemma NodeOkIsShape(c: Ctx, id: nat)
    requires |c.rank| == |c.nodes| == |c.empty| && id < |c.nodes|
    ensures NodeOk(c, id) <==>
              Shape(c.nodes, c.empty, id) && forall x :: x in Heads(c.nodes, c.empty, id) ==> Below(c, x, id)
  {
    var heads := Heads(c.nodes, c.empty, id);
    match c.nodes[id]
    case And(terms) =>
      HeadsBelowIsFirstTerms(c, terms, id);
      if forall i :: 0 <= i < |terms| ==> terms[i] < |c.nodes| {
        assert AllEmpty(c, terms) <==> forall i :: 0 <= i < |terms| ==> c.empty[terms[i]];
        assert heads == FirstTerms(c.empty, terms);
        assert HeadsBelow(c, terms, id) <==> forall x :: x in heads ==> Below(c, x, id);
        assert HeadsBelow(c, terms, id) ==> forall x :: x in heads ==> x < |c.nodes|;
        assert terms != [] && HeadsBelow(c, terms, id) ==> (NodeOk(c, id) <==> (AllEmpty(c, terms) ==> c.empty[id]));
        assert terms != [] && HeadsBelow(c, terms, id) ==> (Shape(c.nodes, c.empty, id) <==> (AllEmpty(c, terms) ==> c.empty[id]));
      }
    case Or(terms) => assert forall i :: 0 <= i < |terms| ==> terms[i] in heads;
    case Optional(x) => assert x in heads;
    case ZeroOrMore(x) => assert x in heads;
    case Not(x) => assert x in heads;
    case Until(x) => assert x in heads;
    case SpecificUntil(item, until) => assert item in heads && until in heads;
    case NonEmptyListOf(x, more) => assert x in heads;
    case NToM(_, _, x) => assert x in heads;
    case Named(_, x) => assert x in heads;
    case Anon(x) => assert x in heads;
    case Self(x) => assert x in heads;
    case Class(template, plain) => assert template in heads && plain in heads;
    case RawString(prefix) => assert prefix in heads;
    case Balanced(until, _, raw, chr, str, comments) =>
      assert until in heads && raw in heads && chr in heads && str in heads && comments in heads;
    case _ =>
  }

  // the ranks fall along a path
  lemma {:induction false} RankFalls(c: Ctx, p: seq<nat>, k: nat)
    requires WF(c) && IsPath(c.nodes, c.empty, p) && 0 < k < |p|
    ensures c.rank[p[k]] < c.rank[p[0]]
  {
    assert NodeOk(c, p[k - 1]);
    NodeOkIsShape(c, p[k - 1]);
    assert p[k] in Heads(c.nodes, c.empty, p[k - 1]);
    if k > 1 { RankFalls(c, p, k - 1); }
  }

  // the parsers reached from id without consuming anything
  ghost function Reach(nodes: seq<Node>, empty: seq<bool>, id: nat): set<nat>
    requires |nodes| == |empty|
  {
    set y: nat | y < |nodes| && Reaches(nodes, empty, id, y)
  }

  ghost predicate Reaches(nodes: seq<Node>, empty: seq<bool>, id: nat, y: nat)
    requires |nodes| == |empty|
  {
    exists p :: IsPath(nodes, empty, p) && p[0] == id && p[|p| - 1] == y
  }

  lemma {:induction false} FewerMembers(a: set<nat>, b: set<nat>)
    requires a < b
    ensures |a| < |b|
  {
    var x :| x in b && x !in a;
    if a == {} {
    } else {
      var y :| y in a;
      FewerMembers(a - {y}, b - {y});
    }
  }

  lemma ReachShrinks(nodes: seq<Node>, empty: seq<bool>, id: nat, x: nat)
    requires Shapes(nodes, empty) && NoLeftRecursion(nodes, empty) && id < |nodes| && x in Heads(nodes, empty, id)
    ensures |Reach(nodes, empty, x)| < |Reach(nodes, empty, id)|
  {
    assert Shape(nodes, empty, id);
    assert IsPath(nodes, empty, [id, x]);
    assert x in Reach(nodes, empty, id);
    assert x !in Reach(nodes, empty, x);
    forall y | y in Reach(nodes, empty, x) ensures y in Reach(nodes, empty, id) {
      var p :| IsPath(nodes, empty, p) && p[0] == x && p[|p| - 1] == y;
      var q := [id] + p;
      assert forall i :: 0 < i < |q| ==> q[i] == p[i - 1];
      assert IsPath(nodes, empty, q);
    }
    FewerMembers(Reach(nodes, empty, x), Reach(nodes, empty, id));
  }

  /** The ranks that make every parse end exist exactly when the grammar has no
      left recursion and no repeated body that succeeds on no text. */
  lemma RanksExistExactly(nodes: seq<Node>, empty: seq<bool>, input: string)
    ensures (exists rank :: WF(Ctx(nodes, rank, empty, input))) <==>
              Shapes(nodes, empty) && NoLeftRecursion(nodes, empty)
  {
    if exists rank :: WF(Ctx(nodes, rank, empty, input)) {
      var rank :| WF(Ctx(nodes, rank, empty, input));
      var c := Ctx(nodes, rank, empty, input);
      forall id | 0 <= id < |nodes| ensures Shape(nodes, empty, id) {
        assert NodeOk(c, id);
        NodeOkIsShape(c, id);
      }
      forall p | IsPath(nodes, empty, p) ensures p[0] != p[|p| - 1] {
        RankFalls(c, p, |p| - 1);
      }
    }
    if Shapes(nodes, empty) && NoLeftRecursion(nodes, empty) {
      var rank := seq(|nodes|, i requires 0 <= i => |Reach(nodes, empty, i)|);
      var c := Ctx(nodes, rank, empty, input);
      forall id | 0 <= id < |nodes| ensures NodeOk(c, id) {
        assert Shape(nodes, empty, id);
        forall x | x in Heads(nodes, empty, id) ensures Below(c, x, id) {
          ReachShrinks(nodes, empty, id, x);
        }
        NodeOkIsShape(c, id);
      }
      assert WF(c);
    }
  }

  // ---- the ranks only say why parsing ends, never what it yields

  predicate Alike(c: Ctx, d: Ctx) {
    WF(c) && WF(d) && c.nodes == d.nodes && c.input == d.input
  }

  /** A parser means the same whatever ranks and emptiness marks were chosen. */
  lemma {:induction false} RanksDoNotMatter(c: Ctx, d: Ctx, id: nat, at: nat)
    requires Alike(c, d) && id < |c.nodes| && at <= |c.input|
    ensures Eval(c, id, at) == Eval(d, id, at)
    decreases |c.input| - at, c.rank[id], 1, 0
  {
    assert NodeOk(c, id) && NodeOk(d, id);
    match c.nodes[id]
    case Optional(x) => RanksDoNotMatter(c, d, x, at);
    case ZeroOrMore(_) => SameMany(c, d, id, at, at, []);
    case And(_) => SameAnd(c, d, id, at, 0, at, []);
    case Or(terms) =>
      RanksDoNotMatter(c, d, terms[0], at);
      var r := Eval(c, terms[0], at);
      if r.Fail? { SameOr(c, d, id, at, 1, r); }
    case Not(x) => RanksDoNotMatter(c, d, x, at);
    case Until(_) => SameUntil(c, d, id, at, at);
    case SpecificUntil(_, _) => SameSpecificUntil(c, d, id, at, at, []);
    case NonEmptyListOf(_, _) => SameList(c, d, id, at, at, []);
    case NToM(_, _, _) => SameNToM(c, d, id, at, 0, at, []);
    case Named(_, x) => RanksDoNotMatter(c, d, x, at);
    case Anon(x) => RanksDoNotMatter(c, d, x, at);
    case Self(x) => RanksDoNotMatter(c, d, x, at);
    case Class(template, plain) => RanksDoNotMatter(c, d, template, at); RanksDoNotMatter(c, d, plain, at);
    case RawString(prefix) =>
      RanksDoNotMatter(c, d, prefix, at);
      var r := Eval(c, prefix, at);
      if r.Ok? { SameRaw(c, d, id, r.end); }
    case Balanced(_, _, _, _, _, _) => SameScan(c, d, id, None, at, at);
    case _ =>
  }

  lemma {:induction false} SameMany(c: Ctx, d: Ctx, id: nat, start: nat, at: nat, items: seq<Item>)
    requires Alike(c, d) && id < |c.nodes| && c.nodes[id].ZeroOrMore? && start <= at <= |c.input|
    ensures EvalMany(c, id, start, at, items) == EvalMany(d, id, start, at, items)
    decreases |c.input| - start, c.rank[id], 0, |c.input| - at
  {
    assert NodeOk(c, id) && NodeOk(d, id);
    RanksDoNotMatter(c, d, c.nodes[id].x, at);
    var r := Eval(c, c.nodes[id].x, at);
    if r.Ok? { SameMany(c, d, id, start, r.end, items + r.items); }
  }

  lemma {:induction false} SameAnd(c: Ctx, d: Ctx, id: nat, start: nat, k: nat, at: nat, items: seq<Item>)
    requires Alike(c, d) && id < |c.nodes| && c.nodes[id].And? && start <= at <= |c.input|
    requires Reached(c, id, start, k, at) && Reached(d, id, start, k, at)
    ensures EvalAnd(c, id, start, k, at, items) == EvalAnd(d, id, start, k, at, items)
    decreases |c.input| - start, c.rank[id], 0, |c.nodes[id].terms| - k
  {
    assert NodeOk(c, id) && NodeOk(d, id);
    var terms := c.nodes[id].terms;
    if k < |terms| {
      RanksDoNotMatter(c, d, terms[k], at);
      var r := Eval(c, terms[k], at);
      if r.Ok? {
        NextReached(c, id, start, k, at);
        NextReached(d, id, start, k, at);
        SameAnd(c, d, id, start, k + 1, r.end, items + r.items);
      }
    }
  }

  lemma {:induction false} SameOr(c: Ctx, d: Ctx, id: nat, at: nat, k: nat, f: Result)
    requires Alike(c, d) && id < |c.nodes| && c.nodes[id].Or? && at <= |c.input|
    requires k <= |c.nodes[id].terms| && f.Fail? && Bounded(c, at, f)
    ensures EvalOr(c, id, at, k, f) == EvalOr(d, id, at, k, f)
    decreases |c.input| - at, c.rank[id], 0, |c.nodes[id].terms| - k
  {
    assert NodeOk(c, id) && NodeOk(d, id);
    if k < |c.nodes[id].terms| {
      RanksDoNotMatter(c, d, c.nodes[id].terms[k], at);
      var r := Eval(c, c.nodes[id].terms[k], at);
      if r.Fail? { SameOr(c, d, id, at, k + 1, Further(f, r)); }
    }
  }

  lemma {:induction false} SameUntil(c: Ctx, d: Ctx, id: nat, start: nat, at: nat)
    requires Alike(c, d) && id < |c.nodes| && c.nodes[id].Until? && start <= at <= |c.input|
    ensures EvalUntil(c, id, start, at) == EvalUntil(d, id, start, at)
    decreases |c.input| - start, c.rank[id], 0, |c.input| - at
  {
    assert NodeOk(c, id) && NodeOk(d, id);
    RanksDoNotMatter(c, d, c.nodes[id].x, at);
    if at < |c.input| { SameUntil(c, d, id, start, at + 1); }
  }

  lemma {:induction false} SameSpecificUntil(c: Ctx, d: Ctx, id: nat, start: nat, at: nat, items: seq<Item>)
    requires Alike(c, d) && id < |c.nodes| && c.nodes[id].SpecificUntil? && start <= at <= |c.input|
    ensures EvalSpecificUntil(c, id, start, at, items) == EvalSpecificUntil(d, id, start, at, items)
    decreases |c.input| - start, c.rank[id], 0, |c.input| - at
  {
    assert NodeOk(c, id) && NodeOk(d, id);
    RanksDoNotMatter(c, d, c.nodes[id].until, at);
    RanksDoNotMatter(c, d, c.nodes[id].item, at);
    var r := Eval(c, c.nodes[id].item, at);
    if Eval(c, c.nodes[id].until, at).Fail? && r.Ok? {
      SameSpecificUntil(c, d, id, start, r.end, items + r.items);
    }
  }

  lemma {:induction false} SameList(c: Ctx, d: Ctx, id: nat, start: nat, at: nat, items: seq<Item>)
    requires Alike(c, d) && id < |c.nodes| && c.nodes[id].NonEmptyListOf? && start <= at <= |c.input|
    ensures EvalList(c, id, start, at, items) == EvalList(d, id, start, at, items)
    decreases |c.input| - start, c.rank[id], 0, |c.input| - at
  {
    assert NodeOk(c, id) && NodeOk(d, id);
    RanksDoNotMatter(c, d, c.nodes[id].x, at);
    var r := Eval(c, c.nodes[id].x, at);
    if r.Ok? {
      RanksDoNotMatter(c, d, c.nodes[id].more, r.end);
      var more := Eval(c, c.nodes[id].more, r.end);
      if more.Ok? { SameList(c, d, id, start, more.end, items + r.items + more.items); }
    }
  }

  lemma {:induction false} SameNToM(c: Ctx, d: Ctx, id: nat, start: nat, k: nat, at: nat, items: seq<Item>)
    requires Alike(c, d) && id < |c.nodes| && c.nodes[id].NToM? && start <= at <= |c.input|
    requires k <= c.nodes[id].m && (at == start ==> k == 0 || (c.empty[id] && d.empty[id]))
    ensures EvalNToM(c, id, start, k, at, items) == EvalNToM(d, id, start, k, at, items)
    decreases |c.input| - start, c.rank[id], 0, c.nodes[id].m - k
  {
    assert NodeOk(c, id) && NodeOk(d, id);
    if k < c.nodes[id].m {
      RanksDoNotMatter(c, d, c.nodes[id].x, at);
      var r := Eval(c, c.nodes[id].x, at);
      if r.Ok? { SameNToM(c, d, id, start, k + 1, r.end, items + r.items); }
    }
  }

  lemma SameRaw(c: Ctx, d: Ctx, id: nat, i: nat)
    requires Alike(c, d) && i <= |c.input|
    ensures forall at: nat :: at <= i ==> RawStringRest(c, id, at, i) == RawStringRest(d, id, at, i)
  {
    SameDelimiter(c, d, id, i, 0);
  }

  lemma {:induction false} SameDelimiter(c: Ctx, d: Ctx, id: nat, i: nat, n: nat)
    requires Alike(c, d) && i <= |c.input| && n <= 16
    ensures DelimiterEnd(c, id, i, n) == DelimiterEnd(d, id, i, n)
    decreases 16 - n
  {
    if n < 16 && i < |c.input| { SameDelimiter(c, d, id, i + 1, n + 1); }
  }

  lemma {:induction false} SameScan(c: Ctx, d: Ctx, id: nat, closer: Option<char>, start: nat, at: nat)
    requires Alike(c, d) && id < |c.nodes| && c.nodes[id].Balanced? && start <= at <= |c.input|
    ensures Scan(c, id, closer, start, at) == Scan(d, id, closer, start, at)
    decreases |c.input| - start, c.rank[id], 0, 2 + |c.input| - at
  {
    assert NodeOk(c, id) && NodeOk(d, id);
    RanksDoNotMatter(c, d, c.nodes[id].until, at);
    if at < |c.input| {
      SameStep(c, d, id, at);
      var r := Step(c, id, at);
      if r.Ok? { SameScan(c, d, id, closer, start, r.end); }
    }
  }

  lemma {:induction false} SameStep(c: Ctx, d: Ctx, id: nat, at: nat)
    requires Alike(c, d) && id < |c.nodes| && c.nodes[id].Balanced? && at < |c.input|
    ensures Step(c, id, at) == Step(d, id, at)
    decreases |c.input| - at, c.rank[id], 0, 1
  {
    SameLexeme(c, d, id, at);
    SameScan(c, d, id, Closer(c.input[at], c.nodes[id].angles), at + 1, at + 1);
  }

  lemma {:induction false} SameLexeme(c: Ctx, d: Ctx, id: nat, at: nat)
    requires Alike(c, d) && id < |c.nodes| && c.nodes[id].Balanced? && at < |c.input|
    ensures Lexeme(c, id, at) == Lexeme(d, id, at)
    decreases |c.input| - at, c.rank[id], 0, 0
  {
    assert NodeOk(c, id) && NodeOk(d, id);
    var n := c.nodes[id];
    RanksDoNotMatter(c, d, n.raw, at);
    RanksDoNotMatter(c, d, n.chr, at);
    RanksDoNotMatter(c, d, n.str, at);
    RanksDoNotMatter(c, d, n.comments, at);
  }
}
