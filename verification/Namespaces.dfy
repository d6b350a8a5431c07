/** The order in which TypeScript namespaces are written, each after what it
    depends on (xju/json_codec.py). */
module Namespaces {
  import opened Wrappers

  // a dict: its keys in the order of insertion
  datatype Nodes = Nodes(keys: seq<string>, deps: map<string, seq<string>>)

  ghost predicate IsDict(nodes: Nodes) {
    (forall n :: n in nodes.keys <==> n in nodes.deps) &&
    (forall i, j :: 0 <= i < j < |nodes.keys| ==> nodes.keys[i] != nodes.keys[j])
  }

  predicate DependsOn(nodes: Nodes, a: string, b: string) {
    a in nodes.deps && b in nodes.deps[a]
  }

  // ---- paths

  ghost predicate Edge(nodes: Nodes, p: seq<string>, i: nat)
    requires i + 1 < |p|
  {
    DependsOn(nodes, p[i], p[i + 1]) && p[i] != p[i + 1]
  }

  // each on the path depends on the next, another one
  ghost predicate IsPath(nodes: Nodes, p: seq<string>) {
    p != [] && forall i: nat :: i + 1 < |p| ==> Edge(nodes, p, i)
  }

  ghost predicate Leads(nodes: Nodes, p: seq<string>, a: string, b: string) {
    IsPath(nodes, p) && p[0] == a && p[|p| - 1] == b
  }

  ghost predicate Reaches(nodes: Nodes, a: string, b: string) {
    exists p :: Leads(nodes, p, a, b)
  }

  // no path leads back to where it starts
  ghost predicate Acyclic(nodes: Nodes) {
    forall p :: IsPath(nodes, p) && |p| > 1 ==> p[0] != p[|p| - 1]
  }

  lemma ReachesItself(nodes: Nodes, a: string)
    ensures Reaches(nodes, a, a)
  {
    assert Leads(nodes, [a], a, a);
  }

  lemma ReachesOn(nodes: Nodes, a: string, b: string, c: string)
    requires Reaches(nodes, a, b) && DependsOn(nodes, b, c)
    ensures Reaches(nodes, a, c)
  {
    if b != c {
      var p :| Leads(nodes, p, a, b);
      var q := p + [c];
      forall i: nat | i + 1 < |q| ensures Edge(nodes, q, i) {
        if i + 1 < |p| { assert Edge(nodes, p, i); }
      }
      assert Leads(nodes, q, a, c);
    }
  }

  lemma ReachesThrough(nodes: Nodes, a: string, b: string, c: string)
    requires Reaches(nodes, a, b) && Reaches(nodes, b, c)
    ensures Reaches(nodes, a, c)
  {
    var p :| Leads(nodes, p, a, b);
    var q :| Leads(nodes, q, b, c);
    var r := p + q[1..];
    forall i: nat | i + 1 < |r| ensures Edge(nodes, r, i) {
      if i + 1 < |p| { assert Edge(nodes, p, i); } else { assert Edge(nodes, q, i - (|p| - 1)); }
    }
    assert Leads(nodes, r, a, c);
  }

  // a name that is no node
  ghost predicate ReachesMissing(nodes: Nodes, a: string) {
    exists m :: m !in nodes.deps && Reaches(nodes, a, m)
  }

  lemma MissingThrough(nodes: Nodes, a: string, b: string)
    requires Reaches(nodes, a, b) && ReachesMissing(nodes, b)
    ensures ReachesMissing(nodes, a)
  {
    var m :| m !in nodes.deps && Reaches(nodes, b, m);
    ReachesThrough(nodes, a, b, m);
  }

  // ---- what the order promises

  ghost predicate Distinct(r: seq<string>) {
    forall i, j :: 0 <= i < j < |r| ==> r[i] != r[j]
  }

  lemma DistinctAppend(a: seq<string>, b: seq<string>)
    requires Distinct(a) && Distinct(b) && forall n :: n in b ==> n !in a
    ensures Distinct(a + b)
  {
    forall i, j | 0 <= i < j < |a + b| ensures (a + b)[i] != (a + b)[j] {
      if i < |a| <= j { assert b[j - |a|] in b; }
    }
  }

  // whatever entry i depends on, but for itself, is before it
  ghost predicate Placed(nodes: Nodes, before: set<string>, r: seq<string>, i: nat)
    requires i < |r|
  {
    forall d :: DependsOn(nodes, r[i], d) && d != r[i] ==> d in before || d in r[..i]
  }

  ghost predicate InOrder(nodes: Nodes, before: set<string>, r: seq<string>) {
    forall i: nat :: i < |r| ==> Placed(nodes, before, r, i)
  }

  lemma InOrderAppend(nodes: Nodes, before: set<string>, a: seq<string>, b: seq<string>, beforeB: set<string>)
    requires InOrder(nodes, before, a) && InOrder(nodes, beforeB, b) && beforeB <= before + ToSet(a)
    ensures InOrder(nodes, before, a + b)
  {
    var r := a + b;
    forall i: nat | i < |r| ensures Placed(nodes, before, r, i) {
      if i < |a| {
        assert Placed(nodes, before, a, i) && r[..i] == a[..i];
      } else {
        assert Placed(nodes, beforeB, b, i - |a|) && r[..i] == a + b[..i - |a|];
      }
    }
  }

  // seen has all that its members depend on
  ghost predicate Closed(nodes: Nodes, seen: set<string>, except: set<string>) {
    forall n, d :: n in seen && n !in except && DependsOn(nodes, n, d) ==> d in seen
  }

  // the way from a root to node that the walk is on
  ghost predicate Stack(nodes: Nodes, stack: seq<string>, node: string) {
    IsPath(nodes, stack + [node])
  }

  lemma StackOn(nodes: Nodes, stack: seq<string>, node: string, dep: string)
    requires Stack(nodes, stack, node) && DependsOn(nodes, node, dep) && dep != node
    ensures Stack(nodes, stack + [node], dep)
  {
    var p, q := stack + [node], stack + [node] + [dep];
    forall i: nat | i + 1 < |q| ensures Edge(nodes, q, i) {
      if i + 1 < |p| { assert Edge(nodes, p, i); }
    }
  }

  // a dependency that is on the way already closes a cycle
  lemma BackEdge(nodes: Nodes, stack: seq<string>, node: string, dep: string)
    requires Stack(nodes, stack, node) && DependsOn(nodes, node, dep) && dep in stack && dep != node
    ensures !Acyclic(nodes)
  {
    var i :| 0 <= i < |stack| && stack[i] == dep;
    var p := (stack + [node])[i..] + [dep];
    forall j: nat | j + 1 < |p| ensures Edge(nodes, p, j) {
      if j + 2 < |p| { assert Edge(nodes, stack + [node], i + j); }
    }
    assert IsPath(nodes, p) && p[0] == p[|p| - 1];
  }

  function ToSet(r: seq<string>): set<string> {
    set n | n in r
  }

  // what one more dependency's walk lists, begun with node on the way
  lemma InOrderBehind(nodes: Nodes, seen: set<string>, stack: seq<string>, node: string, a: seq<string>, b: seq<string>)
    requires InOrder(nodes, seen - ToSet(stack), a)
    requires InOrder(nodes, seen + {node} + ToSet(a) - ToSet(stack + [node]), b)
    ensures InOrder(nodes, seen - ToSet(stack), a + b)
  {
    InOrderAppend(nodes, seen - ToSet(stack), a, b, seen + {node} + ToSet(a) - ToSet(stack + [node]));
  }

  lemma InOrderLast(nodes: Nodes, before: set<string>, a: seq<string>, node: string)
    requires InOrder(nodes, before, a)
    requires forall d :: DependsOn(nodes, node, d) && d != node ==> d in before || d in a
    ensures InOrder(nodes, before, a + [node])
  {
    assert Placed(nodes, before + ToSet(a), [node], 0);
    InOrderAppend(nodes, before, a, [node], before + ToSet(a));
  }

  // what a walk from node has gathered so far, node itself coming last
  ghost predicate Gathered(nodes: Nodes, node: string, seen: set<string>, stack: seq<string>, result: seq<string>,
                           seen': set<string>)
  {
    seen' == seen + {node} + ToSet(result) && Distinct(result) && node !in result &&
    (forall n :: n in result ==> n !in seen && n in nodes.deps && Reaches(nodes, node, n)) &&
    Closed(nodes, seen', seen + {node}) &&
    (Acyclic(nodes) ==> InOrder(nodes, seen - ToSet(stack), result))
  }

  // what a walk from dep comes to, begun when all in seen had been
  ghost predicate WalkOf(nodes: Nodes, dep: string, seen: set<string>, stack: seq<string>, r: seq<string>,
                         seen': set<string>)
  {
    seen' == seen + ToSet(r) && dep in r && Distinct(r) &&
    (forall n :: n in r ==> n !in seen && n in nodes.deps && Reaches(nodes, dep, n)) &&
    Closed(nodes, seen', seen) &&
    (Acyclic(nodes) ==> InOrder(nodes, seen - ToSet(stack), r))
  }

  lemma GatheredOn(nodes: Nodes, node: string, seen: set<string>, stack: seq<string>, result: seq<string>,
                   seen': set<string>, dep: string, r1: seq<string>, seen1: set<string>)
    requires Gathered(nodes, node, seen, stack, result, seen') && DependsOn(nodes, node, dep)
    requires WalkOf(nodes, dep, seen', stack + [node], r1, seen1)
    ensures Gathered(nodes, node, seen, stack, result + r1, seen1) && dep in result + r1
  {
    ReachesItself(nodes, node);
    ReachesOn(nodes, node, node, dep);
    forall n | n in r1 ensures Reaches(nodes, node, n) { ReachesThrough(nodes, node, dep, n); }
    DistinctAppend(result, r1);
    if Acyclic(nodes) { InOrderBehind(nodes, seen, stack, node, result, r1); }
  }

  // the dependency has been walked before, is node, or is on the way, which closes a cycle
  ghost predicate Past(nodes: Nodes, node: string, seen: set<string>, stack: seq<string>, result: seq<string>,
                       dep: string) {
    (dep in seen + {node} + ToSet(result)) &&
    (Acyclic(nodes) && dep != node ==> dep in seen - ToSet(stack) || dep in result)
  }

  lemma PastDependency(nodes: Nodes, node: string, seen: set<string>, stack: seq<string>, result: seq<string>,
                       dep: string)
    requires Stack(nodes, stack, node) && DependsOn(nodes, node, dep) && dep in seen + {node} + ToSet(result)
    ensures Past(nodes, node, seen, stack, result, dep)
  {
    if dep != node && dep in stack { BackEdge(nodes, stack, node, dep); }
  }

  lemma AllGathered(nodes: Nodes, node: string, seen: set<string>, stack: seq<string>, result: seq<string>,
                    seen': set<string>)
    requires Gathered(nodes, node, seen, stack, result, seen') && node in nodes.deps && node !in seen
    requires forall j :: 0 <= j < |nodes.deps[node]| ==> Past(nodes, node, seen, stack, result, nodes.deps[node][j])
    ensures WalkOf(nodes, node, seen, stack, result + [node], seen')
  {
    ReachesItself(nodes, node);
    DistinctAppend(result, [node]);
    forall d | DependsOn(nodes, node, d) ensures Past(nodes, node, seen, stack, result, d) {
      var j :| 0 <= j < |nodes.deps[node]| && nodes.deps[node][j] == d;
    }
    if Acyclic(nodes) { InOrderLast(nodes, seen - ToSet(stack), result, node); }
  }

  method Walk(node: string, nodes: Nodes, seen: set<string>, ghost stack: seq<string>)
    returns (r: Option<seq<string>>, seen': set<string>)
    requires node !in seen && Stack(nodes, stack, node) && ToSet(stack) <= seen
    ensures r.None? ==> ReachesMissing(nodes, node)
    ensures r.Some? ==> seen' == seen + ToSet(r.value) && node in r.value
    ensures r.Some? ==> Distinct(r.value) && forall n :: n in r.value ==> n !in seen && n in nodes.deps && Reaches(nodes, node, n)
    ensures r.Some? ==> Closed(nodes, seen', seen)
    ensures r.Some? && Acyclic(nodes) ==> InOrder(nodes, seen - ToSet(stack), r.value)
    decreases nodes.deps.Keys - seen
  {
    var result: seq<string> := [];
    seen' := seen + {node};
    ReachesItself(nodes, node);
    if node !in nodes.deps { return None, seen'; }
    var deps := nodes.deps[node];
    var i := 0;
    while i < |deps|
      invariant i <= |deps| && Gathered(nodes, node, seen, stack, result, seen')
      invariant forall j :: 0 <= j < i ==> Past(nodes, node, seen, stack, result, deps[j])
    {
      var dep := deps[i];
      assert DependsOn(nodes, node, dep);
      if dep !in seen' {
        StackOn(nodes, stack, node, dep);
        var r1, seen1 := Walk(dep, nodes, seen', stack + [node]);
        if r1.None? {
          ReachesOn(nodes, node, node, dep);
          MissingThrough(nodes, node, dep);
          return None, seen1;
        }
        GatheredOn(nodes, node, seen, stack, result, seen', dep, r1.value, seen1);
        result := result + r1.value;
        seen' := seen1;
      }
      PastDependency(nodes, node, seen, stack, result, dep);
      i := i + 1;
    }
    AllGathered(nodes, node, seen, stack, result, seen');
    result := result + [node];
    r := Some(result);
  }

  // a node that no other depends on
  ghost predicate IsRoot(nodes: Nodes, n: string) {
    n in nodes.deps && forall m :: m != n ==> !DependsOn(nodes, m, n)
  }

  ghost predicate FromRoot(nodes: Nodes, n: string) {
    exists root :: IsRoot(nodes, root) && Reaches(nodes, root, n)
  }

  method Roots(nodes: Nodes) returns (roots: set<string>)
    requires IsDict(nodes)
    ensures forall n :: n in roots <==> IsRoot(nodes, n)
  {
    roots := set n | n in nodes.keys;
    var i := 0;
    while i < |nodes.keys|
      invariant i <= |nodes.keys|
      invariant forall n :: n in roots <==>
        n in nodes.deps && forall j :: 0 <= j < i && nodes.keys[j] != n ==> !DependsOn(nodes, nodes.keys[j], n)
    {
      var node := nodes.keys[i];
      var depSet := set d | d in nodes.deps[node];
      if node in depSet { depSet := depSet - {node}; }
      roots := roots - depSet;
      i := i + 1;
    }
    forall n | n in roots ensures IsRoot(nodes, n) {
      forall m | m != n && m in nodes.deps ensures !DependsOn(nodes, m, n) {
        var j :| 0 <= j < |nodes.keys| && nodes.keys[j] == m;
      }
    }
  }

  // nothing leads to a root but itself
  lemma RootUnreached(nodes: Nodes, root: string, a: string)
    requires IsRoot(nodes, root) && Reaches(nodes, a, root)
    ensures a == root
  {
    var p :| Leads(nodes, p, a, root);
    assert |p| > 1 ==> Edge(nodes, p, |p| - 2);
  }

  // what is closed has all that can be reached from it
  lemma {:induction false} ClosedHolds(nodes: Nodes, seen: set<string>, p: seq<string>)
    requires Closed(nodes, seen, {}) && IsPath(nodes, p) && p[0] in seen
    ensures p[|p| - 1] in seen
    decreases |p|
  {
    if |p| > 1 {
      assert Edge(nodes, p, 0);
      var q := p[1..];
      forall i: nat | i + 1 < |q| ensures Edge(nodes, q, i) { assert Edge(nodes, p, i + 1); }
      ClosedHolds(nodes, seen, q);
    }
  }

  // the roots, and so all they reach, are in what is closed
  lemma RootsReach(nodes: Nodes, seen: set<string>, n: string)
    requires Closed(nodes, seen, {}) && FromRoot(nodes, n) && forall root :: IsRoot(nodes, root) ==> root in seen
    ensures n in seen
  {
    var root :| IsRoot(nodes, root) && Reaches(nodes, root, n);
    var p :| Leads(nodes, p, root, n);
    ClosedHolds(nodes, seen, p);
  }

  /** Whatever the graph: what is reached from the roots is listed, once each, unless
      that includes a name that is no node; and in order, if there is no cycle. */
  method SortNamespaces(nodes: Nodes) returns (r: Option<seq<string>>)
    requires IsDict(nodes)
    ensures r.None? <==> exists m :: m !in nodes.deps && FromRoot(nodes, m)
    ensures r.Some? ==> IsSorted(nodes, r.value)
    ensures OwnKeys(nodes) ==> r.Some?
    ensures OwnKeys(nodes) ==>
      (Acyclic(nodes) <==> (forall n :: n in nodes.deps ==> n in r.value) && InOrder(nodes, {}, r.value))
  {
    var roots := Roots(nodes);
    var result: seq<string> := [];
    var i := 0;
    while i < |nodes.keys|
      invariant i <= |nodes.keys| && Distinct(result)
      invariant Walked(nodes, roots, i, result)
      invariant Acyclic(nodes) ==> InOrder(nodes, {}, result)
    {
      var node := nodes.keys[i];
      if node in roots {
        NotYet(nodes, roots, i, result);
        var r1, _ := Walk(node, nodes, ToSet(result), []);
        if r1.None? {
          MissingFromRoot(nodes, node);
          NoneMissing(nodes);
          return None;
        }
        DistinctAppend(result, r1.value);
        if Acyclic(nodes) { InOrderAppend(nodes, {}, result, r1.value, ToSet(result) - ToSet([])); }
        WalkedOn(nodes, roots, i, result, r1.value);
        result := result + r1.value;
      } else {
        PassedOver(nodes, roots, i, result);
      }
      i := i + 1;
    }
    AllWalked(nodes, roots, result);
    if OwnKeys(nodes) { SortedExactly(nodes, result); }
    r := Some(result);
  }

  lemma MissingFromRoot(nodes: Nodes, root: string)
    requires IsRoot(nodes, root) && ReachesMissing(nodes, root)
    ensures exists m :: m !in nodes.deps && FromRoot(nodes, m)
  {
    var m :| m !in nodes.deps && Reaches(nodes, root, m);
    assert FromRoot(nodes, m);
  }

  // one of the first i keys is a root that n is reached from
  ghost predicate FromFirst(nodes: Nodes, i: nat, n: string)
    requires i <= |nodes.keys|
  {
    exists j: nat :: j < i && FromKey(nodes, j, n)
  }

  ghost predicate FromKey(nodes: Nodes, j: nat, n: string)
    requires j < |nodes.keys|
  {
    IsRoot(nodes, nodes.keys[j]) && Reaches(nodes, nodes.keys[j], n)
  }

  ghost predicate Reached(nodes: Nodes, i: nat, result: seq<string>)
    requires i <= |nodes.keys|
  {
    forall n :: n in result ==> n in nodes.deps && FromFirst(nodes, i, n)
  }

  ghost predicate Listed(nodes: Nodes, roots: set<string>, i: nat, result: seq<string>)
    requires i <= |nodes.keys|
  {
    forall j: nat :: j < i && nodes.keys[j] in roots ==> nodes.keys[j] in result
  }

  // the result so far, after the first i keys
  ghost predicate Walked(nodes: Nodes, roots: set<string>, i: nat, result: seq<string>)
    requires i <= |nodes.keys|
  {
    Reached(nodes, i, result) && Listed(nodes, roots, i, result) && Closed(nodes, ToSet(result), {})
  }

  lemma NotYet(nodes: Nodes, roots: set<string>, i: nat, result: seq<string>)
    requires IsDict(nodes) && i < |nodes.keys| && Walked(nodes, roots, i, result) && IsRoot(nodes, nodes.keys[i])
    ensures nodes.keys[i] !in result
  {
    if nodes.keys[i] in result {
      var j: nat :| j < i && FromKey(nodes, j, nodes.keys[i]);
      RootUnreached(nodes, nodes.keys[i], nodes.keys[j]);
    }
  }

  lemma ClosedAppend(nodes: Nodes, a: seq<string>, b: seq<string>)
    requires Closed(nodes, ToSet(a), {}) && Closed(nodes, ToSet(a) + ToSet(b), ToSet(a))
    ensures Closed(nodes, ToSet(a + b), {})
  {
    forall n, d | n in ToSet(a + b) && DependsOn(nodes, n, d) ensures d in ToSet(a + b) {
      assert n in a || n in b;
      if n in ToSet(a) { assert d in ToSet(a); } else { assert d in ToSet(a) + ToSet(b); }
    }
  }

  lemma FromNext(nodes: Nodes, i: nat, n: string)
    requires i < |nodes.keys| && (FromFirst(nodes, i, n) || FromKey(nodes, i, n))
    ensures FromFirst(nodes, i + 1, n)
  {
    if FromFirst(nodes, i, n) {
      var j: nat :| j < i && FromKey(nodes, j, n);
    }
  }

  lemma WalkedOn(nodes: Nodes, roots: set<string>, i: nat, result: seq<string>, r1: seq<string>)
    requires i < |nodes.keys| && Walked(nodes, roots, i, result) && nodes.keys[i] in roots && nodes.keys[i] in r1
    requires forall n :: n in r1 ==> n in nodes.deps && FromKey(nodes, i, n)
    requires Closed(nodes, ToSet(result) + ToSet(r1), ToSet(result))
    ensures Walked(nodes, roots, i + 1, result + r1)
  {
    ReachedOn(nodes, i, result, r1);
    ListedOn(nodes, roots, i, result, r1);
    ClosedAppend(nodes, result, r1);
  }

  // a key that is no root
  lemma PassedOver(nodes: Nodes, roots: set<string>, i: nat, result: seq<string>)
    requires i < |nodes.keys| && Walked(nodes, roots, i, result) && nodes.keys[i] !in roots
    ensures Walked(nodes, roots, i + 1, result)
  {
    forall n | n in result ensures n in nodes.deps && FromFirst(nodes, i + 1, n) { FromNext(nodes, i, n); }
  }

  lemma ReachedOn(nodes: Nodes, i: nat, result: seq<string>, r1: seq<string>)
    requires i < |nodes.keys| && Reached(nodes, i, result)
    requires forall n :: n in r1 ==> n in nodes.deps && FromKey(nodes, i, n)
    ensures Reached(nodes, i + 1, result + r1)
  {
    forall n | n in result + r1 ensures n in nodes.deps && FromFirst(nodes, i + 1, n) { FromNext(nodes, i, n); }
  }

  lemma ListedOn(nodes: Nodes, roots: set<string>, i: nat, result: seq<string>, r1: seq<string>)
    requires i < |nodes.keys| && Listed(nodes, roots, i, result) && (nodes.keys[i] in roots ==> nodes.keys[i] in r1)
    ensures Listed(nodes, roots, i + 1, result + r1)
  {
  }

  lemma AllWalked(nodes: Nodes, roots: set<string>, result: seq<string>)
    requires IsDict(nodes) && Walked(nodes, roots, |nodes.keys|, result)
    requires forall n :: n in roots <==> IsRoot(nodes, n)
    ensures forall n :: n in result <==> FromRoot(nodes, n)
    ensures forall n :: FromRoot(nodes, n) ==> n in nodes.deps
  {
    forall root | IsRoot(nodes, root) ensures root in ToSet(result) {
      var j :| 0 <= j < |nodes.keys| && nodes.keys[j] == root;
    }
    forall n | FromRoot(nodes, n) ensures n in result { RootsReach(nodes, ToSet(result), n); }
    forall n | n in result ensures FromRoot(nodes, n) {
      var j: nat :| j < |nodes.keys| && FromKey(nodes, j, n);
    }
  }

  // ---- when all is well

  // every dependency is a node
  ghost predicate OwnKeys(nodes: Nodes) {
    forall n, d :: DependsOn(nodes, n, d) ==> d in nodes.deps
  }

  lemma {:induction false} DistinctFits(p: seq<string>, all: set<string>)
    requires Distinct(p) && ToSet(p) <= all
    ensures |p| <= |all|
  {
    if p != [] {
      var last := p[|p| - 1];
      assert last in ToSet(p) && last !in ToSet(p[..|p| - 1]);
      DistinctFits(p[..|p| - 1], all - {last});
    }
  }

  lemma PartOfPath(nodes: Nodes, p: seq<string>, i: nat, j: nat)
    requires IsPath(nodes, p) && i < j <= |p|
    ensures IsPath(nodes, p[i..j])
  {
    var q := p[i..j];
    forall k: nat | k + 1 < |q| ensures Edge(nodes, q, k) { assert Edge(nodes, p, i + k); }
  }

  lemma PathIsDistinct(nodes: Nodes, p: seq<string>)
    requires IsPath(nodes, p) && Acyclic(nodes)
    ensures Distinct(p)
  {
    forall i, j | 0 <= i < j < |p| ensures p[i] != p[j] {
      PartOfPath(nodes, p, i, j + 1);
      var q := p[i..j + 1];
      assert q[0] == p[i] && q[|q| - 1] == p[j];
    }
  }

  // going back along dependencies ends at a root
  lemma {:induction false} RootBefore(nodes: Nodes, p: seq<string>)
    requires IsPath(nodes, p) && Acyclic(nodes) && ToSet(p) <= nodes.deps.Keys && |p| <= |nodes.deps|
    ensures FromRoot(nodes, p[|p| - 1])
    decreases |nodes.deps| - |p|
  {
    if IsRoot(nodes, p[0]) {
      assert Leads(nodes, p, p[0], p[|p| - 1]);
    } else {
      assert p[0] in ToSet(p);
      var m :| m != p[0] && DependsOn(nodes, m, p[0]);
      var q := [m] + p;
      forall i: nat | i + 1 < |q| ensures Edge(nodes, q, i) {
        if i > 0 { assert Edge(nodes, p, i - 1); }
      }
      PathIsDistinct(nodes, q);
      assert ToSet(q) <= nodes.deps.Keys;
      DistinctFits(q, nodes.deps.Keys);
      RootBefore(nodes, q);
    }
  }

  // along a path the places in the order fall
  lemma {:induction false} PathFalls(nodes: Nodes, r: seq<string>, p: seq<string>, i: nat) returns (j: nat)
    requires InOrder(nodes, {}, r) && Distinct(r) && IsPath(nodes, p) && i < |r| && r[i] == p[0]
    ensures j <= i && r[j] == p[|p| - 1] && (|p| > 1 ==> j < i)
    decreases |p|
  {
    if |p| == 1 {
      j := i;
    } else {
      assert Edge(nodes, p, 0) && Placed(nodes, {}, r, i);
      var k :| 0 <= k < i && r[k] == p[1];
      PartOfPath(nodes, p, 1, |p|);
      assert p[1..|p|] == p[1..];
      j := PathFalls(nodes, r, p[1..], k);
    }
  }

  // what SortNamespaces promises of its result
  ghost predicate IsSorted(nodes: Nodes, r: seq<string>) {
    Distinct(r) && (forall n :: n in r <==> FromRoot(nodes, n)) && (Acyclic(nodes) ==> InOrder(nodes, {}, r))
  }

  /** Where every dependency is a node: the result has every namespace, and none that
      depends on a later one, just if there is no cycle but of one with itself. */
  lemma SortedExactly(nodes: Nodes, r: seq<string>)
    requires IsDict(nodes) && OwnKeys(nodes) && IsSorted(nodes, r)
    ensures (forall n :: n in nodes.deps ==> n in r) && InOrder(nodes, {}, r) <==> Acyclic(nodes)
  {
    if Acyclic(nodes) {
      forall n | n in nodes.deps ensures n in r {
        assert nodes.deps != map[];
        assert ToSet([n]) <= nodes.deps.Keys;
        DistinctFits([n], nodes.deps.Keys);
        RootBefore(nodes, [n]);
      }
    } else if (forall n :: n in nodes.deps ==> n in r) && InOrder(nodes, {}, r) {
      var p :| IsPath(nodes, p) && |p| > 1 && p[0] == p[|p| - 1];
      assert Edge(nodes, p, 0);
      var i :| 0 <= i < |r| && r[i] == p[0];
      var j := PathFalls(nodes, r, p, i);
      assert false;
    }
  }

  lemma NoneMissing(nodes: Nodes)
    ensures OwnKeys(nodes) ==> forall m :: FromRoot(nodes, m) ==> m in nodes.deps
  {
    if OwnKeys(nodes) {
      forall m | FromRoot(nodes, m) ensures m in nodes.deps {
        var root :| IsRoot(nodes, root) && Reaches(nodes, root, m);
        var p :| Leads(nodes, p, root, m);
        if |p| > 1 { assert Edge(nodes, p, |p| - 2); }
      }
    }
  }
}
