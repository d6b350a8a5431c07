/** The comparison operators that hcp-split generates for a class, from its member
    variables in order (hcp/hcp-split.cc). */
module Comparisons {

  // an instance, by member variable
  type Instance<T> = map<string, T>

  datatype Side = X | Y

  // the statements of the generated operator<
  datatype Stmt =
    | IfLess(left: Side, right: Side, member: string, result: bool)   // if (x.v < y.v) return true;
    | Return(result: bool)

  function Pair(v: string): seq<Stmt> {
    [IfLess(X, Y, v, true), IfLess(Y, X, v, false)]
  }

  function LessBody(members: seq<string>): seq<Stmt> {
    if members == [] then [Return(false)] else Pair(members[0]) + LessBody(members[1..])
  }

  function Pairs(members: seq<string>): seq<Stmt> {
    if members == [] then [] else Pair(members[0]) + Pairs(members[1..])
  }

  lemma {:induction false} PairsLast(members: seq<string>, i: nat)
    requires i < |members|
    ensures Pairs(members[..i + 1]) == Pairs(members[..i]) + Pair(members[i])
  {
    if i == 0 {
      assert members[..1][1..] == [];
    } else {
      assert members[..i + 1][1..] == members[1..][..i] && members[..i][1..] == members[1..][..i - 1];
      PairsLast(members[1..], i - 1);
    }
  }

  lemma {:induction false} BodyIsPairs(members: seq<string>)
    ensures LessBody(members) == Pairs(members) + [Return(false)]
  {
    if members != [] { BodyIsPairs(members[1..]); }
  }

  method GenerateLess(members: seq<string>) returns (body: seq<Stmt>)
    ensures body == LessBody(members)
  {
    body := [];
    var i := 0;
    while i < |members|
      invariant i <= |members| && body == Pairs(members[..i])
    {
      PairsLast(members, i);
      body := body + [IfLess(X, Y, members[i], true)];
      body := body + [IfLess(Y, X, members[i], false)];
      i := i + 1;
    }
    assert members[..|members|] == members;
    BodyIsPairs(members);
    body := body + [Return(false)];
  }

  // ---- what the generated code does

  predicate HasAll<T>(x: Instance<T>, members: seq<string>) {
    forall v :: v in members ==> v in x
  }

  predicate Exec<T>(body: seq<Stmt>, x: Instance<T>, y: Instance<T>, less: (string, T, T) -> bool)
    requires forall i :: 0 <= i < |body| && body[i].IfLess? ==> body[i].member in x && body[i].member in y
  {
    if body == [] then false else
    match body[0]
    case Return(r) => r
    case IfLess(l, r, v, result) =>
      if less(v, (if l == X then x else y)[v], (if r == X then x else y)[v]) then result
      else Exec(body[1..], x, y, less)
  }

  lemma {:induction false} BodyMembers(members: seq<string>)
    ensures forall i :: 0 <= i < |LessBody(members)| && LessBody(members)[i].IfLess? ==> LessBody(members)[i].member in members
  {
    if members != [] {
      BodyMembers(members[1..]);
      var rest := LessBody(members[1..]);
      forall i | 0 <= i < |LessBody(members)| && LessBody(members)[i].IfLess?
        ensures LessBody(members)[i].member in members
      {
        if i < 2 { assert members[0] in members; } else { assert LessBody(members)[i] == rest[i - 2]; }
      }
    }
  }

  predicate Lt<T>(members: seq<string>, less: (string, T, T) -> bool, x: Instance<T>, y: Instance<T>)
    requires HasAll(x, members) && HasAll(y, members)
  {
    BodyMembers(members);
    Exec(LessBody(members), x, y, less)
  }

  // the other generated operators
  predicate Gt<T>(members: seq<string>, less: (string, T, T) -> bool, x: Instance<T>, y: Instance<T>)
    requires HasAll(x, members) && HasAll(y, members)
  {
    Lt(members, less, y, x)
  }

  predicate Ne<T>(members: seq<string>, less: (string, T, T) -> bool, x: Instance<T>, y: Instance<T>)
    requires HasAll(x, members) && HasAll(y, members)
  {
    Lt(members, less, y, x) || Lt(members, less, x, y)
  }

  predicate Eq<T>(members: seq<string>, less: (string, T, T) -> bool, x: Instance<T>, y: Instance<T>)
    requires HasAll(x, members) && HasAll(y, members)
  {
    !(Lt(members, less, y, x) || Lt(members, less, x, y))
  }

  predicate Le<T>(members: seq<string>, less: (string, T, T) -> bool, x: Instance<T>, y: Instance<T>)
    requires HasAll(x, members) && HasAll(y, members)
  {
    !Gt(members, less, x, y)
  }

  predicate Ge<T>(members: seq<string>, less: (string, T, T) -> bool, x: Instance<T>, y: Instance<T>)
    requires HasAll(x, members) && HasAll(y, members)
  {
    !Lt(members, less, x, y)
  }

  // ---- lexicographic order

  predicate Level<T>(v: string, less: (string, T, T) -> bool, a: T, b: T) {
    !less(v, a, b) && !less(v, b, a)
  }

  // the first member that tells x and y apart has x below y
  ghost predicate FirstBelow<T>(members: seq<string>, less: (string, T, T) -> bool, x: Instance<T>, y: Instance<T>,
                                i: nat)
    requires HasAll(x, members) && HasAll(y, members)
  {
    i < |members| && less(members[i], x[members[i]], y[members[i]]) &&
    forall j :: 0 <= j < i ==> Level(members[j], less, x[members[j]], y[members[j]])
  }

  lemma {:induction false} LessUnfolds<T>(members: seq<string>, less: (string, T, T) -> bool, x: Instance<T>,
                                          y: Instance<T>)
    requires HasAll(x, members) && HasAll(y, members) && members != []
    ensures var v := members[0];
      Lt(members, less, x, y) ==
      (less(v, x[v], y[v]) || (!less(v, y[v], x[v]) && Lt(members[1..], less, x, y)))
  {
    var v := members[0];
    BodyMembers(members);
    BodyMembers(members[1..]);
    var b := LessBody(members);
    assert b[0] == IfLess(X, Y, v, true) && b[1..][0] == IfLess(Y, X, v, false);
    assert b[1..][1..] == LessBody(members[1..]);
    assert Exec(b, x, y, less) == (less(v, x[v], y[v]) || Exec(b[1..], x, y, less));
    assert Exec(b[1..], x, y, less) == (!less(v, y[v], x[v]) && Exec(b[1..][1..], x, y, less));
  }

  /** operator< is the lexicographic order of the members. */
  lemma {:induction false} LessIsLexicographic<T>(members: seq<string>, less: (string, T, T) -> bool,
                                                  x: Instance<T>, y: Instance<T>)
    requires HasAll(x, members) && HasAll(y, members)
    requires forall v, a, b :: v in members ==> !(less(v, a, b) && less(v, b, a))
    ensures Lt(members, less, x, y) <==> exists i: nat :: FirstBelow(members, less, x, y, i)
  {
    if members == [] {
    } else {
      LessUnfolds(members, less, x, y);
      LessIsLexicographic(members[1..], less, x, y);
      var v := members[0];
      if less(v, x[v], y[v]) {
        assert FirstBelow(members, less, x, y, 0);
      } else {
        if i: nat :| FirstBelow(members[1..], less, x, y, i) && !less(v, y[v], x[v]) {
          assert FirstBelow(members, less, x, y, i + 1);
        }
        if i: nat :| FirstBelow(members, less, x, y, i) {
          assert Level(v, less, x[v], y[v]);
          assert FirstBelow(members[1..], less, x, y, i - 1);
        }
      }
    }
  }

  // ---- strict weak orders

  ghost predicate MemberOrdered<T(!new)>(v: string, less: (string, T, T) -> bool) {
    (forall a :: !less(v, a, a)) &&
    (forall a, b, c :: less(v, a, b) && less(v, b, c) ==> less(v, a, c)) &&
    (forall a, b, c :: Level(v, less, a, b) && Level(v, less, b, c) ==> Level(v, less, a, c))
  }

  // what a strict weak order asks of three instances
  predicate OrderedAt<T>(members: seq<string>, less: (string, T, T) -> bool,
                         x: Instance<T>, y: Instance<T>, z: Instance<T>)
    requires HasAll(x, members) && HasAll(y, members) && HasAll(z, members)
  {
    !Lt(members, less, x, x) &&
    (Lt(members, less, x, y) && Lt(members, less, y, z) ==> Lt(members, less, x, z)) &&
    (Eq(members, less, x, y) && Eq(members, less, y, z) ==> Eq(members, less, x, z))
  }

  ghost predicate ClassOrdered<T(!new)>(members: seq<string>, less: (string, T, T) -> bool) {
    forall x: Instance<T>, y: Instance<T>, z: Instance<T> ::
      HasAll(x, members) && HasAll(y, members) && HasAll(z, members) ==> OrderedAt(members, less, x, y, z)
  }

  // what a member that is in order says of three of its values
  lemma MemberAt<T(!new)>(v: string, less: (string, T, T) -> bool, a: T, b: T, c: T)
    requires MemberOrdered(v, less)
    ensures !less(v, a, a) && !(less(v, a, b) && less(v, b, a))
    ensures less(v, a, b) && less(v, b, c) ==> less(v, a, c)
    ensures less(v, a, b) && Level(v, less, b, c) ==> less(v, a, c)
    ensures Level(v, less, a, b) && less(v, b, c) ==> less(v, a, c)
    ensures Level(v, less, a, b) && Level(v, less, b, c) ==> Level(v, less, a, c)
  {
    assert Level(v, less, a, c) && Level(v, less, c, b) ==> Level(v, less, a, b);
    assert Level(v, less, b, a) && Level(v, less, a, c) ==> Level(v, less, b, c);
  }

  lemma {:induction false} MembersOrderClass<T(!new)>(members: seq<string>, less: (string, T, T) -> bool,
                                                      x: Instance<T>, y: Instance<T>, z: Instance<T>)
    requires forall v :: v in members ==> MemberOrdered(v, less)
    requires HasAll(x, members) && HasAll(y, members) && HasAll(z, members)
    ensures OrderedAt(members, less, x, y, z)
    // operator< respects operator==
    ensures Lt(members, less, x, y) && Eq(members, less, y, z) ==> Lt(members, less, x, z)
    ensures Eq(members, less, x, y) && Lt(members, less, y, z) ==> Lt(members, less, x, z)
  {
    if members != [] {
      var v := members[0];
      assert MemberOrdered(v, less);
      LessUnfolds(members, less, x, x);
      LessUnfolds(members, less, x, y);
      LessUnfolds(members, less, y, x);
      LessUnfolds(members, less, y, z);
      LessUnfolds(members, less, z, y);
      LessUnfolds(members, less, x, z);
      LessUnfolds(members, less, z, x);
      MemberAt(v, less, x[v], y[v], z[v]);
      MemberAt(v, less, z[v], y[v], x[v]);
      MembersOrderClass(members[1..], less, x, y, z);
    }
  }

  function All<T>(members: seq<string>, a: T): Instance<T> {
    map v | v in members :: a
  }

  lemma {:induction false} ReflexiveMember<T>(members: seq<string>, less: (string, T, T) -> bool, x: Instance<T>,
                                              v: string)
    requires HasAll(x, members) && v in members && less(v, x[v], x[v])
    ensures Lt(members, less, x, x)
  {
    LessUnfolds(members, less, x, x);
    if v != members[0] && !less(members[0], x[members[0]], x[members[0]]) {
      ReflexiveMember(members[1..], less, x, v);
    }
  }

  // two instances that differ in v alone
  lemma {:induction false} LessByOne<T>(members: seq<string>, less: (string, T, T) -> bool,
                                        x: Instance<T>, y: Instance<T>, v: string)
    requires HasAll(x, members) && HasAll(y, members)
    requires forall u :: u in members && u != v ==> x[u] == y[u] && !less(u, x[u], x[u])
    ensures Lt(members, less, x, y) <==> v in members && less(v, x[v], y[v])
  {
    if members != [] {
      LessUnfolds(members, less, x, y);
      LessByOne(members[1..], less, x, y, v);
    }
  }

  lemma ClassOrdersMember<T(!new)>(members: seq<string>, less: (string, T, T) -> bool, v: string)
    requires ClassOrdered(members, less) && v in members
    ensures MemberOrdered(v, less)
  {
    forall u, a | u in members ensures !less(u, a, a) {
      var x := All(members, a);
      assert OrderedAt(members, less, x, x, x);
      if less(u, a, a) { ReflexiveMember(members, less, x, u); }
    }
    forall a, b, c
      ensures less(v, a, b) && less(v, b, c) ==> less(v, a, c)
      ensures Level(v, less, a, b) && Level(v, less, b, c) ==> Level(v, less, a, c)
    {
      var x := All(members, a);
      var y, z := x[v := b], x[v := c];
      assert OrderedAt(members, less, x, y, z);
      LessByOne(members, less, x, y, v);
      LessByOne(members, less, y, x, v);
      LessByOne(members, less, y, z, v);
      LessByOne(members, less, z, y, v);
      LessByOne(members, less, x, z, v);
      LessByOne(members, less, z, x, v);
    }
  }

  /** The generated operator< is a strict weak order just if that of each member is. */
  lemma LessIsStrictWeakOrderExactly<T(!new)>(members: seq<string>, less: (string, T, T) -> bool)
    ensures ClassOrdered(members, less) <==> forall v :: v in members ==> MemberOrdered(v, less)
  {
    if forall v :: v in members ==> MemberOrdered(v, less) {
      forall x: Instance<T>, y: Instance<T>, z: Instance<T> |
        HasAll(x, members) && HasAll(y, members) && HasAll(z, members)
        ensures OrderedAt(members, less, x, y, z)
      {
        MembersOrderClass(members, less, x, y, z);
      }
    }
    if ClassOrdered(members, less) {
      forall v | v in members ensures MemberOrdered(v, less) { ClassOrdersMember(members, less, v); }
    }
  }

  /** The companions agree with operator<: == is an equivalence, <= and >= are < or
      ==, > or ==; just one of <, == and > holds; all of them are the same for
      instances that are ==. */
  lemma CompanionsAgree<T(!new)>(members: seq<string>, less: (string, T, T) -> bool,
                                 x: Instance<T>, y: Instance<T>, z: Instance<T>)
    requires forall v :: v in members ==> MemberOrdered(v, less)
    requires HasAll(x, members) && HasAll(y, members) && HasAll(z, members)
    ensures Eq(members, less, x, x) && (Eq(members, less, x, y) ==> Eq(members, less, y, x))
    ensures Eq(members, less, x, y) && Eq(members, less, y, z) ==> Eq(members, less, x, z)
    ensures Ne(members, less, x, y) <==> !Eq(members, less, x, y)
    ensures Le(members, less, x, y) <==> Lt(members, less, x, y) || Eq(members, less, x, y)
    ensures Ge(members, less, x, y) <==> Gt(members, less, x, y) || Eq(members, less, x, y)
    ensures !(Lt(members, less, x, y) && Gt(members, less, x, y))
    ensures Le(members, less, x, y) && Le(members, less, y, z) ==> Le(members, less, x, z)
    ensures Eq(members, less, x, y) ==> (Lt(members, less, x, z) <==> Lt(members, less, y, z))
    ensures Eq(members, less, x, y) ==> (Gt(members, less, x, z) <==> Gt(members, less, y, z))
  {
    MembersOrderClass(members, less, x, x, x);
    MembersOrderClass(members, less, x, y, x);
    MembersOrderClass(members, less, x, y, z);
    MembersOrderClass(members, less, y, x, z);
    MembersOrderClass(members, less, z, y, x);
    MembersOrderClass(members, less, z, x, y);
  }

  /** Instances are == just when every member is level. */
  lemma {:induction false} EqIsMemberwise<T(!new)>(members: seq<string>, less: (string, T, T) -> bool,
                                                   x: Instance<T>, y: Instance<T>)
    requires HasAll(x, members) && HasAll(y, members)
    requires forall v, a, b :: v in members ==> !(less(v, a, b) && less(v, b, a))
    ensures Eq(members, less, x, y) <==> forall v :: v in members ==> Level(v, less, x[v], y[v])
  {
    if members != [] {
      LessUnfolds(members, less, x, y);
      LessUnfolds(members, less, y, x);
      EqIsMemberwise(members[1..], less, x, y);
      assert forall v :: v in members <==> v == members[0] || v in members[1..];
    }
  }
}
