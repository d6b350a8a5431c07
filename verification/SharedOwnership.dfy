/** What xju::Shared promises, told with counts: an object belongs to the Shared
    that hold it, and is deleted when the last of them lets go. */
module SharedOwnership {

  datatype Pointer = Null | Object(id: nat)

  // the live Shared and what each holds; what has been deleted, in order
  datatype State<H> = State(value: map<H, Pointer>, deleted: seq<nat>)

  datatype Op<H> =
    | Empty(h: H)                 // Shared()
    | Own(h: H, x: Pointer)       // Shared(T*), Shared(unique_ptr)
    | Copy(h: H, g: H)          // Shared(const Shared&), Shared(const Shared<U>&)
    | Assign(h: H, g: H)        // operator=(const Shared&)
    | Reset(h: H, x: Pointer)     // operator=(T*)
    | Destroy(h: H)               // ~Shared()

  function Holders<H>(s: State<H>, x: nat): set<H> {
    set h | h in s.value && s.value[h] == Object(x)
  }

  // a raw pointer may be given to one Shared only, and only while it is alive
  predicate Unmanaged<H>(s: State<H>, x: Pointer) {
    x.Object? ==> Holders(s, x.id) == {} && x.id !in s.deleted
  }

  predicate Allowed<H>(s: State<H>, op: Op<H>) {
    match op
    case Empty(h) => h !in s.value
    case Own(h, x) => h !in s.value && Unmanaged(s, x)
    case Copy(h, g) => h !in s.value && g in s.value
    case Assign(h, g) => h in s.value && g in s.value
    case Reset(h, x) => h in s.value && Unmanaged(s, x)
    case Destroy(h) => h in s.value
  }

  // the object h holds, if h is the only one to hold it
  function LastOf<H>(s: State<H>, h: H): seq<nat>
    requires h in s.value
  {
    if s.value[h].Object? && Holders(s, s.value[h].id) == {h} then [s.value[h].id] else []
  }

  function Release<H>(s: State<H>, h: H): State<H>
    requires h in s.value
  {
    State(s.value[h := Null], s.deleted + LastOf(s, h))
  }

  function Perform<H>(s: State<H>, op: Op<H>): State<H>
    requires Allowed(s, op)
  {
    match op
    case Empty(h) => s.(value := s.value[h := Null])
    case Own(h, x) => s.(value := s.value[h := x])
    case Copy(h, g) => s.(value := s.value[h := s.value[g]])
    case Assign(h, g) => if h == g then s else var r := Release(s, h); r.(value := r.value[h := r.value[g]])
    case Reset(h, x) => var r := Release(s, h); r.(value := r.value[h := x])
    case Destroy(h) => var r := Release(s, h); r.(value := r.value - {h})
  }

  // ---- every run

  // nothing is held after it was deleted, nor deleted again
  ghost predicate Sound<H>(s: State<H>) {
    (forall i, j :: 0 <= i < j < |s.deleted| ==> s.deleted[i] != s.deleted[j]) &&
    (forall h :: h in s.value && s.value[h].Object? ==> s.value[h].id !in s.deleted)
  }

  function Gone<H>(before: set<H>, after: set<H>): nat {
    if before != {} && after == {} then 1 else 0
  }

  // h lets go of what it holds
  lemma ReleaseDeletesLast<H>(s: State<H>, h: H, x: nat)
    requires h in s.value
    ensures Holders(Release(s, h), x) == Holders(s, x) - {h}
    ensures multiset(Release(s, h).deleted)[x] == multiset(s.deleted)[x] + Gone(Holders(s, x), Holders(s, x) - {h})
  {
    assert forall g :: g in Release(s, h).value && g != h ==> Release(s, h).value[g] == s.value[g];
    assert Holders(Release(s, h), x) == Holders(s, x) - {h};
    if h !in Holders(s, x) { assert Holders(s, x) - {h} == Holders(s, x); }
    if h in Holders(s, x) && Holders(s, x) - {h} == {} { assert Holders(s, x) == {h}; }
  }

  lemma ReleaseSound<H>(s: State<H>, h: H)
    requires Sound(s) && h in s.value
    ensures Sound(Release(s, h))
  {
    var r := Release(s, h);
    if LastOf(s, h) != [] {
      var x := s.value[h].id;
      assert x !in s.deleted;
      ReleaseDeletesLast(s, h, x);
      forall g | g in r.value && r.value[g].Object? ensures r.value[g].id !in r.deleted {
        assert r.value[g] == s.value[g];
        assert g in Holders(r, r.value[g].id);
      }
    }
  }

  // h, holding nothing, comes to hold p
  function Take<H>(s: State<H>, h: H, p: Pointer): State<H> {
    s.(value := s.value[h := p])
  }

  lemma TakeHolds<H>(s: State<H>, h: H, p: Pointer, x: nat)
    requires h !in s.value || s.value[h] == Null
    ensures Holders(Take(s, h, p), x) == if p == Object(x) then Holders(s, x) + {h} else Holders(s, x)
  {
  }

  /** Whatever the operation: an object is deleted by it just when it was held
      before and is held by none after, and then once. */
  lemma PerformDeletesLast<H>(s: State<H>, op: Op<H>, x: nat)
    requires Allowed(s, op)
    ensures multiset(Perform(s, op).deleted)[x] ==
              multiset(s.deleted)[x] + Gone(Holders(s, x), Holders(Perform(s, op), x))
  {
    match op
    case Empty(h) => TakeHolds(s, h, Null, x);
    case Own(h, p) => TakeHolds(s, h, p, x);
    case Copy(h, g) => TakeHolds(s, h, s.value[g], x);
    case Assign(h, g) =>
      if h != g {
        ReleaseDeletesLast(s, h, x);
        TakeHolds(Release(s, h), h, s.value[g], x);
        if s.value[g] == Object(x) { assert g in Holders(s, x) - {h}; }
      }
    case Reset(h, p) =>
      ReleaseDeletesLast(s, h, x);
      TakeHolds(Release(s, h), h, p, x);
    case Destroy(h) =>
      ReleaseDeletesLast(s, h, x);
      assert Holders(Perform(s, op), x) == Holders(s, x) - {h};
  }

  lemma PerformSound<H>(s: State<H>, op: Op<H>)
    requires Sound(s) && Allowed(s, op)
    ensures Sound(Perform(s, op))
  {
    if op.Reset? {
      ReleaseSound(s, op.h);
      if op.x.Object? { ReleaseDeletesLast(s, op.h, op.x.id); }
    } else if op.Destroy? || (op.Assign? && op.h != op.g) {
      ReleaseSound(s, op.h);
    }
  }

  function Run<H>(s: State<H>, ops: seq<Op<H>>): State<H>
    requires AllAllowed(s, ops)
    decreases ops
  {
    if ops == [] then s else Run(Perform(s, ops[0]), ops[1..])
  }

  predicate AllAllowed<H>(s: State<H>, ops: seq<Op<H>>)
    decreases ops
  {
    ops == [] || (Allowed(s, ops[0]) && AllAllowed(Perform(s, ops[0]), ops[1..]))
  }

  // the raw pointer x was given to some Shared
  predicate Adopted<H>(ops: seq<Op<H>>, x: nat) {
    exists i :: 0 <= i < |ops| && Adopts(ops[i], x)
  }

  predicate Adopts<H>(op: Op<H>, x: nat) {
    (op.Own? || op.Reset?) && op.x == Object(x)
  }

  // only what was held, or is adopted, can be held
  lemma PerformHolds<H>(s: State<H>, op: Op<H>, x: nat)
    requires Allowed(s, op)
    ensures Adopts(op, x) ==> Holders(s, x) == {} && x !in s.deleted && Holders(Perform(s, op), x) != {}
    ensures !Adopts(op, x) && Holders(s, x) == {} ==> Holders(Perform(s, op), x) == {}
  {
    var s' := Perform(s, op);
    if Adopts(op, x) { assert op.h in Holders(s', x); }
    if !Adopts(op, x) && Holders(s, x) == {} {
      forall h ensures h !in Holders(s', x) {
        assert h !in Holders(s, x);
        if op.Copy? || op.Assign? { assert op.g !in Holders(s, x); }
      }
    }
  }

  lemma {:induction false} RunAccounts<H>(s: State<H>, ops: seq<Op<H>>, x: nat)
    requires Sound(s) && AllAllowed(s, ops)
    ensures var r := Run(s, ops);
      Sound(r) &&
      multiset(r.deleted)[x] + (if Holders(r, x) != {} then 1 else 0) ==
      multiset(s.deleted)[x] + (if Holders(s, x) != {} then 1 else 0) + Adoptions(ops, x)
    decreases ops
  {
    if ops != [] {
      var s' := Perform(s, ops[0]);
      PerformDeletesLast(s, ops[0], x);
      PerformHolds(s, ops[0], x);
      PerformSound(s, ops[0]);
      RunAccounts(s', ops[1..], x);
    }
  }

  function Adoptions<H>(ops: seq<Op<H>>, x: nat): nat {
    if ops == [] then 0 else (if Adopts(ops[0], x) then 1 else 0) + Adoptions(ops[1..], x)
  }

  lemma {:induction false} AdoptionsPositive<H>(ops: seq<Op<H>>, x: nat)
    ensures Adoptions(ops, x) > 0 <==> Adopted(ops, x)
  {
    if ops != [] {
      AdoptionsPositive(ops[1..], x);
      if Adopted(ops[1..], x) {
        var i :| 0 <= i < |ops[1..]| && Adopts(ops[1..][i], x);
        assert Adopts(ops[i + 1], x);
      }
      if Adopted(ops, x) && !Adopts(ops[0], x) {
        var i :| 0 <= i < |ops| && Adopts(ops[i], x);
        assert Adopts(ops[1..][i - 1], x);
      }
    }
  }

  lemma {:induction false} DistinctCount(s: seq<nat>, x: nat)
    requires forall i, j :: 0 <= i < j < |s| ==> s[i] != s[j]
    ensures multiset(s)[x] == if x in s then 1 else 0
  {
    if s != [] {
      DistinctCount(s[1..], x);
      assert s == [s[0]] + s[1..];
    }
  }

  /** Through any sequence of operations: an object that was ever given to a Shared
      is either still held and not deleted, or held by none and deleted once; any
      other object is neither held nor deleted. */
  lemma {:induction false} DeletedExactlyOnce<H>(ops: seq<Op<H>>, x: nat)
    requires AllAllowed(State(map[], []), ops)
    ensures var r := Run(State(map[], []), ops);
      multiset(r.deleted)[x] == (if Adopted(ops, x) && Holders(r, x) == {} then 1 else 0) &&
      (Holders(r, x) != {} ==> Adopted(ops, x))
  {
    var s := State(map[], []);
    var r := Run(s, ops);
    RunAccounts(s, ops, x);
    AdoptionsPositive(ops, x);
    DistinctCount(r.deleted, x);
    assert Holders(s, x) == {};
    AdoptedOnce(s, ops, x);
    if Holders(r, x) != {} {
      var h :| h in Holders(r, x);
      assert r.value[h].id == x;
    }
  }

  // nothing can be given twice
  lemma {:induction false} AdoptedOnce<H>(s: State<H>, ops: seq<Op<H>>, x: nat)
    requires Sound(s) && AllAllowed(s, ops)
    ensures Holders(s, x) != {} || x in s.deleted ==> Adoptions(ops, x) == 0
    ensures Adoptions(ops, x) <= 1
    decreases ops
  {
    if ops != [] {
      var s' := Perform(s, ops[0]);
      PerformHolds(s, ops[0], x);
      PerformDeletesLast(s, ops[0], x);
      PerformSound(s, ops[0]);
      AdoptedOnce(s', ops[1..], x);
      DistinctCount(s'.deleted, x);
      DistinctCount(s.deleted, x);
    }
  }
}
