/** Any sequence of calls on Shared objects, kept on record: whatever a program
    does, an object it gave to a Shared is deleted just once, when no Shared holds
    it any more (xju/Shared.hh). */
module SharedProgram {
  import opened SharedOwnership
  import opened SharedRing

  // one more operation
  lemma {:induction false} RunOn<H>(s: State<H>, ops: seq<Op<H>>, op: Op<H>)
    requires AllAllowed(s, ops) && Allowed(Run(s, ops), op)
    ensures AllAllowed(s, ops + [op]) && Run(s, ops + [op]) == Perform(Run(s, ops), op)
    decreases ops
  {
    if ops == [] {
      assert ops + [op] == [op] && [op][1..] == [];
    } else {
      assert (ops + [op])[0] == ops[0] && (ops + [op])[1..] == ops[1..] + [op];
      RunOn(Perform(s, ops[0]), ops[1..], op);
    }
  }

  // from nothing, the operations on record have led to s
  ghost predicate LedTo<H>(history: seq<Op<H>>, s: State<H>) {
    AllAllowed(State(map[], []), history) && Run(State(map[], []), history) == s
  }

  lemma LedOn<H>(history: seq<Op<H>>, s: State<H>, op: Op<H>)
    requires LedTo(history, s) && Allowed(s, op)
    ensures LedTo(history + [op], Perform(s, op))
  {
    RunOn(State(map[], []), history, op);
  }

  // ---- the same operations on other names

  // the Shared of t are those of s under the names f gives them
  ghost predicate Renamed<G, H>(f: map<G, H>, s: State<G>, t: State<H>) {
    f.Keys == s.value.Keys && f.Values == t.value.Keys && s.deleted == t.deleted &&
    (forall g :: g in f ==> t.value[f[g]] == s.value[g]) &&
    (forall g, g' :: g in f && g' in f && f[g] == f[g'] ==> g == g')
  }

  // the operation on the names f gives; h is the Shared it makes, if it makes one
  function Rename<G, H>(f: map<G, H>, op: Op<G>, h: H): Op<H>
    requires op.Copy? || op.Assign? ==> op.g in f
    requires op.Assign? || op.Reset? || op.Destroy? ==> op.h in f
  {
    match op
    case Empty(_) => Empty(h)
    case Own(_, x) => Op.Own(h, x)
    case Copy(_, g) => Op.Copy(h, f[g])
    case Assign(h', g) => Op.Assign(f[h'], f[g])
    case Reset(h', x) => Op.Reset(f[h'], x)
    case Destroy(h') => Op.Destroy(f[h'])
  }

  lemma RenamedHolders<G, H>(f: map<G, H>, s: State<G>, t: State<H>, x: nat)
    requires Renamed(f, s, t)
    ensures forall g :: g in f ==> (g in Holders(s, x) <==> f[g] in Holders(t, x))
    ensures Holders(s, x) == {} <==> Holders(t, x) == {}
  {
    assert forall h :: h in Holders(t, x) ==> h in f.Values;
    assert forall g :: g in Holders(s, x) ==> f[g] in Holders(t, x);
  }

  lemma RenamedUnmanaged<G, H>(f: map<G, H>, s: State<G>, t: State<H>, x: Pointer)
    requires Renamed(f, s, t)
    ensures Unmanaged(s, x) <==> Unmanaged(t, x)
  {
    if x.Object? { RenamedHolders(f, s, t, x.id); }
  }

  lemma Present<G, H>(f: map<G, H>, s: State<G>, t: State<H>, g: G)
    requires Renamed(f, s, t) && g in f
    ensures f[g] in t.value
  {
    assert f[g] in f.Values;
  }

  // g comes to hold p, on either side
  lemma RenamedPut<G, H>(f: map<G, H>, s: State<G>, t: State<H>, g: G, p: Pointer)
    requires Renamed(f, s, t) && g in f
    ensures Renamed(f, s.(value := s.value[g := p]), t.(value := t.value[f[g] := p]))
  {
    assert f[g] in f.Values;
  }

  lemma RenamedNew<G, H>(f: map<G, H>, s: State<G>, t: State<H>, g: G, h: H, p: Pointer)
    requires Renamed(f, s, t) && g !in f && h !in t.value
    ensures Renamed(f[g := h], s.(value := s.value[g := p]), t.(value := t.value[h := p]))
  {
    var f' := f[g := h];
    assert forall a :: a in f ==> f[a] in f.Values;
    assert f'.Values == f.Values + {h} by {
      assert f'[g] == h;
      assert forall a :: a in f ==> f'[a] == f[a];
    }
  }

  lemma RenamedLess<G, H>(f: map<G, H>, s: State<G>, t: State<H>, g: G)
    requires Renamed(f, s, t) && g in f
    ensures Renamed(f - {g}, s.(value := s.value - {g}), t.(value := t.value - {f[g]}))
  {
    var f' := f - {g};
    assert forall a :: a in f ==> f[a] in f.Values;
    assert f'.Values == f.Values - {f[g]} by {
      assert forall a :: a in f && a != g ==> a in f' && f'[a] == f[a];
    }
  }

  lemma RenamedRelease<G, H>(f: map<G, H>, s: State<G>, t: State<H>, g: G)
    requires Renamed(f, s, t) && g in f
    ensures f[g] in t.value && Renamed(f, Release(s, g), Release(t, f[g]))
  {
    assert f[g] in f.Values;
    RenamedPut(f, s, t, g, Null);
    if s.value[g].Object? {
      var x := s.value[g].id;
      RenamedHolders(f, s, t, x);
      assert Holders(s, x) == {g} <==> Holders(t, x) == {f[g]} by {
        assert forall h :: h in Holders(t, x) ==> h in f.Values;
        assert g in Holders(s, x) && f[g] in Holders(t, x);
        if a :| a in Holders(s, x) && a != g { assert f[a] in Holders(t, x) && f[a] != f[g]; }
      }
    }
  }

  function Names<G, H>(f: map<G, H>, op: Op<G>, h: H): map<G, H> {
    if op.Empty? || op.Own? || op.Copy? then f[op.h := h] else if op.Destroy? then f - {op.h} else f
  }

  /** What an operation does, does not depend on the names of the Shared. */
  lemma RenamedPerform<G, H>(f: map<G, H>, s: State<G>, t: State<H>, op: Op<G>, h: H)
    requires Renamed(f, s, t) && Allowed(s, op) && (op.Empty? || op.Own? || op.Copy? ==> h !in t.value)
    ensures Allowed(t, Rename(f, op, h))
    ensures Renamed(Names(f, op, h), Perform(s, op), Perform(t, Rename(f, op, h)))
  {
    assert forall a :: a in f ==> f[a] in f.Values;
    match op
    case Empty(g) => RenamedNew(f, s, t, g, h, Null);
    case Own(g, x) => RenamedUnmanaged(f, s, t, x); RenamedNew(f, s, t, g, h, x);
    case Copy(g, g') => RenamedNew(f, s, t, g, h, s.value[g']);
    case Assign(g, g') =>
      if g != g' {
        RenamedRelease(f, s, t, g);
        RenamedPut(f, Release(s, g), Release(t, f[g]), g, s.value[g']);
      }
    case Reset(g, x) =>
      RenamedUnmanaged(f, s, t, x);
      RenamedRelease(f, s, t, g);
      RenamedPut(f, Release(s, g), Release(t, f[g]), g, x);
    case Destroy(g) =>
      RenamedRelease(f, s, t, g);
      RenamedLess(f, Release(s, g), Release(t, f[g]), g);
  }

  class Program {
    const heap: Heap
    ghost var history: seq<Op<Shared>>

    ghost predicate Valid()
      reads this, heap, heap.live, heap.slots
    {
      heap.Valid() && LedTo(history, heap.Abs())
    }

    constructor ()
      ensures Valid() && history == [] && fresh(heap) && heap.live == {} && heap.slots == {}
      ensures heap.Abs() == State(map[], [])
    {
      heap := new Heap();
      history := [];
    }

    ghost method Record(s: State<Shared>, op: Op<Shared>)
      requires heap.Valid() && LedTo(history, s) && Allowed(s, op) && heap.Abs() == Perform(s, op)
      modifies this`history
      ensures Valid() && history == old(history) + [op]
    {
      LedOn(history, s, op);
      history := history + [op];
    }

    method Make() returns (h: Shared)
      requires Valid()
      modifies this`history, heap
      ensures Valid() && heap.live == old(heap.live) + {h} && history == old(history) + [Empty(h)]
      ensures fresh(h) && fresh(h.value) && heap.slots == old(heap.slots) + {h.value}
      ensures h !in old(heap.Abs()).value && heap.Abs() == Perform(old(heap.Abs()), Empty(h))
    {
      ghost var s := heap.Abs();
      h := heap.Make();
      Record(s, Empty(h));
    }

    method Own(x: Pointer) returns (h: Shared)
      requires Valid() && Unmanaged(heap.Abs(), x)
      modifies this`history, heap
      ensures Valid() && heap.live == old(heap.live) + {h} && history == old(history) + [Op.Own(h, x)]
      ensures fresh(h) && fresh(h.value) && heap.slots == old(heap.slots) + {h.value}
      ensures h !in old(heap.Abs()).value && heap.Abs() == Perform(old(heap.Abs()), Op.Own(h, x))
    {
      ghost var s := heap.Abs();
      h := heap.Own(x);
      Record(s, Op.Own(h, x));
    }

    method Copy(g: Shared) returns (h: Shared)
      requires Valid() && g in heap.live
      modifies this`history, heap, heap.live, heap.slots
      ensures Valid() && heap.live == old(heap.live) + {h} && history == old(history) + [Op.Copy(h, g)]
      ensures fresh(h) && fresh(h.value) && heap.slots == old(heap.slots) + {h.value}
      ensures h !in old(heap.Abs()).value && g in old(heap.Abs()).value
      ensures heap.Abs() == Perform(old(heap.Abs()), Op.Copy(h, g))
    {
      ghost var s := heap.Abs();
      h := heap.Copy(g);
      Record(s, Op.Copy(h, g));
    }

    method Assign(h: Shared, g: Shared)
      requires Valid() && h in heap.live && g in heap.live
      modifies this`history, heap, heap.live, h.value
      ensures Valid() && heap.live == old(heap.live) && heap.slots == old(heap.slots)
      ensures history == old(history) + [Op.Assign(h, g)]
      ensures heap.Abs() == Perform(old(heap.Abs()), Op.Assign(h, g))
    {
      ghost var s := heap.Abs();
      heap.Assign(h, g);
      Record(s, Op.Assign(h, g));
    }

    method Reset(h: Shared, x: Pointer)
      requires Valid() && h in heap.live && Unmanaged(heap.Abs(), x)
      modifies this`history, heap, heap.live, h.value
      ensures Valid() && heap.live == old(heap.live) && heap.slots == old(heap.slots)
      ensures history == old(history) + [Op.Reset(h, x)]
      ensures heap.Abs() == Perform(old(heap.Abs()), Op.Reset(h, x))
    {
      ghost var s := heap.Abs();
      heap.Reset(h, x);
      Record(s, Op.Reset(h, x));
    }

    method Destroy(h: Shared)
      requires Valid() && h in heap.live
      modifies this`history, heap, heap.live, h.value
      ensures Valid() && heap.live == old(heap.live) - {h} && heap.slots == old(heap.slots)
      ensures history == old(history) + [Op.Destroy(h)]
      ensures heap.Abs() == Perform(old(heap.Abs()), Op.Destroy(h))
    {
      ghost var s := heap.Abs();
      heap.Destroy(h);
      Record(s, Op.Destroy(h));
    }

    // an operation that makes a Shared
    method Arrive(op: Op<nat>, names: map<nat, Shared>, ghost s: State<nat>) returns (h: Shared)
      requires Valid() && Renamed(names, s, heap.Abs()) && Allowed(s, op) && (op.Empty? || op.Own? || op.Copy?)
      modifies this`history, heap, heap.live, heap.slots
      ensures Valid() && fresh(heap.live - old(heap.live)) && fresh(heap.slots - old(heap.slots))
      ensures h !in old(heap.Abs()).value && Allowed(old(heap.Abs()), Rename(names, op, h))
      ensures heap.Abs() == Perform(old(heap.Abs()), Rename(names, op, h))
    {
      ghost var t := heap.Abs();
      match op {
        case Empty(_) => h := Make();
        case Own(_, x) => RenamedUnmanaged(names, s, t, x); h := Own(x);
        case Copy(_, g) => Present(names, s, t, g); h := Copy(names[g]);
      }
    }

    // an operation on a Shared that is there
    method Change(op: Op<nat>, names: map<nat, Shared>, ghost s: State<nat>)
      requires Valid() && Renamed(names, s, heap.Abs()) && Allowed(s, op) && (op.Assign? || op.Reset? || op.Destroy?)
      requires names[op.h] in heap.live && Allowed(heap.Abs(), Rename(names, op, names[op.h]))
      modifies this`history, heap, heap.live, names[op.h].value
      ensures Valid() && heap.live <= old(heap.live) && heap.slots == old(heap.slots)
      ensures heap.Abs() == Perform(old(heap.Abs()), Rename(names, op, names[op.h]))
    {
      match op {
        case Assign(h, g) => Assign(names[h], names[g]);
        case Reset(h, x) => Reset(names[h], x);
        case Destroy(h) => Destroy(names[h]);
      }
    }

    // one operation, on the Shared that names stand for
    method Step(op: Op<nat>, names: map<nat, Shared>, ghost s: State<nat>) returns (names': map<nat, Shared>)
      requires Valid() && Renamed(names, s, heap.Abs()) && Allowed(s, op)
      modifies this`history, heap, heap.live, heap.slots
      ensures Valid() && Renamed(names', Perform(s, op), heap.Abs())
      ensures fresh(heap.live - old(heap.live)) && fresh(heap.slots - old(heap.slots))
    {
      ghost var t := heap.Abs();
      if op.Empty? || op.Own? || op.Copy? {
        var h := Arrive(op, names, s);
        RenamedPerform(names, s, t, op, h);
        names' := Names(names, op, h);
      } else {
        Present(names, s, t, op.h);
        assert names[op.h] in heap.live;
        RenamedPerform(names, s, t, op, names[op.h]);
        Change(op, names, s);
        names' := Names(names, op, names[op.h]);
      }
    }
  }

  /** Any list of operations that keeps to the rule for raw pointers, carried out
      on the heap by a program: each holds what the counting says, and an object
      given to a Shared has been deleted once if none holds it at the end. */
  method Replay(ops: seq<Op<nat>>) returns (p: Program, names: map<nat, Shared>)
    requires AllAllowed(State(map[], []), ops)
    ensures fresh(p) && p.Valid() && Renamed(names, Run(State(map[], []), ops), p.heap.Abs())
    ensures p.heap.deleted == Run(State(map[], []), ops).deleted
    ensures forall x :: multiset(p.heap.deleted)[x] ==
                          if Adopted(ops, x) && Holders(Run(State(map[], []), ops), x) == {} then 1 else 0
  {
    p := new Program();
    names := map[];
    ghost var s := State(map[], []);
    var i := 0;
    while i < |ops|
      invariant 0 <= i <= |ops| && fresh(p) && fresh(p.heap) && fresh(p.heap.live) && fresh(p.heap.slots)
      invariant p.Valid() && Renamed(names, s, p.heap.Abs())
      invariant AllAllowed(s, ops[i..]) && Run(s, ops[i..]) == Run(State(map[], []), ops)
    {
      assert ops[i..][0] == ops[i] && ops[i..][1..] == ops[i + 1..];
      names := p.Step(ops[i], names, s);
      s := Perform(s, ops[i]);
      i := i + 1;
    }
    forall x: nat
      ensures multiset(p.heap.deleted)[x] ==
                if Adopted(ops, x) && Holders(Run(State(map[], []), ops), x) == {} then 1 else 0
    {
      DeletedExactlyOnce(ops, x);
    }
  }

  /** Wherever any sequence of calls has led: what was given to a Shared and is held
      by none has been deleted once, and nothing else has been deleted. */
  lemma DeletedOnceInProgram(p: Program, x: nat)
    requires p.Valid()
    ensures multiset(p.heap.deleted)[x] == if Adopted(p.history, x) && Holders(p.heap.Abs(), x) == {} then 1 else 0
    ensures forall h :: h in Holders(p.heap.Abs(), x) <==> h in p.heap.live && p.heap.Abs().value[h] == Object(x)
  {
    DeletedExactlyOnce(p.history, x);
  }
}
