/** xju/Ring.hh, and the same code without a value in xju/RingLink.hh: links
    that point at each other, spliced and cut in place under every aliasing. */
module RingLinks {
  import opened RingTheory

  class Ring<T> {
    const value: T
    var p: Ring<T>
    var n: Ring<T>

    constructor (v: T)
      ensures value == v && p == this && n == this
    {
      value := v;
      p := this;
      n := this;
    }

    predicate Atomic()
      reads this
    {
      n == this
    }

    // this merges its ring into ring's, or splits the ring both are in; u are all the links there are
    method Splice(ring: Ring<T>, ghost u: set<Ring<T>>)
      requires this in u && ring in u && Linked(u)
      modifies u
      ensures Linked(u) && Next(u) == Exchange(old(Next(u)), this, old(ring.p))
      ensures n == ring && ring.p == this
    {
      n.p := ring.p;
      ring.p.n := n;
      n := ring;
      ring.p := this;
    }

    // cut this..to out of the ring they are in
    method Cut(to: Ring<T>, ghost u: set<Ring<T>>)
      requires this in u && to in u && Linked(u)
      modifies u
      ensures Linked(u) && Next(u) == Exchange(old(Next(u)), old(p), to)
      ensures p == to && to.n == this
    {
      p.n := to.n;
      to.n.p := p;
      p := to;
      to.n := this;
    }

    method SwapWithNext(ghost u: set<Ring<T>>)
      requires this in u && Linked(u)
      modifies u
      ensures Linked(u)
      ensures Next(u) == Swapped(old(Next(u)), old(p), this)
    {
      var t := n;
      Cut(this, u);
      t.Splice(this, u);
    }
  }

  // the links of u point only at each other, back and forth
  ghost predicate Linked<T>(u: set<Ring<T>>)
    reads u
  {
    (forall x {:trigger x.n} :: x in u ==> x.n in u && x.n.p == x) &&
    (forall x {:trigger x.p} :: x in u ==> x.p in u && x.p.n == x)
  }

  ghost function Next<T>(u: set<Ring<T>>): map<Ring<T>, Ring<T>>
    reads u
  {
    map x | x in u :: x.n
  }

  lemma LinkedIsLinked<T>(u: set<Ring<T>>)
    requires Linked(u)
    ensures IsLinked(Next(u))
  {
    forall x, y | x in u && y in u && x.n == y.n ensures x == y {
      assert x.n.p == x && y.n.p == y;
    }
    forall y | y in Next(u).Values ensures y in u {
      var x :| x in u && Next(u)[x] == y;
    }
  }
}
