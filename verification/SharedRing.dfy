/** xju::Shared on real links: ring membership instead of a count, proved to
    delete exactly what module SharedOwnership says. */
module SharedRing {
  import opened RingTheory
  import opened RingLinks
  import opened SharedOwnership

  // a Shared that holds nothing is on its own
  ghost predicate Alone<H>(next: map<H, H>, value: map<H, Pointer>) {
    forall h :: h in value && value[h].Null? ==> h in next && next[h] == h
  }

  // x is listed just if it is held, with a ring of just its holders
  ghost predicate OneRing<H>(next: map<H, H>, value: map<H, Pointer>, rings: map<nat, seq<H>>, x: nat) {
    (x in rings ==> IsRing(next, rings[x])) &&
    (forall h :: h in value && value[h] == Object(x) ==> x in rings && h in rings[x]) &&
    (forall h :: x in rings && h in rings[x] ==> h in value && value[h] == Object(x))
  }

  /** Every object held has one ring, of just its holders. */
  ghost predicate AreRings<H>(next: map<H, H>, value: map<H, Pointer>, rings: map<nat, seq<H>>) {
    next.Keys == value.Keys && IsLinked(next) && Alone(next, value) && forall x :: OneRing(next, value, rings, x)
  }

  ghost function Position<H>(s: seq<H>, h: H): (i: nat)
    requires h in s
    ensures i < |s| && s[i] == h
  {
    if s[0] == h then 0 else 1 + Position(s[1..], h)
  }

  /** A link is on its own just when its Shared is the only one to hold its object. */
  lemma AloneIsLast<H>(s: State<H>, next: map<H, H>, rings: map<nat, seq<H>>, h: H)
    requires AreRings(next, s.value, rings) && h in s.value && s.value[h].Object?
    ensures next[h] == h <==> Holders(s, s.value[h].id) == {h}
  {
    var x := s.value[h].id;
    assert OneRing(next, s.value, rings, x);
    var r := rings[x];
    var i := Position(r, h);
    RingWraps(next, r, i);
    if |r| == 1 {
      assert forall g :: g in Holders(s, x) ==> g == r[0];
      assert h in Holders(s, x);
    } else {
      var j := if i == |r| - 1 then 0 else i + 1;
      assert r[j] in r && r[j] in Holders(s, x) && r[j] != h;
    }
  }

  ghost function Without<H>(r: seq<H>, h: H): seq<H>
    requires h in r
  {
    var i := Position(r, h);
    r[..i] + r[i + 1..]
  }

  // rings of other objects do not meet
  lemma OtherRing<H>(next: map<H, H>, value: map<H, Pointer>, rings: map<nat, seq<H>>, h: H, x: nat)
    requires AreRings(next, value, rings) && h in value && x in rings && value[h] != Object(x)
    ensures h !in rings[x] && forall b :: b in next && next[b] == h ==> b !in rings[x]
  {
    assert OneRing(next, value, rings, x);
    forall b | b in next && next[b] == h ensures b !in rings[x] {
      if b in rings[x] {
        var i := Position(rings[x], b);
        RingWraps(next, rings[x], i);
      }
    }
  }

  // ... and are not touched by cutting or splicing links that are not in them
  lemma OtherRingKept<H>(next: map<H, H>, value: map<H, Pointer>, rings: map<nat, seq<H>>,
                         next': map<H, H>, value': map<H, Pointer>, rings': map<nat, seq<H>>, a: H, b: H, h: H, x: nat)
    requires AreRings(next, value, rings) && a in next && b in next && next' == Exchange(next, a, b)
    requires x in rings ==> a !in rings[x] && b !in rings[x]
    requires h in value && value[h] != Object(x) && h in value' && value' == value[h := value'[h]] && value'[h] != Object(x)
    requires if x in rings then x in rings' && rings'[x] == rings[x] else x !in rings'
    ensures OneRing(next', value', rings', x)
  {
    assert OneRing(next, value, rings, x);
    if x in rings { ExchangeElsewhere(next, a, b, rings[x]); }
  }

  lemma WithoutHas<H>(r: seq<H>, h: H)
    requires h in r && forall i, j :: 0 <= i < j < |r| ==> r[i] != r[j]
    ensures forall g :: g in Without(r, h) <==> g in r && g != h
  {
    var i := Position(r, h);
    forall g | g in r && g != h ensures g in Without(r, h) {
      var j := Position(r, g);
      assert Without(r, h)[if j < i then j else j - 1] == g;
    }
  }

  lemma CutOwnRing<H>(next: map<H, H>, r: seq<H>, h: H, before: H)
    requires IsLinked(next) && IsRing(next, r) && h in r && before in next && next[before] == h && next[h] != h
    ensures |r| > 1 && IsRing(Exchange(next, before, h), Without(r, h)) && Exchange(next, before, h)[h] == h
    ensures forall g :: g in Without(r, h) <==> g in r && g != h
  {
    var i := Position(r, h);
    RingWraps(next, r, i);
    BeforeInRing(next, r, i, before);
    TakeOut(next, r, i);
    WithoutHas(r, h);
  }

  lemma LeaveAloneKeeps<H>(next: map<H, H>, value: map<H, Pointer>, h: H, before: H)
    requires Alone(next, value) && IsLinked(next) && next.Keys == value.Keys
    requires h in value && before in next && next[before] == h
    ensures Alone(Exchange(next, before, h), value[h := Null]) && IsLinked(Exchange(next, before, h))
  {
    ExchangeKeepsLinked(next, before, h);
  }

  // another object's ring
  lemma LeaveOther<H>(next: map<H, H>, value: map<H, Pointer>, rings: map<nat, seq<H>>, h: H, before: H,
                      rings': map<nat, seq<H>>, y: nat)
    requires AreRings(next, value, rings) && h in value && before in next && next[before] == h && next[h] != h
    requires value[h] != Object(y) && (y in rings <==> y in rings') && (y in rings ==> rings'[y] == rings[y])
    ensures OneRing(Exchange(next, before, h), value[h := Null], rings', y)
  {
    if y in rings { OtherRing(next, value, rings, h, y); }
    OtherRingKept(next, value, rings, Exchange(next, before, h), value[h := Null], rings', before, h, h, y);
  }

  // h, one of several holders, lets go: its link is cut
  lemma LeaveRing<H>(next: map<H, H>, value: map<H, Pointer>, rings: map<nat, seq<H>>, h: H, before: H)
    returns (rings': map<nat, seq<H>>)
    requires AreRings(next, value, rings) && h in value && before in next && next[before] == h && next[h] != h
    ensures AreRings(Exchange(next, before, h), value[h := Null], rings') && Exchange(next, before, h)[h] == h
  {
    var x := value[h].id;
    assert OneRing(next, value, rings, x);
    CutOwnRing(next, rings[x], h, before);
    rings' := rings[x := Without(rings[x], h)];
    var next', value' := Exchange(next, before, h), value[h := Null];
    forall y ensures OneRing(next', value', rings', y) {
      if y != x { LeaveOther(next, value, rings, h, before, rings', y); }
    }
    LeaveAloneKeeps(next, value, h, before);
  }

  // h, the last holder, lets go
  lemma LeaveLast<H>(next: map<H, H>, value: map<H, Pointer>, rings: map<nat, seq<H>>, h: H)
    returns (rings': map<nat, seq<H>>)
    requires AreRings(next, value, rings) && h in value && next[h] == h
    ensures AreRings(next, value[h := Null], rings')
  {
    if value[h].Null? {
      rings' := rings;
      assert value[h := Null] == value;
    } else {
      var x := value[h].id;
      rings' := rings - {x};
      assert OneRing(next, value, rings, x);
      RingWraps(next, rings[x], Position(rings[x], h));
      var value' := value[h := Null];
      forall y ensures OneRing(next, value', rings', y) {
        assert OneRing(next, value, rings, y);
        if y in rings && y != x { OtherRing(next, value, rings, h, y); }
      }
    }
  }

  ghost function WithBefore<H>(r: seq<H>, g: H, h: H): seq<H>
    requires g in r
  {
    var i := Position(r, g);
    var k := if i == 0 then |r| else i;
    r[..k] + [h] + r[k..]
  }

  lemma JoinOwnRing<H>(next: map<H, H>, r: seq<H>, h: H, g: H, before: H)
    requires IsLinked(next) && IsRing(next, r) && g in r && h in next && next[h] == h && h !in r
    requires before in next && next[before] == g
    ensures before in r && IsRing(Exchange(next, h, before), WithBefore(r, g, h))
    ensures forall y :: y in WithBefore(r, g, h) <==> y in r || y == h
  {
    var i := Position(r, g);
    var k := if i == 0 then |r| - 1 else i - 1;
    BeforeInRing(next, r, i, before);
    assert Exchange(next, h, before) == Exchange(next, r[k], h);
    InsertBehind(next, r, k, h);
    assert r == r[..k + 1] + r[k + 1..];
  }

  lemma JoinKeepsAlone<H>(next: map<H, H>, value: map<H, Pointer>, h: H, before: H, p: Pointer)
    requires Alone(next, value) && IsLinked(next) && next.Keys == value.Keys
    requires h in next && before in next && value[before].Object? && p.Object?
    ensures Alone(Exchange(next, h, before), value[h := p]) && IsLinked(Exchange(next, h, before))
  {
    ExchangeKeepsLinked(next, h, before);
  }

  // ---- each operation keeps the invariant; its caller need not know how the rings change

  lemma LeaveAlone<H>(s: State<H>, next: map<H, H>, rings: map<nat, seq<H>>, h: H) returns (rings': map<nat, seq<H>>)
    requires AreRings(next, s.value, rings) && h in s.value && next[h] == h
    ensures AreRings(next, s.value[h := Null], rings')
    ensures SharedOwnership.Release(s, h) ==
      State(s.value[h := Null], if s.value[h].Object? then s.deleted + [s.value[h].id] else s.deleted)
  {
    if s.value[h].Object? { AloneIsLast(s, next, rings, h); }
    rings' := LeaveLast(next, s.value, rings, h);
  }

  lemma LeaveAmong<H>(s: State<H>, next: map<H, H>, rings: map<nat, seq<H>>, h: H, before: H)
    returns (rings': map<nat, seq<H>>)
    requires AreRings(next, s.value, rings) && h in s.value && next[h] != h && before in next && next[before] == h
    ensures AreRings(Exchange(next, before, h), s.value[h := Null], rings')
    ensures SharedOwnership.Release(s, h) == State(s.value[h := Null], s.deleted)
    ensures Exchange(next, before, h)[h] == h
  {
    AloneIsLast(s, next, rings, h);
    rings' := LeaveRing(next, s.value, rings, h, before);
  }

  // h, on its own and holding nothing, is spliced in before g and holds what g holds
  lemma Join<H>(next: map<H, H>, value: map<H, Pointer>, rings: map<nat, seq<H>>, h: H, g: H, before: H)
    returns (rings': map<nat, seq<H>>)
    requires AreRings(next, value, rings) && h in value && value[h].Null? && g in value && value[g].Object?
    requires before in next && next[before] == g
    ensures AreRings(Exchange(next, h, before), value[h := value[g]], rings')
  {
    var x := value[g].id;
    assert OneRing(next, value, rings, x);
    JoinOwnRing(next, rings[x], h, g, before);
    rings' := rings[x := WithBefore(rings[x], g, h)];
    var next', value' := Exchange(next, h, before), value[h := value[g]];
    forall y ensures OneRing(next', value', rings', y) {
      if y != x {
        if y in rings {
          OtherRing(next, value, rings, h, y);
          OtherRing(next, value, rings, g, y);
        }
        OtherRingKept(next, value, rings, next', value', rings', h, before, h, y);
      }
    }
    JoinKeepsAlone(next, value, h, before, value[g]);
  }

  // a new Shared, on its own, holding nothing
  lemma Add<H>(next: map<H, H>, value: map<H, Pointer>, rings: map<nat, seq<H>>, h: H)
    requires AreRings(next, value, rings) && h !in value
    ensures AreRings(next[h := h], value[h := Null], rings)
  {
    var next', value' := next[h := h], value[h := Null];
    forall x ensures OneRing(next', value', rings, x) {
      assert OneRing(next, value, rings, x);
      if x in rings {
        assert forall i :: 0 <= i < |rings[x]| ==> rings[x][i] in rings[x];
        SameRing(next, next', rings[x]);
      }
    }
  }

  // a Shared that holds nothing comes to hold what no other does
  lemma TakeOver<H>(s: State<H>, next: map<H, H>, rings: map<nat, seq<H>>, h: H, p: Pointer)
    returns (rings': map<nat, seq<H>>)
    requires AreRings(next, s.value, rings) && h in s.value && s.value[h].Null? && Unmanaged(s, p)
    ensures AreRings(next, s.value[h := p], rings')
  {
    rings' := if p.Object? then rings[p.id := [h]] else rings;
    var value' := s.value[h := p];
    forall y ensures OneRing(next, value', rings', y) {
      assert OneRing(next, s.value, rings, y);
      if p == Object(y) {
        assert forall g :: g in s.value && s.value[g] == p ==> g in Holders(s, y);
      }
    }
  }

  // a Shared that holds nothing is destroyed
  lemma Drop<H>(next: map<H, H>, value: map<H, Pointer>, rings: map<nat, seq<H>>, h: H)
    requires AreRings(next, value, rings) && h in value && value[h].Null?
    ensures AreRings(next - {h}, value - {h}, rings)
  {
    var next' := next - {h};
    forall x ensures OneRing(next', value - {h}, rings, x) {
      assert OneRing(next, value, rings, x);
      if x in rings {
        assert forall i :: 0 <= i < |rings[x]| ==> rings[x][i] in rings[x];
        SameRing(next, next', rings[x]);
      }
    }
    LinkedWithout(next, h);
  }

  lemma LinkedWithout<H>(next: map<H, H>, h: H)
    requires IsLinked(next) && h in next && next[h] == h
    ensures IsLinked(next - {h})
  {
    var next' := next - {h};
    forall y | y in next'.Values ensures y in next' {
      var z :| z in next' && next'[z] == y;
      assert next[z] in next.Values;
    }
  }

  lemma StillUnmanaged<H>(s: State<H>, h: H, x: Pointer, s1: State<H>)
    requires Unmanaged(s, x) && h !in s.value && s1 == Perform(s, Empty(h))
    ensures Unmanaged(s1, x)
  {
    if x.Object? { TakeHolds(s, h, Null, x.id); }
  }

  lemma ReleasedUnmanaged<H>(s: State<H>, h: H, x: Pointer, s1: State<H>)
    requires Unmanaged(s, x) && h in s.value && s1 == SharedOwnership.Release(s, h)
    ensures Unmanaged(s1, x) && h in s1.value && s1.value[h] == Null
  {
    if x.Object? { ReleaseDeletesLast(s, h, x.id); }
  }

  lemma OwnIs<H>(s: State<H>, h: H, x: Pointer, s': State<H>)
    requires h !in s.value && Unmanaged(s, x) && s' == Take(Perform(s, Empty(h)), h, x)
    ensures s' == Perform(s, Op.Own(h, x))
  {
  }

  lemma CopyIs<H>(s: State<H>, h: H, g: H, s': State<H>)
    requires h !in s.value && g in s.value && s' == Take(Perform(s, Empty(h)), h, s.value[g])
    ensures s' == Perform(s, Op.Copy(h, g))
  {
  }

  lemma DestroyIs<H>(s: State<H>, h: H, s': State<H>)
    requires h in s.value
    requires var s1 := SharedOwnership.Release(s, h); s' == State(s1.value - {h}, s1.deleted)
    ensures s' == Perform(s, Op.Destroy(h))
  {
  }

  lemma AssignIs<H>(s: State<H>, h: H, g: H, s': State<H>)
    requires h in s.value && g in s.value
    requires if h == g then s' == s else s' == Take(SharedOwnership.Release(s, h), h, s.value[g])
    ensures s' == Perform(s, Op.Assign(h, g))
  {
  }

  lemma ResetIs<H>(s: State<H>, h: H, x: Pointer, s': State<H>)
    requires h in s.value && Unmanaged(s, x) && s' == Take(SharedOwnership.Release(s, h), h, x)
    ensures s' == Perform(s, Op.Reset(h, x))
  {
  }

  // ---- the objects

  class Slot {
    var value: Pointer

    constructor ()
      ensures value == Null
    {
      value := Null;
    }
  }

  // a Shared: its m_link, carrying its m_value
  type Shared = Ring<Slot>

  // each Shared has its own m_value
  ghost predicate Wired(u: set<Shared>, slots: set<Slot>)
    reads u
  {
    Linked(u) && (forall x :: x in u ==> x.value in slots) &&
    (forall x, y :: x in u && y in u && x.value == y.value ==> x == y)
  }

  ghost function Values(u: set<Shared>, slots: set<Slot>): map<Shared, Pointer>
    requires forall x :: x in u ==> x.value in slots
    reads slots
  {
    map x | x in u :: x.value.value
  }

  // the heap: the live Shared and the objects deleted
  class Heap {
    ghost var live: set<Shared>
    ghost var slots: set<Slot>
    var deleted: seq<nat>
    // the ring of each object held
    ghost var rings: map<nat, seq<Shared>>

    ghost predicate Valid()
      reads this, live, slots
    {
      Wired(live, slots) && AreRings(Next(live), Values(live, slots), rings)
    }

    ghost function Abs(): State<Shared>
      requires forall x :: x in live ==> x.value in slots
      reads this, slots
    {
      State(Values(live, slots), deleted)
    }

    constructor ()
      ensures Valid() && live == {} && slots == {} && Abs() == State(map[], [])
    {
      live, slots := {}, {};
      deleted := [];
      rings := map[];
    }

    // m_value = p
    method SetValue(h: Shared, p: Pointer)
      requires Wired(live, slots) && h in live
      modifies h.value
      ensures Wired(live, slots) && Values(live, slots) == old(Values(live, slots))[h := p] && Next(live) == old(Next(live))
    {
      h.value.value := p;
    }

    // link().cut()
    method CutLink(h: Shared)
      requires Wired(live, slots) && h in live
      modifies live
      ensures Wired(live, slots) && Values(live, slots) == old(Values(live, slots)) && Next(live) == Exchange(old(Next(live)), old(h.p), h)
    {
      h.Cut(h, live);
    }

    // link().splice(source.link())
    method SpliceLink(h: Shared, g: Shared)
      requires Wired(live, slots) && h in live && g in live
      modifies live
      ensures Wired(live, slots) && Values(live, slots) == old(Values(live, slots)) && Next(live) == Exchange(old(Next(live)), h, old(g.p))
    {
      h.Splice(g, live);
    }

    method Unlink(h: Shared)
      requires Wired(live, slots) && h in live
      modifies live, h.value
      ensures Wired(live, slots) && Values(live, slots) == old(Values(live, slots))[h := Null]
      ensures Next(live) == Exchange(old(Next(live)), old(h.p), h)
    {
      CutLink(h);
      SetValue(h, Null);
    }

    // T* tmp = m_value; m_value = 0; if (tmp) { delete tmp; }
    method Delete(h: Shared)
      requires Wired(live, slots) && h in live
      modifies this`deleted, h.value
      ensures Wired(live, slots) && Values(live, slots) == old(Values(live, slots))[h := Null]
      ensures Next(live) == old(Next(live))
      ensures deleted == if old(h.value.value).Object? then old(deleted) + [old(h.value.value).id] else old(deleted)
    {
      var tmp := h.value.value;
      SetValue(h, Null);
      if tmp.Object? { deleted := deleted + [tmp.id]; }
    }

    ghost method SetRings(rings': map<nat, seq<Shared>>)
      requires Wired(live, slots) && AreRings(Next(live), Values(live, slots), rings')
      modifies this`rings
      ensures Valid() && Abs() == old(Abs()) && Next(live) == old(Next(live))
    {
      rings := rings';
    }

    // the last to hold its object, if it holds any
    method ReleaseAlone(h: Shared)
      requires Valid() && h in live && h.n == h
      modifies this`deleted, this`rings, h.value
      ensures Valid() && Abs() == SharedOwnership.Release(old(Abs()), h) && Next(live) == old(Next(live))
    {
      ghost var s, next := Abs(), Next(live);
      Delete(h);
      ghost var rings' := LeaveAlone(s, next, rings, h);
      SetRings(rings');
    }

    method ReleaseAmong(h: Shared)
      requires Valid() && h in live && h.n != h
      modifies this`rings, live, h.value
      ensures Valid() && Abs() == SharedOwnership.Release(old(Abs()), h) && h.n == h
    {
      assert h.p.n == h;
      ghost var s, next, before := Abs(), Next(live), h.p;
      Unlink(h);
      ghost var rings' := LeaveAmong(s, next, rings, h, before);
      assert Next(live)[h] == h;
      SetRings(rings');
    }

    // release()
    method Release(h: Shared)
      requires Valid() && h in live
      modifies this`deleted, this`rings, live, h.value
      ensures Valid() && Abs() == SharedOwnership.Release(old(Abs()), h) && h.n == h
    {
      if h.Atomic() {
        ReleaseAlone(h);
      } else {
        ReleaseAmong(h);
      }
    }

    // if (source.m_value) { link().splice(source.link()); m_value = source.m_value; }
    method LinkTo(h: Shared, g: Shared)
      requires Wired(live, slots) && h in live && g in live
      modifies live, h.value
      ensures Wired(live, slots) && Values(live, slots) == old(Values(live, slots))[h := old(g.value.value)]
      ensures Next(live) == Exchange(old(Next(live)), h, old(g.p))
    {
      var p := g.value.value;
      SpliceLink(h, g);
      SetValue(h, p);
    }

    // constructShared(h, g), and the same in operator=
    method HoldSame(h: Shared, g: Shared)
      requires Valid() && h in live && g in live && h.value.value == Null
      modifies this`rings, live, h.value
      ensures Valid() && Abs() == Take(old(Abs()), h, old(g.value.value))
    {
      ghost var s, next, before := Abs(), Next(live), g.p;
      assert s.value[h] == Null && s.value[g] == g.value.value;
      if g.value.value.Object? {
        assert g.p.n == g;
        LinkTo(h, g);
        ghost var rings' := Join(next, s.value, rings, h, g, before);
        SetRings(rings');
      } else {
        assert Take(s, h, Null) == s;
      }
    }

    // m_value = x, x being held by no Shared
    method HoldFirst(h: Shared, x: Pointer)
      requires Valid() && h in live && h.value.value == Null && Unmanaged(Abs(), x)
      modifies this`rings, h.value
      ensures Valid() && Abs() == Take(old(Abs()), h, x)
    {
      ghost var s, next := Abs(), Next(live);
      assert s.value[h] == Null;
      SetValue(h, x);
      ghost var rings' := TakeOver(s, next, rings, h, x);
      SetRings(rings');
    }

    method Enter(h: Shared)
      requires Wired(live, slots) && h !in live && h.value !in slots && h.n == h && h.p == h && h.value.value == Null
      modifies this`live, this`slots
      ensures Wired(live, slots) && live == old(live) + {h} && slots == old(slots) + {h.value}
      ensures Next(live) == old(Next(live))[h := h] && Values(live, slots) == old(Values(live, slots))[h := Null]
    {
      live := live + {h};
      slots := slots + {h.value};
    }

    // Shared()
    method Make() returns (h: Shared)
      requires Valid()
      modifies this`live, this`slots, this`rings
      ensures Valid() && h !in old(live) && fresh(h) && fresh(h.value) && h in live && h.value.value == Null
      ensures live == old(live) + {h} && slots == old(slots) + {h.value}
      ensures h !in old(Abs()).value && Abs() == Perform(old(Abs()), Empty(h))
    {
      ghost var s, next := Abs(), Next(live);
      var slot := new Slot();
      h := new Ring(slot);
      Enter(h);
      Add(next, s.value, rings, h);
      SetRings(rings);
    }

    // Shared(T*), Shared(unique_ptr)
    method Own(x: Pointer) returns (h: Shared)
      requires Valid() && Unmanaged(Abs(), x)
      modifies this`live, this`slots, this`rings
      ensures Valid() && fresh(h) && fresh(h.value) && live == old(live) + {h} && slots == old(slots) + {h.value}
      ensures h !in old(live) && Abs() == Perform(old(Abs()), Op.Own(h, x))
    {
      ghost var s := Abs();
      h := Make();
      StillUnmanaged(s, h, x, Abs());
      HoldFirst(h, x);
      OwnIs(s, h, x, Abs());
    }

    // Shared(const Shared&), Shared(const Shared<U>&)
    method Copy(g: Shared) returns (h: Shared)
      requires Valid() && g in live
      modifies this`live, this`slots, this`rings, live
      ensures Valid() && fresh(h) && fresh(h.value) && live == old(live) + {h} && slots == old(slots) + {h.value}
      ensures h !in old(live) && g in old(Abs()).value && Abs() == Perform(old(Abs()), Op.Copy(h, g))
    {
      ghost var s := Abs();
      assert s.value[g] == g.value.value;
      h := Make();
      HoldSame(h, g);
      CopyIs(s, h, g, Abs());
    }

    // operator=(const Shared&)
    method Assign(h: Shared, g: Shared)
      requires Valid() && h in live && g in live
      modifies this`deleted, this`rings, live, h.value
      ensures Valid() && Abs() == Perform(old(Abs()), Op.Assign(h, g))
    {
      ghost var s := Abs();
      if h != g {
        Release(h);
        assert Abs().value[h] == Null && Abs().value[g] == g.value.value && Abs().value[g] == s.value[g];
        HoldSame(h, g);
      }
      AssignIs(s, h, g, Abs());
    }

    // operator=(T*)
    method Reset(h: Shared, x: Pointer)
      requires Valid() && h in live && Unmanaged(Abs(), x)
      modifies this`deleted, this`rings, live, h.value
      ensures Valid() && Abs() == Perform(old(Abs()), Op.Reset(h, x))
    {
      ghost var s := Abs();
      Release(h);
      ReleasedUnmanaged(s, h, x, Abs());
      HoldFirst(h, x);
      ResetIs(s, h, x, Abs());
    }

    method Leave(h: Shared)
      requires Wired(live, slots) && h in live && h.n == h
      modifies this`live
      ensures Wired(live, slots) && live == old(live) - {h}
      ensures Next(live) == old(Next(live)) - {h} && Values(live, slots) == old(Values(live, slots)) - {h}
    {
      assert h.n.p == h;
      assert forall y {:trigger y.n} :: y in live && y.n == h ==> y == h by {
        assert forall y :: y in live && y.n == h ==> h.p == y;
      }
      live := live - {h};
    }

    method Forget(h: Shared)
      requires Valid() && h in live && h.n == h && Abs().value[h] == Null
      modifies this`live, this`rings
      ensures Valid() && live == old(live) - {h}
      ensures Abs() == State(old(Abs()).value - {h}, old(deleted))
    {
      ghost var s, next := Abs(), Next(live);
      Leave(h);
      Drop(next, s.value, rings, h);
      SetRings(rings);
    }

    // ~Shared()
    method Destroy(h: Shared)
      requires Valid() && h in live
      modifies this`deleted, this`live, this`rings, live, h.value
      ensures Valid() && live == old(live) - {h} && Abs() == Perform(old(Abs()), Op.Destroy(h))
    {
      ghost var s := Abs();
      Release(h);
      Forget(h);
      DestroyIs(s, h, Abs());
    }
  }
}
