/** Who is called by an invocation, on every run. */
module NotificationProofs {
  import opened Notification

  // ---- order in the ring

  ghost predicate Distinct(r: seq<Member>) {
    forall i, j :: 0 <= i < j < |r| ==> r[i] != r[j]
  }

  predicate Before(r: seq<Member>, a: Member, b: Member) {
    a in r && b in r && Index(r, a) < Index(r, b)
  }

  lemma {:induction false} At(r: seq<Member>, i: nat)
    requires Distinct(r) && i < |r|
    ensures Index(r, r[i]) == i
  {
    IndexIs(r, i);
  }

  lemma RemoveDistinct(r: seq<Member>, m: Member)
    requires Distinct(r)
    ensures Distinct(Remove(r, m)) && m !in Remove(r, m)
  {
  }

  lemma {:induction false} RemoveMember(r: seq<Member>, m: Member, x: Member)
    requires Distinct(r) && x != m
    ensures x in Remove(r, m) <==> x in r
    ensures m !in r ==> Remove(r, m) == r
    ensures x in r && m in r ==>
              Index(Remove(r, m), x) == if Index(r, x) < Index(r, m) then Index(r, x) else Index(r, x) - 1
  {
    if m in r {
      if x in r { RemoveIndex(r, m, x); }
      if x in Remove(r, m) { RemoveFrom(r, m, x); }
    }
  }

  lemma {:induction false} RemoveIndex(r: seq<Member>, m: Member, x: Member)
    requires Distinct(r) && x != m && x in r && m in r
    ensures x in Remove(r, m)
    ensures Index(Remove(r, m), x) == if Index(r, x) < Index(r, m) then Index(r, x) else Index(r, x) - 1
  {
    RemoveDistinct(r, m);
    var i, j := Index(r, m), Index(r, x);
    At(Remove(r, m), if j < i then j else j - 1);
  }

  lemma {:induction false} RemoveFrom(r: seq<Member>, m: Member, x: Member)
    requires Distinct(r) && m in r && x in Remove(r, m)
    ensures x in r
  {
    var i, j := Index(r, m), Index(Remove(r, m), x);
    assert r[if j < i then j else j + 1] == x;
  }

  lemma RemoveOrder(r: seq<Member>, m: Member, x: Member, y: Member)
    requires Distinct(r) && x != m && y != m
    ensures Before(Remove(r, m), x, y) <==> Before(r, x, y)
  {
    RemoveMember(r, m, x);
    RemoveMember(r, m, y);
  }

  lemma {:induction false} InsertDistinct(r: seq<Member>, a: Member, m: Member)
    requires Distinct(r) && a in r && m !in r
    ensures Distinct(InsertAfter(r, a, m))
    ensures m in InsertAfter(r, a, m) && Index(InsertAfter(r, a, m), m) == Index(r, a) + 1
  {
    var i := Index(r, a);
    var r' := InsertAfter(r, a, m);
    assert r'[i + 1] == m;
    assert forall j :: 0 <= j <= i ==> r'[j] == r[j];
    assert forall j :: i + 1 < j < |r'| ==> r'[j] == r[j - 1];
    At(r', i + 1);
  }

  lemma {:induction false} InsertMember(r: seq<Member>, a: Member, m: Member, x: Member)
    requires Distinct(r) && a in r && m !in r && x != m
    ensures x in InsertAfter(r, a, m) <==> x in r
    ensures x in r ==> Index(InsertAfter(r, a, m), x) == if Index(r, x) <= Index(r, a) then Index(r, x) else Index(r, x) + 1
  {
    InsertDistinct(r, a, m);
    InsertedAt(r, Index(r, a), m, x);
  }

  lemma InsertedAt(r: seq<Member>, i: nat, m: Member, x: Member)
    requires Distinct(r) && i < |r| && x != m && Distinct(r[..i + 1] + [m] + r[i + 1..])
    ensures var r' := r[..i + 1] + [m] + r[i + 1..];
      (x in r' <==> x in r) && (x in r ==> Index(r', x) == if Index(r, x) <= i then Index(r, x) else Index(r, x) + 1)
  {
    var r' := r[..i + 1] + [m] + r[i + 1..];
    if x in r {
      var j := Index(r, x);
      assert r'[if j <= i then j else j + 1] == x;
      At(r', if j <= i then j else j + 1);
    }
    if x in r' {
      var j := Index(r', x);
      assert r[if j <= i then j else j - 1] == x;
    }
  }

  lemma InsertOrder(r: seq<Member>, a: Member, m: Member, x: Member, y: Member)
    requires Distinct(r) && a in r && m !in r && x != m && y != m
    ensures Before(InsertAfter(r, a, m), x, y) <==> Before(r, x, y)
    ensures Before(InsertAfter(r, a, m), x, m) <==> x == a || Before(r, x, a)
    ensures Before(InsertAfter(r, a, m), m, y) <==> Before(r, a, y)
  {
    InsertDistinct(r, a, m);
    InsertMember(r, a, m, x);
    InsertMember(r, a, m, y);
    if x in r && Index(r, x) == Index(r, a) { assert x == r[Index(r, a)]; }
  }

  lemma {:induction false} SwapMember(r: seq<Member>, i: nat, x: Member)
    requires Distinct(r) && i + 1 < |r|
    ensures Distinct(Swap(r, i)) && (x in Swap(r, i) <==> x in r)
    ensures x in r ==>
              Index(Swap(r, i), x) == (if Index(r, x) == i then i + 1 else if Index(r, x) == i + 1 then i else Index(r, x))
  {
    var s := Swap(r, i);
    assert s[i] == r[i + 1] && s[i + 1] == r[i];
    assert forall j :: 0 <= j < |r| && j != i && j != i + 1 ==> s[j] == r[j];
    if x in r {
      var j := Index(r, x);
      At(s, if j == i then i + 1 else if j == i + 1 then i else j);
    }
    if x in s {
      var j := Index(s, x);
      assert r[if j == i then i + 1 else if j == i + 1 then i else j] == x;
    }
  }

  // two members keep their order unless they are the two exchanged
  lemma SwapOrder(r: seq<Member>, i: nat, x: Member, y: Member)
    requires Distinct(r) && i + 1 < |r|
    requires !(x == r[i] && y == r[i + 1]) && !(x == r[i + 1] && y == r[i])
    ensures Before(Swap(r, i), x, y) <==> Before(r, x, y)
  {
    SwapMember(r, i, x);
    SwapMember(r, i, y);
    At(r, i);
    At(r, i + 1);
  }

  lemma {:induction false} AppendMember(r: seq<Member>, m: Member, x: Member)
    requires Distinct(r) && m !in r
    ensures Distinct(r + [m]) && Index(r + [m], m) == |r|
    ensures x != m ==> (x in r + [m] <==> x in r) && (x in r ==> Index(r + [m], x) == Index(r, x))
  {
    assert (r + [m])[|r|] == m;
    At(r + [m], |r|);
    if x in r {
      assert (r + [m])[Index(r, x)] == x;
      At(r + [m], Index(r, x));
    }
  }

  // ---- the invariant

  ghost predicate MarkOk(r: seq<Member>, next: nat, k: nat, start: bool) {
    Mark(k, start) in r ==> k < next && Before(r, Mark(k, true), Mark(k, false))
  }

  // the event's link, while there is one, comes first; markers come in pairs, start before end
  ghost predicate Inv(r: seq<Member>, next: nat) {
    Distinct(r) && (Head in r ==> r[0] == Head) && forall k, start :: MarkOk(r, next, k, start)
  }

  // invocation k has yet to call o
  predicate Pending(r: seq<Member>, k: nat, o: nat) {
    Before(r, Mark(k, true), Obs(o)) && Before(r, Obs(o), Mark(k, false))
  }

  ghost predicate SameMarks(r: seq<Member>, r': seq<Member>) {
    forall k, start :: Mark(k, start) in r <==> Mark(k, start) in r'
  }

  lemma {:induction false} HeadIsFirst(r: seq<Member>, x: Member)
    requires Distinct(r) && Head in r && r[0] == Head
    ensures Index(r, Head) == 0 && !Before(r, x, Head)
  {
    At(r, 0);
  }

  // taking a link that is no marker out of the ring
  lemma RemoveInv(r: seq<Member>, next: nat, m: Member)
    requires Inv(r, next) && !m.Mark?
    ensures Inv(Remove(r, m), next) && SameMarks(r, Remove(r, m))
  {
    var r' := Remove(r, m);
    RemoveDistinct(r, m);
    if Head in r' {
      if m != Head { RemoveMember(r, m, Head); HeadIsFirst(r, Head); }
    }
    forall k, start ensures (Mark(k, start) in r <==> Mark(k, start) in r') && MarkOk(r', next, k, start) {
      RemoveMember(r, m, Mark(k, start));
      RemoveOrder(r, m, Mark(k, true), Mark(k, false));
      assert MarkOk(r, next, k, start);
    }
  }

  lemma InsertInv(r: seq<Member>, next: nat, a: Member, m: Member)
    requires Inv(r, next) && !m.Mark? && m != Head && a in r && m !in r
    ensures Inv(InsertAfter(r, a, m), next) && SameMarks(r, InsertAfter(r, a, m))
  {
    var r' := InsertAfter(r, a, m);
    InsertDistinct(r, a, m);
    if Head in r' { InsertMember(r, a, m, Head); }
    forall k, start ensures (Mark(k, start) in r <==> Mark(k, start) in r') && MarkOk(r', next, k, start) {
      InsertMember(r, a, m, Mark(k, start));
      InsertOrder(r, a, m, Mark(k, true), Mark(k, false));
      assert MarkOk(r, next, k, start);
    }
  }

  lemma ApplyInv(a: Act, r: seq<Member>, next: nat)
    requires Inv(r, next) && !a.Notify?
    ensures Inv(Apply(a, r), next) && SameMarks(r, Apply(a, r))
  {
    match a
    case Attach(o) =>
      RemoveInv(r, next, Obs(o));
      RemoveMember(r, Obs(o), Head);
      RemoveDistinct(r, Obs(o));
      if Head in r { InsertInv(Remove(r, Obs(o)), next, Head, Obs(o)); }
    case AttachAfter(o, b) =>
      RemoveInv(r, next, Obs(o));
      RemoveDistinct(r, Obs(o));
      if o != b && Obs(b) in Remove(r, Obs(o)) { InsertInv(Remove(r, Obs(o)), next, Obs(b), Obs(o)); }
    case Detach(o) => RemoveInv(r, next, Obs(o));
    case Delete => RemoveInv(r, next, Head);
  }

  lemma EnterInv(r: seq<Member>, k: nat)
    requires Inv(r, k) && Head in r
    ensures Inv(Enter(r, k), k + 1) && Mark(k, true) in Enter(r, k) && Mark(k, false) in Enter(r, k)
    ensures forall j, start :: j != k ==> (Mark(j, start) in r <==> Mark(j, start) in Enter(r, k))
  {
    assert MarkOk(r, k, k, true) && MarkOk(r, k, k, false);
    var r1 := InsertAfter(r, Head, Mark(k, true));
    var r' := Enter(r, k);
    InsertDistinct(r, Head, Mark(k, true));
    InsertMember(r, Head, Mark(k, true), Mark(k, false));
    InsertMember(r, Head, Mark(k, true), Head);
    AppendMember(r1, Mark(k, false), Mark(k, true));
    forall j, start
      ensures j != k ==> (Mark(j, start) in r <==> Mark(j, start) in r')
      ensures MarkOk(r', k + 1, j, start)
    {
      if j != k {
        InsertMember(r, Head, Mark(k, true), Mark(j, start));
        InsertOrder(r, Head, Mark(k, true), Mark(j, true), Mark(j, false));
        AppendMember(r1, Mark(k, false), Mark(j, true));
        AppendMember(r1, Mark(k, false), Mark(j, false));
        assert MarkOk(r, k, j, start);
      }
    }
  }

  lemma SwapInv(r: seq<Member>, next: nat, i: nat)
    requires Inv(r, next) && i + 1 < |r| && r[i].Mark? && r[i].start && !(r[i + 1].Mark? && r[i + 1].k == r[i].k)
    ensures Inv(Swap(r, i), next) && SameMarks(r, Swap(r, i))
  {
    var s := Swap(r, i);
    SwapMember(r, i, Head);
    if Head in s {
      assert Head in r;
      HeadIsFirst(r, Head);
      At(r, i);
    }
    forall j, start ensures (Mark(j, start) in r <==> Mark(j, start) in s) && MarkOk(s, next, j, start) {
      SwapMember(r, i, Mark(j, start));
      SwapOrder(r, i, Mark(j, true), Mark(j, false));
      assert MarkOk(r, next, j, start);
    }
  }

  lemma HeadStaysFirst(r: seq<Member>, m: Member)
    requires Distinct(r) && (Head in r ==> r[0] == Head)
    ensures Head in Remove(r, m) ==> Remove(r, m)[0] == Head
  {
    RemoveDistinct(r, m);
    if Head in Remove(r, m) {
      RemoveMember(r, m, Head);
      HeadIsFirst(r, Head);
    }
  }

  lemma ExitMark(r: seq<Member>, next: nat, k: nat, j: nat, start: bool)
    requires Inv(r, next)
    ensures Mark(j, start) in Exit(r, k) <==> j != k && Mark(j, start) in r
    ensures MarkOk(Exit(r, k), next, j, start)
  {
    var r1 := Remove(r, Mark(k, false));
    RemoveDistinct(r, Mark(k, false));
    RemoveDistinct(r1, Mark(k, true));
    if j != k {
      RemoveMember(r, Mark(k, false), Mark(j, start));
      RemoveMember(r1, Mark(k, true), Mark(j, start));
      RemoveOrder(r, Mark(k, false), Mark(j, true), Mark(j, false));
      RemoveOrder(r1, Mark(k, true), Mark(j, true), Mark(j, false));
      assert MarkOk(r, next, j, start);
    } else {
      RemoveMember(r1, Mark(k, true), Mark(k, false));
    }
  }

  lemma ExitInv(r: seq<Member>, next: nat, k: nat)
    requires Inv(r, next)
    ensures Inv(Exit(r, k), next)
    ensures forall j, start :: Mark(j, start) in Exit(r, k) <==> j != k && Mark(j, start) in r
  {
    RemoveDistinct(r, Mark(k, false));
    RemoveDistinct(Remove(r, Mark(k, false)), Mark(k, true));
    HeadStaysFirst(r, Mark(k, false));
    HeadStaysFirst(Remove(r, Mark(k, false)), Mark(k, true));
    forall j, start
      ensures Mark(j, start) in Exit(r, k) <==> j != k && Mark(j, start) in r
      ensures MarkOk(Exit(r, k), next, j, start)
    {
      ExitMark(r, next, k, j, start);
    }
  }

  // ---- what each kind of step may do to what is pending

  // o comes to be pending, or stops being pending without having been called, only by these acts
  ghost predicate ActLaw(a: Act, r: seq<Member>, r': seq<Member>, k: nat, o: nat) {
    (!Pending(r, k, o) && Pending(r', k, o) ==> a.AttachAfter? && a.o == o && a.b != o && Pending(r, k, a.b)) &&
    (Pending(r, k, o) && !Pending(r', k, o) ==>
      (a == Detach(o) || a == Attach(o) || (a.AttachAfter? && a.o == o && a.b != o && !Pending(r, k, a.b))))
  }

  lemma ApplyLaw(a: Act, r: seq<Member>, next: nat, k: nat, o: nat)
    requires Inv(r, next) && !a.Notify?
    ensures ActLaw(a, r, Apply(a, r), k, o)
  {
    match a
    case Attach(x) => AttachLaw(r, next, x, k, o);
    case AttachAfter(x, b) => AttachAfterLaw(r, next, x, b, k, o);
    case Detach(x) => Removed(r, Obs(x), k, o);
    case Delete => Removed(r, Head, k, o);
  }

  lemma AttachLaw(r: seq<Member>, next: nat, x: nat, k: nat, o: nat)
    requires Inv(r, next)
    ensures ActLaw(Attach(x), r, Apply(Attach(x), r), k, o)
  {
    RemoveDistinct(r, Obs(x));
    RemoveMember(r, Obs(x), Head);
    if Head in r {
      if o != x { AttachedElsewhere(r, next, Head, x, k, o); }
      AttachedAtHead(r, next, x, k);
    } else {
      Removed(r, Obs(x), k, o);
    }
  }

  lemma AttachAfterLaw(r: seq<Member>, next: nat, x: nat, b: nat, k: nat, o: nat)
    requires Inv(r, next)
    ensures ActLaw(AttachAfter(x, b), r, Apply(AttachAfter(x, b), r), k, o)
  {
    if x != b {
      RemoveDistinct(r, Obs(x));
      RemoveMember(r, Obs(x), Obs(b));
      if Obs(b) in r {
        if o != x { AttachedElsewhere(r, next, Obs(b), x, k, o); }
        AttachedAfter(r, b, x, k);
      } else {
        Removed(r, Obs(x), k, o);
      }
    }
  }

  // taking a link out leaves the others' state alone
  lemma Removed(r: seq<Member>, m: Member, k: nat, o: nat)
    requires Distinct(r) && !m.Mark?
    ensures m != Obs(o) ==> (Pending(Remove(r, m), k, o) <==> Pending(r, k, o))
    ensures m == Obs(o) ==> !Pending(Remove(r, m), k, o)
  {
    RemoveDistinct(r, m);
    if m != Obs(o) {
      RemoveOrder(r, m, Mark(k, true), Obs(o));
      RemoveOrder(r, m, Obs(o), Mark(k, false));
    }
  }

  // ... and so does putting it back somewhere else
  lemma AttachedElsewhere(r: seq<Member>, next: nat, a: Member, x: nat, k: nat, o: nat)
    requires Inv(r, next) && a in r && a != Obs(x) && o != x
    ensures a in Remove(r, Obs(x)) &&
            (Pending(InsertAfter(Remove(r, Obs(x)), a, Obs(x)), k, o) <==> Pending(r, k, o))
  {
    var r1 := Remove(r, Obs(x));
    RemoveDistinct(r, Obs(x));
    RemoveMember(r, Obs(x), a);
    Removed(r, Obs(x), k, o);
    InsertOrder(r1, a, Obs(x), Mark(k, true), Obs(o));
    InsertOrder(r1, a, Obs(x), Obs(o), Mark(k, false));
  }

  // attached through observers() it is before every start marker, so no invocation under way calls it
  lemma AttachedAtHead(r: seq<Member>, next: nat, x: nat, k: nat)
    requires Inv(r, next) && Head in r
    ensures Head in Remove(r, Obs(x)) && !Pending(InsertAfter(Remove(r, Obs(x)), Head, Obs(x)), k, x)
  {
    var r1 := Remove(r, Obs(x));
    RemoveDistinct(r, Obs(x));
    RemoveMember(r, Obs(x), Head);
    HeadStaysFirst(r, Obs(x));
    HeadIsFirst(r1, Mark(k, true));
    InsertOrder(r1, Head, Obs(x), Mark(k, true), Mark(k, false));
  }

  // attached after observer b it is pending exactly where b is
  lemma AttachedAfter(r: seq<Member>, b: nat, x: nat, k: nat)
    requires Distinct(r) && Obs(b) in r && b != x
    ensures Obs(b) in Remove(r, Obs(x)) &&
            (Pending(InsertAfter(Remove(r, Obs(x)), Obs(b), Obs(x)), k, x) <==> Pending(r, k, b))
  {
    var r1 := Remove(r, Obs(x));
    RemoveDistinct(r, Obs(x));
    RemoveMember(r, Obs(x), Obs(b));
    Removed(r, Obs(x), k, b);
    InsertOrder(r1, Obs(b), Obs(x), Mark(k, true), Mark(k, false));
  }

  // the law of every step, for invocation k and observer o
  ghost predicate Law(s: Step, k: nat, o: nat) {
    var p, p' := Pending(s.before, k, o), Pending(s.after, k, o);
    match s.what
    case Acted(a) => ActLaw(a, s.before, s.after, k, o)
    case Entered(j) => j == k || p == p'
    case Called(j, x) => if j == k && x == o then p && !p' else p == p'
    case Passed(_) => p == p'
    case Exited(j) => if j == k then !p' else p == p'
  }

  lemma EnterOrder(r: seq<Member>, j: nat, x: Member, y: Member)
    requires Inv(r, j) && Head in r && x !in {Mark(j, true), Mark(j, false)} && y !in {Mark(j, true), Mark(j, false)}
    ensures Before(Enter(r, j), x, y) <==> Before(r, x, y)
  {
    var r1 := InsertAfter(r, Head, Mark(j, true));
    assert MarkOk(r, j, j, true) && MarkOk(r, j, j, false);
    InsertDistinct(r, Head, Mark(j, true));
    InsertMember(r, Head, Mark(j, true), Mark(j, false));
    InsertOrder(r, Head, Mark(j, true), x, y);
    AppendMember(r1, Mark(j, false), x);
    AppendMember(r1, Mark(j, false), y);
  }

  lemma EnterLaw(r: seq<Member>, j: nat, k: nat, o: nat)
    requires Inv(r, j) && Head in r && j != k
    ensures Pending(Enter(r, j), k, o) <==> Pending(r, k, o)
  {
    EnterOrder(r, j, Mark(k, true), Obs(o));
    EnterOrder(r, j, Obs(o), Mark(k, false));
  }

  lemma ExitLaw(r: seq<Member>, next: nat, j: nat, k: nat, o: nat)
    requires Inv(r, next)
    ensures j != k ==> (Pending(Exit(r, j), k, o) <==> Pending(r, k, o))
    ensures !Pending(Exit(r, j), j, o)
  {
    RemoveDistinct(r, Mark(j, false));
    RemoveDistinct(Remove(r, Mark(j, false)), Mark(j, true));
    if j != k {
      RemoveOrder(r, Mark(j, false), Mark(k, true), Obs(o));
      RemoveOrder(r, Mark(j, false), Obs(o), Mark(k, false));
      RemoveOrder(Remove(r, Mark(j, false)), Mark(j, true), Mark(k, true), Obs(o));
      RemoveOrder(Remove(r, Mark(j, false)), Mark(j, true), Obs(o), Mark(k, false));
    }
  }

  // start j moves past its neighbour
  lemma SwapLaw(r: seq<Member>, next: nat, i: nat, j: nat, k: nat, o: nat)
    requires Inv(r, next) && i + 1 < |r| && r[i] == Mark(j, true) && !(r[i + 1].Mark? && r[i + 1].k == j)
    ensures if j == k && r[i + 1] == Obs(o) then Pending(r, k, o) && !Pending(Swap(r, i), k, o)
            else Pending(Swap(r, i), k, o) <==> Pending(r, k, o)
  {
    At(r, i);
    At(r, i + 1);
    assert MarkOk(r, next, j, true);
    if j == k && r[i + 1] == Obs(o) {
      SwapMember(r, i, Mark(j, true));
      SwapMember(r, i, Obs(o));
      var e := Index(r, Mark(j, false));
      assert r[e] == Mark(j, false) && e > i && e != i + 1;
    } else {
      SwapOrder(r, i, Mark(k, true), Obs(o));
      SwapOrder(r, i, Obs(o), Mark(k, false));
    }
  }
}
