/** xju::Event on real links: the loop of operator() and what observers do to the
    ring meanwhile, proved to do what module Notification says. */
module EventRing {
  import opened RingTheory
  import opened RingLinks
  import opened Notification
  import opened NotificationProofs
  import opened Invocation

  function CallIn(what: What): seq<(nat, nat)> {
    if what.Called? then [(what.k, what.o)] else []
  }

  // the calls among some steps, in order: which invocation called which observer
  function CallsIn(steps: seq<Step>): seq<(nat, nat)> {
    if steps == [] then [] else CallIn(steps[0].what) + CallsIn(steps[1..])
  }

  lemma {:induction false} CallsInFirst(s: Step, steps: seq<Step>)
    ensures CallsIn([s] + steps) == CallIn(s.what) + CallsIn(steps)
  {
  }

  lemma {:induction false} CallsInAppend(xs: seq<Step>, ys: seq<Step>)
    ensures CallsIn(xs + ys) == CallsIn(xs) + CallsIn(ys)
  {
    if xs == [] {
      assert xs + ys == ys;
    } else {
      assert (xs + ys)[1..] == xs[1..] + ys;
      CallsInAppend(xs[1..], ys);
    }
  }

  // the calls on record are the calls counted in module Invocation
  lemma {:induction false} CallsOnRecord(steps: seq<Step>, k: nat, o: nat)
    ensures multiset(CallsIn(steps))[(k, o)] == Calls(steps, k, o)
  {
    if steps != [] { CallsOnRecord(steps[1..], k, o); }
  }

  type Link = Ring<Member>

  ghost function LinksOf(links: map<Member, Link>, r: seq<Member>): seq<Link>
    requires forall m :: m in r ==> m in links
  {
    seq(|r|, i requires 0 <= i < |r| => links[r[i]])
  }

  // where a ring of links is no ring of other links
  lemma Outside(next: map<Link, Link>, s: seq<Link>, x: Link, y: Link)
    requires IsLinked(next) && IsRing(next, s) && x in next && next[x] == y && y !in s
    ensures x !in s
  {
  }

  lemma LinksMember(links: map<Member, Link>, r: seq<Member>, m: Member)
    requires (forall x :: x in r ==> x in links) && m in links
    requires forall x, y :: x in links && y in links && links[x] == links[y] ==> x == y
    ensures links[m] in LinksOf(links, r) <==> m in r
  {
    var s := LinksOf(links, r);
    if m in r { assert s[Index(r, m)] == links[m]; }
    if links[m] in s {
      var i :| 0 <= i < |s| && s[i] == links[m];
      assert links[r[i]] == links[m];
    }
  }

  // the links of r, each its own, form a ring
  ghost predicate FormRing(next: map<Link, Link>, links: map<Member, Link>, r: seq<Member>) {
    (forall m :: m in r ==> m in links) && Distinct(r) &&
    (forall x, y :: x in links && y in links && links[x] == links[y] ==> x == y) &&
    (r != [] ==> IsRing(next, LinksOf(links, r)))
  }

  lemma CutFromRing(next: map<Link, Link>, links: map<Member, Link>, r: seq<Member>, m: Member, before: Link)
    requires IsLinked(next) && FormRing(next, links, r) && m in links
    requires links[m] in next && before in next && next[before] == links[m]
    ensures FormRing(Exchange(next, before, links[m]), links, Remove(r, m))
    ensures Exchange(next, before, links[m])[links[m]] == links[m]
  {
    RemoveDistinct(r, m);
    if r != [] {
      LinksMember(links, r, m);
      LinksRemove(links, r, m);
      CutLinkFrom(next, LinksOf(links, r), links[m], before, if m in r then Index(r, m) else 0);
    }
  }

  // a link is cut out of the ring it is in, and out of no other
  lemma CutLinkFrom(next: map<Link, Link>, s: seq<Link>, x: Link, before: Link, i: nat)
    requires IsLinked(next) && IsRing(next, s) && x in next && before in next && next[before] == x
    requires x in s ==> i < |s| && s[i] == x
    ensures x in s && |s| > 1 ==> IsRing(Exchange(next, before, x), s[..i] + s[i + 1..])
    ensures x !in s ==> IsRing(Exchange(next, before, x), s)
  {
    if x in s {
      if |s| > 1 {
        BeforeInRing(next, s, i, before);
        TakeOut(next, s, i);
      }
    } else {
      Outside(next, s, before, x);
      ExchangeElsewhere(next, before, x, s);
    }
  }

  lemma LinksAppend(links: map<Member, Link>, a: seq<Member>, b: seq<Member>)
    requires (forall x :: x in a ==> x in links) && forall x :: x in b ==> x in links
    ensures LinksOf(links, a + b) == LinksOf(links, a) + LinksOf(links, b)
  {
  }

  lemma LinksTake(links: map<Member, Link>, r: seq<Member>, i: nat)
    requires (forall x :: x in r ==> x in links) && i <= |r|
    ensures LinksOf(links, r[..i]) == LinksOf(links, r)[..i]
  {
  }

  lemma LinksDrop(links: map<Member, Link>, r: seq<Member>, i: nat)
    requires (forall x :: x in r ==> x in links) && i <= |r|
    ensures LinksOf(links, r[i..]) == LinksOf(links, r)[i..]
  {
  }

  lemma {:induction false} LinksRemove(links: map<Member, Link>, r: seq<Member>, m: Member)
    requires forall x :: x in r ==> x in links
    ensures forall x :: x in Remove(r, m) ==> x in links
    ensures var s := LinksOf(links, r);
      LinksOf(links, Remove(r, m)) == if m in r then s[..Index(r, m)] + s[Index(r, m) + 1..] else s
    ensures m in r ==> LinksOf(links, r)[Index(r, m)] == links[m]
  {
    if m in r {
      var i := Index(r, m);
      LinksTake(links, r, i);
      LinksDrop(links, r, i + 1);
      LinksAppend(links, r[..i], r[i + 1..]);
    }
  }

  lemma {:induction false} LinksInsert(links: map<Member, Link>, r: seq<Member>, a: Member, m: Member)
    requires (forall x :: x in r ==> x in links) && m in links && a in r
    ensures forall x :: x in Notification.InsertAfter(r, a, m) ==> x in links
    ensures var s, i := LinksOf(links, r), Index(r, a);
      LinksOf(links, Notification.InsertAfter(r, a, m)) == s[..i + 1] + [links[m]] + s[i + 1..] && s[i] == links[a]
  {
    var i := Index(r, a);
    LinksTake(links, r, i + 1);
    LinksDrop(links, r, i + 1);
    LinksAppend(links, r[..i + 1], [m]);
    LinksAppend(links, r[..i + 1] + [m], r[i + 1..]);
    assert LinksOf(links, [m]) == [links[m]];
  }

  lemma SpliceIntoRing(next: map<Link, Link>, links: map<Member, Link>, r: seq<Member>, a: Member, m: Member)
    requires IsLinked(next) && FormRing(next, links, r) && a in links && m in links && a != m && m !in r
    requires links[a] in next && links[m] in next && next[links[m]] == links[m]
    ensures FormRing(Exchange(next, links[a], links[m]), links, if a in r then Notification.InsertAfter(r, a, m) else r)
  {
    LinksMember(links, r, a);
    LinksMember(links, r, m);
    if a in r {
      InsertDistinct(r, a, m);
      LinksInsert(links, r, a, m);
      InsertBehind(next, LinksOf(links, r), Index(r, a), links[m]);
    } else if r != [] {
      ExchangeElsewhere(next, links[a], links[m], LinksOf(links, r));
    }
  }

  // u are the links, and the ring is what they say it is
  ghost predicate WiredAs(u: set<Link>, links: map<Member, Link>, ring: seq<Member>)
    reads u
  {
    (forall m :: m in links ==> links[m] in u && links[m].value == m) &&
    (forall x {:trigger x.value} :: x in u ==> x.value in links && links[x.value] == x) &&
    Linked(u) && FormRing(Next(u), links, ring)
  }

  // each link of u is that of its member, however they are linked
  ghost predicate Own(u: set<Link>, links: map<Member, Link>) {
    (forall m :: m in links ==> links[m] in u && links[m].value == m) &&
    (forall x {:trigger x.value} :: x in u ==> x.value in links && links[x.value] == x)
  }

  lemma StillWired(u: set<Link>, links: map<Member, Link>, ring: seq<Member>)
    requires Own(u, links) && Linked(u) && FormRing(Next(u), links, ring)
    ensures WiredAs(u, links, ring)
  {
  }

  lemma RingWithout(u: set<Link>, x: Link, links: map<Member, Link>, m: Member, r: seq<Member>)
    requires FormRing(Next(u), links, r) && m in links && links[m] == x && m !in r
    ensures FormRing(Next(u - {x}), links - {m}, r)
  {
    if r != [] {
      var s := LinksOf(links, r);
      LinksMember(links, r, m);
      assert s == LinksOf(links - {m}, r);
      assert forall i :: 0 <= i < |s| ==> s[i] in s;
      SameRing(Next(u), Next(u - {x}), s);
    }
  }

  lemma WiredWithout(u: set<Link>, x: Link, links: map<Member, Link>, m: Member, r: seq<Member>)
    requires WiredAs(u, links, r) && m in links && links[m] == x && m !in r && x.n == x
    ensures WiredAs(u - {x}, links - {m}, r)
  {
    RingWithout(u, x, links, m, r);
    assert x.n.p == x;
    forall y | y in u && y != x ensures y.n != x && y.p != x {
      assert y.n.p == y && y.p.n == y;
    }
  }

  lemma RingWith(u: set<Link>, x: Link, links: map<Member, Link>, m: Member, r: seq<Member>)
    requires FormRing(Next(u), links, r) && x !in u && m !in links && (forall y :: y in links ==> links[y] in u)
    ensures FormRing(Next(u + {x}), links[m := x], r)
  {
    if r != [] {
      var s := LinksOf(links, r);
      assert s == LinksOf(links[m := x], r);
      SameRing(Next(u), Next(u + {x}), s);
    }
  }

  lemma WiredWith(u: set<Link>, x: Link, links: map<Member, Link>, m: Member, r: seq<Member>)
    requires WiredAs(u, links, r) && x !in u && m !in links && m !in r && x.n == x && x.p == x && x.value == m
    ensures WiredAs(u + {x}, links[m := x], r)
  {
    RingWith(u, x, links, m, r);
  }

  lemma HeadStays(a: Act, r: seq<Member>)
    requires Distinct(r) && !a.Notify?
    ensures Head in Apply(a, r) <==> Head in r && !a.Delete?
  {
    match a
    case Attach(o) => if Head in r { HeadStaysBehind(r, o, Head); }
    case AttachAfter(o, b) => if o != b { HeadStaysBehind(r, o, Obs(b)); }
    case Detach(o) => RemoveMember(r, Obs(o), Head);
    case Delete => RemoveDistinct(r, Head);
  }

  // o is taken out, and put in again behind a
  lemma HeadStaysBehind(r: seq<Member>, o: nat, a: Member)
    requires Distinct(r) && a != Obs(o)
    ensures var r1 := Remove(r, Obs(o));
      (Head in r1 <==> Head in r) && (a in r1 ==> (Head in Notification.InsertAfter(r1, a, Obs(o)) <==> Head in r))
  {
    var r1 := Remove(r, Obs(o));
    RemoveDistinct(r, Obs(o));
    RemoveMember(r, Obs(o), Head);
    if a in r1 { InsertMember(r1, a, Obs(o), Head); }
  }

  lemma NoMarkYet(r: seq<Member>, k: nat)
    requires Inv(r, k)
    ensures Mark(k, true) !in r && Mark(k, false) !in r
  {
    assert MarkOk(r, k, k, true) && MarkOk(r, k, k, false);
  }

  ghost predicate InOrder(links: map<Member, Link>, r: seq<Member>, next: nat) {
    Inv(r, next) && MarksIn(links, r) && (Head in links <==> Head in r)
  }

  // every marker there is is in the ring
  ghost predicate MarksIn(links: map<Member, Link>, r: seq<Member>) {
    forall k, start :: Mark(k, start) in links ==> Mark(k, start) in r
  }

  lemma MarksEnter(links: map<Member, Link>, links': map<Member, Link>, r: seq<Member>, k: nat, r': seq<Member>,
                   next': nat)
    requires InOrder(links, r, k) && Head in r && r' == Enter(r, k) && next' == k + 1
    requires links'.Keys == links.Keys + {Mark(k, true), Mark(k, false)}
    ensures InOrder(links', r', next')
  {
    EnterInv(r, k);
    HeadEnters(r, k);
    forall j, start | Mark(j, start) in links' ensures Mark(j, start) in r' {
      if j != k { assert Mark(j, start) in links; }
    }
  }

  lemma MarkersGoIn(r: seq<Member>, k: nat)
    requires Distinct(r) && r != [] && r[0] == Head && Mark(k, true) !in r && Mark(k, false) !in r
    ensures var r1 := InsertAfter(r, Head, Mark(k, true));
      Mark(k, false) !in r1 && Distinct(r1) && r1[0] == Head
  {
    InsertDistinct(r, Head, Mark(k, true));
    InsertMember(r, Head, Mark(k, true), Mark(k, false));
    At(r, 0);
  }

  lemma HeadEnters(r: seq<Member>, k: nat)
    requires Head in r
    ensures Head in Enter(r, k)
  {
    var i := Index(r, Head);
    assert Enter(r, k)[i] == Head;
  }

  lemma LinksSwap(links: map<Member, Link>, r: seq<Member>, i: nat)
    requires (forall m :: m in r ==> m in links) && i + 1 < |r|
    ensures forall m :: m in Swap(r, i) ==> m in r
    ensures var s := LinksOf(links, r); LinksOf(links, Swap(r, i)) == s[..i] + [s[i + 1], s[i]] + s[i + 2..]
  {
    var two := [r[i + 1], r[i]];
    LinksTake(links, r, i);
    LinksDrop(links, r, i + 2);
    LinksAppend(links, r[..i], two);
    LinksAppend(links, r[..i] + two, r[i + 2..]);
    assert LinksOf(links, two) == [LinksOf(links, r)[i + 1], LinksOf(links, r)[i]];
  }

  lemma SwapInRing(next: map<Link, Link>, links: map<Member, Link>, r: seq<Member>, i: nat, before: Link)
    requires IsLinked(next) && FormRing(next, links, r) && i + 1 < |r|
    requires before in next && next[before] == links[r[i]]
    ensures links[r[i]] in next && next[links[r[i]]] in next
    ensures FormRing(Swapped(next, before, links[r[i]]), links, Swap(r, i))
  {
    var s := LinksOf(links, r);
    assert s[i] == links[r[i]];
    BeforeInRing(next, s, i, before);
    SwapExchangesNeighbours(next, s, i);
    SwapMember(r, i, r[i]);
    LinksSwap(links, r, i);
  }

  lemma {:induction false} SwapInEvent(u: set<Link>, links: map<Member, Link>, r: seq<Member>, m: Member)
    requires WiredAs(u, links, r) && m in r && Index(r, m) + 1 < |r|
    ensures m in links && links[m] in Next(u) && links[m].p in Next(u) && Next(u)[links[m]] in Next(u)
    ensures FormRing(Swapped(Next(u), links[m].p, links[m]), links, Swap(r, Index(r, m)))
    ensures Own(u, links) && links[m] in u && Linked(u)
  {
    LinkedIsLinked(u);
    SwapInRing(Next(u), links, r, Index(r, m), links[m].p);
  }

  // what comes before a member but the first
  lemma PreviousInRing(u: set<Link>, links: map<Member, Link>, r: seq<Member>, i: nat)
    requires WiredAs(u, links, r) && i + 1 < |r|
    ensures r[i + 1] in links && links[r[i + 1]].p.value == r[i]
  {
    var s := LinksOf(links, r);
    assert Next(u)[s[i]] == s[i + 1];
    assert s[i].n.p == s[i];
  }

  lemma ExitHead(r: seq<Member>, k: nat)
    requires Distinct(r)
    ensures Head in Exit(r, k) <==> Head in r
  {
    RemoveDistinct(r, Mark(k, false));
    RemoveMember(r, Mark(k, false), Head);
    RemoveMember(Remove(r, Mark(k, false)), Mark(k, true), Head);
  }

  // what comes before the ring's first member is its last
  lemma LastBefore(u: set<Link>, links: map<Member, Link>, r: seq<Member>, h: Member)
    requires WiredAs(u, links, r) && r != [] && r[0] == h
    ensures h in links && links[h].p.value == r[|r| - 1]
    ensures forall m :: m !in r ==> r + [m] == InsertAfter(r, r[|r| - 1], m)
  {
    var s := LinksOf(links, r);
    var last := s[|s| - 1];
    assert Next(u)[last] == s[0];
    assert last.n.p == last;
    At(r, |r| - 1);
  }

  // only observers' links were added, and none was taken away
  ghost predicate Provided(links: map<Member, Link>, links': map<Member, Link>) {
    (forall m :: m in links ==> m in links' && links'[m] == links[m]) &&
    forall m :: m in links' && m !in links ==> m.Obs?
  }

  ghost predicate MarksKept(links: map<Member, Link>, links': map<Member, Link>) {
    forall k, start :: Mark(k, start) in links ==>
      Mark(k, start) in links' && links'[Mark(k, start)] == links[Mark(k, start)]
  }

  ghost predicate MarkersAdded(links: map<Member, Link>, links': map<Member, Link>, k: nat) {
    links'.Keys == links.Keys + {Mark(k, true), Mark(k, false)} && forall m :: m in links ==> links'[m] == links[m]
  }

  lemma KeptAround(links0: map<Member, Link>, r: seq<Member>, k: nat, links1: map<Member, Link>,
                   links2: map<Member, Link>, links3: map<Member, Link>)
    requires InOrder(links0, r, k) && MarksKept(links1, links2)
    requires MarkersAdded(links0, links1, k)
    requires links3 == links2 - {Mark(k, false)} - {Mark(k, true)}
    ensures MarksKept(links0, links3)
  {
    NoMarkYet(r, k);
    forall j, start | Mark(j, start) in links0
      ensures Mark(j, start) in links3 && links3[Mark(j, start)] == links0[Mark(j, start)]
    {
      assert j != k;
      assert Mark(j, start) in links1;
    }
  }

  // the new state and the calls made are what o says
  ghost predicate Does(calls: seq<(nat, nat)>, o: Out, ring': seq<Member>, next': nat, calls': seq<(nat, nat)>) {
    ring' == o.ring && next' == o.next && calls' == calls + CallsIn(o.steps)
  }

  // o is what is left of all
  ghost predicate Remains(calls: seq<(nat, nat)>, all: Out, calls': seq<(nat, nat)>, o: Out) {
    o.ring == all.ring && o.next == all.next && calls' + CallsIn(o.steps) == calls + CallsIn(all.steps)
  }

  // the link after the start marker is the end marker's just if the loop is over
  lemma {:induction false} NextOfStart(u: set<Link>, links: map<Member, Link>, r: seq<Member>, next: nat, k: nat)
    requires WiredAs(u, links, r) && InOrder(links, r, next) && Mark(k, true) in links && Mark(k, false) in links
    ensures Mark(k, true) in r && Index(r, Mark(k, true)) + 1 < |r|
    ensures (links[Mark(k, true)].n == links[Mark(k, false)] <==> r[Index(r, Mark(k, true)) + 1] == Mark(k, false))
  {
    var i := Index(r, Mark(k, true));
    assert MarkOk(r, next, k, true);
    var s := LinksOf(links, r);
    assert Next(u)[s[i]] == s[i + 1];
    assert links[r[i + 1]].value == r[i + 1];
  }

  lemma {:induction false} RunFirst(acts: seq<Act>, r: seq<Member>, next: nat)
    requires acts != []
    ensures var o1 := Do(acts[0], r, next);
      var o2 := Run(acts[1..], o1.ring, o1.next);
      var o := Run(acts, r, next);
      o.ring == o2.ring && o.next == o2.next && CallsIn(o.steps) == CallsIn(o1.steps) + CallsIn(o2.steps)
  {
    var o1 := Do(acts[0], r, next);
    CallsInAppend(o1.steps, Run(acts[1..], o1.ring, o1.next).steps);
  }

  ghost predicate RunDoes(calls: seq<(nat, nat)>, acts: seq<Act>, r: seq<Member>, next: nat,
                          r': seq<Member>, next': nat, calls': seq<(nat, nat)>) {
    Does(calls, Run(acts, r, next), r', next', calls')
  }

  ghost predicate ActDoes(calls: seq<(nat, nat)>, a: Act, r: seq<Member>, next: nat,
                          r': seq<Member>, next': nat, calls': seq<(nat, nat)>) {
    Does(calls, Do(a, r, next), r', next', calls')
  }

  ghost predicate LoopDoes(calls: seq<(nat, nat)>, k: nat, replies: seq<Reply>, r: seq<Member>, next: nat,
                           r': seq<Member>, next': nat, calls': seq<(nat, nat)>) {
    Does(calls, Loop(k, replies, r, next), r', next', calls')
  }

  lemma RunThen(calls0: seq<(nat, nat)>, acts: seq<Act>, r0: seq<Member>, next0: nat,
                calls1: seq<(nat, nat)>, r1: seq<Member>, next1: nat,
                r: seq<Member>, next: nat, calls: seq<(nat, nat)>)
    requires acts != [] && ActDoes(calls0, acts[0], r0, next0, r1, next1, calls1)
    requires RunDoes(calls1, acts[1..], r1, next1, r, next, calls)
    ensures RunDoes(calls0, acts, r0, next0, r, next, calls)
  {
    RunFirst(acts, r0, next0);
    DoesThen(calls0, Run(acts, r0, next0), Do(acts[0], r0, next0), r1, next1, calls1,
             Run(acts[1..], r1, next1), r, next, calls);
  }

  lemma DoesThen(calls0: seq<(nat, nat)>, o: Out, o1: Out, r1: seq<Member>, next1: nat, calls1: seq<(nat, nat)>,
                 o2: Out, r: seq<Member>, next: nat, calls: seq<(nat, nat)>)
    requires Does(calls0, o1, r1, next1, calls1) && Does(calls1, o2, r, next, calls)
    requires o.ring == o2.ring && o.next == o2.next && CallsIn(o.steps) == CallsIn(o1.steps) + CallsIn(o2.steps)
    ensures Does(calls0, o, r, next, calls)
  {
    assert calls0 + (CallsIn(o1.steps) + CallsIn(o2.steps)) == calls0 + CallsIn(o1.steps) + CallsIn(o2.steps);
  }

  lemma RemainsThen(calls0: seq<(nat, nat)>, k: nat, replies0: seq<Reply>, r0: seq<Member>, next0: nat,
                    calls1: seq<(nat, nat)>, replies1: seq<Reply>, r1: seq<Member>, next1: nat,
                    calls2: seq<(nat, nat)>, replies2: seq<Reply>, r2: seq<Member>, next2: nat)
    requires LoopRemains(calls0, k, replies0, r0, next0, calls1, replies1, r1, next1)
    requires LoopRemains(calls1, k, replies1, r1, next1, calls2, replies2, r2, next2)
    ensures LoopRemains(calls0, k, replies0, r0, next0, calls2, replies2, r2, next2)
  {
  }

  lemma {:induction false} LoopEnds(calls0: seq<(nat, nat)>, k: nat, replies0: seq<Reply>, r0: seq<Member>, next0: nat,
                 calls1: seq<(nat, nat)>, replies1: seq<Reply>, r1: seq<Member>, next1: nat)
    requires LoopRemains(calls0, k, replies0, r0, next0, calls1, replies1, r1, next1)
    requires Mark(k, true) in r1 && Index(r1, Mark(k, true)) + 1 < |r1|
    requires r1[Index(r1, Mark(k, true)) + 1] == Mark(k, false)
    ensures LoopDoes(calls0, k, replies0, r0, next0, r1, next1, calls1)
  {
  }

  // the rest of a loop from one state has what is left of it from another
  ghost predicate LoopRemains(calls: seq<(nat, nat)>, k: nat, replies: seq<Reply>, r: seq<Member>, next: nat,
                              calls': seq<(nat, nat)>, replies': seq<Reply>, r': seq<Member>, next': nat) {
    Remains(calls, Loop(k, replies, r, next), calls', Loop(k, replies', r', next'))
  }

  function LeftToPass(k: nat, r: seq<Member>): int {
    |r| - Index(r, Mark(k, true))
  }

  ghost predicate MayTurn(k: nat, r: seq<Member>) {
    Mark(k, true) in r && Index(r, Mark(k, true)) + 1 < |r| &&
    !(r[Index(r, Mark(k, true)) + 1].Mark? && r[Index(r, Mark(k, true)) + 1].k == k)
  }

  lemma {:induction false} LoopPasses(k: nat, replies: seq<Reply>, r: seq<Member>, next: nat)
    requires MayTurn(k, r) && !r[Index(r, Mark(k, true)) + 1].Obs?
    ensures var r1 := Swap(r, Index(r, Mark(k, true)));
      var o2 := Loop(k, replies, r1, next);
      Loop(k, replies, r, next) == Out(o2.ring, o2.next, [Step(r, r1, Passed(k))] + o2.steps)
  {
  }

  lemma RemainsAfter(calls: seq<(nat, nat)>, s: Step, o: Out, o2: Out, calls': seq<(nat, nat)>)
    requires o == Out(o2.ring, o2.next, [s] + o2.steps) && calls' == calls + CallIn(s.what)
    ensures Remains(calls, o, calls', o2)
  {
    CallsInFirst(s, o2.steps);
  }

  lemma DoesAround(calls: seq<(nat, nat)>, s1: Step, o: Out, s2: Step, r': seq<Member>, next': nat, calls': seq<(nat,
                   nat)>)
    requires !s1.what.Called? && !s2.what.Called? && Does(calls, o, r', next', calls')
    ensures Does(calls, Out(s2.after, o.next, [s1] + o.steps + [s2]), s2.after, next', calls')
  {
    CallsAround(calls, s1, o.steps, [s2]);
    assert CallsIn([s2]) == [];
  }

  lemma {:induction false} TurnPasses(calls: seq<(nat, nat)>, k: nat, replies: seq<Reply>, r: seq<Member>, next: nat)
    requires MayTurn(k, r) && !r[Index(r, Mark(k, true)) + 1].Obs?
    ensures var r1 := Swap(r, Index(r, Mark(k, true)));
      LoopRemains(calls, k, replies, r, next, calls, replies, r1, next) && LeftToPass(k, r1) < LeftToPass(k, r)
  {
    LoopPasses(k, replies, r, next);
    SwapMovesOn(r, Mark(k, true));
    var r1 := Swap(r, Index(r, Mark(k, true)));
    RemainsAfter(calls, Step(r, r1, Passed(k)), Loop(k, replies, r, next), Loop(k, replies, r1, next), calls);
  }

  lemma LoopCalls(k: nat, replies: seq<Reply>, r: seq<Member>, next: nat, o: nat)
    requires MayTurn(k, r) && r[Index(r, Mark(k, true)) + 1] == Obs(o)
    ensures var r1 := Swap(r, Index(r, Mark(k, true)));
      var o1 := if replies == [] then Out(r1, next, []) else Run(replies[0].acts, r1, next);
      var o2 := Loop(k, if replies == [] then [] else replies[1..], o1.ring, o1.next);
      Loop(k, replies, r, next) == Out(o2.ring, o2.next, [Step(r, r1, Called(k, o))] + o1.steps + o2.steps)
  {
  }

  lemma {:induction false} LoopOnlyCalls(k: nat, r: seq<Member>, next: nat, o: nat)
    requires MayTurn(k, r) && r[Index(r, Mark(k, true)) + 1] == Obs(o)
    ensures var r1 := Swap(r, Index(r, Mark(k, true)));
      var o2 := Loop(k, [], r1, next);
      Loop(k, [], r, next) == Out(o2.ring, o2.next, [Step(r, r1, Called(k, o))] + o2.steps)
  {
    LoopCalls(k, [], r, next, o);
    var r1 := Swap(r, Index(r, Mark(k, true)));
    assert [Step(r, r1, Called(k, o))] + [] == [Step(r, r1, Called(k, o))];
  }

  lemma {:induction false} TurnCalls(calls: seq<(nat, nat)>, k: nat, replies: seq<Reply>, r: seq<Member>, next: nat,
                                     o: nat)
    requires MayTurn(k, r) && r[Index(r, Mark(k, true)) + 1] == Obs(o) && replies == []
    ensures var r1 := Swap(r, Index(r, Mark(k, true)));
      LoopRemains(calls, k, replies, r, next, calls + [(k, o)], replies, r1, next) &&
      LeftToPass(k, r1) < LeftToPass(k, r)
  {
    LoopOnlyCalls(k, r, next, o);
    SwapMovesOn(r, Mark(k, true));
    var r1 := Swap(r, Index(r, Mark(k, true)));
    RemainsAfter(calls, Step(r, r1, Called(k, o)), Loop(k, [], r, next), Loop(k, [], r1, next), calls + [(k, o)]);
  }

  lemma {:induction false} TurnRuns(calls: seq<(nat, nat)>, k: nat, replies: seq<Reply>, r: seq<Member>, next: nat,
                 calls': seq<(nat, nat)>, r': seq<Member>, next': nat, o: nat)
    requires MayTurn(k, r) && r[Index(r, Mark(k, true)) + 1] == Obs(o) && replies != []
    requires RunDoes(calls + [(k, o)], replies[0].acts, Swap(r, Index(r, Mark(k, true))), next, r', next', calls')
    ensures LoopRemains(calls, k, replies, r, next, calls', replies[1..], r', next')
  {
    LoopCalls(k, replies, r, next, o);
    var r1 := Swap(r, Index(r, Mark(k, true)));
    var s := Step(r, r1, Called(k, o));
    var steps := Run(replies[0].acts, r1, next).steps;
    var rest := Loop(k, replies[1..], r', next').steps;
    CallsAround(calls, s, steps, rest);
  }

  lemma {:induction false} CallsAround(calls: seq<(nat, nat)>, s: Step, steps: seq<Step>, rest: seq<Step>)
    ensures calls + CallsIn([s] + steps + rest) == calls + CallIn(s.what) + CallsIn(steps) + CallsIn(rest)
  {
    CallsInAppend([s] + steps, rest);
    CallsInFirst(s, steps);
  }

  // an invocation is its loop between the splices and the destructors
  lemma InvokeDoes(calls: seq<(nat, nat)>, replies: seq<Reply>, r: seq<Member>, k: nat,
                   r1: seq<Member>, next1: nat, r2: seq<Member>, next2: nat, calls2: seq<(nat, nat)>, r3: seq<Member>)
    requires Head in r && r1 == Enter(r, k) && next1 == k + 1 && r3 == Exit(r2, k)
    requires LoopDoes(calls, k, replies, r1, next1, r2, next2, calls2)
    ensures ActDoes(calls, Notify(replies), r, k, r3, next2, calls2)
  {
    DoNotify(replies, r, k);
    DoesAround(calls, Step(r, r1, Entered(k)), Loop(k, replies, r1, next1), Step(r2, r3, Exited(k)), r2, next2, calls2);
  }

  lemma {:induction false} DoNotify(replies: seq<Reply>, r: seq<Member>, next: nat)
    requires Head in r
    ensures var r1 := Enter(r, next);
      var o := Loop(next, replies, r1, next + 1);
      var r3 := Exit(o.ring, next);
      Do(Notify(replies), r, next) ==
      Out(r3, o.next, [Step(r, r1, Entered(next))] + o.steps + [Step(o.ring, r3, Exited(next))])
  {
  }

  class Event {
    // every link there is, by whose it is
    var links: map<Member, Link>
    var next: nat
    var calls: seq<(nat, nat)>
    // the ring that holds, or held, the event's own link
    ghost var ring: seq<Member>
    ghost var u: set<Link>

    ghost predicate Wired()
      reads this, u
    {
      WiredAs(u, links, ring)
    }

    ghost predicate Valid()
      reads this, u
    {
      Wired() && InOrder(links, ring, next)
    }

    constructor ()
      ensures Valid() && ring == [Head] && calls == [] && fresh(u)
    {
      var head := new Ring(Head);
      links := map[Head := head];
      next := 0;
      calls := [];
      ring := [Head];
      u := {head};
      new;
      assert forall k, start :: MarkOk(ring, next, k, start);
    }

    // link.cut()
    method CutLink(m: Member)
      requires Wired() && m in links
      modifies this`ring, u
      ensures Wired() && ring == Remove(old(ring), m) && links[m].n == links[m]
    {
      var x := links[m];
      ghost var next' := Exchange(Next(u), x.p, x);
      assert FormRing(next', links, Remove(ring, m)) by {
        LinkedIsLinked(u);
        CutFromRing(Next(u), links, ring, m, x.p);
      }
      x.Cut(x, u);
      ring := Remove(ring, m);
    }

    // a.splice(m), m being on its own
    method SpliceAfter(a: Member, m: Member)
      requires Wired() && a in links && m in links && a != m && m !in ring && links[m].n == links[m]
      modifies this`ring, u
      ensures Wired() && ring == if a in old(ring) then InsertAfter(old(ring), a, m) else old(ring)
      ensures Next(u) == Exchange(old(Next(u)), links[a], links[m])
    {
      ghost var ring' := if a in ring then InsertAfter(ring, a, m) else ring;
      assert FormRing(Exchange(Next(u), links[a], links[m].p), links, ring') by {
        LinkedIsLinked(u);
        assert links[m].n.p == links[m];
        SpliceIntoRing(Next(u), links, ring, a, m);
      }
      links[a].Splice(links[m], u);
      ring := ring';
    }

    // a new link for m, on its own
    method NewLink(m: Member)
      requires Wired() && m !in links && m !in ring
      modifies this`links, this`u
      ensures Wired() && links.Keys == old(links).Keys + {m} && links[m].n == links[m] && m !in ring
      ensures forall x :: x in old(links) ==> links[x] == old(links)[x]
      ensures fresh(links[m]) && u == old(u) + {links[m]}
    {
      var x := new Ring(m);
      WiredWith(u, x, links, m, ring);
      links := links[m := x];
      u := u + {x};
    }

    // m's link is cut and destroyed
    method DropLink(m: Member)
      requires Wired() && m in links
      modifies this`links, this`ring, this`u, u
      ensures Wired() && ring == Remove(old(ring), m)
      ensures links == old(links) - {m} && u == old(u) - {old(links)[m]}
    {
      CutLink(m);
      assert m !in ring by { RemoveDistinct(old(ring), m); }
      WiredWithout(u, links[m], links, m, ring);
      u := u - {links[m]};
      links := links - {m};
    }

    // an observer's link, made when it is first heard of
    method Provide(o: nat)
      requires Wired() && (Obs(o) in ring ==> Obs(o) in links)
      modifies this`links, this`u
      ensures Wired() && Obs(o) in links && Provided(old(links), links)
      ensures old(u) <= u && fresh(u - old(u))
    {
      if Obs(o) !in links { NewLink(Obs(o)); }
    }

    // link(b).splice(link(o)) after cutting link(o)
    method Move(o: nat, a: Member)
      requires Wired() && Obs(o) in links && a in links && a != Obs(o)
      modifies this`ring, u
      ensures Wired()
      ensures var r := Remove(old(ring), Obs(o)); ring == if a in r then InsertAfter(r, a, Obs(o)) else r
    {
      RemoveDistinct(ring, Obs(o));
      CutLink(Obs(o));
      SpliceAfter(a, Obs(o));
    }

    // an observer's link is cut, and put after another's
    method MoveBehind(o: nat, b: nat)
      requires Wired() && (forall o :: Obs(o) in ring ==> Obs(o) in links) && o != b
      modifies this`links, this`ring, this`u, u
      ensures Wired() && ring == Apply(AttachAfter(o, b), old(ring)) && fresh(u - old(u))
      ensures Provided(old(links), links)
    {
      Provide(o);
      Provide(b);
      Move(o, Obs(b));
    }

    // an observer's link is cut, and put after the event's own
    method MoveToHead(o: nat)
      requires Wired() && (forall o :: Obs(o) in ring ==> Obs(o) in links) && Head in links && Head in ring
      modifies this`links, this`ring, this`u, u
      ensures Wired() && ring == Apply(Attach(o), old(ring)) && fresh(u - old(u))
      ensures Provided(old(links), links)
    {
      RemoveMember(ring, Obs(o), Head);
      Provide(o);
      Move(o, Head);
    }

    method Relink(a: Act)
      requires Wired() && !a.Notify? && (forall o :: Obs(o) in ring ==> Obs(o) in links)
      requires Head in links <==> Head in ring
      modifies this`links, this`ring, this`u, u
      ensures Wired() && ring == Apply(a, old(ring)) && fresh(u - old(u))
      ensures if a.Delete? then links == old(links) - {Head} else Provided(old(links), links)
    {
      match a
      case Attach(o) =>
        if Head in links { MoveToHead(o); }
      case AttachAfter(o, b) =>
        if o != b { MoveBehind(o, b); }
      case Detach(o) =>
        if Obs(o) in links { CutLink(Obs(o)); }
      case Delete =>
        if Head in links { DropLink(Head); }
    }

    // what observers do to the ring
    method ApplyAct(a: Act)
      requires Valid() && !a.Notify?
      modifies this`links, this`ring, this`u, u
      ensures Valid() && ring == Apply(a, old(ring)) && fresh(u - old(u))
      ensures forall k, start :: Mark(k, start) in old(links) ==>
                                   Mark(k, start) in links && links[Mark(k, start)] == old(links)[Mark(k, start)]
    {
      ApplyInv(a, ring, next);
      HeadStays(a, ring);
      Relink(a);
    }

    // Ring<SafeTriggerIf*> start(&nl), end(&nl);
    method NewMarkers(k: nat)
      requires Wired() && Mark(k, true) !in ring && Mark(k, false) !in ring
      requires Mark(k, true) !in links && Mark(k, false) !in links
      modifies this`links, this`u
      ensures Wired() && fresh(u - old(u)) && old(u) <= u
      ensures links.Keys == old(links).Keys + {Mark(k, true), Mark(k, false)}
      ensures forall m :: m in old(links) ==> links[m] == old(links)[m]
      ensures links[Mark(k, true)].n == links[Mark(k, true)] && links[Mark(k, false)].n == links[Mark(k, false)]
    {
      NewLink(Mark(k, true));
      NewLink(Mark(k, false));
    }

    // m_observers.splice(start); m_observers.prev().splice(end);
    method SpliceMarkers(k: nat)
      requires Wired() && ring != [] && ring[0] == Head
      requires Mark(k, true) !in ring && Mark(k, false) !in ring && Mark(k, true) in links && Mark(k, false) in links
      requires links[Mark(k, true)].n == links[Mark(k, true)] && links[Mark(k, false)].n == links[Mark(k, false)]
      modifies this`ring, u
      ensures Wired() && ring == Enter(old(ring), k)
    {
      var end := links[Mark(k, false)];
      MarkersGoIn(ring, k);
      SpliceAfter(Head, Mark(k, true));
      assert Next(u)[end] == end;
      LastBefore(u, links, ring, Head);
      SpliceAfter(links[Head].p.value, Mark(k, false));
    }

    method PutIn(k: nat)
      requires Wired() && ring != [] && ring[0] == Head
      requires Mark(k, true) !in ring && Mark(k, false) !in ring
      requires Mark(k, true) !in links && Mark(k, false) !in links
      modifies this`links, this`ring, this`u, u
      ensures Wired() && ring == Enter(old(ring), k) && fresh(u - old(u))
      ensures links.Keys == old(links).Keys + {Mark(k, true), Mark(k, false)}
      ensures forall m :: m in old(links) ==> links[m] == old(links)[m]
    {
      NewMarkers(k);
      SpliceMarkers(k);
    }

    // both markers are made and put in
    method PutMarkers()
      requires Valid() && Head in ring
      modifies this`links, this`ring, this`next, this`u, u
      ensures Valid() && next == old(next) + 1 && ring == Enter(old(ring), old(next)) && fresh(u - old(u))
      ensures MarkersAdded(old(links), links, old(next))
    {
      var k := next;
      ghost var links0, r := links, ring;
      NoMarkYet(ring, k);
      next := next + 1;
      assert Wired();
      PutIn(k);
      MarksEnter(links0, links, r, k, ring, next);
    }

    method DropMarkers(k: nat)
      requires Wired() && Mark(k, true) in links && Mark(k, false) in links
      modifies this`links, this`ring, this`u, u
      ensures Wired() && ring == Exit(old(ring), k) && u <= old(u)
      ensures links == old(links) - {Mark(k, false)} - {Mark(k, true)}
    {
      DropLink(Mark(k, false));
      DropLink(Mark(k, true));
    }

    // end's destructor, then start's
    method TakeMarkers(k: nat)
      requires Valid() && Mark(k, true) in links && Mark(k, false) in links
      modifies this`links, this`ring, this`u, u
      ensures Valid() && ring == Exit(old(ring), k) && u <= old(u)
      ensures links == old(links) - {Mark(k, false)} - {Mark(k, true)}
    {
      ExitInv(ring, next, k);
      ExitHead(ring, k);
      DropMarkers(k);
    }

    method SwapLink(m: Member)
      requires Wired() && m in ring && Index(ring, m) + 1 < |ring|
      modifies this`ring, u
      ensures Wired() && ring == Swap(old(ring), Index(old(ring), m))
      ensures m in links && links[m].p.value == old(ring)[Index(old(ring), m) + 1]
    {
      ghost var i := Index(ring, m);
      SwapOnly(m);
      PreviousInRing(u, links, ring, i);
    }

    method SwapOnly(m: Member)
      requires Wired() && m in ring && Index(ring, m) + 1 < |ring|
      modifies this`ring, u
      ensures Wired() && ring == Swap(old(ring), Index(old(ring), m))
    {
      ghost var ring' := Swap(ring, Index(ring, m));
      SwapInEvent(u, links, ring, m);
      links[m].SwapWithNext(u);
      StillWired(u, links, ring');
      ring := ring';
    }

    // start.swapWithNext()
    method MoveOn(k: nat)
      requires Valid() && Mark(k, true) in ring && Index(ring, Mark(k, true)) + 1 < |ring|
      requires ring[Index(ring, Mark(k, true)) + 1] != Mark(k, false)
      modifies this`ring, u
      ensures Valid() && ring == Swap(old(ring), Index(old(ring), Mark(k, true)))
      ensures Mark(k, true) in links && links[Mark(k, true)].p.value == old(ring)[Index(old(ring), Mark(k, true)) + 1]
    {
      ghost var i := Index(ring, Mark(k, true));
      SwapInv(ring, next, i);
      SwapMember(ring, i, Head);
      SwapLink(Mark(k, true));
    }

    // start.swapWithNext(); start.prev().m_value->trigger();
    method Turn(k: nat, replies: seq<Reply>, j: nat) returns (j': nat)
      requires Valid() && Mark(k, true) in links && Mark(k, false) in links && j <= |replies|
      requires links[Mark(k, true)].n != links[Mark(k, false)]
      modifies this, u
      ensures Valid() && fresh(u - old(u)) && MarksKept(old(links), links) && j' <= |replies|
      ensures LoopRemains(old(calls), k, replies[j..], old(ring), old(next), calls, replies[j'..], ring, next)
      ensures j < j' || (j' == j && LeftToPass(k, ring) < LeftToPass(k, old(ring)))
      decreases replies, 1
    {
      j' := j;
      NextOfStart(u, links, ring, next, k);
      ghost var r, next0, calls0 := ring, next, calls;
      ghost var i := Index(ring, Mark(k, true));
      MoveOn(k);
      var m := links[Mark(k, true)].p.value;
      if m.Obs? {
        calls := calls + [(k, m.o)];
        if j < |replies| {
          RunActs(replies[j].acts);
          j' := j + 1;
          TurnRuns(calls0, k, replies[j..], r, next0, calls, ring, next, m.o);
        } else {
          TurnCalls(calls0, k, replies[j..], r, next0, m.o);
        }
      } else {
        TurnPasses(calls0, k, replies[j..], r, next0);
      }
    }

    // while (start.next() != end) ...
    method Turns(k: nat, replies: seq<Reply>)
      requires Valid() && Mark(k, true) in links && Mark(k, false) in links
      modifies this, u
      ensures Valid() && fresh(u - old(u)) && MarksKept(old(links), links)
      ensures LoopDoes(old(calls), k, replies, old(ring), old(next), ring, next, calls)
      decreases replies, 2
    {
      var j := 0;
      assert replies[0..] == replies;
      while links[Mark(k, true)].n != links[Mark(k, false)]
        invariant Valid() && fresh(u - old(u)) && MarksKept(old(links), links) && j <= |replies|
        invariant Mark(k, true) in links && Mark(k, false) in links
        invariant LoopRemains(old(calls), k, replies, old(ring), old(next), calls, replies[j..], ring, next)
        decreases |replies| - j, LeftToPass(k, ring)
      {
        ghost var j0, calls0, ring0, next0 := j, calls, ring, next;
        j := Turn(k, replies, j);
        RemainsThen(old(calls), k, replies, old(ring), old(next), calls0, replies[j0..], ring0, next0,
                    calls, replies[j..], ring, next);
      }
      NextOfStart(u, links, ring, next, k);
      LoopEnds(old(calls), k, replies, old(ring), old(next), calls, replies[j..], ring, next);
    }

    // the loop, and the markers' destructors
    method TurnsAndOut(k: nat, replies: seq<Reply>) returns (ghost r2: seq<Member>, ghost links2: map<Member, Link>)
      requires Valid() && Mark(k, true) in links && Mark(k, false) in links
      modifies this, u
      ensures Valid() && fresh(u - old(u)) && ring == Exit(r2, k)
      ensures MarksKept(old(links), links2) && links == links2 - {Mark(k, false)} - {Mark(k, true)}
      ensures LoopDoes(old(calls), k, replies, old(ring), old(next), r2, next, calls)
      decreases replies, 3
    {
      Turns(k, replies);
      r2, links2 := ring, links;
      TakeMarkers(k);
    }

    // an observer's acts, one after the other
    method RunActs(acts: seq<Act>)
      requires Valid()
      modifies this, u
      ensures Valid() && fresh(u - old(u)) && MarksKept(old(links), links)
      ensures RunDoes(old(calls), acts, old(ring), old(next), ring, next, calls)
      decreases acts, 0
    {
      if acts != [] {
        ghost var calls0, ring0, next0 := calls, ring, next;
        DoAct(acts[0]);
        ghost var calls1, ring1, next1 := calls, ring, next;
        RunActs(acts[1..]);
        RunThen(calls0, acts, ring0, next0, calls1, ring1, next1, ring, next, calls);
      }
    }

    method DoAct(a: Act)
      requires Valid()
      modifies this, u
      ensures Valid() && fresh(u - old(u)) && MarksKept(old(links), links)
      ensures ActDoes(old(calls), a, old(ring), old(next), ring, next, calls)
      decreases a, 0
    {
      if a.Notify? {
        Invoke(a.replies);
      } else {
        ApplyAct(a);
      }
    }

    // operator()()
    method Invoke(replies: seq<Reply>)
      requires Valid()
      modifies this, u
      ensures Valid() && fresh(u - old(u)) && MarksKept(old(links), links)
      ensures ActDoes(old(calls), Notify(replies), old(ring), old(next), ring, next, calls)
      decreases replies, 5
    {
      if Head in links { InvokeHere(replies); }
    }

    method InvokeHere(replies: seq<Reply>)
      requires Valid() && Head in ring
      modifies this, u
      ensures Valid() && fresh(u - old(u)) && MarksKept(old(links), links)
      ensures ActDoes(old(calls), Notify(replies), old(ring), old(next), ring, next, calls)
      decreases replies, 4
    {
      var k := next;
      ghost var calls0, r, links0 := calls, ring, links;
      PutMarkers();
      ghost var r1, next1, links1 := ring, next, links;
      ghost var r2, links2 := TurnsAndOut(k, replies);
      assert MarksKept(links0, links) by { KeptAround(links0, r, k, links1, links2, links); }
      InvokeDoes(calls0, replies, r, k, r1, next1, r2, next, calls, ring);
    }
  }
}
