/** The contract of Event::operator(), over whole invocations and whatever the
    observers do meanwhile, nested invocations included. */
module Invocation {
  import opened Notification
  import opened NotificationProofs

  // the steps lead from one ring to the other
  ghost predicate Chain(r: seq<Member>, steps: seq<Step>, r': seq<Member>)
    decreases steps
  {
    if steps == [] then r == r' else steps[0].before == r && Chain(steps[0].after, steps[1..], r')
  }

  lemma {:induction false} ChainAppend(r: seq<Member>, xs: seq<Step>, m: seq<Member>, ys: seq<Step>, r': seq<Member>)
    requires Chain(r, xs, m) && Chain(m, ys, r')
    ensures Chain(r, xs + ys, r')
    decreases xs
  {
    if xs == [] {
      assert xs + ys == ys;
    } else {
      assert (xs + ys)[1..] == xs[1..] + ys;
      ChainAppend(xs[0].after, xs[1..], m, ys, r');
    }
  }

  ghost predicate Lawful(s: Step) {
    forall k, o :: Law(s, k, o)
  }

  // steps of invocation k itself, or of ones begun later
  predicate Of(s: Step, k: nat, next: nat) {
    match s.what
    case Acted(_) => true
    case Called(j, _) => j == k || j >= next
    case Passed(j) => j == k || j >= next
    case Entered(j) => j >= next
    case Exited(j) => j >= next
  }

  // what holds of running acts from a ring
  ghost predicate Runs(r: seq<Member>, next: nat, k: nat, o: Out) {
    Inv(o.ring, o.next) && next <= o.next && SameMarks(r, o.ring) && Chain(r, o.steps, o.ring) &&
    forall i :: 0 <= i < |o.steps| ==> Lawful(o.steps[i]) && Of(o.steps[i], k, next)
  }

  lemma RunsThen(r: seq<Member>, next: nat, k: nat, o1: Out, o2: Out)
    requires Runs(r, next, k, o1) && Runs(o1.ring, o1.next, k, o2)
    ensures Runs(r, next, k, Out(o2.ring, o2.next, o1.steps + o2.steps))
  {
    ChainAppend(r, o1.steps, o1.ring, o2.steps, o2.ring);
  }

  lemma RunsOne(r: seq<Member>, next: nat, k: nat, s: Step)
    requires s.before == r && Inv(s.after, next) && SameMarks(r, s.after) && Lawful(s) && Of(s, k, next)
    ensures Runs(r, next, k, Out(s.after, next, [s]))
  {
    assert Chain(s.after, [s][1..], s.after);
  }

  lemma {:induction false} RunRuns(acts: seq<Act>, r: seq<Member>, next: nat, k: nat)
    requires Inv(r, next)
    ensures Runs(r, next, k, Run(acts, r, next))
    decreases acts, 0, 0
  {
    if acts != [] {
      DoRuns(acts[0], r, next, k);
      var o1 := Do(acts[0], r, next);
      RunRuns(acts[1..], o1.ring, o1.next, k);
      RunsThen(r, next, k, o1, Run(acts[1..], o1.ring, o1.next));
    }
  }

  lemma {:induction false} DoRuns(a: Act, r: seq<Member>, next: nat, k: nat)
    requires Inv(r, next)
    ensures Runs(r, next, k, Do(a, r, next))
    decreases a, 2, 0
  {
    if !a.Notify? {
      ApplyInv(a, r, next);
      var s := Step(r, Apply(a, r), Acted(a));
      forall j, o ensures Law(s, j, o) { ApplyLaw(a, r, next, j, o); }
      RunsOne(r, next, k, s);
    } else if Head in r {
      var r1 := Enter(r, next);
      EnterInv(r, next);
      LoopRuns(next, a.replies, r1, next + 1);
      NotifyRuns(r, next, k, Loop(next, a.replies, r1, next + 1));
    }
  }

  lemma EnterLawful(r: seq<Member>, next: nat)
    requires Inv(r, next) && Head in r
    ensures Lawful(Step(r, Enter(r, next), Entered(next)))
  {
    var s := Step(r, Enter(r, next), Entered(next));
    forall j, x ensures Law(s, j, x) {
      if j != next { EnterLaw(r, next, j, x); }
    }
  }

  lemma ExitLawful(r: seq<Member>, next: nat, k: nat)
    requires Inv(r, next)
    ensures Lawful(Step(r, Exit(r, k), Exited(k)))
  {
    var s := Step(r, Exit(r, k), Exited(k));
    forall j, x ensures Law(s, j, x) { ExitLaw(r, next, k, j, x); }
  }

  lemma SameMarksAfterExit(r: seq<Member>, next: nat, r1: seq<Member>, o: seq<Member>, after: seq<Member>)
    requires Inv(r, next) && SameMarks(r1, o)
    requires forall j, start :: j != next ==> (Mark(j, start) in r <==> Mark(j, start) in r1)
    requires forall j, start :: Mark(j, start) in after <==> j != next && Mark(j, start) in o
    ensures SameMarks(r, after)
  {
    forall j, start ensures Mark(j, start) in r <==> Mark(j, start) in after {
      assert MarkOk(r, next, j, start);
      assert Mark(j, start) in r1 <==> Mark(j, start) in o;
    }
  }

  // the splices before and the destructors after the loop
  lemma NotifyRuns(r: seq<Member>, next: nat, k: nat, o: Out)
    requires Inv(r, next) && Head in r && Runs(Enter(r, next), next + 1, next, o)
    ensures Runs(r, next, k, Out(Exit(o.ring, next), o.next,
      [Step(r, Enter(r, next), Entered(next))] + o.steps + [Step(o.ring, Exit(o.ring, next), Exited(next))]))
  {
    var r1, r2 := Enter(r, next), Exit(o.ring, next);
    var s1, s2 := Step(r, r1, Entered(next)), Step(o.ring, r2, Exited(next));
    EnterInv(r, next);
    ExitInv(o.ring, o.next, next);
    SameMarksAfterExit(r, next, r1, o.ring, r2);
    EnterLawful(r, next);
    ExitLawful(o.ring, o.next, next);
    assert Chain(r1, [s1][1..], r1) && Chain(r2, [s2][1..], r2);
    ChainAppend(r, [s1], r1, o.steps, o.ring);
    ChainAppend(r, [s1] + o.steps, o.ring, [s2], r2);
    var steps := [s1] + o.steps + [s2];
    forall i | 0 <= i < |steps| ensures Lawful(steps[i]) && Of(steps[i], k, next) {
      if 0 < i <= |o.steps| {
        assert steps[i] == o.steps[i - 1];
        assert Lawful(o.steps[i - 1]) && Of(o.steps[i - 1], next, next + 1);
      }
    }
  }

  // start and end of invocation k stand side by side
  predicate Done(r: seq<Member>, k: nat) {
    Mark(k, true) in r && Mark(k, false) in r && Index(r, Mark(k, false)) == Index(r, Mark(k, true)) + 1
  }

  // start moves past its neighbour
  lemma SwapRuns(r: seq<Member>, next: nat, k: nat, i: nat)
    requires Inv(r, next) && i + 1 < |r| && r[i] == Mark(k, true) && !(r[i + 1].Mark? && r[i + 1].k == k)
    ensures Inv(Swap(r, i), next)
    ensures Runs(r, next, k, Out(Swap(r, i), next,
              [Step(r, Swap(r, i), if r[i + 1].Obs? then Called(k, r[i + 1].o) else Passed(k))]))
  {
    SwapInv(r, next, i);
    var s := Step(r, Swap(r, i), if r[i + 1].Obs? then Called(k, r[i + 1].o) else Passed(k));
    forall j, o ensures Law(s, j, o) { SwapLaw(r, next, i, k, j, o); }
    RunsOne(r, next, k, s);
  }

  lemma {:induction false} LoopRuns(k: nat, replies: seq<Reply>, r: seq<Member>, next: nat)
    requires Inv(r, next) && Mark(k, true) in r
    ensures Runs(r, next, k, Loop(k, replies, r, next)) && Done(Loop(k, replies, r, next).ring, k)
    decreases replies, 1, |r| - Index(r, Mark(k, true))
  {
    assert MarkOk(r, next, k, true);
    var i := Index(r, Mark(k, true));
    if r[i + 1].Mark? && r[i + 1].k == k {
      At(r, i + 1);
    } else {
      var r1 := Swap(r, i);
      SwapMovesOn(r, Mark(k, true));
      var s := Step(r, r1, if r[i + 1].Obs? then Called(k, r[i + 1].o) else Passed(k));
      SwapRuns(r, next, k, i);
      var o0 := Out(r1, next, [s]);
      if r[i + 1].Obs? {
        var o1 := if replies == [] then Out(r1, next, []) else Run(replies[0].acts, r1, next);
        if replies != [] { RunRuns(replies[0].acts, r1, next, k); }
        RunsThen(r, next, k, o0, o1);
        var o01 := Out(o1.ring, o1.next, [s] + o1.steps);
        var rest := if replies == [] then [] else replies[1..];
        LoopRuns(k, rest, o1.ring, o1.next);
        RunsThen(r, next, k, o01, Loop(k, rest, o1.ring, o1.next));
      } else {
        LoopRuns(k, replies, r1, next);
        RunsThen(r, next, k, o0, Loop(k, replies, r1, next));
      }
    }
  }

  // ---- counting

  function Calls(steps: seq<Step>, k: nat, o: nat): nat {
    if steps == [] then 0 else (if steps[0].what == Called(k, o) then 1 else 0) + Calls(steps[1..], k, o)
  }

  // o came to be pending in invocation k by an act of some observer
  function Joins(steps: seq<Step>, k: nat, o: nat): nat {
    if steps == [] then 0 else
      (if steps[0].what.Acted? && !Pending(steps[0].before, k, o) && Pending(steps[0].after, k, o) then 1 else 0) +
      Joins(steps[1..], k, o)
  }

  // o was detached, or attached again elsewhere, before invocation k came to it
  function Leaves(steps: seq<Step>, k: nat, o: nat): nat {
    if steps == [] then 0 else
      (if steps[0].what.Acted? && Pending(steps[0].before, k, o) && !Pending(steps[0].after, k, o) then 1 else 0) +
      Leaves(steps[1..], k, o)
  }

  function One(b: bool): nat {
    if b then 1 else 0
  }

  lemma {:induction false} Accounts(r: seq<Member>, steps: seq<Step>, r': seq<Member>, k: nat, next: nat, o: nat)
    requires k < next && Chain(r, steps, r')
    requires forall i :: 0 <= i < |steps| ==> Lawful(steps[i]) && Of(steps[i], k, next)
    ensures Calls(steps, k, o) + Leaves(steps, k, o) + One(Pending(r', k, o)) ==
              One(Pending(r, k, o)) + Joins(steps, k, o)
    decreases steps
  {
    if steps != [] {
      assert Lawful(steps[0]) && Of(steps[0], k, next);
      assert Law(steps[0], k, o);
      Accounts(steps[0].after, steps[1..], r', k, next, o);
    }
  }

  // between the two splices of an invocation every observer in the ring is pending
  lemma AllArePending(r: seq<Member>, k: nat, o: nat)
    requires Inv(r, k) && Head in r
    ensures Pending(Enter(r, k), k, o) <==> Obs(o) in r
  {
    assert MarkOk(r, k, k, true) && MarkOk(r, k, k, false);
    var r1 := InsertAfter(r, Head, Mark(k, true));
    InsertDistinct(r, Head, Mark(k, true));
    InsertMember(r, Head, Mark(k, true), Mark(k, false));
    InsertMember(r, Head, Mark(k, true), Obs(o));
    HeadIsFirst(r, Head);
    if Obs(o) in r {
      assert Index(r, Obs(o)) != 0;
      InsertOrder(r, Head, Mark(k, true), Obs(o), Obs(o));
    }
    AppendMember(r1, Mark(k, false), Obs(o));
    AppendMember(r1, Mark(k, false), Mark(k, true));
  }

  /** Every invocation, whatever its observers do: the number of times it calls o
      is one if o was attached when it started, plus the times o was put behind an
      observer still to be called, less the times o was detached before its turn. */
  lemma {:induction false} CallsAreAccountedFor(replies: seq<Reply>, r: seq<Member>, k: nat, o: nat)
    requires Inv(r, k) && Head in r
    ensures var steps := Do(Notify(replies), r, k).steps;
      Calls(steps, k, o) + Leaves(steps, k, o) == One(Obs(o) in r) + Joins(steps, k, o)
  {
    var r1 := Enter(r, k);
    EnterInv(r, k);
    LoopRuns(k, replies, r1, k + 1);
    var out := Loop(k, replies, r1, k + 1);
    Accounts(r1, out.steps, out.ring, k, k + 1, o);
    AllArePending(r, k, o);
    CountInside(Step(r, r1, Entered(k)), out.steps, Step(out.ring, Exit(out.ring, k), Exited(k)), k, o);
  }

  lemma {:induction false} CountInside(s1: Step, steps: seq<Step>, s2: Step, k: nat, o: nat)
    requires s1.what.Entered? && s2.what.Exited?
    ensures Calls([s1] + steps + [s2], k, o) == Calls(steps, k, o)
    ensures Joins([s1] + steps + [s2], k, o) == Joins(steps, k, o)
    ensures Leaves([s1] + steps + [s2], k, o) == Leaves(steps, k, o)
  {
    assert ([s1] + steps + [s2])[1..] == steps + [s2];
    CountLast(steps, s2, k, o);
  }

  lemma {:induction false} CountLast(steps: seq<Step>, s: Step, k: nat, o: nat)
    requires s.what.Exited?
    ensures Calls(steps + [s], k, o) == Calls(steps, k, o)
    ensures Joins(steps + [s], k, o) == Joins(steps, k, o)
    ensures Leaves(steps + [s], k, o) == Leaves(steps, k, o)
  {
    if steps == [] {
      assert [s][1..] == [];
      assert steps + [s] == [s];
    } else {
      assert (steps + [s])[1..] == steps[1..] + [s];
      CountLast(steps[1..], s, k, o);
    }
  }

  // no observer attaches itself to, or takes over from, another observer's place in the ring
  predicate OnlyThroughObservers(steps: seq<Step>) {
    forall i :: 0 <= i < |steps| ==> !(steps[i].what.Acted? && steps[i].what.a.AttachAfter?)
  }

  lemma {:induction false} NoJoins(steps: seq<Step>, k: nat, o: nat)
    requires OnlyThroughObservers(steps)
    requires forall i :: 0 <= i < |steps| ==> Lawful(steps[i])
    ensures Joins(steps, k, o) == 0
  {
    if steps != [] {
      assert Lawful(steps[0]);
      assert Law(steps[0], k, o);
      NoJoins(steps[1..], k, o);
    }
  }

  /** The promised contract, where observers are attached only through observers():
      an observer attached when an invocation starts and not detached before its
      turn is called by it exactly once; every other observer is not called. */
  lemma {:induction false} CalledExactlyOnce(replies: seq<Reply>, r: seq<Member>, k: nat, o: nat)
    requires Inv(r, k) && Head in r
    requires OnlyThroughObservers(Do(Notify(replies), r, k).steps)
    ensures var steps := Do(Notify(replies), r, k).steps;
      Calls(steps, k, o) == (if Obs(o) in r && Leaves(steps, k, o) == 0 then 1 else 0)
  {
    CallsAreAccountedFor(replies, r, k, o);
    DoRuns(Notify(replies), r, k, k);
    NoJoins(Do(Notify(replies), r, k).steps, k, o);
  }

  // the observers that invocation k calls, in the order it calls them
  function CalledBy(steps: seq<Step>, k: nat): seq<Member> {
    if steps == [] then []
    else (match steps[0].what
          case Called(j, o) => if j == k then [Obs(o)] else []
          case _ => []) + CalledBy(steps[1..], k)
  }

  lemma {:induction false} CalledByCounts(steps: seq<Step>, k: nat, o: nat)
    ensures multiset(CalledBy(steps, k))[Obs(o)] == Calls(steps, k, o)
  {
    if steps != [] { CalledByCounts(steps[1..], k, o); }
  }

  lemma {:induction false} CalledAreObservers(steps: seq<Step>, k: nat, i: nat)
    requires i < |CalledBy(steps, k)|
    ensures CalledBy(steps, k)[i].Obs?
  {
    var first := CalledBy(steps, k)[..|CalledBy(steps, k)| - |CalledBy(steps[1..], k)|];
    if i >= |first| {
      assert CalledBy(steps, k)[i] == CalledBy(steps[1..], k)[i - |first|];
      CalledAreObservers(steps[1..], k, i - |first|);
    }
  }

  lemma {:induction false} Pigeonhole(s: seq<Member>, r: seq<Member>)
    requires Distinct(s) && Distinct(r) && forall x :: x in s ==> x in r
    ensures |s| <= |r|
  {
    if s != [] {
      var r' := Remove(r, s[0]);
      RemoveDistinct(r, s[0]);
      forall x | x in s[1..] ensures x in r' { RemoveMember(r, s[0], x); }
      Pigeonhole(s[1..], r');
    }
  }

  lemma DistinctByCount(s: seq<Member>)
    requires forall x :: x in s ==> multiset(s)[x] <= 1
    ensures Distinct(s)
  {
    forall i, j | 0 <= i < j < |s| ensures s[i] != s[j] {
      if s[i] == s[j] { CountedTwice(s, i, j); }
    }
  }

  lemma CountedTwice(s: seq<Member>, i: nat, j: nat)
    requires i < j < |s| && s[i] == s[j]
    ensures multiset(s)[s[i]] >= 2
  {
    assert s == s[..i] + [s[i]] + s[i + 1..j] + [s[j]] + s[j + 1..];
  }

  /** However much its observers do, such an invocation makes no more calls than
      the ring had links: its loop ends when the calls do. */
  lemma {:induction false} LoopIsBounded(replies: seq<Reply>, r: seq<Member>, k: nat)
    requires Inv(r, k) && Head in r
    requires OnlyThroughObservers(Do(Notify(replies), r, k).steps)
    ensures |CalledBy(Do(Notify(replies), r, k).steps, k)| <= |r|
  {
    var steps := Do(Notify(replies), r, k).steps;
    var s := CalledBy(steps, k);
    forall x | x in s ensures multiset(s)[x] <= 1 && x in r {
      var i :| 0 <= i < |s| && s[i] == x;
      CalledAreObservers(steps, k, i);
      CalledByCounts(steps, k, x.o);
      CalledExactlyOnce(replies, r, k, x.o);
    }
    DistinctByCount(s);
    Pigeonhole(s, r);
  }

  // ---- where the promise stops

  // the replies of two observers that keep moving behind each other
  function PingPong(n: nat, a: nat, b: nat): seq<Reply> {
    if n == 0 then [] else [Reply([AttachAfter(a, b)])] + PingPong(n - 1, b, a)
  }

  // one turn of the loop, in which an observer is called and replies
  lemma {:induction false} Turn(k: nat, replies: seq<Reply>, i: nat, r: seq<Member>, r2: seq<Member>, a: nat,
                                next: nat, st: seq<Step>)
    requires i + 1 < |r| && Index(r, Mark(k, true)) == i && r[i + 1] == Obs(a)
    requires replies != [] && Run(replies[0].acts, Swap(r, i), next) == Out(r2, next, st)
    ensures Loop(k, replies, r, next).steps ==
              [Step(r, Swap(r, i), Called(k, a))] + st + Loop(k, replies[1..], r2, next).steps
  {
  }

  lemma {:induction false} RunOne(a: Act, r: seq<Member>, next: nat)
    requires !a.Notify?
    ensures Run([a], r, next) == Out(Apply(a, r), next, [Step(r, Apply(a, r), Acted(a))])
  {
    assert [a][1..] == [];
    assert Run([], Apply(a, r), next) == Out(Apply(a, r), next, []);
  }

  function Turning(k: nat, a: nat, b: nat): seq<Member> {
    [Head, Mark(k, true), Obs(a), Obs(b), Mark(k, false)]
  }

  // a's call, in which a moves behind b
  lemma PingTurn(k: nat, n: nat, a: nat, b: nat, next: nat)
    requires a != b && n > 0
    ensures var r1 := [Head, Obs(a), Mark(k, true), Obs(b), Mark(k, false)];
      Loop(k, PingPong(n, a, b), Turning(k, a, b), next).steps ==
        [Step(Turning(k, a, b), r1, Called(k, a))] + [Step(r1, Turning(k, b, a), Acted(AttachAfter(a, b)))] +
        Loop(k, PingPong(n - 1, b, a), Turning(k, b, a), next).steps
  {
    var r := Turning(k, a, b);
    var r1 := [Head, Obs(a), Mark(k, true), Obs(b), Mark(k, false)];
    IndexIs(r, 1);
    assert Swap(r, 1) == r1;
    BehindTheOther(k, a, b);
    RunOne(AttachAfter(a, b), r1, next);
    var replies := PingPong(n, a, b);
    assert replies[0].acts == [AttachAfter(a, b)] && replies[1..] == PingPong(n - 1, b, a);
    Turn(k, replies, 1, r, Turning(k, b, a), a, next, [Step(r1, Turning(k, b, a), Acted(AttachAfter(a, b)))]);
  }

  lemma BehindTheOther(k: nat, a: nat, b: nat)
    requires a != b
    ensures Apply(AttachAfter(a, b), [Head, Obs(a), Mark(k, true), Obs(b), Mark(k, false)]) ==
              Turning(k, b, a)
  {
    var r1 := [Head, Obs(a), Mark(k, true), Obs(b), Mark(k, false)];
    var m := [Head, Mark(k, true), Obs(b), Mark(k, false)];
    IndexIs(r1, 1);
    assert Remove(r1, Obs(a)) == m;
    IndexIs(m, 2);
    assert m[2] in m;
  }

  function PingCalls(k: nat, n: nat, a: nat, b: nat, next: nat): nat {
    |CalledBy(Loop(k, PingPong(n, a, b), Turning(k, a, b), next).steps, k)|
  }

  lemma {:induction false} OneMoreCall(k: nat, n: nat, a: nat, b: nat, next: nat)
    requires a != b && n > 0
    ensures PingCalls(k, n, a, b, next) == 1 + PingCalls(k, n - 1, b, a, next)
  {
    var r1 := [Head, Obs(a), Mark(k, true), Obs(b), Mark(k, false)];
    PingTurn(k, n, a, b, next);
    CalledByTwo(Step(Turning(k, a, b), r1, Called(k, a)), Step(r1, Turning(k, b, a), Acted(AttachAfter(a, b))),
                Loop(k, PingPong(n - 1, b, a), Turning(k, b, a), next).steps, k, a);
  }

  predicate CallsAtLeast(k: nat, n: nat, a: nat, b: nat, next: nat) {
    PingCalls(k, n, a, b, next) >= n
  }

  lemma OneCallMore(k: nat, n: nat, a: nat, b: nat, next: nat)
    requires a != b && n > 0 && CallsAtLeast(k, n - 1, b, a, next)
    ensures CallsAtLeast(k, n, a, b, next)
  {
    OneMoreCall(k, n, a, b, next);
  }

  lemma {:induction false} PingPongLoops(k: nat, n: nat, a: nat, b: nat, next: nat)
    requires a != b
    ensures CallsAtLeast(k, n, a, b, next)
    decreases n
  {
    if n > 0 {
      PingPongLoops(k, n - 1, b, a, next);
      OneCallMore(k, n, a, b, next);
    }
  }

  lemma {:induction false} CalledByTwo(s1: Step, s2: Step, rest: seq<Step>, k: nat, a: nat)
    requires s1.what == Called(k, a) && s2.what.Acted?
    ensures CalledBy([s1] + [s2] + rest, k) == [Obs(a)] + CalledBy(rest, k)
  {
    var steps := [s1] + [s2] + rest;
    assert steps[1..] == [s2] + rest && ([s2] + rest)[1..] == rest;
    assert CalledBy([s2] + rest, k) == [] + CalledBy(rest, k);
  }

  // how many calls invocation k makes
  function CallsMade(replies: seq<Reply>, r: seq<Member>, k: nat): nat
    requires Head in r
  {
    |CalledBy(Loop(k, replies, Enter(r, k), k + 1).steps, k)|
  }

  /** An observer that attaches itself behind another (Observer.hh) may be called
      again, as often as it likes: for every n there are replies under which two
      observers are called n times by one invocation. */
  lemma CopyingObserversLoop(n: nat, k: nat)
    ensures Inv([Head, Obs(0), Obs(1)], k)
    ensures exists replies :: CallsMade(replies, [Head, Obs(0), Obs(1)], k) >= n
  {
    TwoObservers(k);
    PingPongLoops(k, n, 0, 1, k + 1);
    assert CallsMade(PingPong(n, 0, 1), [Head, Obs(0), Obs(1)], k) >= n;
  }

  // an event with two observers
  lemma TwoObservers(k: nat)
    ensures var r := [Head, Obs(0), Obs(1)]; Inv(r, k) && Enter(r, k) == Turning(k, 0, 1)
  {
    var r := [Head, Obs(0), Obs(1)];
    assert Index(r, Head) == 0;
    assert forall j, start :: MarkOk(r, k, j, start);
  }

  /** The exact condition: putting o behind b makes invocation k call o (once
      more) just when b itself is still to be called. */
  lemma CopiedObserverIsCalledExactly(r: seq<Member>, next: nat, k: nat, o: nat, b: nat)
    requires Inv(r, next) && o != b
    ensures Pending(Apply(AttachAfter(o, b), r), k, o) <==> Pending(r, k, b)
  {
    RemoveDistinct(r, Obs(o));
    RemoveMember(r, Obs(o), Obs(b));
    if Obs(b) in r { AttachedAfter(r, b, o, k); }
  }

  /** Nested invocations leave an outer one's split alone: no step but an act on o
      itself, or the outer invocation's own call of o, changes whether o is still
      to be called by it. */
  lemma {:induction false} SplitIsKept(a: Act, r: seq<Member>, next: nat, k: nat, o: nat, i: nat)
    requires Inv(r, next) && k < next && i < |Do(a, r, next).steps|
    ensures var s := Do(a, r, next).steps[i];
      Pending(s.before, k, o) == Pending(s.after, k, o) ||
      (s.what.Acted? && (s.what.a == Attach(o) || s.what.a == Detach(o) || (s.what.a.AttachAfter? && s.what.a.o == o)))
  {
    // read the run as one of a later invocation's observers: none of its steps are invocation k's
    DoRuns(a, r, next, next);
    var s := Do(a, r, next).steps[i];
    assert Lawful(s) && Of(s, next, next);
    assert Law(s, k, o);
  }
}
