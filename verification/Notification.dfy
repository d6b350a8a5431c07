/** What an invocation of xju::Event (and of EventP, which only carries a
    parameter along) does to the ring of observers, for every way its observers
    may behave while they are called. */
module Notification {

  // the links of the event's ring, listed from the event's own link on
  datatype Member =
    | Head                          // m_observers
    | Obs(o: nat)                   // an observer's link
    | Mark(k: nat, start: bool)     // the start or end marker of invocation k

  // what an observer may do when it is called; replies[i] is what the i-th observer then called does
  datatype Act =
    | Attach(o: nat)                // event.observers().splice(link), after cutting link from where it was
    | AttachAfter(o: nat, b: nat)   // observe what observer b observes: b.m_r.splice(link) after cutting link
    | Detach(o: nat)                // cut, or destroy the observer, or attach it elsewhere
    | Delete                        // delete the event
    | Notify(replies: seq<Reply>)

  datatype Reply = Reply(acts: seq<Act>)

  datatype What =
    | Acted(a: Act)
    | Entered(k: nat)               // both markers put in
    | Called(k: nat, o: nat)        // start moved past an observer, which is then triggered
    | Passed(k: nat)                // start moved past another invocation's marker
    | Exited(k: nat)                // both markers taken out

  datatype Step = Step(before: seq<Member>, after: seq<Member>, what: What)

  datatype Out = Out(ring: seq<Member>, next: nat, steps: seq<Step>)

  // ---- the ring as a list

  function Index(r: seq<Member>, m: Member): (i: int)
    ensures -1 <= i < |r|
    ensures i >= 0 ==> r[i] == m
    ensures i == -1 <==> m !in r
  {
    if r == [] then -1
    else if r[0] == m then 0
    else
      var i := Index(r[1..], m);
      if i == -1 then -1 else i + 1
  }

  function Remove(r: seq<Member>, m: Member): seq<Member> {
    var i := Index(r, m);
    if i == -1 then r else r[..i] + r[i + 1..]
  }

  function InsertAfter(r: seq<Member>, a: Member, m: Member): seq<Member>
    requires a in r
  {
    var i := Index(r, a);
    r[..i + 1] + [m] + r[i + 1..]
  }

  // EventClient, Observer and the Event's destructor
  function Apply(a: Act, r: seq<Member>): seq<Member>
    requires !a.Notify?
  {
    match a
    case Attach(o) => if Head in r then InsertAfter(Remove(r, Obs(o)), Head, Obs(o)) else r
    case AttachAfter(o, b) =>
      if o == b then r
      else if Obs(b) in Remove(r, Obs(o)) then InsertAfter(Remove(r, Obs(o)), Obs(b), Obs(o))
      else Remove(r, Obs(o))
    case Detach(o) => Remove(r, Obs(o))
    case Delete => Remove(r, Head)
  }

  // m_observers.splice(start); m_observers.prev().splice(end)
  function Enter(r: seq<Member>, k: nat): seq<Member>
    requires Head in r
  {
    InsertAfter(r, Head, Mark(k, true)) + [Mark(k, false)]
  }

  // end's destructor, then start's
  function Exit(r: seq<Member>, k: nat): seq<Member> {
    Remove(Remove(r, Mark(k, false)), Mark(k, true))
  }

  // start.swapWithNext()
  function Swap(r: seq<Member>, i: nat): seq<Member>
    requires i + 1 < |r|
  {
    r[..i] + [r[i + 1], r[i]] + r[i + 2..]
  }

  // ---- invocations

  function Run(acts: seq<Act>, r: seq<Member>, next: nat): Out
    decreases acts, 0, 0
  {
    if acts == [] then Out(r, next, []) else
    var o1 := Do(acts[0], r, next);
    var o2 := Run(acts[1..], o1.ring, o1.next);
    Out(o2.ring, o2.next, o1.steps + o2.steps)
  }

  function Do(a: Act, r: seq<Member>, next: nat): Out
    decreases a, 2, 0
  {
    if !a.Notify? then Out(Apply(a, r), next, [Step(r, Apply(a, r), Acted(a))])
    else if Head !in r then Out(r, next, [])
    else
      var o := Loop(next, a.replies, Enter(r, next), next + 1);
      Out(Exit(o.ring, next), o.next,
          [Step(r, Enter(r, next), Entered(next))] + o.steps + [Step(o.ring, Exit(o.ring, next), Exited(next))])
  }

  // while (start.next() != end) { start.swapWithNext(); start.prev().m_value->trigger(); }
  function Loop(k: nat, replies: seq<Reply>, r: seq<Member>, next: nat): Out
    decreases replies, 1, |r| - Index(r, Mark(k, true))
  {
    var i := Index(r, Mark(k, true));
    // no link is in the ring twice, so the invocation's own marker found here is its end
    if i == -1 || i + 1 >= |r| || (r[i + 1].Mark? && r[i + 1].k == k) then Out(r, next, []) else
    var r1 := Swap(r, i);
    match r[i + 1]
    case Obs(o) =>
      var o1 := if replies == [] then Out(r1, next, []) else Run(replies[0].acts, r1, next);
      SwapMovesOn(r, Mark(k, true));
      var o2 := Loop(k, if replies == [] then [] else replies[1..], o1.ring, o1.next);
      Out(o2.ring, o2.next, [Step(r, r1, Called(k, o))] + o1.steps + o2.steps)
    case _ =>
      SwapMovesOn(r, Mark(k, true));
      var o2 := Loop(k, replies, r1, next);
      Out(o2.ring, o2.next, [Step(r, r1, Passed(k))] + o2.steps)
  }

  lemma {:induction false} SwapMovesOn(r: seq<Member>, m: Member)
    requires m in r && Index(r, m) + 1 < |r| && r[Index(r, m) + 1] != m
    ensures var i := Index(r, m); |Swap(r, i)| == |r| && Index(Swap(r, i), m) == i + 1
  {
    IndexIsFirst(r, m);
    SwapPlaces(r, Index(r, m), m);
  }

  lemma {:induction false} SwapPlaces(r: seq<Member>, i: nat, m: Member)
    requires i + 1 < |r| && r[i] == m && r[i + 1] != m && forall j :: 0 <= j < i ==> r[j] != m
    ensures |Swap(r, i)| == |r| && Index(Swap(r, i), m) == i + 1
  {
    var s := Swap(r, i);
    assert s[i + 1] == m && s[i] == r[i + 1];
    assert forall j :: 0 <= j < i ==> s[j] == r[j];
    IndexIs(s, i + 1);
  }

  lemma {:induction false} IndexIsFirst(r: seq<Member>, m: Member)
    ensures forall j :: 0 <= j < Index(r, m) ==> r[j] != m
  {
    if r != [] && r[0] != m {
      IndexIsFirst(r[1..], m);
      forall j | 0 <= j < Index(r, m) ensures r[j] != m {
        if j > 0 { assert r[j] == r[1..][j - 1]; }
      }
    }
  }

  lemma {:induction false} IndexIs(r: seq<Member>, i: nat)
    requires i < |r| && forall j :: 0 <= j < i ==> r[j] != r[i]
    ensures Index(r, r[i]) == i
  {
    if i > 0 {
      assert r[0] != r[i];
      assert r[1..][i - 1] == r[i];
      forall j | 0 <= j < i - 1 ensures r[1..][j] != r[1..][i - 1] { assert r[1..][j] == r[j + 1]; }
      IndexIs(r[1..], i - 1);
    }
  }
}
