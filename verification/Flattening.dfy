/** operator+ and operator| splice the terms of a sequence or choice they are given
    into one flat list.  What the flat parsers mean. */
module Flattening {
  import opened Peg

  // operator+
  function Plus(nodes: seq<Node>, a: nat, b: nat): Node
    requires a < |nodes| && b < |nodes|
  {
    And(SequenceTerms(nodes, a) + SequenceTerms(nodes, b))
  }

  function SequenceTerms(nodes: seq<Node>, a: nat): seq<nat>
    requires a < |nodes|
  {
    if nodes[a].And? then nodes[a].terms else [a]
  }

  // operator|
  function Either(nodes: seq<Node>, a: nat, b: nat): Node
    requires a < |nodes| && b < |nodes|
  {
    Or(ChoiceTerms(nodes, a) + ChoiceTerms(nodes, b))
  }

  function ChoiceTerms(nodes: seq<Node>, a: nat): seq<nat>
    requires a < |nodes|
  {
    if nodes[a].Or? then nodes[a].terms else [a]
  }

  predicate InGraph(c: Ctx, terms: seq<nat>) {
    forall i :: 0 <= i < |terms| ==> terms[i] < |c.nodes|
  }

  // ---- sequences

  // one result, then another where it ended
  function Then(r: Result, next: nat --> Result): Result
    requires r.Ok? ==> next.requires(r.end)
  {
    if r.Fail? then r else
    var r2 := next(r.end);
    if r2.Fail? then r2 else Ok(r.items + r2.items, r2.end)
  }

  // the terms one after the other, each as a parser of its own
  function InSequence(c: Ctx, terms: seq<nat>, at: nat): (r: Result)
    requires WF(c) && InGraph(c, terms) && at <= |c.input|
    ensures Bounded(c, at, r)
    decreases |terms|
  {
    if terms == [] then Ok([], at)
    else Then(Eval(c, terms[0], at), e requires at <= e <= |c.input| => InSequence(c, terms[1..], e))
  }

  lemma {:induction false} AndIsSequence(c: Ctx, id: nat, start: nat, k: nat, at: nat, items: seq<Item>)
    requires WF(c) && id < |c.nodes| && c.nodes[id].And? && start <= at <= |c.input|
    requires Reached(c, id, start, k, at)
    ensures InGraph(c, c.nodes[id].terms[k..])
    ensures var r := EvalAnd(c, id, start, k, at, items);
      var s := InSequence(c, c.nodes[id].terms[k..], at);
      r == if s.Fail? then s else Ok(items + s.items, s.end)
    decreases |c.nodes[id].terms| - k
  {
    assert NodeOk(c, id);
    var terms := c.nodes[id].terms;
    if k == |terms| {
      assert items + [] == items;
    } else {
      var r := Eval(c, terms[k], at);
      if r.Ok? {
        assert terms[k..][1..] == terms[k + 1..];
        assert terms[..k + 1] == terms[..k] + [terms[k]];
        AndIsSequence(c, id, start, k + 1, r.end, items + r.items);
        var s := InSequence(c, terms[k + 1..], r.end);
        if s.Ok? { assert (items + r.items) + s.items == items + (r.items + s.items); }
      }
    }
  }

  lemma {:induction false} SequenceAppend(c: Ctx, xs: seq<nat>, ys: seq<nat>, at: nat)
    requires WF(c) && InGraph(c, xs) && InGraph(c, ys) && at <= |c.input|
    ensures InGraph(c, xs + ys)
    ensures InSequence(c, xs + ys, at) ==
              Then(InSequence(c, xs, at), e requires at <= e <= |c.input| => InSequence(c, ys, e))
    decreases |xs|
  {
    if xs == [] {
      assert xs + ys == ys;
      var r := InSequence(c, ys, at);
      if r.Ok? { assert [] + r.items == r.items; }
    } else {
      assert (xs + ys)[1..] == xs[1..] + ys;
      var r := Eval(c, xs[0], at);
      if r.Ok? {
        SequenceAppend(c, xs[1..], ys, r.end);
        var r2 := InSequence(c, xs[1..], r.end);
        if r2.Ok? {
          var r3 := InSequence(c, ys, r2.end);
          if r3.Ok? { assert (r.items + r2.items) + r3.items == r.items + (r2.items + r3.items); }
        }
      }
    }
  }

  lemma {:induction false} EvalOfAnd(c: Ctx, id: nat, at: nat)
    requires WF(c) && id < |c.nodes| && c.nodes[id].And? && at <= |c.input|
    ensures InGraph(c, c.nodes[id].terms)
    ensures Eval(c, id, at) == InSequence(c, c.nodes[id].terms, at)
  {
    assert NodeOk(c, id);
    assert c.nodes[id].terms[0..] == c.nodes[id].terms;
    AndIsSequence(c, id, at, 0, at, []);
    var s := InSequence(c, c.nodes[id].terms, at);
    if s.Ok? { assert [] + s.items == s.items; }
  }

  lemma {:induction false} EvalOfTerms(c: Ctx, a: nat, at: nat)
    requires WF(c) && a < |c.nodes| && at <= |c.input|
    ensures InGraph(c, SequenceTerms(c.nodes, a))
    ensures InSequence(c, SequenceTerms(c.nodes, a), at) == Eval(c, a, at)
  {
    if c.nodes[a].And? {
      EvalOfAnd(c, a, at);
    } else {
      var r := Eval(c, a, at);
      if r.Ok? { assert r.items + [] == r.items; }
    }
  }

  /** a+b accepts, consumes, builds and fails exactly as a followed by b,
      whatever sequences a and b were flattened from. */
  lemma {:induction false} PlusIsSequence(c: Ctx, id: nat, a: nat, b: nat, at: nat)
    requires WF(c) && id < |c.nodes| && a < |c.nodes| && b < |c.nodes| && at <= |c.input|
    requires c.nodes[id] == Plus(c.nodes, a, b)
    ensures Eval(c, id, at) == Then(Eval(c, a, at), e requires at <= e <= |c.input| => Eval(c, b, e))
  {
    EvalOfAnd(c, id, at);
    EvalOfTerms(c, a, at);
    EvalOfTerms(c, b, at);
    SequenceAppend(c, SequenceTerms(c.nodes, a), SequenceTerms(c.nodes, b), at);
    var r := Eval(c, a, at);
    if r.Ok? { EvalOfTerms(c, b, r.end); }
  }

  /** (a+b)+d and a+(b+d) are the same parser. */
  lemma {:induction false} PlusIsAssociative(c: Ctx, ab: nat, bd: nat, left: nat, right: nat, a: nat, b: nat, d: nat,
                                             at: nat)
    requires WF(c) && at <= |c.input| && a < |c.nodes| && b < |c.nodes| && d < |c.nodes|
    requires ab < |c.nodes| && c.nodes[ab] == Plus(c.nodes, a, b)
    requires bd < |c.nodes| && c.nodes[bd] == Plus(c.nodes, b, d)
    requires left < |c.nodes| && c.nodes[left] == Plus(c.nodes, ab, d)
    requires right < |c.nodes| && c.nodes[right] == Plus(c.nodes, a, bd)
    ensures Eval(c, left, at) == Eval(c, right, at)
  {
    PlusIsSequence(c, left, ab, d, at);
    PlusIsSequence(c, ab, a, b, at);
    PlusIsSequence(c, right, a, bd, at);
    var r := Eval(c, a, at);
    if r.Ok? {
      PlusIsSequence(c, bd, b, d, r.end);
      var r2 := Eval(c, b, r.end);
      if r2.Ok? { ItemsAppend(r.items, r2.items, Eval(c, d, r2.end)); }
    }
  }

  lemma ItemsAppend(a: seq<Item>, b: seq<Item>, r: Result)
    ensures r.Ok? ==> (a + b) + r.items == a + (b + r.items)
  {
  }

  // ---- choices

  // the first of two that succeeds, else the further failure
  function OrElse(r: Result, r2: Result): Result {
    if r.Ok? then r else if r2.Ok? then r2 else Further(r, r2)
  }

  function FirstOf(c: Ctx, terms: seq<nat>, at: nat): Result
    requires WF(c) && InGraph(c, terms) && terms != [] && at <= |c.input|
    decreases |terms|
  {
    var r := Eval(c, terms[0], at);
    if |terms| == 1 then r else OrElse(r, FirstOf(c, terms[1..], at))
  }

  lemma {:induction false} OrIsChoice(c: Ctx, id: nat, at: nat, k: nat, f: Result)
    requires WF(c) && id < |c.nodes| && c.nodes[id].Or? && at <= |c.input|
    requires k < |c.nodes[id].terms| && f.Fail? && Bounded(c, at, f)
    ensures InGraph(c, c.nodes[id].terms[k..])
    ensures EvalOr(c, id, at, k, f) == OrElse(f, FirstOf(c, c.nodes[id].terms[k..], at))
    decreases |c.nodes[id].terms| - k
  {
    assert NodeOk(c, id);
    var terms := c.nodes[id].terms;
    var r := Eval(c, terms[k], at);
    assert terms[k..][1..] == terms[k + 1..];
    if k + 1 < |terms| && r.Fail? {
      OrIsChoice(c, id, at, k + 1, Further(f, r));
    }
  }

  lemma {:induction false} EvalOfOr(c: Ctx, id: nat, at: nat)
    requires WF(c) && id < |c.nodes| && c.nodes[id].Or? && at <= |c.input|
    ensures InGraph(c, c.nodes[id].terms) && c.nodes[id].terms != []
    ensures Eval(c, id, at) == FirstOf(c, c.nodes[id].terms, at)
  {
    assert NodeOk(c, id);
    var terms := c.nodes[id].terms;
    var r := Eval(c, terms[0], at);
    if r.Fail? && |terms| > 1 {
      OrIsChoice(c, id, at, 1, r);
    }
  }

  lemma {:induction false} ChoiceAppend(c: Ctx, xs: seq<nat>, ys: seq<nat>, at: nat)
    requires WF(c) && InGraph(c, xs) && InGraph(c, ys) && xs != [] && ys != [] && at <= |c.input|
    ensures InGraph(c, xs + ys)
    ensures FirstOf(c, xs + ys, at) == OrElse(FirstOf(c, xs, at), FirstOf(c, ys, at))
    decreases |xs|
  {
    assert (xs + ys)[1..] == xs[1..] + ys;
    if |xs| == 1 {
      assert xs[1..] + ys == ys;
    } else {
      ChoiceAppend(c, xs[1..], ys, at);
    }
  }

  lemma {:induction false} EvalOfAlternatives(c: Ctx, a: nat, at: nat)
    requires WF(c) && a < |c.nodes| && at <= |c.input|
    ensures InGraph(c, ChoiceTerms(c.nodes, a)) && ChoiceTerms(c.nodes, a) != []
    ensures FirstOf(c, ChoiceTerms(c.nodes, a), at) == Eval(c, a, at)
  {
    if c.nodes[a].Or? { EvalOfOr(c, a, at); }
  }

  /** a|b succeeds as a does, else as b does, else fails where the further of the
      two failures is, b's if they got equally far, whatever choices a and b were
      flattened from. */
  lemma {:induction false} EitherIsChoice(c: Ctx, id: nat, a: nat, b: nat, at: nat)
    requires WF(c) && id < |c.nodes| && a < |c.nodes| && b < |c.nodes| && at <= |c.input|
    requires c.nodes[id] == Either(c.nodes, a, b)
    ensures Eval(c, id, at) == OrElse(Eval(c, a, at), Eval(c, b, at))
  {
    EvalOfOr(c, id, at);
    EvalOfAlternatives(c, a, at);
    EvalOfAlternatives(c, b, at);
    ChoiceAppend(c, ChoiceTerms(c.nodes, a), ChoiceTerms(c.nodes, b), at);
  }

  lemma {:induction false} EitherIsAssociative(c: Ctx, ab: nat, bd: nat, left: nat, right: nat, a: nat, b: nat,
                                               d: nat, at: nat)
    requires WF(c) && at <= |c.input| && a < |c.nodes| && b < |c.nodes| && d < |c.nodes|
    requires ab < |c.nodes| && c.nodes[ab] == Either(c.nodes, a, b)
    requires bd < |c.nodes| && c.nodes[bd] == Either(c.nodes, b, d)
    requires left < |c.nodes| && c.nodes[left] == Either(c.nodes, ab, d)
    requires right < |c.nodes| && c.nodes[right] == Either(c.nodes, a, bd)
    ensures Eval(c, left, at) == Eval(c, right, at)
  {
    EitherIsChoice(c, left, ab, d, at);
    EitherIsChoice(c, ab, a, b, at);
    EitherIsChoice(c, right, a, bd, at);
    EitherIsChoice(c, bd, b, d, at);
  }

  /** A choice that fails reports the failure of one alternative: none got further,
      and no later one got as far. */
  lemma {:induction false} FurthestFailure(c: Ctx, terms: seq<nat>, at: nat) returns (k: nat)
    requires WF(c) && InGraph(c, terms) && terms != [] && at <= |c.input|
    requires FirstOf(c, terms, at).Fail?
    ensures k < |terms| && FirstOf(c, terms, at) == Eval(c, terms[k], at)
    ensures forall j :: 0 <= j < |terms| ==> Eval(c, terms[j], at).Fail?
    ensures forall j :: 0 <= j < |terms| ==> Eval(c, terms[j], at).at <= Eval(c, terms[k], at).at
    ensures forall j :: k < j < |terms| ==> Eval(c, terms[j], at).at < Eval(c, terms[k], at).at
    decreases |terms|
  {
    var r := Eval(c, terms[0], at);
    if |terms| == 1 {
      k := 0;
    } else {
      var k' := FurthestFailure(c, terms[1..], at);
      var r2 := FirstOf(c, terms[1..], at);
      k := if r.at <= r2.at then k' + 1 else 0;
      forall j | 0 < j < |terms|
        ensures Eval(c, terms[j], at).Fail? && Eval(c, terms[j], at).at <= r2.at
        ensures j > k' + 1 ==> Eval(c, terms[j], at).at < r2.at
      {
        assert terms[j] == terms[1..][j - 1];
      }
    }
  }
}
