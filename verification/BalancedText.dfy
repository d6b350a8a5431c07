/** What ParseBalanced accepts: text that can be cut into characters, literals,
    comments and bracketed groups, each group closed by its own closer, up to the
    first cut at which the text may stop. */
module BalancedText {
  import opened Peg
  import opened Wrappers

  datatype Token =
    | Plain(at: nat)
    | Lexical(at: nat, next: nat)
    | Group(at: nat, inside: seq<Token>, close: nat)
  {
    function Next(): nat {
      match this
      case Plain(at) => at + 1
      case Lexical(_, next) => next
      case Group(_, _, close) => close + 1
    }
  }

  predicate IsScanner(c: Ctx, id: nat) {
    WF(c) && id < |c.nodes| && c.nodes[id].Balanced?
  }

  // ts cut the text from b to e, and the text may stop at none of the cuts before e
  predicate Cuts(c: Ctx, id: nat, closer: Option<char>, ts: seq<Token>, b: nat, e: nat)
    requires IsScanner(c, id)
    decreases ts, 0
  {
    if ts == [] then b == e <= |c.input|
    else
      ts[0].at == b < |c.input| && !Stops(c, id, closer, b) && IsToken(c, id, ts[0]) &&
      Cuts(c, id, closer, ts[1..], ts[0].Next(), e)
  }

  predicate IsToken(c: Ctx, id: nat, t: Token)
    requires IsScanner(c, id)
    decreases t, 1
  {
    t.at < |c.input| &&
    var l := Lexeme(c, id, t.at);
    var inner := Closer(c.input[t.at], c.nodes[id].angles);
    match t
    case Plain(_) => l.None? && inner.None?
    case Lexical(_, next) => l.Some? && l.value.Ok? && l.value.end == next
    case Group(_, inside, close) =>
      l.None? && inner.Some? && Cuts(c, id, inner, inside, t.at + 1, close) &&
      close < |c.input| && c.input[close] == inner.value
  }

  // how a successful scan cut the text
  function Tokens(c: Ctx, id: nat, closer: Option<char>, start: nat, at: nat): seq<Token>
    requires IsScanner(c, id) && start <= at <= |c.input| && Scan(c, id, closer, start, at).Ok?
    decreases |c.input| - at, 1
  {
    if Stops(c, id, closer, at) then []
    else [FirstToken(c, id, at)] + Tokens(c, id, closer, start, Step(c, id, at).end)
  }

  function FirstToken(c: Ctx, id: nat, at: nat): (t: Token)
    requires IsScanner(c, id) && at < |c.input| && Step(c, id, at).Ok?
    ensures t.at == at && t.Next() == Step(c, id, at).end
    decreases |c.input| - at, 0
  {
    var inner := Closer(c.input[at], c.nodes[id].angles);
    if Lexeme(c, id, at).Some? then Lexical(at, Step(c, id, at).end)
    else if inner.None? then Plain(at)
    else Group(at, Tokens(c, id, inner, at + 1, at + 1), Step(c, id, at).end - 1)
  }

  /** A scan that succeeds has cut the text it passed into characters, literals,
      comments and closed groups, and stopped at the first cut where it could. */
  lemma {:induction false} ScanCuts(c: Ctx, id: nat, closer: Option<char>, start: nat, at: nat)
    requires IsScanner(c, id) && start <= at <= |c.input| && Scan(c, id, closer, start, at).Ok?
    ensures var e := Scan(c, id, closer, start, at).end;
      Cuts(c, id, closer, Tokens(c, id, closer, start, at), at, e) && Stops(c, id, closer, e)
    decreases |c.input| - at, 1
  {
    if !Stops(c, id, closer, at) {
      ScanCuts(c, id, closer, start, Step(c, id, at).end);
      StepCuts(c, id, at);
      var ts := Tokens(c, id, closer, start, at);
      assert ts[0] == FirstToken(c, id, at) && ts[1..] == Tokens(c, id, closer, start, Step(c, id, at).end);
    }
  }

  lemma {:induction false} StepCuts(c: Ctx, id: nat, at: nat)
    requires IsScanner(c, id) && at < |c.input| && Step(c, id, at).Ok?
    ensures IsToken(c, id, FirstToken(c, id, at))
    decreases |c.input| - at, 0
  {
    if FirstToken(c, id, at).Group? {
      ScanCuts(c, id, Closer(c.input[at], c.nodes[id].angles), at + 1, at + 1);
    }
  }

  /** The converse: wherever text can be so cut, the scan succeeds and ends there;
      there is no other way to cut it. */
  lemma {:induction false} CutsScan(c: Ctx, id: nat, closer: Option<char>, ts: seq<Token>, start: nat, b: nat, e: nat)
    requires IsScanner(c, id) && start <= b <= |c.input| && e <= |c.input|
    requires Cuts(c, id, closer, ts, b, e) && Stops(c, id, closer, e)
    ensures Scan(c, id, closer, start, b) == Ok([Span(start, e)], e)
    ensures Tokens(c, id, closer, start, b) == ts
    decreases ts, 0
  {
    if ts != [] {
      CutScansStep(c, id, ts[0]);
      CutsScan(c, id, closer, ts[1..], start, ts[0].Next(), e);
      ScanOn(c, id, closer, start, b);
      FirstAndRest(ts);
    }
  }

  lemma FirstAndRest(ts: seq<Token>)
    requires ts != []
    ensures ts == [ts[0]] + ts[1..]
  {
  }

  // one token on
  lemma {:induction false} ScanOn(c: Ctx, id: nat, closer: Option<char>, start: nat, at: nat)
    requires IsScanner(c, id) && start <= at < |c.input| && !Stops(c, id, closer, at) && Step(c, id, at).Ok?
    ensures Scan(c, id, closer, start, at) == Scan(c, id, closer, start, Step(c, id, at).end)
    ensures Scan(c, id, closer, start, at).Ok? ==>
      Tokens(c, id, closer, start, at) ==
      [FirstToken(c, id, at)] + Tokens(c, id, closer, start, Step(c, id, at).end)
  {
  }

  lemma {:induction false} CutScansStep(c: Ctx, id: nat, t: Token)
    requires IsScanner(c, id) && IsToken(c, id, t)
    ensures Step(c, id, t.at).Ok? && Step(c, id, t.at).end == t.Next() && FirstToken(c, id, t.at) == t
    decreases t, 1
  {
    if t.Group? {
      CutsScan(c, id, Closer(c.input[t.at], c.nodes[id].angles), t.inside, t.at + 1, t.at + 1, t.close);
    }
  }

  /** balanced(until) succeeds with end e exactly when the text up to e can be cut,
      until matches at e, and at no earlier cut. */
  lemma {:induction false} BalancedExactly(c: Ctx, id: nat, at: nat, e: nat)
    requires IsScanner(c, id) && at <= |c.input| && e <= |c.input|
    ensures Eval(c, id, at) == Ok([Span(at, e)], e) <==>
              Stops(c, id, None, e) && CanBeCut(c, id, None, at, e)
  {
    assert Eval(c, id, at) == Scan(c, id, None, at, at);
    if Eval(c, id, at) == Ok([Span(at, e)], e) {
      ScanCuts(c, id, None, at, at);
      assert Cuts(c, id, None, Tokens(c, id, None, at, at), at, e);
    }
    if Stops(c, id, None, e) && exists ts :: Cuts(c, id, None, ts, at, e) {
      var ts :| Cuts(c, id, None, ts, at, e);
      CutsScan(c, id, None, ts, at, at, e);
      assert Scan(c, id, None, at, at) == Ok([Span(at, e)], e);
      assert Eval(c, id, at) == Ok([Span(at, e)], e);
      assert exists ts :: Cuts(c, id, None, ts, at, e);
    }
  }

  // ---- brackets

  // the opening and closing brackets of the groups, in the order they stand in the text
  function Brackets(c: Ctx, id: nat, closer: Option<char>, ts: seq<Token>, b: nat, e: nat): string
    requires IsScanner(c, id) && Cuts(c, id, closer, ts, b, e)
    decreases ts, 0
  {
    if ts == [] then "" else
      TokenBrackets(c, id, ts[0]) + Brackets(c, id, closer, ts[1..], ts[0].Next(), e)
  }

  function TokenBrackets(c: Ctx, id: nat, t: Token): string
    requires IsScanner(c, id) && IsToken(c, id, t)
    decreases t, 1
  {
    match t
    case Group(at, inside, close) =>
      [c.input[at]] + Brackets(c, id, Closer(c.input[at], c.nodes[id].angles), inside, at + 1, close) + [c.input[close]]
    case _ => ""
  }

  // read brackets against a stack of the closers owed; the stack at the end, unless a closer was wrong
  function Owed(brackets: string, stack: string, angles: bool): Option<string>
    decreases |brackets|
  {
    if brackets == "" then Some(stack)
    else if Closer(brackets[0], angles).Some? then
      Owed(brackets[1..], [Closer(brackets[0], angles).value] + stack, angles)
    else if stack != "" && stack[0] == brackets[0] then Owed(brackets[1..], stack[1..], angles)
    else None
  }

  lemma {:induction false} OwedAppend(xs: string, ys: string, stack: string, angles: bool)
    ensures Owed(xs + ys, stack, angles) ==
              (var o := Owed(xs, stack, angles); if o.None? then None else Owed(ys, o.value, angles))
    decreases |xs|
  {
    if xs == "" {
      assert xs + ys == ys;
    } else {
      assert (xs + ys)[1..] == xs[1..] + ys;
      if Closer(xs[0], angles).Some? {
        OwedAppend(xs[1..], ys, [Closer(xs[0], angles).value] + stack, angles);
      } else if stack != "" && stack[0] == xs[0] {
        OwedAppend(xs[1..], ys, stack[1..], angles);
      }
    }
  }

  /** Every opener met outside literals and comments is closed inside the text
      passed, by its own closer, innermost first. */
  lemma {:induction false} BracketsMatch(c: Ctx, id: nat, closer: Option<char>, ts: seq<Token>, b: nat, e: nat,
                                         stack: string)
    requires IsScanner(c, id) && Cuts(c, id, closer, ts, b, e)
    ensures Owed(Brackets(c, id, closer, ts, b, e), stack, c.nodes[id].angles) == Some(stack)
    decreases ts, 0
  {
    if ts != [] {
      TokenBracketsMatch(c, id, ts[0], stack);
      BracketsMatch(c, id, closer, ts[1..], ts[0].Next(), e, stack);
      OwedAppend(TokenBrackets(c, id, ts[0]), Brackets(c, id, closer, ts[1..], ts[0].Next(), e), stack, c.nodes[id].angles);
    }
  }

  lemma {:induction false} TokenBracketsMatch(c: Ctx, id: nat, t: Token, stack: string)
    requires IsScanner(c, id) && IsToken(c, id, t)
    ensures Owed(TokenBrackets(c, id, t), stack, c.nodes[id].angles) == Some(stack)
    decreases t, 1
  {
    if t.Group? {
      var angles := c.nodes[id].angles;
      var inner := Closer(c.input[t.at], angles);
      var ins := Brackets(c, id, inner, t.inside, t.at + 1, t.close);
      BracketsMatch(c, id, inner, t.inside, t.at + 1, t.close, [inner.value] + stack);
      PairMatches(c.input[t.at], ins, c.input[t.close], stack, angles);
      assert TokenBrackets(c, id, t) == [c.input[t.at]] + (ins + [c.input[t.close]]);
    }
  }

  // a bracket, what is inside, and its closer
  lemma {:induction false} PairMatches(open: char, ins: string, close: char, stack: string, angles: bool)
    requires Closer(open, angles) == Some(close) && Owed(ins, [close] + stack, angles) == Some([close] + stack)
    ensures Owed([open] + (ins + [close]), stack, angles) == Some(stack)
  {
    var owed := [close] + stack;
    OwedAppend(ins, [close], owed, angles);
    assert [close][1..] == "" && owed[1..] == stack;
    assert Owed([close], owed, angles) == Owed([close][1..], owed[1..], angles);
    assert ([open] + (ins + [close]))[1..] == ins + [close];
  }

  // ---- every opener is closed

  // p lies in a literal or comment
  predicate InLexeme(ts: seq<Token>, p: nat)
    decreases ts, 0
  {
    ts != [] && (TokenInLexeme(ts[0], p) || InLexeme(ts[1..], p))
  }

  predicate TokenInLexeme(t: Token, p: nat)
    decreases t, 1
  {
    match t
    case Plain(_) => false
    case Lexical(at, next) => at <= p < next
    case Group(_, inside, _) => InLexeme(inside, p)
  }

  // the bracket at p is closed at q, and what is between is cut likewise
  ghost predicate ClosedAt(c: Ctx, id: nat, p: nat, q: nat)
    requires IsScanner(c, id) && p < |c.input|
  {
    var inner := Closer(c.input[p], c.nodes[id].angles);
    q < |c.input| && Some(c.input[q]) == inner && CanBeCut(c, id, inner, p + 1, q)
  }

  ghost predicate CanBeCut(c: Ctx, id: nat, closer: Option<char>, b: nat, e: nat)
    requires IsScanner(c, id)
  {
    exists ts :: Cuts(c, id, closer, ts, b, e)
  }

  lemma {:induction false} CutsForward(c: Ctx, id: nat, closer: Option<char>, ts: seq<Token>, b: nat, e: nat)
    requires IsScanner(c, id) && Cuts(c, id, closer, ts, b, e)
    ensures b <= e <= |c.input|
    decreases ts
  {
    if ts != [] {
      CutsForward(c, id, closer, ts[1..], ts[0].Next(), e);
      CutScansStep(c, id, ts[0]);
    }
  }

  /** Every (, [, { and, when enabled, < of the region that lies in no literal or
      comment is closed by its own closer inside the region. */
  lemma {:induction false} OpenersAreClosed(c: Ctx, id: nat, closer: Option<char>, ts: seq<Token>, b: nat, e: nat,
                                            p: nat)
    returns (q: nat)
    requires IsScanner(c, id) && Cuts(c, id, closer, ts, b, e) && b <= p < e <= |c.input|
    requires Closer(c.input[p], c.nodes[id].angles).Some? && !InLexeme(ts, p)
    ensures p < q < e && ClosedAt(c, id, p, q)
    decreases ts
  {
    var t := ts[0];
    CutsForward(c, id, closer, ts[1..], t.Next(), e);
    if p >= t.Next() {
      q := OpenersAreClosed(c, id, closer, ts[1..], t.Next(), e, p);
    } else {
      assert t.Group? && p != t.close;
      if p == t.at {
        q := t.close;
        CutsForward(c, id, Closer(c.input[p], c.nodes[id].angles), t.inside, p + 1, q);
      } else {
        q := OpenersAreClosed(c, id, Closer(c.input[t.at], c.nodes[id].angles), t.inside, t.at + 1, t.close, p);
      }
    }
  }
}
