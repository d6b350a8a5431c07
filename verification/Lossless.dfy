/** Parsing loses nothing: the items of a successful parse tile the text they
    were parsed from, at every level of the tree. */
module Lossless {
  import opened Peg
  import opened Packrat
  import opened Wrappers

  // items lie end to end from b to e, and so do the children of each of them
  predicate Tiles(items: seq<Item>, b: nat, e: nat)
    decreases items, 0
  {
    if items == [] then b == e
    else items[0].Begin() == b && Whole(items[0]) && Tiles(items[1..], items[0].End(), e)
  }

  predicate Whole(item: Item)
    decreases item, 1
  {
    match item
    case Span(b, e) => b <= e
    case Composite(_, kids) => kids != [] && Tiles(kids, item.Begin(), item.End())
  }

  lemma {:induction false} TilesAppend(xs: seq<Item>, ys: seq<Item>, b: nat, m: nat, e: nat)
    requires Tiles(xs, b, m) && Tiles(ys, m, e)
    ensures Tiles(xs + ys, b, e)
  {
    if xs == [] {
      assert xs + ys == ys;
    } else {
      assert (xs + ys)[1..] == xs[1..] + ys;
      TilesAppend(xs[1..], ys, xs[0].End(), m, e);
    }
  }

  lemma {:induction false} TilesEnds(items: seq<Item>, b: nat, e: nat)
    requires Tiles(items, b, e)
    ensures b <= e
    ensures items != [] ==> items[0].Begin() == b && items[|items| - 1].End() == e
    decreases items, 0
  {
    if items != [] {
      WholeEnds(items[0]);
      TilesEnds(items[1..], items[0].End(), e);
    }
  }

  lemma {:induction false} WholeEnds(item: Item)
    requires Whole(item)
    ensures item.Begin() <= item.End()
    decreases item, 1
  {
    if item.Composite? { TilesEnds(item.kids, item.Begin(), item.End()); }
  }

  lemma {:induction false} OneTiles(item: Item)
    requires Whole(item)
    ensures Tiles([item], item.Begin(), item.End())
  {
    assert [item][1..] == [];
  }

  /** Every combinator: what a successful parse returns tiles what it consumed. */
  lemma {:induction false} ParseTiles(c: Ctx, id: nat, at: nat)
    requires WF(c) && id < |c.nodes| && at <= |c.input|
    ensures var r := Eval(c, id, at); r.Ok? ==> Tiles(r.items, at, r.end)
    decreases |c.input| - at, c.rank[id], 1, 0
  {
    assert NodeOk(c, id);
    match c.nodes[id]
    case Optional(x) => ParseTiles(c, x, at);
    case ZeroOrMore(x) => ManyTiles(c, id, at, at, []);
    case And(terms) => AndTiles(c, id, at, 0, at, []);
    case Or(terms) =>
      ParseTiles(c, terms[0], at);
      var r := Eval(c, terms[0], at);
      if r.Fail? { OrTiles(c, id, at, 1, r); }
    case Until(x) => UntilTiles(c, id, at, at);
    case SpecificUntil(_, _) => SpecificUntilTiles(c, id, at, at, []);
    case NonEmptyListOf(_, _) => ListTiles(c, id, at, at, []);
    case NToM(_, _, _) => NToMTiles(c, id, at, 0, at, []);
    case Named(tag, x) =>
      ParseTiles(c, x, at);
      var r := Eval(c, x, at);
      if r.Ok? { NamedTiles(tag, r.items, at, r.end); }
    case Anon(x) => ParseTiles(c, x, at);
    case Self(x) => ParseTiles(c, x, at);
    case Class(template, plain) => ParseTiles(c, template, at); ParseTiles(c, plain, at);
    case EndOfFile => OneTiles(Span(at, at)); OneTiles(Composite("EndOfFile", [Span(at, at)]));
    case Balanced(_, _, _, _, _, _) => OneTiles(Span(at, at));
    case Not(_) =>
    case _ => TokenTiles(c, id, at);
  }

  // parsers of characters
  predicate IsToken(n: Node) {
    n.AnyChar? || n.OneOf? || n.Except? || n.Range? || n.Literal? || n.Hash? || n.Identifier? || n.RawString?
  }

  lemma {:induction false} TokenTiles(c: Ctx, id: nat, at: nat)
    requires WF(c) && id < |c.nodes| && at <= |c.input| && IsToken(c.nodes[id])
    ensures var r := Eval(c, id, at); r.Ok? ==> Tiles(r.items, at, r.end)
  {
    var r := Eval(c, id, at);
    if r.Ok? { OneTiles(Span(at, r.end)); }
  }

  lemma {:induction false} NamedTiles(tag: string, items: seq<Item>, b: nat, e: nat)
    requires Tiles(items, b, e)
    ensures Tiles([Composite(tag, if items == [] then [Span(b, b)] else items)], b, e)
  {
    TilesEnds(items, b, e);
    OneTiles(Span(b, b));
    OneTiles(Composite(tag, if items == [] then [Span(b, b)] else items));
  }

  lemma {:induction false} ManyTiles(c: Ctx, id: nat, start: nat, at: nat, items: seq<Item>)
    requires WF(c) && id < |c.nodes| && c.nodes[id].ZeroOrMore? && start <= at <= |c.input|
    requires Tiles(items, start, at)
    ensures var r := EvalMany(c, id, start, at, items); Tiles(r.items, start, r.end)
    decreases |c.input| - start, c.rank[id], 0, |c.input| - at
  {
    assert NodeOk(c, id);
    ParseTiles(c, c.nodes[id].x, at);
    var r := Eval(c, c.nodes[id].x, at);
    if r.Ok? {
      TilesAppend(items, r.items, start, at, r.end);
      ManyTiles(c, id, start, r.end, items + r.items);
    }
  }

  lemma {:induction false} AndTiles(c: Ctx, id: nat, start: nat, k: nat, at: nat, items: seq<Item>)
    requires WF(c) && id < |c.nodes| && c.nodes[id].And? && start <= at <= |c.input|
    requires Reached(c, id, start, k, at) && Tiles(items, start, at)
    ensures var r := EvalAnd(c, id, start, k, at, items); r.Ok? ==> Tiles(r.items, start, r.end)
    decreases |c.input| - start, c.rank[id], 0, |c.nodes[id].terms| - k
  {
    assert NodeOk(c, id);
    var terms := c.nodes[id].terms;
    if k < |terms| {
      ParseTiles(c, terms[k], at);
      var r := Eval(c, terms[k], at);
      if r.Ok? {
        TilesAppend(items, r.items, start, at, r.end);
        NextReached(c, id, start, k, at);
        AndTiles(c, id, start, k + 1, r.end, items + r.items);
      }
    }
  }

  lemma {:induction false} OrTiles(c: Ctx, id: nat, at: nat, k: nat, f: Result)
    requires WF(c) && id < |c.nodes| && c.nodes[id].Or? && at <= |c.input|
    requires k <= |c.nodes[id].terms| && f.Fail? && Bounded(c, at, f)
    ensures var r := EvalOr(c, id, at, k, f); r.Ok? ==> Tiles(r.items, at, r.end)
    decreases |c.input| - at, c.rank[id], 0, |c.nodes[id].terms| - k
  {
    assert NodeOk(c, id);
    if k < |c.nodes[id].terms| {
      ParseTiles(c, c.nodes[id].terms[k], at);
      var r := Eval(c, c.nodes[id].terms[k], at);
      if r.Fail? { OrTiles(c, id, at, k + 1, Further(f, r)); }
    }
  }

  lemma {:induction false} UntilTiles(c: Ctx, id: nat, start: nat, at: nat)
    requires WF(c) && id < |c.nodes| && c.nodes[id].Until? && start <= at <= |c.input|
    ensures var r := EvalUntil(c, id, start, at); r.Ok? ==> Tiles(r.items, start, r.end)
    decreases |c.input| - at
  {
    assert NodeOk(c, id);
    if Eval(c, c.nodes[id].x, at).Fail? && at < |c.input| { UntilTiles(c, id, start, at + 1); }
  }

  lemma {:induction false} SpecificUntilTiles(c: Ctx, id: nat, start: nat, at: nat, items: seq<Item>)
    requires WF(c) && id < |c.nodes| && c.nodes[id].SpecificUntil? && start <= at <= |c.input|
    requires Tiles(items, start, at)
    ensures var r := EvalSpecificUntil(c, id, start, at, items); r.Ok? ==> Tiles(r.items, start, r.end)
    decreases |c.input| - start, c.rank[id], 0, |c.input| - at
  {
    assert NodeOk(c, id);
    if Eval(c, c.nodes[id].until, at).Fail? {
      ParseTiles(c, c.nodes[id].item, at);
      var r := Eval(c, c.nodes[id].item, at);
      if r.Ok? {
        TilesAppend(items, r.items, start, at, r.end);
        SpecificUntilTiles(c, id, start, r.end, items + r.items);
      }
    }
  }

  lemma {:induction false} ListTiles(c: Ctx, id: nat, start: nat, at: nat, items: seq<Item>)
    requires WF(c) && id < |c.nodes| && c.nodes[id].NonEmptyListOf? && start <= at <= |c.input|
    requires Tiles(items, start, at)
    ensures var r := EvalList(c, id, start, at, items); r.Ok? ==> Tiles(r.items, start, r.end)
    decreases |c.input| - start, c.rank[id], 0, |c.input| - at
  {
    assert NodeOk(c, id);
    ParseTiles(c, c.nodes[id].x, at);
    var r := Eval(c, c.nodes[id].x, at);
    if r.Ok? {
      TilesAppend(items, r.items, start, at, r.end);
      ParseTiles(c, c.nodes[id].more, r.end);
      var more := Eval(c, c.nodes[id].more, r.end);
      if more.Ok? {
        TilesAppend(items + r.items, more.items, start, r.end, more.end);
        ListTiles(c, id, start, more.end, items + r.items + more.items);
      }
    }
  }

  lemma {:induction false} NToMTiles(c: Ctx, id: nat, start: nat, k: nat, at: nat, items: seq<Item>)
    requires WF(c) && id < |c.nodes| && c.nodes[id].NToM? && start <= at <= |c.input|
    requires k <= c.nodes[id].m && (at == start ==> k == 0 || c.empty[id])
    requires Tiles(items, start, at)
    ensures var r := EvalNToM(c, id, start, k, at, items); r.Ok? ==> Tiles(r.items, start, r.end)
    decreases |c.input| - start, c.rank[id], 0, c.nodes[id].m - k
  {
    assert NodeOk(c, id);
    if k < c.nodes[id].m {
      ParseTiles(c, c.nodes[id].x, at);
      var r := Eval(c, c.nodes[id].x, at);
      if r.Ok? {
        TilesAppend(items, r.items, start, at, r.end);
        NToMTiles(c, id, start, k + 1, r.end, items + r.items);
      }
    }
  }

  // ---- reconstructing the text

  // reconstruct of one item: the text between its ends
  function Reconstruct(input: string, item: Item): string {
    if item.Begin() <= item.End() <= |input| then input[item.Begin()..item.End()] else ""
  }

  // reconstruct of a list of items: one after the other
  method ReconstructAll(input: string, items: seq<Item>, b: nat, e: nat) returns (s: string)
    requires Tiles(items, b, e) && e <= |input|
    ensures b <= e && s == input[b..e]
  {
    TilesEnds(items, b, e);
    s := "";
    ghost var at := b;
    for i := 0 to |items|
      invariant b <= at <= e && Tiles(items[i..], at, e) && s == input[b..at]
    {
      TilesEnds(items[i..], at, e);
      WholeEnds(items[i]);
      assert items[i..][0] == items[i] && items[i..][1..] == items[i + 1..];
      TilesEnds(items[i + 1..], items[i].End(), e);
      s := s + Reconstruct(input, items[i]);
      at := items[i].End();
    }
  }

  // the text under the leaves of a tree, left to right
  function Leaves(input: string, item: Item): string
    decreases item, 1
  {
    match item
    case Span(b, e) => Reconstruct(input, item)
    case Composite(_, kids) => LeavesAll(input, kids)
  }

  function LeavesAll(input: string, items: seq<Item>): string
    decreases items, 0
  {
    if items == [] then "" else Leaves(input, items[0]) + LeavesAll(input, items[1..])
  }

  lemma {:induction false} LeavesTile(input: string, items: seq<Item>, b: nat, e: nat)
    requires Tiles(items, b, e) && e <= |input|
    ensures b <= e && LeavesAll(input, items) == input[b..e]
    decreases items, 0
  {
    TilesEnds(items, b, e);
    if items != [] {
      WholeEnds(items[0]);
      TilesEnds(items[1..], items[0].End(), e);
      LeavesTile(input, items[1..], items[0].End(), e);
      LeavesWhole(input, items[0]);
    }
  }

  lemma {:induction false} LeavesWhole(input: string, item: Item)
    requires Whole(item) && item.End() <= |input|
    ensures item.Begin() <= item.End() && Leaves(input, item) == input[item.Begin()..item.End()]
    decreases item, 1
  {
    WholeEnds(item);
    if item.Composite? { LeavesTile(input, item.kids, item.Begin(), item.End()); }
  }

  /** parseString: the whole text or nothing.  The tree it returns reconstructs
      to the text, by its ends and leaf by leaf. */
  method ParseString(c: Ctx, id: nat) returns (r: Option<Item>)
    requires WF(c) && id < |c.nodes|
    ensures r.Some? <==> Eval(c, id, 0).Ok? && Eval(c, id, 0).end == |c.input|
    ensures r.Some? ==> Whole(r.value) && Reconstruct(c.input, r.value) == c.input && Leaves(c.input, r.value) == c.input
    ensures r.Some? && r.value.Composite? ==> r.value.kids == Eval(c, id, 0).items
  {
    var engine := new Engine(c);
    var p := engine.Parse(id, 0);
    if p.Fail? || p.end != |c.input| {
      return None;
    }
    ParseTiles(c, id, 0);
    TilesEnds(p.items, 0, p.end);
    r := Some(if p.items == [] then Span(0, |c.input|) else Composite("", p.items));
    LeavesWhole(c.input, r.value);
    assert c.input[0..|c.input|] == c.input;
  }
}
