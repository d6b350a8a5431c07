/** The memoising engine: Parser::parse and the parse_ methods, with the one cache
    they share.  Every method is proved to return the cache-free meaning. */
module Packrat {
  import opened Peg
  import opened Wrappers

  class Engine {
    const c: Ctx
    // a result for each (position, parser) parsed so far
    var cache: map<(nat, nat), Result>

    ghost predicate Valid()
      reads this
    {
      WF(c) &&
      forall k :: k in cache ==> k.0 <= |c.input| && k.1 < |c.nodes| && cache[k] == Eval(c, k.1, k.0)
    }

    constructor (ctx: Ctx)
      requires WF(ctx)
      ensures Valid() && c == ctx && cache == map[]
    {
      c := ctx;
      cache := map[];
    }

    // Parser::parse
    method Parse(id: nat, at: nat) returns (r: Result)
      requires Valid() && id < |c.nodes| && at <= |c.input|
      modifies this
      ensures Valid() && r == Eval(c, id, at)
      ensures (at, id) in cache && cache.Keys >= old(cache.Keys)
      decreases |c.input| - at, c.rank[id], 3
    {
      if (at, id) in cache {
        return cache[(at, id)];
      }
      r := ParseNode(id, at);
      cache := cache[(at, id) := r];
    }

    // any calls at all, one after the other on the same cache
    method ParseAll(calls: seq<(nat, nat)>) returns (rs: seq<Result>)
      requires Valid()
      requires forall i :: 0 <= i < |calls| ==> calls[i].0 < |c.nodes| && calls[i].1 <= |c.input|
      modifies this
      ensures Valid()
      ensures |rs| == |calls| && forall i :: 0 <= i < |calls| ==> rs[i] == Eval(c, calls[i].0, calls[i].1)
    {
      rs := [];
      for i := 0 to |calls|
        invariant Valid() && |rs| == i
        invariant forall j :: 0 <= j < i ==> rs[j] == Eval(c, calls[j].0, calls[j].1)
      {
        var r := Parse(calls[i].0, calls[i].1);
        rs := rs + [r];
      }
    }

    // parse_, which does not look in the cache for id itself
    method ParseNode(id: nat, at: nat) returns (r: Result)
      requires Valid() && id < |c.nodes| && at <= |c.input|
      modifies this
      ensures Valid() && r == Eval(c, id, at) && cache.Keys >= old(cache.Keys)
      decreases |c.input| - at, c.rank[id], 2
    {
      assert NodeOk(c, id);
      match c.nodes[id]
      case Optional(x) =>
        r := Parse(x, at);
        if r.Fail? {
          r := Ok([], at);
        }
      case ZeroOrMore(_) => r := ParseZeroOrMore(id, at);
      case And(_) => r := ParseAnd(id, at);
      case Or(_) => r := ParseOr(id, at);
      case Not(x) =>
        r := Parse(x, at);
        r := if r.Fail? then Ok([], at) else Fail(at, id);
      case Until(_) => r := ParseUntil(id, at);
      case SpecificUntil(_, _) => r := ParseSpecificUntil(id, at);
      case NonEmptyListOf(_, _) => r := ParseNonEmptyListOf(id, at);
      case NToM(_, _, _) => r := ParseNToM(id, at);
      case Named(tag, x) =>
        r := Parse(x, at);
        if r.Ok? {
          var kids := r.items;
          if kids == [] {
            kids := [Span(at, at)];
          }
          r := Ok([Composite(tag, kids)], r.end);
        }
      case Anon(x) => r := Parse(x, at);
      case Self(x) => r := ParseNode(x, at);
      case Class(template, plain) =>
        r := Parse(template, at);
        if r.Fail? {
          var r2 := Parse(plain, at);
          r := if r2.Ok? then r2 else Further(r, r2);
        }
      case RawString(prefix) =>
        r := Parse(prefix, at);
        if r.Ok? {
          r := RawStringRest(c, id, at, r.end);
        }
      case Balanced(_, _, _, _, _, _) => r := ParseBalanced(id, None, at);
      case _ => r := Eval(c, id, at);
    }

    method ParseZeroOrMore(id: nat, at: nat) returns (r: Result)
      requires Valid() && id < |c.nodes| && c.nodes[id].ZeroOrMore? && at <= |c.input|
      modifies this
      ensures Valid() && r == EvalMany(c, id, at, at, []) && cache.Keys >= old(cache.Keys)
      decreases |c.input| - at, c.rank[id], 1
    {
      assert NodeOk(c, id);
      var items, end := [], at;
      while true
        invariant Valid() && cache.Keys >= old(cache.Keys) && at <= end <= |c.input|
        invariant EvalMany(c, id, at, at, []) == EvalMany(c, id, at, end, items)
        decreases |c.input| - end
      {
        r := Parse(c.nodes[id].x, end);
        if r.Fail? {
          return Ok(items, end);
        }
        items, end := items + r.items, r.end;
      }
    }

    method ParseAnd(id: nat, at: nat) returns (r: Result)
      requires Valid() && id < |c.nodes| && c.nodes[id].And? && at <= |c.input|
      modifies this
      ensures Valid() && Reached(c, id, at, 0, at) && r == EvalAnd(c, id, at, 0, at, []) && cache.Keys >= old(cache.Keys)
      decreases |c.input| - at, c.rank[id], 1
    {
      assert NodeOk(c, id);
      var terms := c.nodes[id].terms;
      var items, end := [], at;
      for i := 0 to |terms|
        invariant Valid() && cache.Keys >= old(cache.Keys) && at <= end <= |c.input|
        invariant Reached(c, id, at, i, end)
        invariant EvalAnd(c, id, at, 0, at, []) == EvalAnd(c, id, at, i, end, items)
      {
        r := Parse(terms[i], end);
        if r.Fail? {
          return;
        }
        assert terms[i..][1..] == terms[i + 1..];
        assert end == at && r.end == end ==> AllEmpty(c, terms[..i + 1]) by {
          assert terms[..i + 1] == terms[..i] + [terms[i]];
        }
        items, end := items + r.items, r.end;
      }
      return Ok(items, end);
    }

    method ParseOr(id: nat, at: nat) returns (r: Result)
      requires Valid() && id < |c.nodes| && c.nodes[id].Or? && at <= |c.input|
      modifies this
      ensures Valid() && r == Eval(c, id, at) && cache.Keys >= old(cache.Keys)
      decreases |c.input| - at, c.rank[id], 1
    {
      assert NodeOk(c, id);
      var terms := c.nodes[id].terms;
      // the failures so far, in the order in which the multimap keeps them
      var failures: seq<Result> := [];
      for i := 0 to |terms|
        invariant Valid() && cache.Keys >= old(cache.Keys)
        invariant |failures| == i
        invariant forall j :: 0 <= j < i ==> failures[j].Fail? && Bounded(c, at, failures[j])
        invariant i > 0 ==> Eval(c, id, at) == EvalOr(c, id, at, i, failures[i - 1])
      {
        r := Parse(terms[i], at);
        if r.Ok? {
          return;
        }
        failures := Insert(failures, r);
      }
      return failures[|failures| - 1];
    }

    // multimap insertion: after every failure that got no further
    static function Insert(fs: seq<Result>, f: Result): (gs: seq<Result>)
      requires f.Fail? && forall j :: 0 <= j < |fs| ==> fs[j].Fail?
      ensures |gs| == |fs| + 1
      ensures forall j :: 0 <= j < |gs| ==> gs[j] == f || gs[j] in fs
      ensures gs[|gs| - 1] == if fs == [] then f else Further(fs[|fs| - 1], f)
    {
      if fs == [] || fs[|fs| - 1].at <= f.at then fs + [f]
      else Insert(fs[..|fs| - 1], f) + [fs[|fs| - 1]]
    }

    method ParseUntil(id: nat, at: nat) returns (r: Result)
      requires Valid() && id < |c.nodes| && c.nodes[id].Until? && at <= |c.input|
      modifies this
      ensures Valid() && r == EvalUntil(c, id, at, at) && cache.Keys >= old(cache.Keys)
      decreases |c.input| - at, c.rank[id], 1
    {
      assert NodeOk(c, id);
      var end := at;
      while true
        invariant Valid() && cache.Keys >= old(cache.Keys) && at <= end <= |c.input|
        invariant EvalUntil(c, id, at, at) == EvalUntil(c, id, at, end)
        decreases |c.input| - end
      {
        r := ParseNode(c.nodes[id].x, end);
        if r.Ok? {
          return Ok([Span(at, end)], end);
        }
        if end == |c.input| {
          return Fail(end, id);
        }
        end := end + 1;
      }
    }

    method ParseSpecificUntil(id: nat, at: nat) returns (r: Result)
      requires Valid() && id < |c.nodes| && c.nodes[id].SpecificUntil? && at <= |c.input|
      modifies this
      ensures Valid() && r == EvalSpecificUntil(c, id, at, at, []) && cache.Keys >= old(cache.Keys)
      decreases |c.input| - at, c.rank[id], 1
    {
      assert NodeOk(c, id);
      var items, end := [], at;
      while true
        invariant Valid() && cache.Keys >= old(cache.Keys) && at <= end <= |c.input|
        invariant EvalSpecificUntil(c, id, at, at, []) == EvalSpecificUntil(c, id, at, end, items)
        decreases |c.input| - end
      {
        var re := ParseNode(c.nodes[id].until, end);
        if re.Ok? {
          return Ok(items, end);
        }
        r := ParseNode(c.nodes[id].item, end);
        if r.Fail? {
          return;
        }
        items, end := items + r.items, r.end;
      }
    }

    method ParseNonEmptyListOf(id: nat, at: nat) returns (r: Result)
      requires Valid() && id < |c.nodes| && c.nodes[id].NonEmptyListOf? && at <= |c.input|
      modifies this
      ensures Valid() && r == EvalList(c, id, at, at, []) && cache.Keys >= old(cache.Keys)
      decreases |c.input| - at, c.rank[id], 1
    {
      assert NodeOk(c, id);
      var items, i := [], at;
      while true
        invariant Valid() && cache.Keys >= old(cache.Keys) && at <= i <= |c.input|
        invariant EvalList(c, id, at, at, []) == EvalList(c, id, at, i, items)
        decreases |c.input| - i
      {
        r := Parse(c.nodes[id].x, i);
        if r.Fail? {
          return;
        }
        items, i := items + r.items, r.end;
        var more := Parse(c.nodes[id].more, i);
        if more.Fail? {
          return Ok(items, i);
        }
        items, i := items + more.items, more.end;
      }
    }

    method ParseNToM(id: nat, at: nat) returns (r: Result)
      requires Valid() && id < |c.nodes| && c.nodes[id].NToM? && at <= |c.input|
      modifies this
      ensures Valid() && r == EvalNToM(c, id, at, 0, at, []) && cache.Keys >= old(cache.Keys)
      decreases |c.input| - at, c.rank[id], 1
    {
      assert NodeOk(c, id);
      var items, end := [], at;
      for k := 0 to c.nodes[id].m
        invariant Valid() && cache.Keys >= old(cache.Keys) && at <= end <= |c.input|
        invariant end == at ==> k == 0 || c.empty[id]
        invariant EvalNToM(c, id, at, 0, at, []) == EvalNToM(c, id, at, k, end, items)
      {
        r := Parse(c.nodes[id].x, end);
        if r.Ok? {
          items, end := items + r.items, r.end;
        } else if k >= c.nodes[id].n {
          return Ok(items, end);
        } else {
          return Fail(r.at, id);
        }
      }
      return Ok(items, end);
    }

    // ParseBalanced::parse_, for the parser itself or for the text inside a bracket
    method ParseBalanced(id: nat, closer: Option<char>, at: nat) returns (r: Result)
      requires Valid() && id < |c.nodes| && c.nodes[id].Balanced? && at <= |c.input|
      modifies this
      ensures Valid() && r == Scan(c, id, closer, at, at) && cache.Keys >= old(cache.Keys)
      decreases |c.input| - at, c.rank[id], 1
    {
      assert NodeOk(c, id);
      var n := c.nodes[id];
      var end := at;
      while true
        invariant Valid() && cache.Keys >= old(cache.Keys) && at <= end <= |c.input|
        invariant Scan(c, id, closer, at, at) == Scan(c, id, closer, at, end)
        decreases |c.input| - end
      {
        var stop := false;
        if closer.Some? {
          stop := end < |c.input| && c.input[end] == closer.value;
        } else {
          var r1 := ParseNode(n.until, end);
          stop := r1.Ok?;
        }
        if stop {
          return Ok([Span(at, end)], end);
        }
        if end == |c.input| {
          return Fail(end, id);
        }
        r := ScanStep(id, end);
        if r.Fail? {
          return;
        }
        end := r.end;
      }
    }

    // the switch on the next character
    method ScanStep(id: nat, end: nat) returns (r: Result)
      requires Valid() && id < |c.nodes| && c.nodes[id].Balanced? && end < |c.input|
      modifies this
      ensures Valid() && cache.Keys >= old(cache.Keys)
      ensures var s := Step(c, id, end); if s.Fail? then r == s else r.Ok? && r.end == s.end
      decreases |c.input| - end, c.rank[id], 0
    {
      assert NodeOk(c, id);
      var n := c.nodes[id];
      var ch := c.input[end];
      if LooksRaw(c.input, end) {
        r := ParseNode(n.raw, end);
      } else if ch == '\'' {
        r := ParseNode(n.chr, end);
      } else if ch == '"' {
        r := ParseNode(n.str, end);
      } else if Closer(ch, n.angles).Some? {
        r := ParseBalanced(id, Closer(ch, n.angles), end + 1);
        if r.Ok? {
          r := Ok([], r.end + 1);
        }
      } else if ch == '/' {
        r := ParseNode(n.comments, end);
        if r.Fail? {
          r := Ok([], end + 1);
        }
      } else {
        r := Ok([], end + 1);
      }
    }
  }
}
