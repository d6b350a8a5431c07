/** The parser combinators of hcp/parser.cc as a graph of parser objects, and what
    each of them yields when nothing is cached. */
module Peg {
  import opened Wrappers

  // an AST item: its span, or the items it is made of
  datatype Item =
    | Span(b: nat, e: nat)
    | Composite(tag: string, kids: seq<Item>)
  {
    function Begin(): nat {
      match this
      case Span(b, _) => b
      case Composite(_, kids) => if kids == [] then 0 else kids[0].Begin()
    }

    function End(): nat {
      match this
      case Span(_, e) => e
      case Composite(_, kids) => if kids == [] then 0 else kids[|kids| - 1].End()
    }
  }

  // a failure keeps its position and the parser object that raised it
  datatype Result =
    | Ok(items: seq<Item>, end: nat)
    | Fail(at: nat, culprit: nat)

  // parser objects refer to each other by their place in the graph
  datatype Node =
    | AnyChar
    | OneOf(chars: set<char>)
    | Except(chars: set<char>)
    | Range(lo: char, hi: char)
    | Literal(text: string)
    | Hash
    | Identifier
    | EndOfFile
    | Optional(x: nat)
    | ZeroOrMore(x: nat)
    | And(terms: seq<nat>)
    | Or(terms: seq<nat>)
    | Not(x: nat)
    | Until(x: nat)
    | SpecificUntil(item: nat, until: nat)
    | NonEmptyListOf(x: nat, more: nat)
    | NToM(n: nat, m: nat, x: nat)
    | Named(tag: string, x: nat)
    | Anon(x: nat)
    | Self(x: nat)
    | Class(template: nat, plain: nat)
    | RawString(prefix: nat)
    | Balanced(until: nat, angles: bool, raw: nat, chr: nat, str: nat, comments: nat)

  /** A graph of parsers applied to a text.  rank and empty say why parsing ends:
      a parser reached without consuming anything has a lower rank, and empty[i]
      holds of every parser that may succeed on no text. */
  datatype Ctx = Ctx(nodes: seq<Node>, rank: seq<nat>, empty: seq<bool>, input: string)

  predicate IsIdentifierChar(c: char) {
    'a' <= c <= 'z' || 'A' <= c <= 'Z' || c == '_'
  }

  predicate IsIdentifierContChar(c: char) {
    IsIdentifierChar(c) || '0' <= c <= '9'
  }

  predicate IsSpace(c: char) {
    c in " \t\n\r" || c == 11 as char || c == 12 as char
  }

  // ---- grammars without left recursion whose repeated bodies never succeed on no text

  // x may be reached from id without consuming anything
  predicate Below(c: Ctx, x: nat, id: nat)
    requires |c.rank| == |c.nodes| && id < |c.nodes|
  {
    x < |c.nodes| && c.rank[x] < c.rank[id]
  }

  // the terms from the first one on, as long as nothing need be consumed
  predicate HeadsBelow(c: Ctx, terms: seq<nat>, id: nat)
    requires |c.rank| == |c.nodes| == |c.empty| && id < |c.nodes|
  {
    terms == [] ||
    (Below(c, terms[0], id) && (c.empty[terms[0]] ==> HeadsBelow(c, terms[1..], id)))
  }

  predicate AllEmpty(c: Ctx, terms: seq<nat>)
    requires |c.rank| == |c.nodes| == |c.empty|
  {
    forall i :: 0 <= i < |terms| ==> terms[i] < |c.nodes| && c.empty[terms[i]]
  }

  predicate NodeOk(c: Ctx, id: nat)
    requires |c.rank| == |c.nodes| == |c.empty| && id < |c.nodes|
  {
    match c.nodes[id]
    case Literal(text) => text == "" ==> c.empty[id]
    case EndOfFile => c.empty[id]
    case Optional(x) => Below(c, x, id) && c.empty[id]
    case ZeroOrMore(x) => Below(c, x, id) && !c.empty[x] && c.empty[id]
    case And(terms) =>
      terms != [] && (forall i :: 0 <= i < |terms| ==> terms[i] < |c.nodes|) &&
      HeadsBelow(c, terms, id) && (AllEmpty(c, terms) ==> c.empty[id])
    case Or(terms) =>
      terms != [] &&
      (forall i :: 0 <= i < |terms| ==> Below(c, terms[i], id) && (c.empty[terms[i]] ==> c.empty[id]))
    case Not(x) => Below(c, x, id) && c.empty[id]
    case Until(x) => Below(c, x, id) && c.empty[id]
    case SpecificUntil(item, until) =>
      Below(c, item, id) && Below(c, until, id) && !c.empty[item] && c.empty[id]
    case NonEmptyListOf(x, more) =>
      Below(c, x, id) && more < |c.nodes| && (c.empty[x] ==> Below(c, more, id) && c.empty[id]) &&
      !(c.empty[x] && c.empty[more])
    case NToM(n, m, x) => Below(c, x, id) && (n == 0 || m == 0 || c.empty[x] ==> c.empty[id])
    case Named(_, x) => Below(c, x, id) && (c.empty[x] ==> c.empty[id])
    case Anon(x) => Below(c, x, id) && (c.empty[x] ==> c.empty[id])
    case Self(x) => Below(c, x, id) && (c.empty[x] ==> c.empty[id])
    case Class(template, plain) =>
      Below(c, template, id) && Below(c, plain, id) && (c.empty[template] || c.empty[plain] ==> c.empty[id])
    case RawString(prefix) => Below(c, prefix, id)
    case Balanced(until, _, raw, chr, str, comments) =>
      Below(c, until, id) && Below(c, raw, id) && Below(c, chr, id) && Below(c, str, id) && Below(c, comments, id) &&
      !c.empty[raw] && !c.empty[chr] && !c.empty[str] && !c.empty[comments] && c.empty[id]
    case _ => true
  }

  predicate WF(c: Ctx) {
    |c.rank| == |c.nodes| == |c.empty| && forall id :: 0 <= id < |c.nodes| ==> NodeOk(c, id)
  }

  // nothing ends or fails before it starts, or beyond the text
  predicate Bounded(c: Ctx, at: nat, r: Result) {
    match r
    case Ok(_, end) => at <= end <= |c.input|
    case Fail(f, _) => at <= f <= |c.input|
  }

  // ---- leaves

  // how much of text is found at position at
  function MatchLength(text: string, input: string, at: nat): (n: nat)
    requires at <= |input|
    ensures n <= |text| && at + n <= |input| && input[at..at + n] == text[..n]
    ensures n < |text| ==> at + n == |input| || input[at + n] != text[n]
  {
    if text == "" || at == |input| || text[0] != input[at] then 0
    else
      var m := MatchLength(text[1..], input, at + 1);
      assert input[at..at + 1 + m] == [input[at]] + input[at + 1..at + 1 + m];
      assert text[..1 + m] == [text[0]] + text[1..][..m];
      1 + m
  }

  function IdentifierEnd(input: string, at: nat): (e: nat)
    requires at <= |input|
    ensures at <= e <= |input|
    decreases |input| - at
  {
    if at < |input| && IsIdentifierContChar(input[at]) then IdentifierEnd(input, at + 1) else at
  }

  function OneChar(c: Ctx, id: nat, at: nat, ok: bool): Result {
    if ok then Ok([Span(at, at + 1)], at + 1) else Fail(at, id)
  }

  // where literal text is first found at or after position at
  function FindLiteral(text: string, input: string, at: nat): (e: nat)
    requires at <= |input|
    ensures at <= e <= |input|
    decreases |input| - at
  {
    if MatchLength(text, input, at) == |text| || at == |input| then at else FindLiteral(text, input, at + 1)
  }

  // the '(' that ends a raw string's delimiter, n characters of which have been read; or what is wrong
  function DelimiterEnd(c: Ctx, id: nat, i: nat, n: nat): (r: Result)
    requires i <= |c.input| && n <= 16
    ensures Bounded(c, i, r) && (r.Ok? ==> r.end < |c.input| && c.input[r.end] == '(' && r.end - i <= 16 - n)
    decreases 16 - n
  {
    if i == |c.input| then Fail(i, id)
    else if c.input[i] == '(' then Ok([], i)
    else if n == 16 then Fail(i, id)
    else if IsSpace(c.input[i]) || c.input[i] == '\\' || c.input[i] == ')' then Fail(i, id)
    else DelimiterEnd(c, id, i + 1, n + 1)
  }

  // a raw string literal, its prefix parsed up to i
  function RawStringRest(c: Ctx, id: nat, at: nat, i: nat): (r: Result)
    requires at <= i <= |c.input|
    ensures Bounded(c, i, r) && (r.Ok? ==> r.end > i)
  {
    var d := DelimiterEnd(c, id, i, 0);
    if d.Fail? then d else
    var close := ")" + c.input[i..d.end] + "\"";
    var e := FindLiteral(close, c.input, d.end);
    if MatchLength(close, c.input, e) < |close| then Fail(e, id)
    else Ok([Span(at, e + |close|)], e + |close|)
  }

  // ---- the cache-free meaning of a parser at a position

  function Eval(c: Ctx, id: nat, at: nat): (r: Result)
    requires WF(c) && id < |c.nodes| && at <= |c.input|
    ensures Bounded(c, at, r) && (r.Ok? && r.end == at ==> c.empty[id])
    decreases |c.input| - at, c.rank[id], 1, 0
  {
    assert NodeOk(c, id);
    match c.nodes[id]
    case AnyChar => OneChar(c, id, at, at < |c.input|)
    case OneOf(chars) => OneChar(c, id, at, at < |c.input| && c.input[at] in chars)
    case Except(chars) => OneChar(c, id, at, at < |c.input| && c.input[at] !in chars)
    case Range(lo, hi) => OneChar(c, id, at, at < |c.input| && lo <= c.input[at] <= hi)
    case Literal(text) =>
      var n := MatchLength(text, c.input, at);
      if n == |text| then Ok([Span(at, at + n)], at + n) else Fail(at + n, id)
    case Hash =>
      OneChar(c, id, at, at < |c.input| && (at == 0 || c.input[at - 1] == '\n') && c.input[at] == '#')
    case Identifier =>
      if at < |c.input| && IsIdentifierChar(c.input[at])
      then Ok([Span(at, IdentifierEnd(c.input, at + 1))], IdentifierEnd(c.input, at + 1))
      else Fail(at, id)
    case EndOfFile =>
      if at == |c.input| then Ok([Composite("EndOfFile", [Span(at, at)])], at) else Fail(at, id)
    case Optional(x) =>
      var r := Eval(c, x, at);
      if r.Ok? then r else Ok([], at)
    case ZeroOrMore(x) => EvalMany(c, id, at, at, [])
    case And(terms) => EvalAnd(c, id, at, 0, at, [])
    case Or(terms) =>
      var r := Eval(c, terms[0], at);
      if r.Ok? then r else EvalOr(c, id, at, 1, r)
    case Not(x) => if Eval(c, x, at).Fail? then Ok([], at) else Fail(at, id)
    case Until(x) => EvalUntil(c, id, at, at)
    case SpecificUntil(_, _) => EvalSpecificUntil(c, id, at, at, [])
    case NonEmptyListOf(_, _) => EvalList(c, id, at, at, [])
    case NToM(_, _, _) => EvalNToM(c, id, at, 0, at, [])
    case Named(tag, x) =>
      var r := Eval(c, x, at);
      if r.Fail? then r
      else Ok([Composite(tag, if r.items == [] then [Span(at, at)] else r.items)], r.end)
    case Anon(x) => Eval(c, x, at)
    case Self(x) => Eval(c, x, at)
    case Class(template, plain) =>
      var r := Eval(c, template, at);
      if r.Ok? then r else
      var r2 := Eval(c, plain, at);
      if r2.Ok? then r2 else Further(r, r2)
    case RawString(prefix) =>
      var r := Eval(c, prefix, at);
      if r.Fail? then r else RawStringRest(c, id, at, r.end)
    case Balanced(_, _, _, _, _, _) => Scan(c, id, None, at, at)
  }

  // the failure a choice reports: the furthest, of equals the later alternative's
  function Further(f: Result, g: Result): Result
    requires f.Fail? && g.Fail?
  {
    if f.at <= g.at then g else f
  }

  function EvalMany(c: Ctx, id: nat, start: nat, at: nat, items: seq<Item>): (r: Result)
    requires WF(c) && id < |c.nodes| && c.nodes[id].ZeroOrMore? && start <= at <= |c.input|
    ensures Bounded(c, at, r) && r.Ok?
    decreases |c.input| - start, c.rank[id], 0, |c.input| - at
  {
    assert NodeOk(c, id);
    var r := Eval(c, c.nodes[id].x, at);
    if r.Fail? then Ok(items, at) else EvalMany(c, id, start, r.end, items + r.items)
  }

  // the terms before k have been parsed
  ghost predicate Reached(c: Ctx, id: nat, start: nat, k: nat, at: nat)
    requires WF(c) && id < |c.nodes| && c.nodes[id].And?
  {
    k <= |c.nodes[id].terms| &&
    (at == start ==> HeadsBelow(c, c.nodes[id].terms[k..], id) && AllEmpty(c, c.nodes[id].terms[..k]))
  }

  function EvalAnd(c: Ctx, id: nat, start: nat, k: nat, at: nat, items: seq<Item>): (r: Result)
    requires WF(c) && id < |c.nodes| && c.nodes[id].And? && start <= at <= |c.input|
    requires Reached(c, id, start, k, at)
    ensures Bounded(c, at, r) && (r.Ok? && r.end == start ==> c.empty[id])
    decreases |c.input| - start, c.rank[id], 0, |c.nodes[id].terms| - k
  {
    assert NodeOk(c, id);
    var terms := c.nodes[id].terms;
    if k == |terms| then
      assert terms[..k] == terms;
      Ok(items, at)
    else
      var r := Eval(c, terms[k], at);
      if r.Fail? then r else
      assert terms[k..][1..] == terms[k + 1..];
      assert at == start && r.end == at ==> AllEmpty(c, terms[..k + 1]) by { assert terms[..k + 1] == terms[..k] + [terms[k]]; }
      EvalAnd(c, id, start, k + 1, r.end, items + r.items)
  }

  // parsing one more term of a sequence keeps what the terms so far established
  lemma {:induction false} NextReached(c: Ctx, id: nat, start: nat, k: nat, at: nat)
    requires WF(c) && id < |c.nodes| && c.nodes[id].And? && start <= at <= |c.input|
    requires Reached(c, id, start, k, at) && k < |c.nodes[id].terms| && c.nodes[id].terms[k] < |c.nodes|
    ensures var r := Eval(c, c.nodes[id].terms[k], at); r.Ok? ==> Reached(c, id, start, k + 1, r.end)
  {
    var terms := c.nodes[id].terms;
    assert terms[k..][1..] == terms[k + 1..];
    assert terms[..k + 1] == terms[..k] + [terms[k]];
  }

  // the alternatives before k have failed, f being the failure to report of them
  function EvalOr(c: Ctx, id: nat, at: nat, k: nat, f: Result): (r: Result)
    requires WF(c) && id < |c.nodes| && c.nodes[id].Or? && at <= |c.input|
    requires k <= |c.nodes[id].terms| && f.Fail? && Bounded(c, at, f)
    ensures Bounded(c, at, r) && (r.Ok? && r.end == at ==> c.empty[id])
    decreases |c.input| - at, c.rank[id], 0, |c.nodes[id].terms| - k
  {
    assert NodeOk(c, id);
    if k == |c.nodes[id].terms| then f else
    var r := Eval(c, c.nodes[id].terms[k], at);
    if r.Ok? then r else EvalOr(c, id, at, k + 1, Further(f, r))
  }

  function EvalUntil(c: Ctx, id: nat, start: nat, at: nat): (r: Result)
    requires WF(c) && id < |c.nodes| && c.nodes[id].Until? && start <= at <= |c.input|
    ensures Bounded(c, at, r)
    decreases |c.input| - start, c.rank[id], 0, |c.input| - at
  {
    assert NodeOk(c, id);
    if Eval(c, c.nodes[id].x, at).Ok? then Ok([Span(start, at)], at)
    else if at == |c.input| then Fail(at, id)
    else EvalUntil(c, id, start, at + 1)
  }

  function EvalSpecificUntil(c: Ctx, id: nat, start: nat, at: nat, items: seq<Item>): (r: Result)
    requires WF(c) && id < |c.nodes| && c.nodes[id].SpecificUntil? && start <= at <= |c.input|
    ensures Bounded(c, at, r)
    decreases |c.input| - start, c.rank[id], 0, |c.input| - at
  {
    assert NodeOk(c, id);
    if Eval(c, c.nodes[id].until, at).Ok? then Ok(items, at) else
    var r := Eval(c, c.nodes[id].item, at);
    if r.Fail? then r else EvalSpecificUntil(c, id, start, r.end, items + r.items)
  }

  function EvalList(c: Ctx, id: nat, start: nat, at: nat, items: seq<Item>): (r: Result)
    requires WF(c) && id < |c.nodes| && c.nodes[id].NonEmptyListOf? && start <= at <= |c.input|
    ensures Bounded(c, at, r) && (r.Ok? && r.end == start ==> c.empty[id])
    decreases |c.input| - start, c.rank[id], 0, |c.input| - at
  {
    assert NodeOk(c, id);
    var r := Eval(c, c.nodes[id].x, at);
    if r.Fail? then r else
    var more := Eval(c, c.nodes[id].more, r.end);
    if more.Fail? then Ok(items + r.items, r.end)
    else EvalList(c, id, start, more.end, items + r.items + more.items)
  }

  function EvalNToM(c: Ctx, id: nat, start: nat, k: nat, at: nat, items: seq<Item>): (r: Result)
    requires WF(c) && id < |c.nodes| && c.nodes[id].NToM? && start <= at <= |c.input|
    requires k <= c.nodes[id].m && (at == start ==> k == 0 || c.empty[id])
    ensures Bounded(c, at, r) && (r.Ok? && r.end == start ==> c.empty[id])
    decreases |c.input| - start, c.rank[id], 0, c.nodes[id].m - k
  {
    assert NodeOk(c, id);
    if k == c.nodes[id].m then Ok(items, at) else
    var r := Eval(c, c.nodes[id].x, at);
    if r.Ok? then EvalNToM(c, id, start, k + 1, r.end, items + r.items)
    else if k >= c.nodes[id].n then Ok(items, at)
    else Fail(r.at, id)
  }

  // ---- balanced text

  predicate LookingAt(input: string, at: nat, text: string)
    requires at <= |input|
  {
    MatchLength(text, input, at) == |text|
  }

  predicate LooksRaw(input: string, at: nat)
    requires at <= |input|
  {
    LookingAt(input, at, "u8R\"") || LookingAt(input, at, "uR\"") || LookingAt(input, at, "UR\"") ||
    LookingAt(input, at, "LR\"") || LookingAt(input, at, "R\"")
  }

  // the closer that an opening bracket calls for
  function Closer(ch: char, angles: bool): Option<char> {
    if ch == '{' then Some('}')
    else if ch == '[' then Some(']')
    else if ch == '(' then Some(')')
    else if ch == '<' && angles then Some('>')
    else None
  }

  // whether the text ends here: at the parser's own until, or at the closer of a bracket
  predicate Stops(c: Ctx, id: nat, closer: Option<char>, at: nat)
    requires WF(c) && id < |c.nodes| && c.nodes[id].Balanced? && at <= |c.input|
    decreases |c.input| - at, c.rank[id], 0, 0
  {
    assert NodeOk(c, id);
    if closer.Some? then at < |c.input| && c.input[at] == closer.value
    else Eval(c, c.nodes[id].until, at).Ok?
  }

  // the literal or comment that starts here, if the scanner looks for one
  function Lexeme(c: Ctx, id: nat, at: nat): (r: Option<Result>)
    requires WF(c) && id < |c.nodes| && c.nodes[id].Balanced? && at < |c.input|
    ensures r.Some? ==> Bounded(c, at, r.value) && (r.value.Ok? ==> r.value.end > at)
    decreases |c.input| - at, c.rank[id], 0, 0
  {
    assert NodeOk(c, id);
    var n := c.nodes[id];
    if LooksRaw(c.input, at) then Some(Eval(c, n.raw, at))
    else if c.input[at] == '\'' then Some(Eval(c, n.chr, at))
    else if c.input[at] == '"' then Some(Eval(c, n.str, at))
    else if c.input[at] == '/' then
      var r := Eval(c, n.comments, at);
      if r.Ok? then Some(r) else None
    else None
  }

  // one turn of the scanner: past a literal, a comment, a bracket with what it encloses, or one character
  function Step(c: Ctx, id: nat, at: nat): (r: Result)
    requires WF(c) && id < |c.nodes| && c.nodes[id].Balanced? && at < |c.input|
    ensures Bounded(c, at, r) && (r.Ok? ==> r.end > at)
    decreases |c.input| - at, c.rank[id], 0, 1
  {
    var l := Lexeme(c, id, at);
    if l.Some? then l.value else
    var inner := Closer(c.input[at], c.nodes[id].angles);
    if inner.None? then Ok([], at + 1) else
    var r := Scan(c, id, inner, at + 1, at + 1);
    if r.Fail? then r else Ok([], r.end + 1)
  }

  function Scan(c: Ctx, id: nat, closer: Option<char>, start: nat, at: nat): (r: Result)
    requires WF(c) && id < |c.nodes| && c.nodes[id].Balanced? && start <= at <= |c.input|
    ensures Bounded(c, at, r) && (r.Ok? ==> r.items == [Span(start, r.end)] && Stops(c, id, closer, r.end))
    decreases |c.input| - start, c.rank[id], 0, 2 + |c.input| - at
  {
    if Stops(c, id, closer, at) then Ok([Span(start, at)], at)
    else if at == |c.input| then Fail(at, id)
    else
      var r := Step(c, id, at);
      if r.Fail? then r else Scan(c, id, closer, start, r.end)
  }
}
