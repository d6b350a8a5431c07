/** The string-literal parser of hcp/parser.cc as a graph, and what it makes of
    the strings that xju/format.cc escapes. */
module StringLiteral {
  import opened Peg
  import opened CEscape
  import opened Flattening

  function NodeAt(id: nat): Node {
    match id
    case 0 => Literal("\\")
    case 1 => OneOf({'\'', '"', '?', '\\', 'a', 'b', 'f', 'n', 'r', 't', 'v', 'u', 'U'})
    case 2 => Range('0', '7')                // octalDigit
    case 3 => And([2, 2, 2])
    case 4 => And([2, 2])
    case 5 => Literal("x")
    case 6 => Range('0', '9')
    case 7 => Range('a', 'f')
    case 8 => Range('A', 'F')
    case 9 => Or([6, 7, 8])                  // hexDigit
    case 10 => ZeroOrMore(9)
    case 11 => And([9, 10])
    case 12 => Anon(11)                      // at least one hexDigit
    case 13 => And([5, 12])
    case 14 => Or([1, 3, 4, 2, 13])
    case 15 => And([0, 14])                  // stringEscapeSequence
    case 16 => Except({'\\', '"', '\n'})
    case 17 => Or([16, 15])                  // s_char
    case 18 => OneOf({'"'})                  // doubleQuote
    case 19 => SpecificUntil(17, 18)
    case 20 => Named("S_Chars", 19)          // s_chars
    case 21 => OneOf({' ', '\t', '\n', '\r'}) // whitespaceChar
    case 22 => Literal("//")
    case 23 => Literal("/*")
    case 24 => Or([21, 22, 23])
    case 25 => Not(24)
    case 26 => OneOf({'\n'})
    case 27 => Until(26)
    case 28 => ZeroOrMore(21)
    case 29 => And([22, 27, 28])
    case 30 => Named("LineComment", 29)
    case 31 => Literal("*/")
    case 32 => Until(31)
    case 33 => ZeroOrMore(21)
    case 34 => And([23, 32, 31, 33])
    case 35 => Named("BlockComment", 34)
    case 36 => Or([30, 35])
    case 37 => ZeroOrMore(36)
    case 38 => And([36, 37])
    case 39 => Anon(38)
    case 40 => Named("Comments", 39)         // comments
    case 41 => Or([21, 40])
    case 42 => ZeroOrMore(41)
    case 43 => Named("WhiteSpace", 42)
    case 44 => Or([25, 43])
    case 45 => Anon(44)                      // eatWhite
    case 46 => And([18, 20, 18, 45])
    case 47 => ZeroOrMore(46)
    case 48 => And([18, 20, 18, 45, 47])
    case 49 => Anon(48)
    case _ => Named("StringLiteral", 49)     // stringLiteral
  }

  const STRING_LITERAL: nat := 50

  predicate MayBeEmpty(id: nat) {
    id in {10, 19, 20, 25, 27, 28, 32, 33, 37, 42, 43, 44, 45, 47}
  }

  function Over(input: string): Ctx {
    Ctx(seq(51, i requires 0 <= i => NodeAt(i)), seq(51, i => i), seq(51, i requires 0 <= i => MayBeEmpty(i)), input)
  }

  lemma GraphIsWellFormed(input: string)
    ensures WF(Over(input))
  {
    var c := Over(input);
    forall id | 0 <= id < 51 ensures NodeOk(c, id) {
      NodeIsOk(c, id);
    }
  }

  lemma NodeIsOk(c: Ctx, id: nat)
    requires c == Over(c.input) && id < 51
    ensures NodeOk(c, id)
  {
    if c.nodes[id].And? {
      AndIsOk(c, id);
    } else if c.nodes[id].Or? {
      OrIsOk(c, id);
    } else if id < 21 {
      LowIsOk(c, id);
    } else {
      HighIsOk(c, id);
    }
  }

  lemma AndIsOk(c: Ctx, id: nat)
    requires c == Over(c.input) && id < 51 && NodeAt(id).And?
    ensures NodeOk(c, id)
  {
    var terms := NodeAt(id).terms;
    assert terms[0] < id && !MayBeEmpty(terms[0]);
    assert forall i :: 0 <= i < |terms| ==> terms[i] < 51;
  }

  lemma OrIsOk(c: Ctx, id: nat)
    requires c == Over(c.input) && id < 51 && NodeAt(id).Or?
    ensures NodeOk(c, id)
  {
    var terms := NodeAt(id).terms;
    assert forall i :: 0 <= i < |terms| ==> terms[i] < id && (MayBeEmpty(terms[i]) ==> MayBeEmpty(id));
  }

  lemma LowIsOk(c: Ctx, id: nat)
    requires c == Over(c.input) && id < 21 && !NodeAt(id).And? && !NodeAt(id).Or?
    ensures NodeOk(c, id)
  {
  }

  lemma HighIsOk(c: Ctx, id: nat)
    requires c == Over(c.input) && 21 <= id < 51 && !NodeAt(id).And? && !NodeAt(id).Or?
    ensures NodeOk(c, id)
  {
  }

  // ---- parsing what Escape wrote

  // a sequence goes as far as its first term and then as far as the rest
  lemma {:induction false} Goes(c: Ctx, terms: seq<nat>, at: nat, m: nat)
    requires WF(c) && InGraph(c, terms) && terms != [] && at <= |c.input|
    requires Eval(c, terms[0], at).Ok? && Eval(c, terms[0], at).end == m && InSequence(c, terms[1..], m).Ok?
    ensures InSequence(c, terms, at).Ok? && InSequence(c, terms, at).end == InSequence(c, terms[1..], m).end
    ensures InSequence(c, terms, at).items == Eval(c, terms[0], at).items + InSequence(c, terms[1..], m).items
  {
  }

  lemma {:induction false} Two(c: Ctx, id: nat, a: nat, b: nat, at: nat)
    requires WF(c) && id < |c.nodes| && c.nodes[id] == And([a, b]) && at <= |c.input|
    requires a < |c.nodes| && b < |c.nodes|
    requires Eval(c, a, at).Ok? && Eval(c, b, Eval(c, a, at).end).Ok?
    ensures Eval(c, id, at).Ok? && Eval(c, id, at).end == Eval(c, b, Eval(c, a, at).end).end
  {
    var m := Eval(c, a, at).end;
    EvalOfAnd(c, id, at);
    assert [a, b][1..] == [b] && [b][1..] == [];
    Goes(c, [b], m, Eval(c, b, m).end);
    Goes(c, [a, b], at, m);
  }

  lemma {:induction false} Three(c: Ctx, id: nat, a: nat, at: nat)
    requires WF(c) && id < |c.nodes| && c.nodes[id] == And([a, a, a]) && at + 3 <= |c.input| && a < |c.nodes|
    requires forall i :: at <= i < at + 3 ==> Eval(c, a, i).Ok? && Eval(c, a, i).end == i + 1
    ensures Eval(c, id, at).Ok? && Eval(c, id, at).end == at + 3
  {
    EvalOfAnd(c, id, at);
    assert [a, a, a][1..] == [a, a] && [a, a][1..] == [a] && [a][1..] == [];
    Goes(c, [a], at + 2, at + 3);
    Goes(c, [a, a], at + 1, at + 2);
    Goes(c, [a, a, a], at, at + 1);
  }

  // what the lemmas below need to know of a parser of single string characters
  ghost predicate EatsPlain(c: Ctx, id: nat)
    requires WF(c) && id < |c.nodes|
  {
    forall at: nat :: at < |c.input| && c.input[at] !in {'\\', '"', '\n'} ==>
      Eval(c, id, at).Ok? && Eval(c, id, at).end == at + 1
  }

  ghost predicate EatsNamed(c: Ctx, id: nat)
    requires WF(c) && id < |c.nodes|
  {
    forall at: nat :: at + 1 < |c.input| && c.input[at] == '\\' && IsNamed(c.input[at + 1]) ==>
      Eval(c, id, at).Ok? && Eval(c, id, at).end == at + 2
  }

  predicate OctalAt(c: Ctx, at: nat) {
    at + 3 < |c.input| && c.input[at] == '\\' &&
    IsOctalDigit(c.input[at + 1]) && IsOctalDigit(c.input[at + 2]) && IsOctalDigit(c.input[at + 3])
  }

  ghost predicate EatsOctal(c: Ctx, id: nat)
    requires WF(c) && id < |c.nodes|
  {
    forall at: nat :: OctalAt(c, at) ==> Eval(c, id, at).Ok? && Eval(c, id, at).end == at + 4
  }

  // ... and of the parser of the closing quote
  ghost predicate EatsQuote(c: Ctx, id: nat)
    requires WF(c) && id < |c.nodes|
  {
    forall at: nat :: at <= |c.input| ==>
      if at < |c.input| && c.input[at] == '"' then Eval(c, id, at) == Ok([Span(at, at + 1)], at + 1)
      else Eval(c, id, at).Fail?
  }

  // the text from at on reads t
  predicate Reads(input: string, at: nat, t: string) {
    at + |t| <= |input| && input[at..at + |t|] == t
  }

  lemma ReadsAt(input: string, at: nat, t: string, i: nat)
    requires Reads(input, at, t) && i < |t|
    ensures input[at + i] == t[i]
  {
    assert input[at..at + |t|][i] == input[at + i];
  }

  lemma ReadsSplit(input: string, at: nat, x: string, y: string)
    requires Reads(input, at, x + y)
    ensures Reads(input, at, x) && Reads(input, at + |x|, y)
  {
    assert input[at..at + |x|] == input[at..at + |x + y|][..|x|];
    assert input[at + |x|..at + |x + y|] == input[at..at + |x + y|][|x|..];
    assert (x + y)[..|x|] == x && (x + y)[|x|..] == y;
  }

  // the parser of the inside of a literal
  ghost predicate IsStringChars(c: Ctx, id: nat) {
    WF(c) && id < |c.nodes| && c.nodes[id].SpecificUntil? &&
    c.nodes[id].item < |c.nodes| && c.nodes[id].until < |c.nodes| &&
    EatsQuote(c, c.nodes[id].until) &&
    EatsPlain(c, c.nodes[id].item) && EatsNamed(c, c.nodes[id].item) && EatsOctal(c, c.nodes[id].item)
  }

  // it goes on past one item
  lemma OneTurn(c: Ctx, id: nat, start: nat, at: nat, items: seq<Item>) returns (more: seq<Item>)
    requires WF(c) && id < |c.nodes| && c.nodes[id].SpecificUntil? && start <= at < |c.input| && c.input[at] != '"'
    requires c.nodes[id].item < |c.nodes| && c.nodes[id].until < |c.nodes|
    requires EatsQuote(c, c.nodes[id].until) && Eval(c, c.nodes[id].item, at).Ok?
    ensures EvalSpecificUntil(c, id, start, at, items) ==
              EvalSpecificUntil(c, id, start, Eval(c, c.nodes[id].item, at).end, more)
  {
    more := items + Eval(c, c.nodes[id].item, at).items;
  }

  lemma OctalTurn(c: Ctx, id: nat, ch: Byte, start: nat, at: nat, items: seq<Item>) returns (more: seq<Item>)
    requires IsStringChars(c, id) && start <= at && NeedsOctal(ch) && Reads(c.input, at, EscapeStringChar(ch))
    ensures EvalSpecificUntil(c, id, start, at, items) == EvalSpecificUntil(c, id, start, at + 5, more)
  {
    var e := EscapeStringChar(ch);
    OctalEscape(ch, "");
    assert e + "" == e;
    ReadsAt(c.input, at, e, 0); ReadsAt(c.input, at, e, 1); ReadsAt(c.input, at, e, 2);
    ReadsAt(c.input, at, e, 3); ReadsAt(c.input, at, e, 4);
    assert OctalAt(c, at);
    more := OneTurn(c, id, start, at, items);
    more := OneTurn(c, id, start, at + 4, more);
  }

  lemma NamedTurn(c: Ctx, id: nat, e: string, start: nat, at: nat, items: seq<Item>) returns (more: seq<Item>)
    requires IsStringChars(c, id) && start <= at && Reads(c.input, at, e)
    requires |e| == 2 && e[0] == '\\' && IsNamed(e[1])
    ensures EvalSpecificUntil(c, id, start, at, items) == EvalSpecificUntil(c, id, start, at + 2, more)
  {
    ReadsAt(c.input, at, e, 0);
    ReadsAt(c.input, at, e, 1);
    more := OneTurn(c, id, start, at, items);
  }

  lemma PlainTurn(c: Ctx, id: nat, e: string, start: nat, at: nat, items: seq<Item>) returns (more: seq<Item>)
    requires IsStringChars(c, id) && start <= at && Reads(c.input, at, e)
    requires |e| == 1 && e[0] !in {'\\', '"', '\n'}
    ensures EvalSpecificUntil(c, id, start, at, items) == EvalSpecificUntil(c, id, start, at + 1, more)
  {
    ReadsAt(c.input, at, e, 0);
    more := OneTurn(c, id, start, at, items);
  }

  lemma OneEscape(c: Ctx, id: nat, ch: Byte, start: nat, at: nat, items: seq<Item>) returns (more: seq<Item>)
    requires IsStringChars(c, id) && start <= at && Reads(c.input, at, EscapeStringChar(ch))
    ensures EvalSpecificUntil(c, id, start, at, items) ==
              EvalSpecificUntil(c, id, start, at + |EscapeStringChar(ch)|, more)
  {
    if NeedsOctal(ch) {
      OctalEscape(ch, "");
      more := OctalTurn(c, id, ch, start, at, items);
    } else if |EscapeStringChar(ch)| == 1 {
      PlainEscape(ch);
      more := PlainTurn(c, id, EscapeStringChar(ch), start, at, items);
    } else {
      NamedEscape(ch);
      more := NamedTurn(c, id, EscapeStringChar(ch), start, at, items);
    }
  }

  lemma {:induction false} ReadsEscape(input: string, at: nat, s: Bytes)
    requires s != [] && Reads(input, at, Escape(s) + "\"")
    ensures Reads(input, at, EscapeStringChar(s[0]))
    ensures Reads(input, at + |EscapeStringChar(s[0])|, Escape(s[1..]) + "\"")
    ensures |Escape(s)| == |EscapeStringChar(s[0])| + |Escape(s[1..])|
  {
    ReadsParts(input, at, Escape(s), EscapeStringChar(s[0]), Escape(s[1..]));
  }

  lemma ReadsParts(input: string, at: nat, all: string, x: string, y: string)
    requires Reads(input, at, all + "\"") && all == x + y
    ensures Reads(input, at, x) && Reads(input, at + |x|, y + "\"") && |all| == |x| + |y|
  {
    assert all + "\"" == x + (y + "\"");
    ReadsSplit(input, at, x, y + "\"");
  }

  lemma {:induction false} EscapePassed(c: Ctx, id: nat, ch: Byte, start: nat, at: nat, next: nat, items: seq<Item>)
    returns (more: seq<Item>)
    requires IsStringChars(c, id) && start <= at && Reads(c.input, at, EscapeStringChar(ch))
    requires next == at + |EscapeStringChar(ch)|
    ensures EvalSpecificUntil(c, id, start, at, items) == EvalSpecificUntil(c, id, start, next, more)
  {
    more := OneEscape(c, id, ch, start, at, items);
  }

  lemma {:induction false} EndsAtQuote(c: Ctx, id: nat, start: nat, at: nat, items: seq<Item>)
    requires IsStringChars(c, id) && start <= at && Reads(c.input, at, "\"")
    ensures var r := EvalSpecificUntil(c, id, start, at, items);
      r.Ok? && r.end == at
  {
    ReadsAt(c.input, at, "\"", 0);
  }

  lemma {:induction false} UpToQuote(c: Ctx, id: nat, s: Bytes, start: nat, at: nat, items: seq<Item>)
    requires IsStringChars(c, id) && start <= at && Reads(c.input, at, Escape(s) + "\"")
    ensures var r := EvalSpecificUntil(c, id, start, at, items);
      r.Ok? && r.end == at + |Escape(s)|
  {
    if s == [] {
      assert Escape(s) + "\"" == "\"";
      EndsAtQuote(c, id, start, at, items);
    } else {
      ReadsEscape(c.input, at, s);
      var next := at + |EscapeStringChar(s[0])|;
      var more := EscapePassed(c, id, s[0], start, at, next, items);
      UpToQuote(c, id, s[1..], start, next, more);
    }
  }

  // ---- the parsers of the graph

  lemma QuoteEats(c: Ctx, q: nat)
    requires WF(c) && q < |c.nodes| && c.nodes[q] == OneOf({'"'})
    ensures EatsQuote(c, q)
  {
  }

  // s_char, given the parsers it is built from
  lemma PlainEats(c: Ctx, sChar: nat, plain: nat, escape: nat)
    requires WF(c) && sChar < |c.nodes| && plain < |c.nodes| && c.nodes[sChar] == Or([plain, escape])
    requires c.nodes[plain] == Except({'\\', '"', '\n'})
    ensures EatsPlain(c, sChar)
  {
    assert NodeOk(c, sChar);
  }

  lemma EscapeEats(c: Ctx, sChar: nat, plain: nat, escape: nat, backslash: nat, body: nat, at: nat)
    requires WF(c) && sChar < |c.nodes| && plain < |c.nodes| && escape < |c.nodes| && backslash < |c.nodes| && body < |c.nodes|
    requires c.nodes[sChar] == Or([plain, escape]) && c.nodes[plain] == Except({'\\', '"', '\n'})
    requires c.nodes[escape] == And([backslash, body]) && c.nodes[backslash] == Literal("\\")
    requires at < |c.input| && c.input[at] == '\\' && Eval(c, body, at + 1).Ok?
    ensures Eval(c, sChar, at).Ok? && Eval(c, sChar, at).end == Eval(c, body, at + 1).end
  {
    assert MatchLength("\\", c.input, at) == 1;
    assert Eval(c, backslash, at).Ok? && Eval(c, backslash, at).end == at + 1;
    Two(c, escape, backslash, body, at);
    EvalOfOr(c, sChar, at);
    assert [plain, escape][1..] == [escape];
    assert Eval(c, plain, at).Fail?;
  }

  const SIMPLE_ESCAPES: set<char> := {'\'', '"', '?', '\\', 'a', 'b', 'f', 'n', 'r', 't', 'v', 'u', 'U'}

  lemma OctalBody(c: Ctx, body: nat, simple: nat, three: nat, octal: nat, more: seq<nat>, at: nat)
    requires WF(c) && body < |c.nodes| && simple < |c.nodes| && three < |c.nodes| && octal < |c.nodes|
    requires c.nodes[body] == Or([simple, three] + more) && c.nodes[simple] == OneOf(SIMPLE_ESCAPES)
    requires c.nodes[three] == And([octal, octal, octal]) && c.nodes[octal] == Peg.Range('0', '7')
    requires at + 2 < |c.input|
    requires IsOctalDigit(c.input[at]) && IsOctalDigit(c.input[at + 1]) && IsOctalDigit(c.input[at + 2])
    ensures Eval(c, body, at).Ok? && Eval(c, body, at).end == at + 3
  {
    Three(c, three, octal, at);
    EvalOfOr(c, body, at);
    assert ([simple, three] + more)[1..] == [three] + more;
    assert Eval(c, simple, at).Fail?;
  }

  lemma {:induction false} SimpleBody(c: Ctx, body: nat, simple: nat, more: seq<nat>, at: nat)
    requires WF(c) && body < |c.nodes| && simple < |c.nodes|
    requires c.nodes[body] == Or([simple] + more) && c.nodes[simple] == OneOf(SIMPLE_ESCAPES)
    requires at < |c.input| && IsNamed(c.input[at])
    ensures Eval(c, body, at).Ok? && Eval(c, body, at).end == at + 1
  {
    assert Eval(c, simple, at).Ok?;
  }

  lemma StringCharsOfGraph(c: Ctx)
    requires WF(c) && c == Over(c.input)
    ensures IsStringChars(c, 19)
  {
    assert c.nodes[19] == SpecificUntil(17, 18) && c.nodes[18] == OneOf({'"'});
    QuoteEats(c, 18);
    assert c.nodes[17] == Or([16, 15]) && c.nodes[16] == Except({'\\', '"', '\n'});
    PlainEats(c, 17, 16, 15);
    EscapesOfGraph(c);
  }

  lemma EscapeNodes(c: Ctx)
    requires WF(c) && c == Over(c.input)
    ensures |c.nodes| == 51 && c.nodes[17] == Or([16, 15]) && c.nodes[16] == Except({'\\', '"', '\n'})
    ensures c.nodes[15] == And([0, 14]) && c.nodes[0] == Literal("\\")
    ensures c.nodes[14] == Or([1] + [3, 4, 2, 13]) && c.nodes[1] == OneOf(SIMPLE_ESCAPES)
    ensures c.nodes[14] == Or([1, 3] + [4, 2, 13]) && c.nodes[3] == And([2, 2, 2]) && c.nodes[2] == Peg.Range('0', '7')
  {
  }

  lemma EscapesOfGraph(c: Ctx)
    requires WF(c) && c == Over(c.input)
    ensures EatsNamed(c, 17) && EatsOctal(c, 17)
  {
    forall at: nat | at + 1 < |c.input| && c.input[at] == '\\' && IsNamed(c.input[at + 1])
      ensures Eval(c, 17, at).Ok? && Eval(c, 17, at).end == at + 2
    {
      NamedOfGraph(c, at);
    }
    forall at: nat | OctalAt(c, at) ensures Eval(c, 17, at).Ok? && Eval(c, 17, at).end == at + 4 { OctalOfGraph(c, at); }
  }

  lemma NamedOfGraph(c: Ctx, at: nat)
    requires WF(c) && c == Over(c.input)
    requires at + 1 < |c.input| && c.input[at] == '\\' && IsNamed(c.input[at + 1])
    ensures Eval(c, 17, at).Ok? && Eval(c, 17, at).end == at + 2
  {
    EscapeNodes(c);
    SimpleBody(c, 14, 1, [3, 4, 2, 13], at + 1);
    EscapeEats(c, 17, 16, 15, 0, 14, at);
  }

  lemma {:induction false} OctalOfGraph(c: Ctx, at: nat)
    requires WF(c) && c == Over(c.input) && OctalAt(c, at)
    ensures Eval(c, 17, at).Ok? && Eval(c, 17, at).end == at + 4
  {
    EscapeNodes(c);
    OctalBody(c, 14, 1, 3, 2, [4, 2, 13], at + 1);
    EscapeEats(c, 17, 16, 15, 0, 14, at);
  }

  // optional whitespace at the end of the text
  lemma {:induction false} NoWhite(c: Ctx, eatWhite: nat, either: nat, none: nat, some: nat, any: nat, space: nat,
                                   slashes: nat, slashStar: nat)
    requires WF(c) && eatWhite < |c.nodes| && either < |c.nodes| && none < |c.nodes| && any < |c.nodes|
    requires space < |c.nodes| && slashes < |c.nodes| && slashStar < |c.nodes|
    requires c.nodes[eatWhite] == Anon(either) && c.nodes[either] == Or([none, some]) && c.nodes[none] == Not(any)
    requires c.nodes[any] == Or([space, slashes, slashStar])
    requires c.nodes[space].OneOf? && c.nodes[slashes] == Literal("//") && c.nodes[slashStar] == Literal("/*")
    ensures Eval(c, eatWhite, |c.input|) == Ok([], |c.input|)
  {
    var n := |c.input|;
    assert Eval(c, space, n).Fail? && Eval(c, slashes, n).Fail? && Eval(c, slashStar, n).Fail?;
    EvalOfOr(c, any, n);
    assert [space, slashes, slashStar][1..] == [slashes, slashStar] && [slashes, slashStar][1..] == [slashStar];
    assert FirstOf(c, [slashes, slashStar], n).Fail?;
    assert Eval(c, any, n).Fail?;
    assert Eval(c, none, n) == Ok([], n);
    assert NodeOk(c, either);
    assert Eval(c, either, n) == Ok([], n);
  }

  lemma {:induction false} NoMore(c: Ctx, again: nat, body: nat, quote: nat, rest: seq<nat>)
    requires WF(c) && again < |c.nodes| && body < |c.nodes| && quote < |c.nodes| && EatsQuote(c, quote)
    requires c.nodes[again] == ZeroOrMore(body) && c.nodes[body] == And([quote] + rest)
    ensures Eval(c, again, |c.input|) == Ok([], |c.input|)
  {
    EvalOfAnd(c, body, |c.input|);
    assert Eval(c, body, |c.input|).Fail?;
    assert NodeOk(c, again);
  }

  // quote, characters, quote, whitespace, and nothing more
  lemma {:induction false} OneLiteral(c: Ctx, all: nat, quote: nat, chars: nat, eatWhite: nat, again: nat, m: nat)
    requires WF(c) && all < |c.nodes| && quote < |c.nodes| && chars < |c.nodes| && eatWhite < |c.nodes| && again < |c.nodes|
    requires c.nodes[all] == And([quote, chars, quote, eatWhite, again]) && EatsQuote(c, quote)
    requires 1 <= m && |c.input| == m + 1 && c.input[0] == '"' && c.input[m] == '"'
    requires Eval(c, chars, 1).Ok? && Eval(c, chars, 1).end == m
    requires Eval(c, eatWhite, m + 1) == Ok([], m + 1) && Eval(c, again, m + 1) == Ok([], m + 1)
    ensures Eval(c, all, 0) == Ok([Span(0, 1)] + Eval(c, chars, 1).items + [Span(m, m + 1)], m + 1)
  {
    var t0, t1, t2 := [quote, chars, quote, eatWhite, again], [chars, quote, eatWhite, again], [quote, eatWhite, again];
    var t3, t4 := [eatWhite, again], [again];
    EvalOfAnd(c, all, 0);
    assert t0[1..] == t1 && t1[1..] == t2 && t2[1..] == t3 && t3[1..] == t4 && t4[1..] == [];
    Goes(c, t4, m + 1, m + 1);
    Goes(c, t3, m + 1, m + 1);
    Goes(c, t2, m, m + 1);
    Goes(c, t1, 1, m);
    Goes(c, t0, 0, 1);
  }

  /** The quoted escape of any byte string is consumed whole by the string-literal
      parser, as one literal: quote, characters, quote. */
  lemma {:induction false} QuotedEscapeIsOneLiteral(s: Bytes)
    ensures var input := "\"" + Escape(s) + "\"";
      var n := |input|;
      WF(Over(input)) &&
      exists chars: seq<Item> ::
        Eval(Over(input), STRING_LITERAL, 0) ==
          Ok([Composite("StringLiteral", [Span(0, 1), Composite("S_Chars", chars), Span(n - 1, n)])], n)
  {
    var input := "\"" + Escape(s) + "\"";
    var m := |input| - 1;
    var c := Over(input);
    GraphIsWellFormed(input);
    StringCharsOfGraph(c);
    assert input[1..|input|] == Escape(s) + "\"";
    UpToQuote(c, 19, s, 1, 1, []);
    OutsideOfGraph(input);
    WhiteOfGraph(input);
    NoWhite(c, 45, 44, 25, 43, 24, 21, 22, 23);
    NoMore(c, 47, 46, 18, [20, 18, 45]);
    WholeLiteral(c, m);
  }

  // the parsers around the string characters
  predicate Outside(c: Ctx) {
    |c.nodes| == 51 &&
    c.nodes[18] == OneOf({'"'}) && c.nodes[19] == SpecificUntil(17, 18) && c.nodes[20] == Peg.Named("S_Chars", 19) &&
    c.nodes[46] == And([18] + [20, 18, 45]) && c.nodes[47] == ZeroOrMore(46) &&
    c.nodes[48] == And([18, 20, 18, 45, 47]) && c.nodes[49] == Anon(48) && c.nodes[50] == Peg.Named("StringLiteral", 49)
  }

  predicate White(c: Ctx) {
    |c.nodes| == 51 &&
    c.nodes[45] == Anon(44) && c.nodes[44] == Or([25, 43]) && c.nodes[25] == Not(24) &&
    c.nodes[24] == Or([21, 22, 23]) && c.nodes[21].OneOf? && c.nodes[22] == Literal("//") && c.nodes[23] == Literal("/*")
  }

  lemma OutsideOfGraph(input: string)
    ensures Outside(Over(input))
  {
  }

  lemma WhiteOfGraph(input: string)
    ensures White(Over(input))
  {
  }

  lemma {:induction false} WholeLiteral(c: Ctx, m: nat)
    requires WF(c) && Outside(c) && 1 <= m && |c.input| == m + 1 && c.input[0] == '"' && c.input[m] == '"'
    requires var r := EvalSpecificUntil(c, 19, 1, 1, []); r.Ok? && r.end == m
    requires Eval(c, 45, m + 1) == Ok([], m + 1) && Eval(c, 47, m + 1) == Ok([], m + 1)
    ensures exists chars: seq<Item> ::
        Eval(c, STRING_LITERAL, 0) ==
          Ok([Composite("StringLiteral", [Span(0, 1), Composite("S_Chars", chars), Span(m, m + 1)])], m + 1)
  {
    var r := EvalSpecificUntil(c, 19, 1, 1, []);
    var chars := if r.items == [] then [Span(1, 1)] else r.items;
    CharsNamed(c, 20, 19, 1);
    QuoteEats(c, 18);
    OneLiteral(c, 48, 18, 20, 45, 47, m);
    var items := [Span(0, 1)] + [Composite("S_Chars", chars)] + [Span(m, m + 1)];
    assert items == [Span(0, 1), Composite("S_Chars", chars), Span(m, m + 1)];
    Wrapped(c, 50, 49, 48, 0, items, m + 1);
  }

  lemma {:induction false} CharsNamed(c: Ctx, named: nat, chars: nat, at: nat)
    requires WF(c) && named < |c.nodes| && chars < |c.nodes| && c.nodes[named] == Peg.Named("S_Chars", chars)
    requires c.nodes[chars].SpecificUntil? && at <= |c.input| && EvalSpecificUntil(c, chars, at, at, []).Ok?
    ensures var r := EvalSpecificUntil(c, chars, at, at, []);
      Eval(c, named, at) == Ok([Composite("S_Chars", if r.items == [] then [Span(at, at)] else r.items)], r.end)
  {
    assert Eval(c, chars, at) == EvalSpecificUntil(c, chars, at, at, []);
  }

  lemma {:induction false} Wrapped(c: Ctx, named: nat, anon: nat, all: nat, at: nat, items: seq<Item>, e: nat)
    requires WF(c) && named < |c.nodes| && anon < |c.nodes| && all < |c.nodes| && at <= |c.input|
    requires c.nodes[named] == Peg.Named("StringLiteral", anon) && c.nodes[anon] == Anon(all)
    requires items != [] && Eval(c, all, at) == Ok(items, e)
    ensures Eval(c, named, at) == Ok([Composite("StringLiteral", items)], e)
  {
    assert Eval(c, anon, at) == Ok(items, e);
  }
}
