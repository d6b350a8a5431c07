/** The map as a file: written by hcp-split (hcp/hcp-split.cc), read and looked up
    by hcp-map-to-source (hcp/hcp-map-to-source.cc). */
module OffsetMapFile {
  import opened OffsetMap
  import opened Decimals
  import opened Wrappers

  const UINT_MAX := 0xFFFF_FFFF

  predicate IsSpace(c: char) {
    c == ' ' || c == '\t' || c == '\n' || c == '\r'
  }

  predicate NotNewline(c: char) {
    c != '\n'
  }

  // xju::stringToUInt
  function StringToUInt(s: string): Option<nat> {
    if s == "" || exists i :: 0 <= i < |s| && !IsDigit(s[i]) then None
    else if Number(s) > UINT_MAX then None
    else Some(Number(s))
  }

  // ---- the text

  function Line(e: (int, int)): string
    requires e.0 >= 0 && e.1 >= 0
  {
    Decimal(e.0) + " " + Decimal(e.1) + "\n"
  }

  ghost predicate Offs(m: Entries) {
    forall i :: 0 <= i < |m| ==> m[i].0 >= 0 && m[i].1 >= 0
  }

  function Lines(m: Entries): string
    requires Offs(m)
  {
    if m == [] then "" else Line(m[0]) + Lines(m[1..])
  }

  function FileText(name: string, m: Entries): string
    requires Offs(m)
  {
    name + "\n" + Lines(m)
  }

  lemma {:induction false} LinesLast(m: Entries, i: nat)
    requires Offs(m) && i < |m|
    ensures Lines(m[..i + 1]) == Lines(m[..i]) + Line(m[i])
  {
    if i == 0 {
      assert m[..1][1..] == [];
    } else {
      assert m[..i + 1][1..] == m[1..][..i] && m[..i][1..] == m[1..][..i - 1];
      LinesLast(m[1..], i - 1);
    }
  }

  method WriteOffsetMap(name: string, m: Entries) returns (s: string)
    requires Offs(m)
    ensures s == FileText(name, m)
  {
    s := name + "\n";
    var i := 0;
    while i < |m|
      invariant i <= |m| && s == name + "\n" + Lines(m[..i])
    {
      LinesLast(m, i);
      s := s + Decimal(m[i].0) + " " + Decimal(m[i].1) + "\n";
      i := i + 1;
    }
    assert m[..|m|] == m;
  }

  // ---- reading

  // how far a repeated character parser goes
  function Leading(s: string, p: char -> bool): (n: nat)
    ensures n <= |s| && (forall i :: 0 <= i < n ==> p(s[i])) && (n < |s| ==> !p(s[n]))
  {
    if s == "" || !p(s[0]) then 0 else 1 + Leading(s[1..], p)
  }

  lemma {:induction false} LeadingOf(a: string, b: string, p: char -> bool)
    requires (forall i :: 0 <= i < |a| ==> p(a[i])) && b != "" && !p(b[0])
    ensures Leading(a + b, p) == |a| && (a + b)[..|a|] == a && (a + b)[|a|..] == b
  {
    assert (a + b)[|a|] == b[0];
    assert forall i :: 0 <= i < |a| ==> (a + b)[i] == a[i];
  }

  // from-offset, space, to-offset, newline; and what follows
  function ReadLine(s: string): Option<(string, string, string)> {
    var i := Leading(s, IsDigit);
    var s1 := s[i..];
    var j := Leading(s1, IsSpace);
    var s2 := s1[j..];
    var k := Leading(s2, IsDigit);
    if i == 0 || j == 0 || k == 0 || k == |s2| || s2[k] != '\n' then None
    else Some((s[..i], s2[..k], s2[k + 1..]))
  }

  // zero or more of them, to the end of the file
  function ReadLines(s: string): Option<seq<(string, string)>>
    decreases |s|
  {
    if s == "" then Some([]) else
    match ReadLine(s)
    case None => None
    case Some((a, b, rest)) =>
      match ReadLines(rest)
      case None => None
      case Some(ps) => Some([(a, b)] + ps)
  }

  function ReadEntry(p: (string, string)): Option<(int, int)> {
    match (StringToUInt(p.0), StringToUInt(p.1))
    case (Some(k), Some(v)) => Some((k, v))
    case _ => None
  }

  // the entries inserted one after the other
  function InsertAll(m: Entries, ps: seq<(string, string)>): Option<Entries>
    decreases ps
  {
    if ps == [] then Some(m) else
    match ReadEntry(ps[0])
    case None => None
    case Some(e) => InsertAll(Insert(m, e.0, e.1), ps[1..])
  }

  const SENTINEL: (int, int) := (-1, -1)

  // the sentinel stays first
  predicate StartsLow(m: Entries) {
    m != [] && m[0] == SENTINEL
  }

  lemma InsertLow(m: Entries, k: nat, v: int)
    requires StartsLow(m)
    ensures StartsLow(Insert(m, k, v))
  {
    assert UpperBound(m, k) > 0;
  }

  // the map with its sentinel, and the pairs read inserted
  method FillMap(ps: seq<(string, string)>) returns (r: Option<Entries>)
    ensures r == InsertAll([SENTINEL], ps) && (r.Some? ==> StartsLow(r.value))
  {
    var offsetMap := Insert([], -1, -1);
    var i := 0;
    assert ps[0..] == ps && offsetMap == [SENTINEL];
    while i < |ps|
      invariant i <= |ps| && StartsLow(offsetMap)
      invariant InsertAll([SENTINEL], ps) == InsertAll(offsetMap, ps[i..])
    {
      assert ps[i..][0] == ps[i] && ps[i..][1..] == ps[i + 1..];
      var e := ReadEntry(ps[i]);
      if e == None { return None; }
      InsertLow(offsetMap, e.value.0, e.value.1);
      offsetMap := Insert(offsetMap, e.value.0, e.value.1);
      i := i + 1;
    }
    r := Some(offsetMap);
  }

  // the file name, and all after the newline
  function ReadName(s: string): Option<(string, string)> {
    var n := Leading(s, NotNewline);
    if n == |s| then None else Some((s[..n], s[n + 1..]))
  }

  function ReadFile(s: string): Option<(string, Entries)> {
    match ReadName(s)
    case None => None
    case Some((name, rest)) => Named(name, ReadMap(ReadLines(rest)))
  }

  function ReadMap(ps: Option<seq<(string, string)>>): Option<Entries> {
    if ps.None? then None else InsertAll([SENTINEL], ps.value)
  }

  function Named<T>(name: string, x: Option<T>): Option<(string, T)> {
    if x.None? then None else Some((name, x.value))
  }

  // main of hcp-map-to-source: None where it reports an error
  method MapToSource(text: string, offset: nat) returns (r: Option<(string, int)>)
    ensures ReadFile(text).None? ==> r.None?
    ensures ReadFile(text).Some? ==> r == Some((ReadFile(text).value.0, Lookup(ReadFile(text).value.1, offset)))
  {
    var head := ReadName(text);
    if head.None? { return None; }
    var ps := ReadLines(head.value.1);
    if ps.None? { return None; }
    var m := FillMap(ps.value);
    if m.None? { return None; }
    var source := SourceOffset(m.value, offset);
    r := Some((head.value.0, source));
  }

  method SourceOffset(m: Entries, offset: nat) returns (r: int)
    requires StartsLow(m)
    ensures r == Lookup(m, offset)
  {
    var i := UpperBound(m, offset);
    // the sentinel is before any offset
    assert i != 0;
    var e := m[i - 1];
    r := offset - e.0 + e.1;
  }

  // ---- what is written is read

  lemma {:induction false} ReadLineOf(e: (int, int), rest: string)
    requires e.0 >= 0 && e.1 >= 0
    ensures ReadLine(Line(e) + rest) == Some((Decimal(e.0), Decimal(e.1), rest))
  {
    var a, b := Decimal(e.0), Decimal(e.1);
    var s2 := b + ("\n" + rest);
    var s1 := " " + s2;
    assert Line(e) + rest == a + s1;
    LeadingOf(a, s1, IsDigit);
    LeadingOf(" ", s2, IsSpace);
    LeadingOf(b, "\n" + rest, IsDigit);
    assert s2[|b| + 1..] == rest;
  }

  // the pairs of texts of some entries
  function Texts(m: Entries): seq<(string, string)>
    requires Offs(m)
  {
    seq(|m|, i requires 0 <= i < |m| => (Decimal(m[i].0), Decimal(m[i].1)))
  }

  lemma TextsFirst(m: Entries)
    requires Offs(m) && m != []
    ensures Texts(m) == [(Decimal(m[0].0), Decimal(m[0].1))] + Texts(m[1..])
  {
  }

  lemma {:induction false} LineFirst(s: string, a: string, b: string, rest: string, ps: seq<(string, string)>)
    requires ReadLine(s) == Some((a, b, rest)) && ReadLines(rest) == Some(ps)
    ensures ReadLines(s) == Some([(a, b)] + ps)
  {
    assert s != "";
  }

  lemma {:induction false} ReadLinesOf(m: Entries)
    requires Offs(m)
    ensures ReadLines(Lines(m)) == Some(Texts(m))
  {
    if m == [] {
      assert Texts(m) == [];
    } else {
      ReadLineOf(m[0], Lines(m[1..]));
      ReadLinesOf(m[1..]);
      LineFirst(Lines(m), Decimal(m[0].0), Decimal(m[0].1), Lines(m[1..]), Texts(m[1..]));
      TextsFirst(m);
    }
  }

  ghost predicate Fits(m: Entries) {
    forall i :: 0 <= i < |m| ==> m[i].0 <= UINT_MAX && m[i].1 <= UINT_MAX
  }

  lemma ReadEntryOf(e: (int, int))
    requires e.0 >= 0 && e.1 >= 0
    ensures ReadEntry((Decimal(e.0), Decimal(e.1))) ==
      if e.0 <= UINT_MAX && e.1 <= UINT_MAX then Some(e) else None
  {
    NumberOfDecimal(e.0);
    NumberOfDecimal(e.1);
  }

  lemma {:induction false} InsertAllOf(m0: Entries, m: Entries)
    requires Offs(m) && Sorted(m0 + m)
    ensures InsertAll(m0, Texts(m)) == if Fits(m) then Some(m0 + m) else None
    decreases m
  {
    if m == [] {
      assert m0 + m == m0;
    } else {
      ReadEntryOf(m[0]);
      assert Texts(m)[0] == (Decimal(m[0].0), Decimal(m[0].1)) && Texts(m)[1..] == Texts(m[1..]);
      FitsFirst(m);
      if m[0].0 <= UINT_MAX && m[0].1 <= UINT_MAX {
        AppendFirst(m0, m);
        InsertAllOf(m0 + [m[0]], m[1..]);
      }
    }
  }

  lemma FitsFirst(m: Entries)
    requires m != []
    ensures Fits(m) <==> m[0].0 <= UINT_MAX && m[0].1 <= UINT_MAX && Fits(m[1..])
  {
    assert forall i :: 0 <= i < |m[1..]| ==> m[1..][i] == m[i + 1];
    assert forall i :: 0 < i < |m| ==> m[i] == m[1..][i - 1];
  }

  lemma AppendFirst(m0: Entries, m: Entries)
    requires m != [] && Sorted(m0 + m)
    ensures Insert(m0, m[0].0, m[0].1) == m0 + [m[0]]
    ensures m0 + [m[0]] + m[1..] == m0 + m && Sorted(m0 + [m[0]] + m[1..])
  {
    assert m0 + [m[0]] + m[1..] == m0 + m;
    assert forall i :: 0 <= i < |m0| ==> (m0 + m)[i] == m0[i] && m0[i].0 < (m0 + m)[|m0|].0;
    InsertLast(m0, m[0].0, m[0].1);
  }

  /** The map read is the map written, behind the sentinel, just if the name has
      no newline and every offset fits in an unsigned int. */
  lemma MapIsReadBackExactly(name: string, m: Entries)
    requires Offs(m) && Sorted(m)
    ensures ReadFile(FileText(name, m)) == Some((name, [SENTINEL] + m)) <==> '\n' !in name && Fits(m)
  {
    var s := FileText(name, m);
    if '\n' !in name {
      NameOf(name, Lines(m));
      ReadLinesOf(m);
      InsertAllOf([SENTINEL], m);
    } else {
      NameCut(name, Lines(m));
    }
  }

  lemma NameOf(name: string, rest: string)
    requires '\n' !in name
    ensures ReadName(name + "\n" + rest) == Some((name, rest))
  {
    LeadingOf(name, "\n" + rest, NotNewline);
    assert name + "\n" + rest == name + ("\n" + rest);
  }

  lemma NameCut(name: string, rest: string)
    requires '\n' in name
    ensures ReadName(name + "\n" + rest).Some? ==> |ReadName(name + "\n" + rest).value.0| < |name|
  {
    var s := name + "\n" + rest;
    var i :| 0 <= i < |name| && name[i] == '\n';
    assert s[i] == '\n';
  }

  // the sentinel says what no entry says: that an offset is its own
  lemma SentinelIsIdentity(m: Entries, o: nat)
    requires Offs(m) && Sorted(m)
    ensures Lookup([SENTINEL] + m, o) == Lookup(m, o)
  {
    var all, i := [SENTINEL] + m, UpperBound(m, o);
    assert all[i] == if i == 0 then SENTINEL else m[i - 1];
    assert i < |m| ==> all[i + 1] == m[i];
    SentinelFirst(m);
    UpperBoundIs(all, o, i + 1);
  }

  lemma SentinelFirst(m: Entries)
    requires Offs(m) && Sorted(m)
    ensures Sorted([SENTINEL] + m)
  {
    var all := [SENTINEL] + m;
    forall i, j | 0 <= i < j < |all| ensures all[i].0 < all[j].0 {
      assert all[j] == m[j - 1] && (i > 0 ==> all[i] == m[i - 1]);
    }
  }

  /** For every byte copied, whatever was written and copied around it, the reader
      of the written map reports where in the source it came from. */
  method WhereFrom(out: OStream, name: string, o: nat) returns (r: Option<(string, int)>)
    requires out.Valid() && o < |out.s| && '\n' !in name && Fits(out.sourceOffsetMap)
    ensures out.origin[o] != GENERATED ==>
      r == Some((name, out.origin[o])) && 0 <= out.origin[o] < |out.source| && out.s[o] == out.source[out.origin[o]]
  {
    var text := WriteOffsetMap(name, out.sourceOffsetMap);
    MapIsReadBackExactly(name, out.sourceOffsetMap);
    SentinelIsIdentity(out.sourceOffsetMap, o);
    assert out.WellMapped(o);
    r := MapToSource(text, o);
  }

  /** From writing to looking up: for any interleaving of generated text and
      non-empty copies, the tool answers for every copied byte where it came from. */
  method Trace(source: string, outs: seq<Output>, name: string, o: nat) returns (r: Option<(string, int)>)
    requires AreCopies(outs, |source|) && o < |Origins(outs)| && '\n' !in name
    requires |source| <= UINT_MAX && |Origins(outs)| <= UINT_MAX
    ensures Origins(outs)[o] != GENERATED ==> r == Some((name, Origins(outs)[o]))
  {
    var out := new OStream(source);
    out.Replay(outs);
    assert [] + Origins(outs) == Origins(outs);
    r := WhereFrom(out, name, o);
  }
}
