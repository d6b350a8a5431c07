/** The sparse map from output to source offsets that hcp-split keeps while it
    interleaves copied and generated text (hcp/hcp-split.cc). */
module OffsetMap {

  // std::map<off_t, off_t>: in order of the first
  type Entries = seq<(int, int)>

  ghost predicate Sorted(m: Entries) {
    forall i, j :: 0 <= i < j < |m| ==> m[i].0 < m[j].0
  }

  // the first entry beyond k
  function UpperBound(m: Entries, k: int): (i: nat)
    ensures i <= |m| && (i < |m| ==> m[i].0 > k)
    ensures forall j :: 0 <= j < i ==> m[j].0 <= k
  {
    if m == [] || m[0].0 > k then 0 else 1 + UpperBound(m[1..], k)
  }

  // insert keeps what is there
  function Insert(m: Entries, k: int, v: int): Entries {
    var i := UpperBound(m, k);
    if i > 0 && m[i - 1].0 == k then m else m[..i] + [(k, v)] + m[i..]
  }

  // what an offset is mapped to by the last entry at or before it
  function Lookup(m: Entries, o: int): int {
    var i := UpperBound(m, o);
    if i == 0 then o else o - m[i - 1].0 + m[i - 1].1
  }

  lemma {:induction false} UpperBoundIs(m: Entries, k: int, i: nat)
    requires Sorted(m) && i <= |m| && (i < |m| ==> m[i].0 > k) && (i > 0 ==> m[i - 1].0 <= k)
    ensures UpperBound(m, k) == i
  {
    assert forall j :: 0 <= j < i ==> m[j].0 <= m[i - 1].0;
  }

  predicate HasEntryAt(m: Entries, k: int) {
    var i := UpperBound(m, k);
    i > 0 && m[i - 1].0 == k
  }

  ghost predicate NoneBeyond(m: Entries, k: int) {
    forall i :: 0 <= i < |m| ==> m[i].0 <= k
  }

  // an entry added at the end
  lemma InsertLast(m: Entries, k: int, v: int)
    requires Sorted(m) && NoneBeyond(m, k)
    ensures Sorted(Insert(m, k, v)) && NoneBeyond(Insert(m, k, v), k)
    ensures if HasEntryAt(m, k) then Insert(m, k, v) == m else Insert(m, k, v) == m + [(k, v)]
  {
    UpperBoundIs(m, k, |m|);
    assert m[..|m|] + [(k, v)] + m[|m|..] == m + [(k, v)];
    assert !HasEntryAt(m, k) && m != [] ==> m[|m| - 1].0 < k;
  }

  // ... leads on from there, and leaves what is before alone
  lemma LookupInserted(m: Entries, k: int, v: int, o: int)
    requires Sorted(m) && NoneBeyond(m, k) && !HasEntryAt(m, k)
    ensures Lookup(Insert(m, k, v), o) == if o < k then Lookup(m, o) else o - k + v
  {
    InsertLast(m, k, v);
    UpperBoundIs(m + [(k, v)], o, if o < k then UpperBound(m, o) else |m| + 1);
  }

  /** Copying no text from b may leave an entry behind; until something is output,
      the map then leads to b, so copying from anywhere else aborts. */
  lemma EmptyCopyBlocks(m: Entries, o: int, b: int)
    requires Sorted(m) && NoneBeyond(m, o) && !HasEntryAt(m, o)
    ensures HasEntryAt(Insert(m, o, b), o) && Lookup(Insert(m, o, b), o) == b
    ensures forall b2 :: Insert(Insert(m, o, b), o, b2) == Insert(m, o, b)
  {
    InsertLast(m, o, b);
    LookupInserted(m, o, b, o);
    UpperBoundIs(Insert(m, o, b), o, |m| + 1);
  }

  // from the last entry on, offsets go along with it
  lemma LookupAlong(m: Entries, k: int, o: int)
    requires Sorted(m) && NoneBeyond(m, k) && k <= o
    ensures Lookup(m, o) == Lookup(m, k) + o - k
  {
    UpperBoundIs(m, k, |m|);
    UpperBoundIs(m, o, |m|);
  }

  // a node of the syntax tree; dropped if it is of one of the types excluded
  datatype Item = Item(begin: nat, end: nat, excluded: bool, items: seq<Item>)

  // the spans copyExcluding copies, in order
  function Spans(irs: seq<Item>): seq<(nat, nat)> {
    if irs == [] then [] else SpansOf(irs[0]) + Spans(irs[1..])
  }

  function SpansOf(x: Item): seq<(nat, nat)> {
    if x.excluded then [] else if x.items != [] then Spans(x.items) else [(x.begin, x.end)]
  }

  ghost predicate Within(irs: seq<Item>, size: nat) {
    forall i :: 0 <= i < |irs| ==> irs[i].begin <= irs[i].end <= size && Within(irs[i].items, size)
  }

  // every leaf copied has some text
  ghost predicate NonEmpty(spans: seq<(nat, nat)>, size: nat) {
    forall i :: 0 <= i < |spans| ==> spans[i].0 < spans[i].1 <= size
  }

  // the spans copy copies
  function Wholes(irs: seq<Item>): seq<(nat, nat)> {
    seq(|irs|, i requires 0 <= i < |irs| => (irs[i].begin, irs[i].end))
  }

  // the source offsets of some spans, byte by byte
  function Offsets(spans: seq<(nat, nat)>): seq<int> {
    if spans == [] then [] else Span(spans[0].0, spans[0].1) + Offsets(spans[1..])
  }

  function Span(begin: nat, end: nat): seq<int> {
    seq(if begin <= end then end - begin else 0, i => begin + i)
  }

  lemma {:induction false} OffsetsAppend(a: seq<(nat, nat)>, b: seq<(nat, nat)>)
    ensures Offsets(a + b) == Offsets(a) + Offsets(b)
  {
    if a == [] {
      assert a + b == b;
    } else {
      assert (a + b)[1..] == a[1..] + b;
      OffsetsAppend(a[1..], b);
    }
  }

  lemma OffsetsOfOne(b: nat, e: nat)
    ensures Offsets([(b, e)]) == Span(b, e)
  {
    assert [(b, e)][1..] == [];
  }

  lemma NextWhole(irs: seq<Item>, i: nat)
    requires i < |irs|
    ensures Offsets(Wholes(irs[..i + 1])) == Offsets(Wholes(irs[..i])) + Span(irs[i].begin, irs[i].end)
    ensures Wholes(irs)[i] == (irs[i].begin, irs[i].end)
  {
    assert Wholes(irs[..i + 1]) == Wholes(irs[..i]) + [(irs[i].begin, irs[i].end)];
    OffsetsAppend(Wholes(irs[..i]), [(irs[i].begin, irs[i].end)]);
    OffsetsOfOne(irs[i].begin, irs[i].end);
  }

  lemma {:induction false} SpansLast(a: seq<Item>, x: Item)
    ensures Spans(a + [x]) == Spans(a) + SpansOf(x)
  {
    if a == [] {
      assert a + [x] == [x] && [x][1..] == [];
    } else {
      assert (a + [x])[1..] == a[1..] + [x];
      SpansLast(a[1..], x);
    }
  }

  lemma {:induction false} SpansHas(irs: seq<Item>, i: nat)
    requires i < |irs|
    ensures forall p :: p in SpansOf(irs[i]) ==> p in Spans(irs)
  {
    if i > 0 { SpansHas(irs[1..], i - 1); }
  }

  lemma OneMore<T>(s: seq<T>, i: nat)
    requires i < |s|
    ensures s[..i + 1] == s[..i] + [s[i]]
  {
  }

  lemma {:induction false} NextSpans(irs: seq<Item>, i: nat, size: nat)
    requires i < |irs|
    ensures Offsets(Spans(irs[..i + 1])) == Offsets(Spans(irs[..i])) + Offsets(SpansOf(irs[i]))
    ensures NonEmpty(Spans(irs), size) ==> NonEmpty(SpansOf(irs[i]), size)
  {
    OneMore(irs, i);
    SpansLast(irs[..i], irs[i]);
    OffsetsAppend(Spans(irs[..i]), SpansOf(irs[i]));
    SpansHas(irs, i);
    PartNonEmpty(SpansOf(irs[i]), Spans(irs), size);
  }

  lemma PartNonEmpty(part: seq<(nat, nat)>, all: seq<(nat, nat)>, size: nat)
    requires forall p :: p in part ==> p in all
    ensures NonEmpty(all, size) ==> NonEmpty(part, size)
  {
    forall j | 0 <= j < |part| && NonEmpty(all, size) ensures part[j].0 < part[j].1 <= size {
      assert part[j] in all;
      var k :| 0 <= k < |all| && all[k] == part[j];
    }
  }

  // a byte of the output that was generated, not copied
  const GENERATED := -1

  datatype Output = Generated(text: string) | Copied(begin: nat, end: nat)

  predicate AreCopies(outs: seq<Output>, size: nat) {
    forall i :: 0 <= i < |outs| && outs[i].Copied? ==> outs[i].begin < outs[i].end <= size
  }

  // where each byte comes from
  function OriginsOf(x: Output): seq<int> {
    match x
    case Generated(text) => seq(|text|, i => GENERATED)
    case Copied(begin, end) => Span(begin, end)
  }

  function Origins(outs: seq<Output>): seq<int> {
    if outs == [] then [] else OriginsOf(outs[0]) + Origins(outs[1..])
  }

  lemma {:induction false} NextOrigins(outs: seq<Output>, i: nat)
    requires i < |outs|
    ensures Origins(outs[..i + 1]) == Origins(outs[..i]) + OriginsOf(outs[i])
  {
    if i == 0 {
      assert outs[..1][1..] == [] && outs[..0] == [];
    } else {
      assert outs[..i + 1][1..] == outs[1..][..i] && outs[..i][1..] == outs[1..][..i - 1];
      NextOrigins(outs[1..], i - 1);
    }
  }

  lemma OriginsOn(before: seq<int>, outs: seq<Output>, i: nat)
    requires i < |outs|
    ensures before + Origins(outs[..i + 1]) == before + Origins(outs[..i]) + OriginsOf(outs[i])
  {
    NextOrigins(outs, i);
  }

  // no entry stands at an offset beyond them all
  lemma NothingAtEnd(m: Entries, o: int)
    requires forall i :: 0 <= i < |m| ==> m[i].0 < o
    ensures !HasEntryAt(m, o)
  {
  }

  class OStream {
    const source: string
    var s: string
    var outputOffset: nat
    var sourceOffsetMap: Entries
    // where each byte written came from
    ghost var origin: seq<int>

    ghost predicate Valid()
      reads this
    {
      outputOffset == |s| == |origin| && Sorted(sourceOffsetMap) &&
      (forall i :: 0 <= i < |sourceOffsetMap| ==>
        0 <= sourceOffsetMap[i].0 <= outputOffset && 0 <= sourceOffsetMap[i].1 <= |source|) &&
      forall i :: 0 <= i < |origin| ==> WellMapped(i)
    }

    // a byte copied is the byte of the source that the map leads to
    ghost predicate WellMapped(i: nat)
      requires i < |origin| && |origin| == |s|
      reads this
    {
      origin[i] == GENERATED ||
      (0 <= origin[i] < |source| && s[i] == source[origin[i]] && Lookup(sourceOffsetMap, i) == origin[i])
    }

    // something was output since the last entry was made
    ghost predicate Moved()
      reads this
    {
      forall i :: 0 <= i < |sourceOffsetMap| ==> sourceOffsetMap[i].0 < outputOffset
    }

    constructor (source: string)
      ensures Valid() && Moved() && s == "" && this.source == source
    {
      this.source := source;
      s := "";
      outputOffset := 0;
      sourceOffsetMap := [];
      origin := [];
    }

    function MappedOffset(): int
      reads this
    {
      Lookup(sourceOffsetMap, outputOffset)
    }

    // copy(std::string), operator<<
    method Write(x: string)
      requires Valid()
      modifies this
      ensures Valid() && (old(Moved()) ==> Moved())
      ensures s == old(s) + x && origin == old(origin) + seq(|x|, i => GENERATED)
    {
      s := s + x;
      outputOffset := outputOffset + |x|;
      origin := origin + seq(|x|, i => GENERATED);
      assert forall i :: 0 <= i < |old(origin)| ==> old(WellMapped(i)) ==> WellMapped(i);
    }

    method Emit(begin: nat, end: nat)
      requires Valid() && begin <= end <= |source| && MappedOffset() == begin
      modifies this`s, this`outputOffset, this`origin
      ensures Valid() && (begin < end || old(Moved()) ==> Moved())
      ensures s == old(s) + source[begin..end] && origin == old(origin) + Span(begin, end)
    {
      forall i | outputOffset <= i < outputOffset + end - begin
        ensures Lookup(sourceOffsetMap, i) == begin + i - outputOffset
      {
        LookupAlong(sourceOffsetMap, outputOffset, i);
      }
      s := s + source[begin..end];
      outputOffset := outputOffset + (end - begin);
      origin := origin + Span(begin, end);
      forall i | 0 <= i < |origin| ensures WellMapped(i) {
        if i < |old(origin)| { assert old(WellMapped(i)); }
      }
    }

    // sourceOffsetMap_.insert, which leaves an entry that is already there
    method Map(begin: nat)
      requires Valid() && begin <= |source|
      modifies this`sourceOffsetMap
      ensures Valid() && sourceOffsetMap == Insert(old(sourceOffsetMap), outputOffset, begin)
      ensures MappedOffset() == if HasEntryAt(old(sourceOffsetMap), outputOffset) then old(MappedOffset()) else begin
    {
      InsertLast(sourceOffsetMap, outputOffset, begin);
      if !HasEntryAt(sourceOffsetMap, outputOffset) {
        forall o ensures Lookup(Insert(sourceOffsetMap, outputOffset, begin), o) ==
            if o < outputOffset then Lookup(sourceOffsetMap, o) else o - outputOffset + begin
        {
          LookupInserted(sourceOffsetMap, outputOffset, begin, o);
        }
      }
      sourceOffsetMap := Insert(sourceOffsetMap, outputOffset, begin);
      assert forall i :: 0 <= i < |origin| ==> old(WellMapped(i)) ==> WellMapped(i);
    }

    // copy(begin, end); ok is false where the internal assertion aborts
    method Copy(begin: nat, end: nat) returns (ok: bool)
      requires Valid() && begin <= end <= |source|
      modifies this
      ensures ok <==> !(HasEntryAt(old(sourceOffsetMap), old(outputOffset)) && old(MappedOffset()) != begin)
      ensures ok ==> Valid() && (begin < end ==> Moved())
      ensures sourceOffsetMap == if old(MappedOffset()) == begin then old(sourceOffsetMap)
                                 else Insert(old(sourceOffsetMap), old(outputOffset), begin)
      ensures ok ==> s == old(s) + source[begin..end] && origin == old(origin) + Span(begin, end)
    {
      if MappedOffset() != begin { Map(begin); }
      ok := MappedOffset() == begin;
      if ok { Emit(begin, end); }
    }

    method CopyWhole(x: Item) returns (ok: bool)
      requires Valid() && x.begin <= x.end <= |source|
      modifies this
      ensures ok ==> Valid() && old(s) <= s && origin == old(origin) + Span(x.begin, x.end)
      ensures x.begin < x.end && old(Moved()) ==> ok && Moved()
    {
      ok := Copy(x.begin, x.end);
    }

    // copy(IRs)
    method CopyItems(irs: seq<Item>) returns (ok: bool)
      requires Valid() && Within(irs, |source|)
      modifies this
      ensures ok ==> Valid() && old(s) <= s && origin == old(origin) + Offsets(Wholes(irs))
      ensures NonEmpty(Wholes(irs), |source|) && old(Moved()) ==> ok && Moved()
    {
      var i := 0;
      ok := true;
      assert Wholes(irs[..0]) == [];
      while ok && i < |irs|
        invariant i <= |irs|
        invariant ok ==> Valid() && old(s) <= s && origin == old(origin) + Offsets(Wholes(irs[..i]))
        invariant NonEmpty(Wholes(irs), |source|) && old(Moved()) ==> ok && Moved()
        decreases |irs| - i, ok
      {
        NextWhole(irs, i);
        ok := CopyWhole(irs[i]);
        i := i + 1;
      }
      assert irs[..|irs|] == irs;
    }

    // one turn of the loop of copyExcluding
    method CopyUnlessExcluded(x: Item) returns (ok: bool)
      requires Valid() && Within([x], |source|)
      modifies this
      ensures ok ==> Valid() && old(s) <= s && origin == old(origin) + Offsets(SpansOf(x))
      ensures NonEmpty(SpansOf(x), |source|) && old(Moved()) ==> ok && Moved()
      decreases x
    {
      assert Within([x][0].items, |source|);
      ok := true;
      if !x.excluded {
        if x.items != [] {
          ok := CopyExcluding(x.items);
        } else {
          assert SpansOf(x)[0] == (x.begin, x.end);
          OffsetsOfOne(x.begin, x.end);
          ok := CopyWhole(x);
        }
      }
    }

    // copyExcluding<T, Us...>(IRs)
    method CopyExcluding(irs: seq<Item>) returns (ok: bool)
      requires Valid() && Within(irs, |source|)
      modifies this
      ensures ok ==> Valid() && old(s) <= s && origin == old(origin) + Offsets(Spans(irs))
      ensures NonEmpty(Spans(irs), |source|) && old(Moved()) ==> ok && Moved()
      decreases irs
    {
      var i := 0;
      ok := true;
      while ok && i < |irs|
        invariant i <= |irs|
        invariant ok ==> Valid() && old(s) <= s && origin == old(origin) + Offsets(Spans(irs[..i]))
        invariant NonEmpty(Spans(irs), |source|) && old(Moved()) ==> ok && Moved()
        decreases |irs| - i, ok
      {
        NextSpans(irs, i, |source|);
        assert Within([irs[i]], |source|);
        ok := CopyUnlessExcluded(irs[i]);
        i := i + 1;
      }
      assert irs[..|irs|] == irs;
    }

    method Put(x: Output)
      requires Valid() && Moved() && AreCopies([x], |source|)
      modifies this
      ensures Valid() && Moved() && origin == old(origin) + OriginsOf(x)
    {
      assert [x][0] == x;
      match x {
        case Generated(text) => Write(text);
        case Copied(begin, end) =>
          NothingAtEnd(sourceOffsetMap, outputOffset);
          var ok := Copy(begin, end);
          assert ok;
      }
    }

    /** Any interleaving of generated text and non-empty copies: the internal
        assertion never fails, and every byte's origin is on record. */
    method Replay(outs: seq<Output>)
      requires Valid() && Moved() && AreCopies(outs, |source|)
      modifies this
      ensures Valid() && Moved() && origin == old(origin) + Origins(outs)
    {
      var i := 0;
      assert outs[..0] == [] && old(origin) + [] == old(origin);
      while i < |outs|
        invariant i <= |outs| && Valid() && Moved() && origin == old(origin) + Origins(outs[..i])
      {
        OriginsOn(old(origin), outs, i);
        Put(outs[i]);
        i := i + 1;
      }
      assert outs[..|outs|] == outs;
    }
  }
}
