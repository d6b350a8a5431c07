/** Rings as the cycles of a "next" function, and what exchanging two of its
    values does to them.  Both splice and cut do exactly that. */
module RingTheory {

  // next is one-to-one on a finite set of links
  ghost predicate IsLinked<T>(next: map<T, T>) {
    next.Values <= next.Keys &&
    (forall x, y :: x in next && y in next && next[x] == next[y] ==> x == y)
  }

  // s lists the links of one ring, starting anywhere
  ghost predicate IsRing<T>(next: map<T, T>, s: seq<T>) {
    s != [] &&
    (forall i :: 0 <= i < |s| ==> s[i] in next) &&
    (forall i, j :: 0 <= i < j < |s| ==> s[i] != s[j]) &&
    (forall i {:trigger next[s[i]]} :: 0 <= i < |s| - 1 ==> next[s[i]] == s[i + 1]) &&
    next[s[|s| - 1]] == s[0]
  }

  function Exchange<T>(next: map<T, T>, a: T, b: T): map<T, T>
    requires a in next && b in next
  {
    next[a := next[b]][b := next[a]]
  }

  ghost predicate Disjoint<T>(s: seq<T>, t: seq<T>) {
    forall i, j :: 0 <= i < |s| && 0 <= j < |t| ==> s[i] != t[j]
  }

  // the links are conserved, and stay linked
  lemma ExchangeKeepsLinked<T>(next: map<T, T>, a: T, b: T)
    requires IsLinked(next) && a in next && b in next
    ensures IsLinked(Exchange(next, a, b)) && Exchange(next, a, b).Keys == next.Keys
  {
  }

  // a ring without the two links is untouched
  lemma ExchangeElsewhere<T>(next: map<T, T>, a: T, b: T, s: seq<T>)
    requires a in next && b in next && IsRing(next, s) && a !in s && b !in s
    ensures IsRing(Exchange(next, a, b), s)
  {
  }

  lemma RingWraps<T>(next: map<T, T>, s: seq<T>, i: nat)
    requires IsRing(next, s) && i < |s|
    ensures next[s[i]] == if i == |s| - 1 then s[0] else s[i + 1]
  {
  }

  // a ring is told by the links it has alone
  lemma SameRing<T>(next: map<T, T>, next': map<T, T>, s: seq<T>)
    requires IsRing(next, s) && forall i :: 0 <= i < |s| ==> s[i] in next' && next'[s[i]] == next[s[i]]
    ensures IsRing(next', s)
  {
  }

  // only its predecessor leads to a link
  lemma BeforeInRing<T>(next: map<T, T>, s: seq<T>, i: nat, before: T)
    requires IsLinked(next) && IsRing(next, s) && i < |s| && before in next && next[before] == s[i]
    ensures before == s[if i == 0 then |s| - 1 else i - 1]
  {
    RingWraps(next, s, if i == 0 then |s| - 1 else i - 1);
  }

  /** In one ring: it falls in two, after a and after b. */
  lemma ExchangeSplits<T>(next: map<T, T>, s: seq<T>, t: seq<T>)
    requires s != [] && t != [] && IsRing(next, s + t)
    ensures s[|s| - 1] in next && t[|t| - 1] in next
    ensures var next' := Exchange(next, s[|s| - 1], t[|t| - 1]);
      IsRing(next', s) && IsRing(next', t)
  {
    var st := s + t;
    var a, b := s[|s| - 1], t[|t| - 1];
    assert a == st[|s| - 1] && b == st[|st| - 1];
    assert st[|s|] == t[0] && st[0] == s[0];
    var next' := Exchange(next, a, b);
    forall i | 0 <= i < |s| ensures s[i] in next' && next'[s[i]] == if i == |s| - 1 then s[0] else s[i + 1] {
      assert s[i] == st[i];
      RingWraps(next, st, i);
    }
    forall i | 0 <= i < |t| ensures t[i] in next' && next'[t[i]] == if i == |t| - 1 then t[0] else t[i + 1] {
      assert t[i] == st[|s| + i];
      RingWraps(next, st, |s| + i);
    }
    forall i, j | 0 <= i < j < |s| ensures s[i] != s[j] { assert s[i] == st[i] && s[j] == st[j]; }
    forall i, j | 0 <= i < j < |t| ensures t[i] != t[j] { assert t[i] == st[|s| + i] && t[j] == st[|s| + j]; }
  }

  /** In two rings: they become one, b's after a. */
  lemma ExchangeMerges<T>(next: map<T, T>, s: seq<T>, t: seq<T>)
    requires IsRing(next, s) && IsRing(next, t) && Disjoint(s, t)
    ensures IsRing(Exchange(next, s[|s| - 1], t[|t| - 1]), s + t)
  {
    var next' := Exchange(next, s[|s| - 1], t[|t| - 1]);
    var st := s + t;
    forall i | 0 <= i < |st| ensures st[i] in next' && next'[st[i]] == if i == |st| - 1 then st[0] else st[i + 1] {
      if i < |s| { RingWraps(next, s, i); } else { RingWraps(next, t, i - |s|); }
    }
  }

  // a ring may be listed from any of its links
  lemma Rotate<T>(next: map<T, T>, s: seq<T>, k: nat)
    requires IsRing(next, s) && k <= |s|
    ensures IsRing(next, s[k..] + s[..k])
  {
    var r := s[k..] + s[..k];
    forall i | 0 <= i < |r| ensures r[i] in next && next[r[i]] == if i == |r| - 1 then r[0] else r[i + 1] {
      RingWraps(next, s, if i < |s| - k then k + i else i - (|s| - k));
    }
  }

  // ---- every link lies in a ring

  // the links from x on, as far as listed, none of them twice
  ghost predicate IsWalk<T>(next: map<T, T>, s: seq<T>) {
    s != [] &&
    (forall i :: 0 <= i < |s| ==> s[i] in next) &&
    (forall i, j :: 0 <= i < j < |s| ==> s[i] != s[j]) &&
    (forall i {:trigger next[s[i]]} :: 0 <= i < |s| - 1 ==> next[s[i]] == s[i + 1])
  }

  lemma {:induction false} WalkOn<T>(next: map<T, T>, s: seq<T>) returns (r: seq<T>)
    requires IsLinked(next) && IsWalk(next, s)
    ensures IsRing(next, r) && r[0] == s[0]
    decreases next.Keys - set x | x in s
  {
    var y := next[s[|s| - 1]];
    if y == s[0] {
      r := s;
    } else {
      forall i | 0 <= i < |s| ensures s[i] != y {
        if i > 0 { assert next[s[i - 1]] == s[i]; }
      }
      var s' := s + [y];
      assert y in next.Keys - (set x | x in s) && y !in next.Keys - (set x | x in s');
      assert (next.Keys - set x | x in s') <= (next.Keys - set x | x in s);
      r := WalkOn(next, s');
    }
  }

  lemma RingThrough<T>(next: map<T, T>, x: T) returns (r: seq<T>)
    requires IsLinked(next) && x in next
    ensures IsRing(next, r) && r[|r| - 1] == x
  {
    var y := next[x];
    assert IsWalk(next, [y]);
    r := WalkOn(next, [y]);
    // the link before y can only be x
    assert next[r[|r| - 1]] == next[x];
  }

  // if two rings share a link, one lists the other from another start
  lemma {:induction false} SharedFrom<T>(next: map<T, T>, s: seq<T>, t: seq<T>, i: nat, j: nat, k: nat)
    requires IsLinked(next) && IsRing(next, s) && IsRing(next, t)
    requires i < |s| && j < |t| && s[i] == t[j] && k < |t|
    ensures t[k] in s
    decreases if k >= j then k - j else |t| - j + k
  {
    if k != j {
      RingWraps(next, s, i);
      RingWraps(next, t, j);
      SharedFrom(next, s, t, if i == |s| - 1 then 0 else i + 1, if j == |t| - 1 then 0 else j + 1, k);
    }
  }

  lemma RingsMeetOrNot<T>(next: map<T, T>, s: seq<T>, t: seq<T>)
    requires IsLinked(next) && IsRing(next, s) && IsRing(next, t) && t[|t| - 1] !in s
    ensures Disjoint(s, t)
  {
    forall i, j | 0 <= i < |s| && 0 <= j < |t| ensures s[i] != t[j] {
      if s[i] == t[j] { SharedFrom(next, s, t, i, j, |t| - 1); }
    }
  }

  /** Under every aliasing of two different links: if they were in one ring it is
      split after each of them, if in two these are joined. */
  lemma ExchangeSplitsOrMerges<T>(next: map<T, T>, a: T, b: T) returns (s: seq<T>, t: seq<T>)
    requires IsLinked(next) && a in next && b in next && a != b
    ensures s != [] && t != [] && s[|s| - 1] == a && t[|t| - 1] == b
    ensures var next' := Exchange(next, a, b);
      (IsRing(next, s + t) && IsRing(next', s) && IsRing(next', t)) ||
      (IsRing(next, s) && IsRing(next, t) && Disjoint(s, t) && IsRing(next', s + t))
  {
    t := RingThrough(next, b);
    if a in t {
      var k :| 0 <= k < |t| && t[k] == a;
      var r := t;
      s, t := r[..k + 1], r[k + 1..];
      assert s + t == r;
      ExchangeSplits(next, s, t);
    } else {
      s := RingThrough(next, a);
      RingsMeetOrNot(next, t, s);
      ExchangeMerges(next, s, t);
    }
  }

  // ---- single links

  // a link on its own is put after link k of a ring
  lemma InsertBehind<T>(next: map<T, T>, s: seq<T>, k: nat, x: T)
    requires IsRing(next, s) && k < |s| && x in next && next[x] == x && x !in s
    ensures IsRing(Exchange(next, s[k], x), s[..k + 1] + [x] + s[k + 1..])
  {
    Rotate(next, s, k + 1);
    var r := s[k + 1..] + s[..k + 1];
    assert r[|r| - 1] == s[k];
    assert IsRing(next, [x]);
    ExchangeMerges(next, r, [x]);
    var u := r + [x];
    var m := |s| - (k + 1);
    Rotate(Exchange(next, s[k], x), u, m);
    Turned(s, k + 1, x);
  }

  // s from k on, its beginning and x, turned so that s begins again
  lemma Turned<T>(s: seq<T>, k: nat, x: T)
    requires k <= |s|
    ensures var u := s[k..] + s[..k] + [x]; u[|s| - k..] + u[..|s| - k] == s[..k] + [x] + s[k..]
  {
    var u := s[k..] + s[..k] + [x];
    assert u[..|s| - k] == s[k..] && u[|s| - k..] == s[..k] + [x];
  }

  // link k of a ring of at least two is taken out of it
  lemma TakeOut<T>(next: map<T, T>, s: seq<T>, k: nat)
    requires IsRing(next, s) && k < |s| && |s| > 1
    ensures var before := s[if k == 0 then |s| - 1 else k - 1];
      var next' := Exchange(next, before, s[k]);
      IsRing(next', s[..k] + s[k + 1..]) && next'[s[k]] == s[k] && next[before] == s[k]
  {
    var before := s[if k == 0 then |s| - 1 else k - 1];
    RingWraps(next, s, if k == 0 then |s| - 1 else k - 1);
    Rotate(next, s, k + 1);
    var u := s[k + 1..] + s[..k];
    assert u + [s[k]] == s[k + 1..] + s[..k + 1];
    assert u[|u| - 1] == before;
    ExchangeSplits(next, u, [s[k]]);
    var m := |s| - (k + 1);
    Rotate(Exchange(next, before, s[k]), u, m);
    assert u[m..] + u[..m] == s[..k] + s[k + 1..];
  }

  // taking x out from behind its predecessor, and putting it back one link on
  function Swapped<T>(next: map<T, T>, before: T, x: T): map<T, T>
    requires before in next && x in next && next[x] in next
  {
    Exchange(Exchange(next, before, x), next[x], x)
  }

  /** swapWithNext exchanges two neighbours and leaves the rest of the ring alone ... */
  lemma SwapExchangesNeighbours<T>(next: map<T, T>, s: seq<T>, k: nat)
    requires IsRing(next, s) && k + 1 < |s|
    ensures var before := s[if k == 0 then |s| - 1 else k - 1];
      next[s[k]] == s[k + 1] && next[before] == s[k] &&
      IsRing(Swapped(next, before, s[k]), s[..k] + [s[k + 1], s[k]] + s[k + 2..])
  {
    var before := s[if k == 0 then |s| - 1 else k - 1];
    RingWraps(next, s, k);
    TakeOut(next, s, k);
    var next1 := Exchange(next, before, s[k]);
    var s1 := s[..k] + s[k + 1..];
    assert s1[k] == s[k + 1];
    InsertBehind(next1, s1, k, s[k]);
    Reordered(s, k);
  }

  lemma Reordered<T>(s: seq<T>, k: nat)
    requires k + 1 < |s|
    ensures var s1 := s[..k] + s[k + 1..]; s1[..k + 1] + [s[k]] + s1[k + 1..] == s[..k] + [s[k + 1], s[k]] + s[k + 2..]
  {
    var s1 := s[..k] + s[k + 1..];
    assert s1[..k + 1] == s[..k] + [s[k + 1]] && s1[k + 1..] == s[k + 2..];
  }

  /** ... and a ring of one link alone. */
  lemma SwapOfOne<T>(next: map<T, T>, x: T)
    requires IsRing(next, [x])
    ensures Swapped(next, x, x) == next
  {
    assert next[[x][0]] == x;
  }

  /** What the swapped link leads to afterwards is the successor of its successor,
      as the comment in Ring.hh has it, just in rings of more than two. */
  lemma SwapCommentExactly<T>(next: map<T, T>, s: seq<T>)
    requires IsRing(next, s) && |s| > 1
    ensures var x := s[0];
      next[s[|s| - 1]] == x && (Swapped(next, s[|s| - 1], x)[x] == next[next[x]] <==> |s| > 2)
  {
    SwapExchangesNeighbours(next, s, 0);
    var r := s[..0] + [s[1], s[0]] + s[2..];
    RingWraps(Swapped(next, s[|s| - 1], s[0]), r, 1);
    RingWraps(next, s, 0);
    RingWraps(next, s, 1);
  }
}
