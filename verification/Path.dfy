/** Paths as lists of names (xju/path.cc). */
module Path {

  type Names = seq<string>

  datatype Result =
    | Ok(names: Names)
    | TooManyUps(component: nat)    // too many ".."s, at this component
    | NotAbsolute
    | NotRelative

  // ---- splitting at '/'

  // std::find
  function Find(x: string, c: char): (j: nat)
    ensures j <= |x| && (j < |x| ==> x[j] == c) && forall i :: 0 <= i < j ==> x[i] != c
  {
    if x == "" || x[0] == c then 0 else 1 + Find(x[1..], c)
  }

  function SkipSlashes(x: string): string {
    if x != "" && x[0] == '/' then SkipSlashes(x[1..]) else x
  }

  lemma {:induction false} SkipShortens(x: string)
    ensures |SkipSlashes(x)| <= |x| && (x != "" && x[0] == '/' ==> |SkipSlashes(x)| < |x|)
    ensures SkipSlashes(x) == "" || SkipSlashes(x)[0] != '/'
  {
    if x != "" && x[0] == '/' { SkipShortens(x[1..]); }
  }

  function Split(x: string): Names
    decreases |x|
  {
    if x == "" then [] else
      var j := Find(x, '/');
      SkipShortens(x[j..]);
      [x[..j]] + Split(SkipSlashes(x[j..]))
  }

  method SplitString(x: string) returns (result: Names)
    ensures result == Split(x)
  {
    result := [];
    var i := x;
    while i != ""
      invariant result + Split(i) == Split(x)
      decreases |i|
    {
      var j := Find(i, '/');
      result := result + [i[..j]];
      SkipShortens(i[j..]);
      i := i[j..];
      ghost var rest := SkipSlashes(i);
      while i != "" && i[0] == '/'
        invariant SkipSlashes(i) == rest
        decreases |i|
      {
        i := i[1..];
      }
    }
  }

  // ---- normal form

  predicate IsName(n: string) {
    n != "" && n != "." && n != ".."
  }

  predicate Normal(x: Names) {
    forall i :: 0 <= i < |x| ==> IsName(x[i])
  }

  // the names in effect after x, having had done before, component being the next one's number
  function NormaliseFrom(done: Names, x: Names, component: nat): Result
    decreases x
  {
    if x == [] then Ok(done)
    else if x[0] == "." || x[0] == "" then NormaliseFrom(done, x[1..], component + 1)
    else if x[0] == ".." then
      if done == [] then TooManyUps(component) else NormaliseFrom(done[..|done| - 1], x[1..], component + 1)
    else NormaliseFrom(done + [x[0]], x[1..], component + 1)
  }

  function Normalised(x: Names): Result {
    NormaliseFrom([], x, 1)
  }

  method Normalise(x: Names) returns (r: Result)
    ensures r == Normalised(x)
  {
    var result: Names := [];
    var i := 0;
    assert x[0..] == x;
    while i < |x|
      invariant i <= |x| && NormaliseFrom(result, x[i..], i + 1) == Normalised(x)
    {
      assert x[i..][0] == x[i] && x[i..][1..] == x[i + 1..];
      if x[i] == "." || x[i] == "" {
      } else if x[i] == ".." {
        if |result| == 0 { return TooManyUps(i + 1); }
        result := result[..|result| - 1];
      } else {
        result := result + [x[i]];
      }
      i := i + 1;
    }
    r := Ok(result);
  }

  /** A normalised path has no "", "." or "..". */
  lemma {:induction false} NormaliseIsNormal(done: Names, x: Names, component: nat)
    requires Normal(done) && NormaliseFrom(done, x, component).Ok?
    ensures Normal(NormaliseFrom(done, x, component).names)
    decreases x
  {
    if x != [] {
      if x[0] == "." || x[0] == "" {
        NormaliseIsNormal(done, x[1..], component + 1);
      } else if x[0] == ".." {
        NormaliseIsNormal(done[..|done| - 1], x[1..], component + 1);
      } else {
        NormaliseIsNormal(done + [x[0]], x[1..], component + 1);
      }
    }
  }

  // the component's number shows in the failure alone
  predicate Same(r: Result, s: Result) {
    if r.Ok? then r == s else !s.Ok?
  }

  lemma {:induction false} ComponentNumbers(done: Names, x: Names, c: nat, d: nat)
    ensures Same(NormaliseFrom(done, x, c), NormaliseFrom(done, x, d))
    decreases x
  {
    if x != [] {
      if x[0] == "." || x[0] == "" {
        ComponentNumbers(done, x[1..], c + 1, d + 1);
      } else if x[0] == ".." {
        if done != [] { ComponentNumbers(done[..|done| - 1], x[1..], c + 1, d + 1); }
      } else {
        ComponentNumbers(done + [x[0]], x[1..], c + 1, d + 1);
      }
    }
  }

  lemma {:induction false} NormaliseAppend(done: Names, a: Names, b: Names, component: nat)
    ensures var r := NormaliseFrom(done, a, component);
      NormaliseFrom(done, a + b, component) ==
      if r.Ok? then NormaliseFrom(r.names, b, component + |a|) else r
    decreases a
  {
    if a == [] {
      assert a + b == b;
    } else {
      assert (a + b)[1..] == a[1..] + b;
      if a[0] == "." || a[0] == "" {
        NormaliseAppend(done, a[1..], b, component + 1);
      } else if a[0] == ".." {
        if done != [] { NormaliseAppend(done[..|done| - 1], a[1..], b, component + 1); }
      } else {
        NormaliseAppend(done + [a[0]], a[1..], b, component + 1);
      }
    }
  }

  lemma {:induction false} NormaliseOfNormal(done: Names, x: Names, component: nat)
    requires Normal(x)
    ensures NormaliseFrom(done, x, component) == Ok(done + x)
    decreases x
  {
    if x == [] {
      assert done + x == done;
    } else {
      NormaliseOfNormal(done + [x[0]], x[1..], component + 1);
      assert done + [x[0]] + x[1..] == done + x;
    }
  }

  /** Joining onto a normalised path is normalising the whole, failures included. */
  lemma NormaliseInParts(a: Names, b: Names)
    ensures if Normalised(a).Ok? then Same(Normalised(Normalised(a).names + b), Normalised(a + b))
            else Normalised(a + b) == Normalised(a)
  {
    NormaliseAppend([], a, b, 1);
    if Normalised(a).Ok? {
      var n := Normalised(a).names;
      NormaliseIsNormal([], a, 1);
      NormaliseAppend([], n, b, 1);
      NormaliseOfNormal([], n, 1);
      ComponentNumbers(n, b, 1 + |n|, 1 + |a|);
      assert [] + n == n;
    }
  }

  // ---- when it fails

  // how far below the root x leads
  function Depth(x: Names): int {
    if x == [] then 0 else
      Depth(x[..|x| - 1]) + (var n := x[|x| - 1]; if IsName(n) then 1 else if n == ".." then -1 else 0)
  }

  lemma {:induction false} DepthFirst(x: Names)
    requires x != []
    ensures Depth(x) == Depth(x[..1]) + Depth(x[1..])
    decreases |x|
  {
    if |x| == 1 {
      assert x[..1] == x;
    } else {
      var y := x[..|x| - 1];
      DepthFirst(y);
      assert y[..1] == x[..1] && y[1..] == x[1..][..|x| - 2] && x[1..][|x| - 2] == x[|x| - 1];
    }
  }

  // the first i components lead above the root, if started below by depth
  ghost predicate Above(depth: nat, x: Names, i: nat) {
    i <= |x| && depth + Depth(x[..i]) < 0
  }

  lemma {:induction false} FailsFrom(done: Names, x: Names, component: nat)
    ensures NormaliseFrom(done, x, component).TooManyUps? <==> exists i: nat :: Above(|done|, x, i)
    decreases x
  {
    if x == [] {
      assert forall i: nat | i <= 0 :: x[..i] == [];
    } else {
      var n := x[0];
      var step := if IsName(n) then 1 else if n == ".." then -1 else 0;
      forall i: nat | 0 < i <= |x| ensures Depth(x[..i]) == step + Depth(x[1..][..i - 1]) {
        DepthFirst(x[..i]);
        assert x[..i][..1] == [n] && x[..i][1..] == x[1..][..i - 1];
        assert [n][..0] == [];
      }
      assert x[..0] == [];
      if n == ".." && done == [] {
        assert x[1..][..0] == [];
        assert Above(0, x, 1);
      } else {
        var done' := if n == ".." then done[..|done| - 1] else if IsName(n) then done + [n] else done;
        assert |done'| == |done| + step;
        FailsFrom(done', x[1..], component + 1);
        if i: nat :| Above(|done'|, x[1..], i) { assert Above(|done|, x, i + 1); }
        if i: nat :| Above(|done|, x, i) { assert Above(|done'|, x[1..], i - 1); }
      }
    }
  }

  /** Normalising fails just when some part of the path leads above the root. */
  lemma NormaliseFailsExactly(x: Names)
    ensures Normalised(x).TooManyUps? <==> exists i: nat :: i <= |x| && Depth(x[..i]) < 0
  {
    FailsFrom([], x, 1);
    assert forall i: nat :: Above(0, x, i) <==> i <= |x| && Depth(x[..i]) < 0;
  }

  // ---- paths as text

  predicate IsAbsolute(x: string) {
    x != "" && x[0] == '/'
  }

  function AbsolutePath(x: string): Result {
    if IsAbsolute(x) then Normalised(Split(x[1..])) else NotAbsolute
  }

  function RelativePath(x: string): Result {
    if IsAbsolute(x) then NotRelative else Ok(Split(x))
  }

  function Join(x: Names): string {
    if x == [] then "" else if |x| == 1 then x[0] else x[0] + "/" + Join(x[1..])
  }

  // str(AbsolutePath), str(RelativePath)
  function Str(p: Names): string {
    "/" + Join(p)
  }

  function StrRelative(p: Names): string {
    Join(p)
  }

  predicate SlashFree(x: Names) {
    forall i :: 0 <= i < |x| ==> '/' !in x[i]
  }

  predicate NonEmpty(x: Names) {
    forall i :: 0 <= i < |x| ==> x[i] != ""
  }

  lemma {:induction false} FindAt(a: string, b: string)
    requires '/' !in a && (b == "" || b[0] == '/')
    ensures Find(a + b, '/') == |a| && (a + b)[..|a|] == a && (a + b)[|a|..] == b
  {
    assert forall i :: 0 <= i < |a| ==> (a + b)[i] == a[i];
    if b != "" { assert (a + b)[|a|] == '/'; }
  }

  lemma {:induction false} SplitFirst(a: string, b: string)
    requires '/' !in a && (b == "" || b[0] == '/') && a + b != ""
    ensures Split(a + b) == [a] + Split(SkipSlashes(b))
  {
    FindAt(a, b);
  }

  lemma {:induction false} SplitOfJoin(x: Names)
    requires SlashFree(x) && NonEmpty(x)
    ensures Split(Join(x)) == x && (x != [] ==> Join(x) != "" && Join(x)[0] != '/')
  {
    if x == [] {
    } else if |x| == 1 {
      SplitFirst(x[0], "");
      assert x[0] + "" == x[0];
      assert x[0][0] in x[0];
    } else {
      SplitOfJoin(x[1..]);
      var rest := "/" + Join(x[1..]);
      SplitFirst(x[0], rest);
      assert Join(x) == x[0] + rest;
      assert SkipSlashes(rest) == Join(x[1..]) by { assert rest[1..] == Join(x[1..]); }
      assert x[0][0] in x[0];
    }
  }

  lemma {:induction false} SplitIsSlashFree(x: string)
    ensures SlashFree(Split(x))
    ensures x != "" ==> Split(x) != []
    ensures forall i :: 0 <= i < |Split(x)| && Split(x)[i] == "" ==> i == 0 && IsAbsolute(x)
    decreases |x|
  {
    if x != "" {
      var j := Find(x, '/');
      SkipShortens(x[j..]);
      SplitIsSlashFree(SkipSlashes(x[j..]));
    }
  }

  /** Parsing what is printed gives back a normalised path just if no component has
      a slash in it. */
  lemma AbsoluteRoundTripExactly(p: Names)
    requires Normal(p)
    ensures AbsolutePath(Str(p)) == Ok(p) <==> SlashFree(p)
  {
    assert Str(p)[1..] == Join(p);
    if SlashFree(p) {
      SplitOfJoin(p);
      NormaliseOfNormal([], p, 1);
      assert [] + p == p;
    } else {
      SplitIsSlashFree(Join(p));
      if Normalised(Split(Join(p))).Ok? { NormaliseKeepsSlashFree([], Split(Join(p)), 1); }
    }
  }

  lemma {:induction false} NormaliseKeepsSlashFree(done: Names, x: Names, component: nat)
    requires SlashFree(done) && SlashFree(x) && NormaliseFrom(done, x, component).Ok?
    ensures SlashFree(NormaliseFrom(done, x, component).names)
    decreases x
  {
    if x != [] {
      if x[0] == "." || x[0] == "" {
        NormaliseKeepsSlashFree(done, x[1..], component + 1);
      } else if x[0] == ".." {
        NormaliseKeepsSlashFree(done[..|done| - 1], x[1..], component + 1);
      } else {
        NormaliseKeepsSlashFree(done + [x[0]], x[1..], component + 1);
      }
    }
  }

  /** ... and a relative path, which is not normalised, if none is empty either. */
  lemma RelativeRoundTripExactly(p: Names)
    ensures RelativePath(StrRelative(p)) == Ok(p) <==> SlashFree(p) && NonEmpty(p)
  {
    if SlashFree(p) && NonEmpty(p) {
      SplitOfJoin(p);
    } else {
      SplitIsSlashFree(Join(p));
    }
  }

  // ---- directory and file part

  function AbsoluteDirname(x: string): Result {
    if !IsAbsolute(x) then NotAbsolute else
      var y := Split(x[1..]);
      if y == [] then AbsolutePath("/") else Normalised(y[..|y| - 1])
  }

  function RelativeDirname(x: string): Result {
    if IsAbsolute(x) then NotRelative else
      var y := Split(x);
      if y == [] then RelativePath("") else Ok(y[..|y| - 1])
  }

  function Basename(x: string): string {
    var y := Split(x);
    if y == [] then "" else y[|y| - 1]
  }

  // operator+
  function Plus(x: Result, y: Result): Result {
    if !x.Ok? then x else if !y.Ok? then y else Normalised(x.names + y.names)
  }

  function SplitDir(x: string, workingDir: Names): Result {
    if IsAbsolute(x) then Plus(AbsoluteDirname(x), Ok([Basename(x)]))
    else Plus(Plus(Ok(workingDir), RelativeDirname(x)), Ok([Basename(x)]))
  }

  // a leading slash only adds an empty first component
  lemma {:induction false} SplitAbsolute(t: string)
    ensures Split("/" + t) == [""] + Split(SkipSlashes(t))
    ensures Split(t) == if IsAbsolute(t) then [""] + Split(SkipSlashes(t)) else Split(SkipSlashes(t))
  {
    SplitFirst("", "/" + t);
    assert "" + ("/" + t) == "/" + t;
    assert ("/" + t)[1..] == t;
    if IsAbsolute(t) {
      SplitFirst("", t);
      assert "" + t == t;
    }
  }

  // x's directory part and name joined again, where x's components are y, but for empty ones
  lemma LastAgain(y: Names, name: string)
    requires if y == [] then name == "" else name == y[|y| - 1]
    ensures var d := if y == [] then [] else y[..|y| - 1];
      Same(Plus(Normalised(d), Ok([name])), Normalised(y))
  {
    var d := if y == [] then [] else y[..|y| - 1];
    NormaliseInParts(d, [name]);
    if y == [] {
      assert d + [name] == [""];
      assert [""][1..] == [];
    } else {
      assert d + [name] == y;
    }
  }

  /** splitdir(x) is AbsolutePath(x) for every absolute x, failures included ... */
  lemma SplitDirIsAbsolutePath(x: string, workingDir: Names)
    requires IsAbsolute(x)
    ensures Same(SplitDir(x, workingDir), AbsolutePath(x))
  {
    var t := x[1..];
    assert x == "/" + t;
    SplitAbsolute(t);
    assert "/"[1..] == "";
    LastAgain(Split(t), Basename(x));
  }

  /** ... and for every other x the path of x from the working directory. */
  lemma {:induction false} SplitDirIsFromWorkingDir(x: string, workingDir: Names)
    requires !IsAbsolute(x) && Normal(workingDir)
    ensures Same(SplitDir(x, workingDir), Normalised(workingDir + Split(x)))
  {
    var y, w := Split(x), workingDir;
    var d := if y == [] then [] else y[..|y| - 1];
    assert RelativeDirname(x) == Ok(d);
    NormaliseInParts(w + d, [Basename(x)]);
    if y == [] {
      NormaliseInParts(w, [""]);
      NormaliseOfNormal([], w, 1);
      assert w + d == w && w + y == w && [] + w == w;
      NormaliseAppend([], w, [""], 1);
      assert [""][1..] == [];
    } else {
      assert w + d + [Basename(x)] == w + y;
    }
  }

  // str(AbsolutePath, FileName), and split(x), which is not AbsolutePath plus a name: the name stays as it is
  function StrFile(d: Names, f: string): string {
    Str(d) + "/" + f
  }

  function SplitFile(x: string): (Result, string) {
    (AbsoluteDirname(x), Basename(x))
  }

  /** A directory and file name printed and split come back just if no component has
      a slash, nor the name, and the name is not empty, unless the directory is the root. */
  lemma FileRoundTripExactly(d: Names, f: string)
    requires Normal(d)
    ensures SplitFile(StrFile(d, f)) == (Ok(d), f) <==> SlashFree(d) && '/' !in f && (f != "" || d == [])
  {
    var t := Join(d) + "/" + f;
    assert StrFile(d, f) == "/" + t;
    if SlashFree(d) && '/' !in f {
      if f != "" || d == [] { FileComes(d, f, t); } else { FileNameLost(d, t); }
    } else {
      FileIsPlain(d, f, t);
    }
  }

  // what is split off has no slashes
  lemma FileIsPlain(d: Names, f: string, t: string)
    requires t != ""
    ensures SplitFile("/" + t) == (Ok(d), f) ==> SlashFree(d) && '/' !in f
  {
    BehindSlash(t);
    SplitIsSlashFree(t);
    SplitIsSlashFree("/" + t);
    var y := Split(t)[..|Split(t)| - 1];
    if Normalised(y).Ok? { NormaliseKeepsSlashFree([], y, 1); }
  }

  // without a name the directory's last takes its place
  lemma {:induction false} FileNameLost(d: Names, t: string)
    requires t == Join(d) + "/" && Normal(d) && SlashFree(d) && d != []
    ensures AbsoluteDirname("/" + t) != Ok(d)
  {
    BehindSlash(t);
    SplitOfJoinThen(d, "/");
    SkipOne("");
    assert "/" + "" == "/" && Split(t) == d;
    NormalIsItself(d[..|d| - 1]);
  }

  lemma {:induction false} SkipOne(s: string)
    requires s == "" || s[0] != '/'
    ensures SkipSlashes("/" + s) == s
  {
    assert ("/" + s)[1..] == s;
  }

  // joined components, and something behind the next slash
  lemma {:induction false} SplitOfJoinThen(x: Names, rest: string)
    requires SlashFree(x) && NonEmpty(x) && x != [] && (rest == "" || rest[0] == '/')
    ensures Split(Join(x) + rest) == x + Split(SkipSlashes(rest))
  {
    if |x| == 1 {
      assert x == [x[0]];
      SplitFirst(x[0], rest);
    } else {
      SplitOfJoinThen(x[1..], rest);
      var b := Join(x[1..]);
      assert b != "" && b[0] != '/' by { SplitOfJoin(x[1..]); }
      JoinTwo(x[0], b, rest, Split(SkipSlashes(rest)), x[1..]);
      assert Join(x) == x[0] + "/" + b;
      assert x == [x[0]] + x[1..];
    }
  }

  lemma {:induction false} JoinTwo(a: string, b: string, rest: string, ys: Names, xs: Names)
    requires '/' !in a && b != "" && b[0] != '/' && Split(b + rest) == xs + ys
    ensures Split(a + "/" + b + rest) == [a] + xs + ys
  {
    SplitTwo(a, b + rest, a + "/" + b + rest);
    assert a + "/" + b + rest == a + "/" + (b + rest);
    assert [a] + xs + ys == [a] + (xs + ys);
  }

  lemma {:induction false} SplitTwo(a: string, b: string, ab: string)
    requires '/' !in a && b != "" && b[0] != '/' && ab == a + "/" + b
    ensures Split(ab) == [a] + Split(b)
  {
    SkipOne(b);
    SplitFirst(a, "/" + b);
    assert ab == a + ("/" + b);
  }

  lemma {:induction false} SplitName(f: string)
    requires '/' !in f
    ensures Split(f) == if f == "" then [] else [f]
  {
    if f != "" {
      SplitFirst(f, "");
      assert f + "" == f;
    }
  }

  lemma {:induction false} FileComes(d: Names, f: string, t: string)
    requires Normal(d) && SlashFree(d) && '/' !in f && (f != "" || d == []) && t == Join(d) + "/" + f
    ensures AbsoluteDirname("/" + t) == Ok(d) && Basename("/" + t) == f
  {
    var rest := "/" + f;
    assert ("/" + t)[1..] == t;
    assert f != "" ==> f[0] in f;
    SkipOne(f);
    SplitName(f);
    if d == [] {
      assert t == rest;
      FileInRoot(f);
    } else {
      assert t == Join(d) + rest;
      assert Split(t) == d + [f] by { SplitOfJoinThen(d, rest); }
      assert t[0] != '/' by { SplitOfJoin(d); assert t[0] == Join(d)[0]; }
      FileInDirectory(d, f, t);
    }
  }

  lemma AllButLast<T>(d: seq<T>, f: T)
    ensures (d + [f])[..|d + [f]| - 1] == d && (d + [f])[|d + [f]| - 1] == f
  {
  }

  lemma BehindSlash(t: string)
    ensures IsAbsolute("/" + t) && ("/" + t)[1..] == t
  {
  }

  lemma NormalIsItself(d: Names)
    requires Normal(d)
    ensures Normalised(d) == Ok(d)
  {
    NormaliseOfNormal([], d, 1);
    assert [] + d == d;
  }

  lemma {:induction false} FileInDirectory(d: Names, f: string, t: string)
    requires Normal(d) && t != "" && t[0] != '/' && Split(t) == d + [f]
    ensures AbsoluteDirname("/" + t) == Ok(d) && Basename("/" + t) == f
  {
    BehindSlash(t);
    AllButLast(d, f);
    NormalIsItself(d);
    SplitAbsolute(t);
    SkipNone(t);
    LastBehind("", d, f);
  }

  lemma LastBehind<T>(x: T, d: seq<T>, f: T)
    ensures |[x] + (d + [f])| > 0 && ([x] + (d + [f]))[|[x] + (d + [f])| - 1] == f
  {
  }

  lemma {:induction false} SkipNone(t: string)
    requires t == "" || t[0] != '/'
    ensures SkipSlashes(t) == t
  {
  }

  lemma {:induction false} FileInRoot(f: string)
    requires '/' !in f && Split(f) == if f == "" then [] else [f]
    ensures AbsoluteDirname("/" + ("/" + f)) == Ok([]) && Basename("/" + ("/" + f)) == f
  {
    var t := "/" + f;
    assert ("/" + t)[1..] == t && t[1..] == f;
    assert f != "" ==> f[0] in f;
    SplitAbsolute(f);
    SplitAbsolute(t);
    SkipOne(f);
    var y := Split(t);
    assert y == if f == "" then [""] else ["", f];
    assert y[..|y| - 1] == if f == "" then [] else [""];
    assert [""][1..] == [];
  }

  /** The directory and the last name of a path make up the path. */
  lemma DirnameAndBasename(p: Names)
    requires Normal(p) && p != []
    ensures Plus(Normalised(p[..|p| - 1]), Ok([p[|p| - 1]])) == Ok(p)
  {
    LastAgain(p, p[|p| - 1]);
    NormaliseOfNormal([], p, 1);
    assert [] + p == p;
  }

  /** The string of a relative path is empty just for the empty path, which is the
      path of "", and for the path of one empty name, which splitdir makes of "/". */
  lemma EmptyRelativeExactly(p: Names)
    ensures StrRelative(p) == "" <==> p == [] || p == [""]
    ensures RelativePath("") == Ok([])
  {
    if |p| > 1 { assert '/' in p[0] + "/" + Join(p[1..]); }
  }
}
