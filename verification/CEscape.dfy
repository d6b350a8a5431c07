/** The C escapes of xju/format.cc. */
module CEscape {

  type Byte = c: char | c < 256 as char witness 'a'
  type Bytes = seq<Byte>

  // ---- octal

  function Digit(x: nat): (c: char)
    requires x < 8
    ensures '0' <= c <= '7' && c as nat - '0' as nat == x
  {
    (x + '0' as nat) as char
  }

  // the n lowest octal digits of x
  function Octal(x: nat, n: nat): (s: string)
    ensures |s| == n && forall i :: 0 <= i < n ==> '0' <= s[i] <= '7'
    decreases n
  {
    if n == 0 then "" else Octal(x / 8, n - 1) + [Digit(x % 8)]
  }

  function OctalValue(s: string): nat
    requires forall i :: 0 <= i < |s| ==> '0' <= s[i] <= '7'
  {
    if s == "" then 0 else 8 * OctalValue(s[..|s| - 1]) + (s[|s| - 1] as nat - '0' as nat)
  }

  function Power8(n: nat): nat {
    if n == 0 then 1 else 8 * Power8(n - 1)
  }

  /** The digits of x say x, when there are enough of them. */
  lemma {:induction false} OctalIsValue(x: nat, n: nat)
    requires x < Power8(n)
    ensures OctalValue(Octal(x, n)) == x
  {
    if n > 0 {
      OctalIsValue(x / 8, n - 1);
      var s := Octal(x, n);
      assert s[..|s| - 1] == Octal(x / 8, n - 1);
    }
  }

  /** asOctal: digits are pushed lowest first, three bits at a time, then reversed. */
  method AsOctal(x: nat, size: nat) returns (s: string)
    ensures s == Octal(x, (8 * size + 2) / 3)
  {
    var y, bits: int := x, 8 * size;
    s := "";
    ghost var n := (8 * size + 2) / 3;
    while bits > 0
      invariant n >= 0 && n == (if bits > 0 then (bits + 2) / 3 else 0)
      invariant Octal(x, (8 * size + 2) / 3) == Octal(y, n) + s
    {
      s := [Digit(y % 8)] + s;
      bits, y, n := bits - 3, y / 8, n - 1;
    }
  }

  // ---- escapes

  // ::isprint in the C locale
  predicate IsPrint(c: Byte) {
    ' ' <= c <= '~'
  }

  function EscapeCharCommon(c: Byte): string {
    if c == '\\' then "\\\\"
    else if c == 7 as char then "\\a"
    else if c == 8 as char then "\\b"
    else if c == 12 as char then "\\f"
    else if c == '\n' then "\\n"
    else if c == '\r' then "\\r"
    else if c == '\t' then "\\t"
    else if c == 11 as char then "\\v"
    else if IsPrint(c) then [c]
    else "\\0" + Octal(c as nat, 3)
  }

  function EscapeStringChar(c: Byte): string {
    if c == '"' then "\\\"" else EscapeCharCommon(c)
  }

  // what cEscapeString returns
  function Escape(s: Bytes): string {
    if s == [] then "" else EscapeStringChar(s[0]) + Escape(s[1..])
  }

  /** cEscapeString: every character's escape, one after the other. */
  method EscapeString(s: Bytes) returns (r: string)
    ensures r == Escape(s)
  {
    r := "";
    for i := 0 to |s|
      invariant Escape(s) == r + Escape(s[i..])
    {
      assert s[i..][1..] == s[i + 1..];
      r := r + EscapeStringChar(s[i]);
    }
  }

  // characters that are written with octal digits
  predicate NeedsOctal(c: Byte) {
    !IsPrint(c) && !(7 as char <= c <= 13 as char)
  }

  // ---- reading escapes back

  // the character meant by a backslash and ch
  function Named(ch: char): (c: Byte) {
    if ch == 'a' then 7 as char
    else if ch == 'b' then 8 as char
    else if ch == 'f' then 12 as char
    else if ch == 'n' then '\n'
    else if ch == 'r' then '\r'
    else if ch == 't' then '\t'
    else if ch == 'v' then 11 as char
    else if ch == '\\' then '\\'
    else '"'
  }

  predicate IsNamed(ch: char) {
    ch in "abfnrtv\\\""
  }

  predicate IsOctalDigit(ch: char) {
    '0' <= ch <= '7'
  }

  // the inverse of Escape, taking \0 to be followed by three more digits
  function Unescape(t: string): Bytes
    decreases |t|
  {
    if t == "" then []
    else if t[0] != '\\' then (if t[0] < 256 as char then [t[0]] else []) + Unescape(t[1..])
    else if |t| >= 2 && IsNamed(t[1]) then [Named(t[1])] + Unescape(t[2..])
    else if |t| >= 5 && IsOctalDigit(t[2]) && IsOctalDigit(t[3]) && IsOctalDigit(t[4]) && OctalValue(t[2..5]) < 256 then
      [OctalValue(t[2..5]) as char] + Unescape(t[5..])
    else []
  }

  lemma OctalEscape(c: Byte, rest: string)
    requires NeedsOctal(c)
    ensures var t := EscapeStringChar(c) + rest;
      |EscapeStringChar(c)| == 5 && t[0] == '\\' && t[1] == '0' &&
      IsOctalDigit(t[2]) && IsOctalDigit(t[3]) && IsOctalDigit(t[4]) &&
      OctalValue(t[2..5]) == c as nat && t[5..] == rest
  {
    var t := EscapeStringChar(c) + rest;
    assert EscapeStringChar(c) == "\\0" + Octal(c as nat, 3);
    assert t[2..5] == Octal(c as nat, 3);
    assert Power8(3) == 512;
    OctalIsValue(c as nat, 3);
    assert t[2] == Octal(c as nat, 3)[0] && t[3] == Octal(c as nat, 3)[1] && t[4] == Octal(c as nat, 3)[2];
  }

  lemma {:induction false} UnescapeInverts(s: Bytes)
    ensures Unescape(Escape(s)) == s
  {
    if s != [] {
      UnescapeInverts(s[1..]);
      UnescapeFirst(s[0], Escape(s[1..]));
    }
  }

  lemma {:induction false} UnescapeFirst(c: Byte, rest: string)
    ensures Unescape(EscapeStringChar(c) + rest) == [c] + Unescape(rest)
  {
    if NeedsOctal(c) {
      UnescapeOctal(c, rest);
    } else if |EscapeStringChar(c)| == 1 {
      assert (EscapeStringChar(c) + rest)[1..] == rest;
    } else {
      UnescapeNamed(c, rest);
    }
  }

  lemma {:induction false} UnescapeOctal(c: Byte, rest: string)
    requires NeedsOctal(c)
    ensures Unescape(EscapeStringChar(c) + rest) == [c] + Unescape(rest)
  {
    OctalEscape(c, rest);
    assert !IsNamed('0');
  }

  lemma {:induction false} UnescapeNamed(c: Byte, rest: string)
    requires !NeedsOctal(c) && |EscapeStringChar(c)| != 1
    ensures Unescape(EscapeStringChar(c) + rest) == [c] + Unescape(rest)
  {
    var t := EscapeStringChar(c) + rest;
    assert |EscapeStringChar(c)| == 2 && t[2..] == rest && t[0] == '\\' && IsNamed(t[1]) && Named(t[1]) == c;
  }

  /** Different byte strings have different escapes. */
  lemma {:induction false} EscapeIsInjective(s: Bytes, t: Bytes)
    requires Escape(s) == Escape(t)
    ensures s == t
  {
    UnescapeInverts(s);
    UnescapeInverts(t);
  }

  // ---- reading escapes as C does

  // octal digits an escape takes: one, two or three, as many as there are
  function OctalLength(t: string): (n: nat)
    ensures n <= 3 && n <= |t| && forall i :: 0 <= i < n ==> IsOctalDigit(t[i])
  {
    if |t| < 1 || !IsOctalDigit(t[0]) then 0
    else if |t| < 2 || !IsOctalDigit(t[1]) then 1
    else if |t| < 3 || !IsOctalDigit(t[2]) then 2
    else 3
  }

  // the characters that the inside of a string literal denotes (section 2.14.3 of ISO/IEC 14882:2011)
  function Denotes(t: string): seq<nat>
    decreases |t|
  {
    if t == "" then []
    else if t[0] != '\\' then [t[0] as nat] + Denotes(t[1..])
    else if |t| >= 2 && IsNamed(t[1]) then [Named(t[1]) as nat] + Denotes(t[2..])
    else
      var n := OctalLength(t[1..]);
      if n == 0 then [] else [OctalValue(t[1..][..n])] + Denotes(t[1 + n..])
  }

  function Codes(s: Bytes): seq<nat> {
    if s == [] then [] else [s[0] as nat] + Codes(s[1..])
  }

  function OctalCount(s: Bytes): nat {
    if s == [] then 0 else (if NeedsOctal(s[0]) then 1 else 0) + OctalCount(s[1..])
  }

  lemma {:induction false} CodesLength(s: Bytes)
    ensures |Codes(s)| == |s|
  {
    if s != [] { CodesLength(s[1..]); }
  }

  // \0ddd is read as the escape \0dd and the character d
  lemma {:induction false} DenotesOctal(c: Byte, rest: string)
    requires NeedsOctal(c)
    ensures var t := EscapeStringChar(c) + rest;
      |t| >= 5 && Denotes(t) == [OctalValue(t[1..][..3]), t[4] as nat] + Denotes(rest)
  {
    var t := EscapeStringChar(c) + rest;
    OctalEscape(c, rest);
    assert !IsNamed(t[1]);
    assert t[1..][0] == t[1] && t[1..][1] == t[2] && t[1..][2] == t[3];
    assert OctalLength(t[1..]) == 3;
    assert Denotes(t) == [OctalValue(t[1..][..3])] + Denotes(t[4..]);
    assert t[4..][0] == t[4] && t[4..][1..] == rest;
    assert Denotes(t[4..]) == [t[4] as nat] + Denotes(rest);
  }

  lemma NamedEscape(c: Byte)
    requires !NeedsOctal(c) && |EscapeStringChar(c)| != 1
    ensures var e := EscapeStringChar(c); |e| == 2 && e[0] == '\\' && IsNamed(e[1]) && Named(e[1]) == c
  {
  }

  lemma PlainEscape(c: Byte)
    requires |EscapeStringChar(c)| == 1
    ensures EscapeStringChar(c)[0] == c && c !in {'\\', '"', '\n'}
  {
  }

  lemma {:induction false} DenotesOne(c: Byte, rest: string)
    requires !NeedsOctal(c)
    ensures Denotes(EscapeStringChar(c) + rest) == [c as nat] + Denotes(rest)
  {
    var e := EscapeStringChar(c);
    if |e| == 1 {
      assert (e + rest)[1..] == rest;
    } else {
      assert (e + rest)[2..] == rest;
      NamedEscape(c);
    }
  }

  lemma {:induction false} DenotesLength(s: Bytes)
    ensures |Denotes(Escape(s))| == |s| + OctalCount(s)
    ensures OctalCount(s) == 0 ==> Denotes(Escape(s)) == Codes(s)
  {
    if s != [] {
      DenotesLength(s[1..]);
      if NeedsOctal(s[0]) {
        DenotesOctal(s[0], Escape(s[1..]));
      } else {
        DenotesOne(s[0], Escape(s[1..]));
      }
    }
  }

  /** As C text, trigraphs being off, the escaped string denotes the original
      exactly when no character was written in octal: \0 takes only two of the three
      digits that follow. */
  lemma {:induction false} EscapeDenotesExactly(s: Bytes)
    ensures Denotes(Escape(s)) == Codes(s) <==> forall i :: 0 <= i < |s| ==> !NeedsOctal(s[i])
  {
    DenotesLength(s);
    CodesLength(s);
    CountIsNone(s);
  }

  lemma {:induction false} CountIsNone(s: Bytes)
    ensures OctalCount(s) == 0 <==> forall i :: 0 <= i < |s| ==> !NeedsOctal(s[i])
  {
    if s != [] {
      CountIsNone(s[1..]);
      assert forall i :: 1 <= i < |s| ==> s[i] == s[1..][i - 1];
      assert forall i :: 0 <= i < |s[1..]| ==> s[1..][i] == s[i + 1];
    }
  }
}
