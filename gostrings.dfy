/**
 * The parts of Go's `strings` and `fmt` packages that the query builder relies on,
 * over `string` = `seq<char>`: Index, Split, SplitN, Join, TrimSpace, ToLower and
 * the decimal rendering of `%d`.
 */
module GoStrings {

  /** Position of the first `c` in `s`, or `|s|` when there is none (strings.Index gives -1). */
  function IndexOf(s: string, c: char): (i: nat)
    ensures i <= |s|
    ensures i < |s| ==> s[i] == c
  {
    if s == [] || s[0] == c then 0 else 1 + IndexOf(s[1..], c)
  }

  /** No `c` comes before IndexOf. */
  lemma {:induction false} IndexOfFirst(s: string, c: char)
    ensures c !in s[..IndexOf(s, c)]
    decreases |s|
  {
    if s != [] && s[0] != c {
      var j := IndexOf(s[1..], c);
      IndexOfFirst(s[1..], c);
      assert s[..j + 1] == [s[0]] + s[1..][..j];
    }
  }

  /** strings.Join: the parts with `sep` between neighbours. */
  function Join(parts: seq<string>, sep: string): string
  {
    if parts == [] then ""
    else if |parts| == 1 then parts[0]
    else parts[0] + sep + Join(parts[1..], sep)
  }

  /** strings.Split(s, string(c)): the pieces between every occurrence of `c`. */
  function Split(s: string, c: char): (parts: seq<string>)
    ensures |parts| >= 1
    decreases |s|
  {
    var i := IndexOf(s, c);
    if i == |s| then [s] else [s[..i]] + Split(s[i + 1..], c)
  }

  /** No piece of a split holds the separator. */
  lemma {:induction false} SplitPieces(s: string, c: char)
    ensures forall k :: 0 <= k < |Split(s, c)| ==> c !in Split(s, c)[k]
    decreases |s|
  {
    var i := IndexOf(s, c);
    IndexOfFirst(s, c);
    if i == |s| {
      assert s[..i] == s;
    } else {
      SplitPieces(s[i + 1..], c);
    }
  }

  /** `s` is its first `i` characters, the one at `i`, and the rest. */
  lemma Rejoin(s: string, i: nat)
    requires i < |s|
    ensures s[..i] + [s[i]] + s[i + 1..] == s
  {
  }

  /** A separator between a piece and the join of the rest. */
  lemma JoinCons(x: string, rest: seq<string>, sep: string)
    requires rest != []
    ensures Join([x] + rest, sep) == x + sep + Join(rest, sep)
  {
    assert ([x] + rest)[1..] == rest;
  }

  /** Joining the pieces of a split with the separator gives the string back. */
  lemma {:induction false} SplitJoin(s: string, c: char)
    ensures Join(Split(s, c), [c]) == s
    decreases |s|
  {
    var i := IndexOf(s, c);
    if i < |s| {
      var rest := Split(s[i + 1..], c);
      SplitJoin(s[i + 1..], c);
      JoinCons(s[..i], rest, [c]);
      Rejoin(s, i);
    }
  }

  /**
   * strings.SplitN(s, string(c), n) for n >= 0: at most `n` pieces, the last one
   * keeping every remaining `c`.
   */
  function SplitN(s: string, c: char, n: nat): (parts: seq<string>)
    ensures n == 0 ==> parts == []
    ensures n > 0 ==> 1 <= |parts| <= n
    decreases n
  {
    if n == 0 then []
    else if n == 1 then [s]
    else
      var i := IndexOf(s, c);
      if i == |s| then [s] else [s[..i]] + SplitN(s[i + 1..], c, n - 1)
  }

  /** No piece of SplitN but the last holds the separator. */
  lemma {:induction false} SplitNPieces(s: string, c: char, n: nat)
    ensures forall k :: 0 <= k < |SplitN(s, c, n)| - 1 ==> c !in SplitN(s, c, n)[k]
    decreases n
  {
    if n > 1 {
      var i := IndexOf(s, c);
      IndexOfFirst(s, c);
      if i < |s| {
        SplitNPieces(s[i + 1..], c, n - 1);
      }
    }
  }

  /** Joining the pieces of SplitN with the separator gives the string back. */
  lemma {:induction false} SplitNJoin(s: string, c: char, n: nat)
    requires n > 0
    ensures Join(SplitN(s, c, n), [c]) == s
    decreases n
  {
    if n > 1 {
      var i := IndexOf(s, c);
      if i < |s| {
        var rest := SplitN(s[i + 1..], c, n - 1);
        SplitNJoin(s[i + 1..], c, n - 1);
        JoinCons(s[..i], rest, [c]);
        Rejoin(s, i);
      }
    }
  }

  /** A piece of a `Split` has no separator, so a string without one splits into itself. */
  lemma {:induction false} SplitWithoutSeparator(s: string, c: char)
    ensures c !in s <==> Split(s, c) == [s]
  {
    if c !in s {
      assert IndexOf(s, c) == |s|;
    } else {
      SplitPieces(s, c);
      assert c !in Split(s, c)[0];
    }
  }

  /** The first `c` of `p + t`, when `p` has none, is the first `c` of `t`, shifted. */
  lemma {:induction false} IndexOfSkip(p: string, t: string, c: char)
    requires c !in p
    ensures IndexOf(p + t, c) == |p| + IndexOf(t, c)
    decreases |p|
  {
    if p == [] {
      assert p + t == t;
    } else {
      assert (p + t)[0] == p[0] && (p + t)[1..] == p[1..] + t;
      IndexOfSkip(p[1..], t, c);
    }
  }

  /** A separator-free piece followed by the separator splits off as the first piece. */
  lemma SplitCons(p: string, rest: string, c: char)
    requires c !in p
    ensures Split(p + [c] + rest, c) == [p] + Split(rest, c)
  {
    var s := p + [c] + rest;
    IndexOfSkip(p, [c] + rest, c);
    assert s == p + ([c] + rest);
    assert IndexOf(s, c) == |p|;
    assert s[..|p|] == p;
    assert s[|p| + 1..] == rest;
  }

  /** Splitting around one separator splits each side on its own. */
  lemma {:induction false} SplitAround(a: string, b: string, c: char)
    ensures Split(a + [c] + b, c) == Split(a, c) + Split(b, c)
    decreases |a|
  {
    var i := IndexOf(a, c);
    IndexOfFirst(a, c);
    if i == |a| {
      assert a[..i] == a;
      SplitWithoutSeparator(a, c);
      SplitCons(a, b, c);
    } else {
      var p, t := a[..i], a[i + 1..];
      Rejoin(a, i);
      SplitAround(t, b, c);
      SplitAroundStep(p, t, b, c);
    }
  }

  /** The inductive step of SplitAround: one more separator-free piece in front. */
  lemma SplitAroundStep(p: string, t: string, b: string, c: char)
    requires c !in p
    requires Split(t + [c] + b, c) == Split(t, c) + Split(b, c)
    ensures Split(p + [c] + t + [c] + b, c) == Split(p + [c] + t, c) + Split(b, c)
  {
    var x, y := Split(t, c), Split(b, c);
    SplitCons(p, t, c);
    var u := t + [c] + b;
    assert p + [c] + t + [c] + b == p + [c] + u;
    SplitCons(p, u, c);
    assert [p] + (x + y) == [p] + x + y;
  }

  /** A string splits into one piece exactly when it holds no separator. */
  lemma SplitOnePiece(s: string, c: char)
    ensures |Split(s, c)| == 1 <==> c !in s
  {
    SplitWithoutSeparator(s, c);
    if |Split(s, c)| == 1 {
      SplitJoin(s, c);
      assert Split(s, c) == [Split(s, c)[0]];
    }
  }

  /** SplitN keeps a separator-free first piece and splits the rest one piece fewer. */
  lemma SplitNCons(p: string, rest: string, c: char, n: nat)
    requires n >= 2 && c !in p
    ensures SplitN(p + [c] + rest, c, n) == [p] + SplitN(rest, c, n - 1)
  {
    var s := p + [c] + rest;
    IndexOfSkip(p, [c] + rest, c);
    assert s == p + ([c] + rest);
    assert IndexOf(s, c) == |p|;
    assert s[..|p|] == p;
    assert s[|p| + 1..] == rest;
  }

  /** A string without the separator is one piece under SplitN. */
  lemma SplitNWithoutSeparator(s: string, c: char, n: nat)
    requires n >= 1 && c !in s
    ensures SplitN(s, c, n) == [s]
  {
    if n > 1 {
      assert IndexOf(s, c) == |s|;
    }
  }

  /** When SplitN stops short of `n` pieces, the last piece has no separator left. */
  lemma {:induction false} SplitNShortLast(s: string, c: char, n: nat)
    requires n >= 1
    ensures var p := SplitN(s, c, n); |p| < n ==> c !in p[|p| - 1]
    decreases n
  {
    if n > 1 {
      var i := IndexOf(s, c);
      if i == |s| {
        IndexOfFirst(s, c);
        assert s[..i] == s;
        assert SplitN(s, c, n) == [s];
      } else {
        SplitNShortLast(s[i + 1..], c, n - 1);
        assert SplitN(s, c, n) == [s[..i]] + SplitN(s[i + 1..], c, n - 1);
      }
    }
  }

  /** Every part is a contiguous piece of the joined string. */
  lemma {:induction false} JoinContains(parts: seq<string>, sep: string, k: nat)
    requires k < |parts|
    ensures Contains(Join(parts, sep), parts[k])
    decreases |parts|
  {
    var j := Join(parts, sep);
    if |parts| == 1 || k == 0 {
      assert j[0..|parts[0]|] == parts[0];
      assert PieceAt(j, parts[0], 0);
    } else {
      JoinContains(parts[1..], sep, k - 1);
      var rest := Join(parts[1..], sep);
      var i :| PieceAt(rest, parts[k], i);
      var off := |parts[0]| + |sep|;
      assert j == parts[0] + sep + rest;
      assert j[off + i..off + i + |parts[k]|] == rest[i..i + |parts[k]|];
      assert PieceAt(j, parts[k], off + i);
    }
  }

  /** Join(ps + [x]) puts one more separator and `x` at the end. */
  lemma {:induction false} JoinSnoc(parts: seq<string>, x: string, sep: string)
    requires parts != []
    ensures Join(parts + [x], sep) == Join(parts, sep) + sep + x
    decreases |parts|
  {
    if |parts| > 1 {
      assert (parts + [x])[1..] == parts[1..] + [x];
      JoinSnoc(parts[1..], x, sep);
    }
  }

  /** A join is empty only if its first part is. */
  lemma JoinEmpty(parts: seq<string>, sep: string)
    requires parts != []
    ensures |Join(parts, sep)| >= |parts[0]|
  {
  }

  /** `sub` occurs in `s` starting at position `i`. */
  predicate PieceAt(s: string, sub: string, i: int)
  {
    0 <= i <= |s| - |sub| && s[i..i + |sub|] == sub
  }

  /** `sub` occurs as a contiguous piece of `s` (strings.Contains). */
  ghost predicate Contains(s: string, sub: string)
  {
    exists i :: PieceAt(s, sub, i)
  }

  /** Every string holds itself, and the middle of a concatenation. */
  lemma ContainsMiddle(x: string, y: string, z: string)
    ensures Contains(x + y + z, y)
  {
    assert (x + y + z)[|x|..|x| + |y|] == y;
    assert PieceAt(x + y + z, y, |x|);
  }

  /** A piece of a piece is a piece. */
  lemma ContainsTrans(a: string, b: string, c: string)
    requires Contains(a, b) && Contains(b, c)
    ensures Contains(a, c)
  {
    var i :| PieceAt(a, b, i);
    var j :| PieceAt(b, c, j);
    assert b == a[i..i + |b|];
    assert 0 <= i && i + |b| <= |a| && 0 <= j && j + |c| <= |b|;
    forall k | 0 <= k < |c|
      ensures a[i + j..i + j + |c|][k] == c[k]
    {
      assert c[k] == b[j..j + |c|][k] == b[j + k];
      assert b[j + k] == a[i..i + |b|][j + k] == a[i + j + k];
    }
    assert PieceAt(a, c, i + j);
  }

  /** unicode.IsSpace: the White_Space characters strings.TrimSpace removes. */
  const Spaces: string :=
    [' ', '\t', '\n', '\r', '\U{B}', '\U{C}', '\U{85}', '\U{A0}', '\U{1680}',
     '\U{2000}', '\U{2001}', '\U{2002}', '\U{2003}', '\U{2004}', '\U{2005}', '\U{2006}',
     '\U{2007}', '\U{2008}', '\U{2009}', '\U{200A}',
     '\U{2028}', '\U{2029}', '\U{202F}', '\U{205F}', '\U{3000}']

  predicate IsSpace(ch: char)
  {
    Listed(ch, Spaces)
  }

  /** `ch` is one of `list`, searched front to back. */
  predicate Listed(ch: char, list: string)
  {
    list != [] && (ch == list[0] || Listed(ch, list[1..]))
  }

  /** Listed is membership. */
  lemma {:induction false} ListedIn(ch: char, list: string)
    ensures Listed(ch, list) <==> ch in list
  {
    if list != [] {
      ListedIn(ch, list[1..]);
      assert list == [list[0]] + list[1..];
    }
  }

  /** No printable ASCII character is white space. */
  lemma PrintableNotSpace(ch: char)
    requires '!' <= ch <= '~'
    ensures !IsSpace(ch)
  {
    assert ch !in Spaces;
    ListedIn(ch, Spaces);
  }

  /** `s` without its leading white space. */
  function TrimLeft(s: string): (r: string)
    ensures |r| <= |s| && r == s[|s| - |r|..]
    ensures r != [] ==> !IsSpace(r[0])
  {
    if s != [] && IsSpace(s[0]) then TrimLeft(s[1..]) else s
  }

  /** `s` without its trailing white space. */
  function TrimRight(s: string): (r: string)
    ensures |r| <= |s| && r == s[..|r|]
    ensures r != [] ==> !IsSpace(r[|r| - 1])
  {
    if s != [] && IsSpace(s[|s| - 1]) then TrimRight(s[..|s| - 1]) else s
  }

  /** strings.TrimSpace: leading and trailing white space removed, nothing else. */
  function TrimSpace(s: string): (r: string)
    ensures r != [] ==> !IsSpace(r[0]) && !IsSpace(r[|r| - 1])
    ensures (s == [] || (!IsSpace(s[0]) && !IsSpace(s[|s| - 1]))) ==> r == s
  {
    TrimRight(TrimLeft(s))
  }

  /** Every character of `t` is white space. */
  predicate AllSpace(t: string)
  {
    forall k :: 0 <= k < |t| ==> IsSpace(t[k])
  }

  /**
   * TrimSpace removes white space only: `s` is a run of white space, the result, and
   * another run of white space.
   */
  lemma TrimSpaceRemovesSpace(s: string)
    ensures var r := TrimSpace(s);
      var i := |s| - |TrimLeft(s)|;
      && i + |r| <= |s| && s == s[..i] + r + s[i + |r|..]
      && AllSpace(s[..i]) && AllSpace(s[i + |r|..])
  {
    var l := TrimLeft(s);
    var r := TrimRight(l);
    TrimLeftSpaces(s);
    TrimRightSpaces(l);
    Sandwich(s, l, r);
  }

  /**
   * A prefix `r` of a suffix `l` of `s`, with white space before `l` and after `r`,
   * sits between two runs of white space.
   */
  lemma Sandwich(s: string, l: string, r: string)
    requires |l| <= |s| && l == s[|s| - |l|..] && AllSpace(s[..|s| - |l|])
    requires |r| <= |l| && r == l[..|r|] && AllSpace(l[|r|..])
    ensures var i := |s| - |l|;
      && i + |r| <= |s| && s == s[..i] + r + s[i + |r|..]
      && AllSpace(s[..i]) && AllSpace(s[i + |r|..])
  {
    var i := |s| - |l|;
    var tail := s[i + |r|..];
    assert tail == l[|r|..];
    assert l == r + tail;
    assert s == s[..i] + l;
  }

  lemma {:induction false} TrimLeftSpaces(s: string)
    ensures AllSpace(s[..|s| - |TrimLeft(s)|])
  {
    if s != [] && IsSpace(s[0]) {
      TrimLeftSpaces(s[1..]);
      var n := |s| - |TrimLeft(s)|;
      assert s[..n] == [s[0]] + s[1..][..n - 1];
    }
  }

  lemma {:induction false} TrimRightSpaces(s: string)
    ensures AllSpace(s[|TrimRight(s)|..])
  {
    if s != [] && IsSpace(s[|s| - 1]) {
      var t := s[..|s| - 1];
      TrimRightSpaces(t);
      assert s[|TrimRight(s)|..] == t[|TrimRight(t)|..] + [s[|s| - 1]];
    }
  }

  /** unicode.ToLower restricted to ASCII letters. */
  function LowerChar(ch: char): (r: char)
    ensures 'A' <= ch <= 'Z' ==> 'a' <= r <= 'z'
    ensures !('A' <= ch <= 'Z') ==> r == ch
  {
    if 'A' <= ch <= 'Z' then (ch as int - 'A' as int + 'a' as int) as char else ch
  }

  /** strings.ToLower, ASCII letters only. */
  function ToLower(s: string): string
  {
    seq(|s|, k requires 0 <= k < |s| => LowerChar(s[k]))
  }

  /** Lower-casing twice is lower-casing once. */
  lemma ToLowerIdempotent(s: string)
    ensures ToLower(ToLower(s)) == ToLower(s)
  {
    var t := ToLower(s);
    assert forall k :: 0 <= k < |t| ==> LowerChar(t[k]) == t[k];
  }

  predicate IsDigit(ch: char) { '0' <= ch <= '9' }

  function DigitValue(ch: char): nat
    requires IsDigit(ch)
  {
    ch as int - '0' as int
  }

  function DigitChar(d: nat): (ch: char)
    requires d < 10
    ensures IsDigit(ch) && ch as int - '0' as int == d
  {
    ('0' as int + d) as char
  }

  /** The number a string of decimal digits denotes. */
  function DecimalValue(s: string): nat
    requires forall k :: 0 <= k < |s| ==> IsDigit(s[k])
  {
    if s == [] then 0 else 10 * DecimalValue(s[..|s| - 1]) + DigitValue(s[|s| - 1])
  }

  /** fmt's `%d` of a non-negative integer: its shortest decimal digits. */
  function NatToString(n: nat): (r: string)
    ensures r != [] && forall k :: 0 <= k < |r| ==> IsDigit(r[k])
    ensures DecimalValue(r) == n
    ensures |r| > 1 ==> r[0] != '0'
  {
    if n < 10 then [DigitChar(n)]
    else
      var r := NatToString(n / 10) + [DigitChar(n % 10)];
      assert r[..|r| - 1] == NatToString(n / 10);
      r
  }
}
