/**
 The few `kotlin.text` string functions the core relies on, with their Kotlin
 semantics: a missing delimiter makes `substringAfterLast`/`substringBeforeLast`
 return the whole string, and `split` keeps empty parts and has no limit.
 */
module KotlinText {

  /** `s.startsWith(prefix)` */
  predicate StartsWith(s: string, prefix: string)
  {
    |prefix| <= |s| && s[..|prefix|] == prefix
  }

  /** `s.count { it == c }` */
  function Count(s: string, c: char): (n: nat)
    ensures n == 0 <==> c !in s
    ensures n <= |s|
  {
    if |s| == 0 then 0
    else (if s[0] == c then 1 else 0) + Count(s[1..], c)
  }

  lemma {:induction false} CountConcat(a: string, b: string, c: char)
    ensures Count(a + b, c) == Count(a, c) + Count(b, c)
  {
    if |a| > 0 {
      CountConcat(a[1..], b, c);
      assert (a + b)[1..] == a[1..] + b;
    } else {
      assert a + b == b;
    }
  }

  /** Counting over a string that starts with `x`. */
  lemma CountCons(x: char, s: string, c: char)
    ensures Count([x] + s, c) == (if x == c then 1 else 0) + Count(s, c)
  {
    assert ([x] + s)[1..] == s;
  }

  /** The last index below `n` holding `c`, or -1. */
  function LastIndexBelow(s: string, c: char, n: nat): (i: int)
    requires n <= |s|
    ensures -1 <= i < n
    ensures 0 <= i ==> s[i] == c
    ensures forall j :: i < j < n ==> s[j] != c
  {
    if n == 0 then -1
    else if s[n - 1] == c then n - 1
    else LastIndexBelow(s, c, n - 1)
  }

  /** `s.lastIndexOf(c)`: -1 when `c` does not occur. */
  function LastIndexOf(s: string, c: char): (i: int)
    ensures -1 <= i < |s|
    ensures i == -1 <==> c !in s
    ensures 0 <= i ==> s[i] == c && c !in s[i + 1..]
  {
    LastIndexBelow(s, c, |s|)
  }

  /**
   `s.substringAfterLast(c)`: the longest suffix of `s` free of `c`; it is
   all of `s` when `c` does not occur, and is preceded by `c` otherwise.
   */
  function SubstringAfterLast(s: string, c: char): (r: string)
    ensures c !in r
    ensures |r| <= |s| && s[|s| - |r|..] == r
    ensures c !in s ==> r == s
    ensures c in s ==> |r| < |s| && s[|s| - |r| - 1] == c
  {
    var i := LastIndexOf(s, c);
    if i == -1 then s else s[i + 1..]
  }

  /** `s.substringBeforeLast(c)`: what precedes the last `c`, or all of `s`. */
  function SubstringBeforeLast(s: string, c: char): (r: string)
    ensures c !in s ==> r == s
    ensures c in s ==> s == r + [c] + SubstringAfterLast(s, c)
  {
    var i := LastIndexOf(s, c);
    if i == -1 then s
    else
      assert s == s[..i] + [c] + s[i + 1..];
      s[..i]
  }

  /** The part after the last delimiter is fixed by any decomposition `p + [c] + x` with `c` not in `x`. */
  lemma SubstringAfterLastOfSuffix(p: string, x: string, c: char)
    requires c !in x
    ensures SubstringAfterLast(p + [c] + x, c) == x
    ensures SubstringBeforeLast(p + [c] + x, c) == p
  {
    var s := p + [c] + x;
    assert s[|p|] == c;
    var r := SubstringAfterLast(s, c);
    assert |r| == |x|;
    assert r == s[|s| - |x|..] == x;
    var b := SubstringBeforeLast(s, c);
    assert s == b + [c] + x;
    assert b == s[..|p|] == p;
  }

  /** `s.replace(a, b)` on characters. */
  function ReplaceChar(s: string, a: char, b: char): (r: string)
    ensures |r| == |s|
    ensures forall i :: 0 <= i < |s| && s[i] == a ==> r[i] == b
    ensures forall i :: 0 <= i < |s| && s[i] != a ==> r[i] == s[i]
    ensures a != b ==> a !in r
  {
    if |s| == 0 then []
    else [if s[0] == a then b else s[0]] + ReplaceChar(s[1..], a, b)
  }

  /** Replacing `a` by a fresh `b` can be undone by replacing `b` by `a`. */
  lemma {:induction false} ReplaceCharInverse(s: string, a: char, b: char)
    requires b !in s
    ensures ReplaceChar(ReplaceChar(s, a, b), b, a) == s
  {
    if |s| > 0 {
      ReplaceCharInverse(s[1..], a, b);
      assert ReplaceChar(s, a, b) == [if s[0] == a then b else s[0]] + ReplaceChar(s[1..], a, b);
    }
  }

  /** The inverse of `Split`: the parts glued back with the delimiter. */
  function Join(parts: seq<string>, d: char): string
    requires |parts| >= 1
  {
    if |parts| == 1 then parts[0] else parts[0] + [d] + Join(parts[1..], d)
  }

  /**
   `s.split(d)`: every maximal run of non-delimiter characters, empty ones
   included, so the number of parts is one more than the number of delimiters.
   */
  function Split(s: string, d: char): (parts: seq<string>)
    ensures |parts| >= 1
  {
    if |s| == 0 then [""]
    else
      var rest := Split(s[1..], d);
      if s[0] == d then [""] + rest
      else [[s[0]] + rest[0]] + rest[1..]
  }

  /** There is one more part than there are delimiters. */
  lemma {:induction false} SplitCount(s: string, d: char)
    ensures |Split(s, d)| == Count(s, d) + 1
  {
    if |s| > 0 {
      SplitCount(s[1..], d);
    }
  }

  /** No part holds the delimiter, and gluing the parts back yields `s`. */
  lemma {:induction false} SplitSpec(s: string, d: char)
    ensures forall i :: 0 <= i < |Split(s, d)| ==> d !in Split(s, d)[i]
    ensures Join(Split(s, d), d) == s
  {
    if |s| > 0 {
      SplitSpec(s[1..], d);
      var rest := Split(s[1..], d);
      assert s == [s[0]] + s[1..];
      if s[0] == d {
        assert Join([""] + rest, d) == [d] + Join(rest, d);
      } else {
        var parts := [[s[0]] + rest[0]] + rest[1..];
        if |rest| > 1 {
          assert parts[1..] == rest[1..];
          assert Join(rest, d) == rest[0] + [d] + Join(rest[1..], d);
        }
        assert Join(parts, d) == [s[0]] + Join(rest, d);
      }
    }
  }

  /** Without a delimiter there is a single part, the whole string. */
  lemma SplitWithoutDelimiter(s: string, d: char)
    requires d !in s
    ensures Split(s, d) == [s]
  {
    SplitCount(s, d);
    SplitSpec(s, d);
  }

  lemma {:induction false} SplitAfterFirstDelimiter(a: string, rest: string, d: char)
    requires d !in a
    ensures Split(a + [d] + rest, d) == [a] + Split(rest, d)
  {
    if |a| == 0 {
      assert a + [d] + rest == [d] + rest;
      assert ([d] + rest)[1..] == rest;
    } else {
      SplitAfterFirstDelimiter(a[1..], rest, d);
      var s := a + [d] + rest;
      assert s[0] == a[0] != d;
      assert s[1..] == a[1..] + [d] + rest;
      var r := Split(s[1..], d);
      assert r == [a[1..]] + Split(rest, d);
      assert Split(s, d) == [[a[0]] + r[0]] + r[1..];
      assert [a[0]] + a[1..] == a;
    }
  }

  /** `Split` undoes `Join` whenever no part holds the delimiter. */
  lemma {:induction false} SplitJoin(parts: seq<string>, d: char)
    requires |parts| >= 1
    requires forall i :: 0 <= i < |parts| ==> d !in parts[i]
    ensures Split(Join(parts, d), d) == parts
  {
    if |parts| == 1 {
      SplitWithoutDelimiter(parts[0], d);
    } else {
      SplitJoin(parts[1..], d);
      SplitAfterFirstDelimiter(parts[0], Join(parts[1..], d), d);
    }
  }

  /** The delimiters of `p + [d] + x`: those of `p`, the one between, and those of `x`. */
  lemma CountAround(p: string, x: string, d: char)
    ensures Count(p + [d] + x, d) == Count(p, d) + 1 + Count(x, d)
  {
    assert p + [d] + x == p + ([d] + x);
    CountConcat(p, [d] + x, d);
    CountCons(d, x, d);
  }

  /** A string that splits into two parts is the first part, the delimiter, then the second. */
  lemma SplitPair(s: string, d: char)
    requires |Split(s, d)| == 2
    ensures var parts := Split(s, d);
      s == parts[0] + [d] + parts[1] && d !in parts[0] && d !in parts[1]
  {
    var parts := Split(s, d);
    SplitSpec(s, d);
    assert parts[1..] == [parts[1]];
  }

  /** A string with exactly one delimiter splits into what precedes and what follows it. */
  lemma SplitAtSingleDelimiter(s: string, d: char)
    requires Count(s, d) == 1
    ensures Split(s, d) == [SubstringBeforeLast(s, d), SubstringAfterLast(s, d)]
  {
    var b, x := SubstringBeforeLast(s, d), SubstringAfterLast(s, d);
    assert s == b + [d] + x;
    CountAround(b, x, d);
    SplitAfterFirstDelimiter(b, x, d);
    SplitWithoutDelimiter(x, d);
  }
}
