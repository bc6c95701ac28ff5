/**
 * String helpers with Python's meaning: code-point lexicographic order,
 * ASCII lower-casing, substring search, `sep.join` and zero-padded
 * decimal formatting (`f"{n:0Wd}"`).
 */
module Strings {
  /** `a < b` on Python strings: lexicographic by code point, a proper prefix first. */
  predicate Less(a: string, b: string)
    decreases |a|
  {
    |b| > 0 && (|a| == 0 || a[0] < b[0] || (a[0] == b[0] && Less(a[1..], b[1..])))
  }

  lemma {:induction false} LessIrreflexive(a: string)
    ensures !Less(a, a)
    decreases |a|
  {
    if |a| > 0 { LessIrreflexive(a[1..]); }
  }

  lemma {:induction false} LessTransitive(a: string, b: string, c: string)
    requires Less(a, b) && Less(b, c)
    ensures Less(a, c)
    decreases |a|
  {
    if |a| > 0 && a[0] == b[0] && b[0] == c[0] {
      LessTransitive(a[1..], b[1..], c[1..]);
    }
  }

  lemma {:induction false} LessTotal(a: string, b: string)
    ensures a == b || Less(a, b) || Less(b, a)
    decreases |a|
  {
    if |a| > 0 && |b| > 0 && a[0] == b[0] {
      LessTotal(a[1..], b[1..]);
      if a[1..] == b[1..] {
        assert a == [a[0]] + a[1..] && b == [b[0]] + b[1..];
      }
    }
  }

  lemma {:induction false} LessAsymmetric(a: string, b: string)
    requires Less(a, b)
    ensures !Less(b, a)
    decreases |a|
  {
    if |a| > 0 && a[0] == b[0] {
      LessAsymmetric(a[1..], b[1..]);
    }
  }

  /** `str.lower()` on ASCII letters; other characters are unchanged. */
  function LowerChar(c: char): char {
    if 'A' <= c <= 'Z' then (c as int + 32) as char else c
  }

  function Lower(s: string): (r: string)
    ensures |r| == |s|
    ensures forall i :: 0 <= i < |s| ==> r[i] == LowerChar(s[i])
  {
    if |s| == 0 then [] else [LowerChar(s[0])] + Lower(s[1..])
  }

  predicate IsPrefix(p: string, s: string) {
    |p| <= |s| && s[..|p|] == p
  }

  /** `sub in s`. */
  predicate Contains(s: string, sub: string)
    decreases |s|
  {
    IsPrefix(sub, s) || (|s| > 0 && Contains(s[1..], sub))
  }

  lemma {:induction false} ContainsAt(s: string, sub: string, k: nat)
    requires k + |sub| <= |s| && s[k..k + |sub|] == sub
    ensures Contains(s, sub)
    decreases k
  {
    if k > 0 {
      assert s[1..][k - 1..k - 1 + |sub|] == s[k..k + |sub|];
      ContainsAt(s[1..], sub, k - 1);
    }
  }

  /** A string contains each of its middle parts. */
  lemma ContainsMiddle(a: string, b: string, c: string)
    ensures Contains(a + b + c, b)
  {
    assert (a + b + c)[|a|..|a| + |b|] == b;
    ContainsAt(a + b + c, b, |a|);
  }

  /** `sep.join(parts)`. */
  function Join(parts: seq<string>, sep: string): string {
    if |parts| == 0 then ""
    else if |parts| == 1 then parts[0]
    else parts[0] + sep + Join(parts[1..], sep)
  }

  /** A joined text starts with its first part. */
  lemma JoinStartsWithFirst(parts: seq<string>, sep: string)
    requires |parts| > 0
    ensures |parts[0]| <= |Join(parts, sep)| && Join(parts, sep)[..|parts[0]|] == parts[0]
  {
    if |parts| > 1 {
      assert Join(parts, sep) == parts[0] + (sep + Join(parts[1..], sep));
    }
  }

  function DigitChar(d: nat): char
    requires d < 10
  {
    (48 + d) as char
  }

  /**
   * `f"{n:0{width}d}"`: the decimal digits of `n`, left-padded with zeros to
   * at least `width` characters.
   */
  function PadNum(n: nat, width: nat): (s: string)
    ensures |s| >= 1 && |s| >= width
    ensures forall i :: 0 <= i < |s| ==> '0' <= s[i] <= '9'
    decreases n + width
  {
    if n < 10 && width <= 1 then [DigitChar(n)]
    else PadNum(n / 10, if width > 0 then width - 1 else 0) + [DigitChar(n % 10)]
  }

  /** Distinct counters give distinct padded ids. */
  lemma {:induction false} PadNumInjective(n: nat, m: nat, width: nat)
    requires PadNum(n, width) == PadNum(m, width)
    ensures n == m
    decreases n + width
  {
    var s := PadNum(n, width);
    var last := |s| - 1;
    if n < 10 && width <= 1 {
      assert DigitChar(n) == DigitChar(m);
    } else {
      var w' := if width > 0 then width - 1 else 0;
      assert PadNum(m, width) == PadNum(m / 10, w') + [DigitChar(m % 10)];
      assert s[..last] == PadNum(n / 10, w') && s[..last] == PadNum(m / 10, w');
      assert DigitChar(n % 10) == s[last] == DigitChar(m % 10);
      PadNumInjective(n / 10, m / 10, w');
    }
  }

  /** Splitting at the first separator: two strings glued with `c` agree when neither head contains `c`. */
  lemma SplitAtSeparator(a: string, b: string, a': string, b': string, c: char)
    requires c !in a && c !in a'
    requires a + [c] + b == a' + [c] + b'
    ensures a == a' && b == b'
  {
    var s := a + [c] + b;
    assert s[|a|] == c && s[|a'|] == c;
    assert forall i :: 0 <= i < |a'| ==> s[i] == a'[i];
    assert forall i :: 0 <= i < |a| ==> s[i] == a[i];
    assert a == s[..|a|] == a';
    assert b == s[|a| + 1..] == b';
  }
}
