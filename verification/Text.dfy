/** Character classes and scans shared by the JSON and HTTP components. */
module Text {

  /** `std::isspace` in the C locale: space, \t, \n, \v, \f and \r. */
  predicate IsSpace(c: char) { c == ' ' || '\t' <= c <= '\r' }

  /** `std::isdigit`. */
  predicate IsDigit(c: char) { '0' <= c <= '9' }

  /** `std::isalpha` in the C locale. */
  predicate IsAlpha(c: char) { 'a' <= c <= 'z' || 'A' <= c <= 'Z' }

  /** The characters of each class, one by one. */
  lemma ClassesAre(c: char)
    ensures IsSpace(c) <==> c == ' ' || c == '\t' || c == '\n' || c as int == 11 || c as int == 12 || c == '\r'
    ensures IsDigit(c) <==> c in "0123456789"
    ensures IsAlpha(c) <==> InAlphabet(c)
  {
    if IsDigit(c) { assert "0123456789"[c as int - '0' as int] == c; }
    AlphaIs(c);
  }

  /** A letter of the alphabet, in either case. */
  ghost predicate InAlphabet(c: char) {
    exists k :: 0 <= k < 26 && (c == LOWER[k] || c == UPPER[k])
  }

  lemma AlphaIs(c: char)
    ensures IsAlpha(c) <==> InAlphabet(c)
  {
    forall k | 0 <= k < 26 ensures UPPER[k] as int == 'A' as int + k && LOWER[k] as int == 'a' as int + k {
      LettersAt(k);
    }
    if 'a' <= c <= 'z' { assert LOWER[c as int - 'a' as int] == c; }
    if 'A' <= c <= 'Z' { assert UPPER[c as int - 'A' as int] == c; }
  }

  const UPPER := "ABCDEFGHIJKLMNOPQRSTUVWXYZ"
  const LOWER := "abcdefghijklmnopqrstuvwxyz"

  lemma LettersAt(k: nat)
    requires k < 26
    ensures UPPER[k] as int == 'A' as int + k && LOWER[k] as int == 'a' as int + k
  {}

  /** `r` is what is left of `s` after removing some prefix. */
  ghost predicate Suffix<T>(r: seq<T>, s: seq<T>) {
    |r| <= |s| && r == s[|s| - |r|..]
  }

  /** `s` without its leading white space. */
  function Skip(s: string): (r: string)
    ensures |r| <= |s|
    ensures r == "" || !IsSpace(r[0])
  {
    if s != "" && IsSpace(s[0]) then Skip(s[1..]) else s
  }

  /** Length of the longest prefix of `s` whose characters all satisfy `p`. */
  function Run(s: string, p: char -> bool): (n: nat)
    ensures n <= |s|
    ensures forall i | 0 <= i < n :: p(s[i])
    ensures n == |s| || !p(s[n])
  {
    if s != "" && p(s[0]) then 1 + Run(s[1..], p) else 0
  }

  /** Index of the first `c` in `s`, or `|s|` when there is none. */
  function IndexOf<T(==)>(s: seq<T>, c: T): (n: nat)
    ensures n <= |s|
    ensures c !in s[..n]
    ensures n == |s| || s[n] == c
  {
    if s != [] && s[0] != c then
      assert s[..1 + IndexOf(s[1..], c)] == [s[0]] + s[1..][..IndexOf(s[1..], c)];
      1 + IndexOf(s[1..], c)
    else 0
  }

  lemma SuffixTrans<T>(a: seq<T>, b: seq<T>, c: seq<T>)
    requires Suffix(a, b) && Suffix(b, c)
    ensures Suffix(a, c)
  {}

  lemma Regroup(a: string, b: string, c: string, d: string, e: string)
    ensures (a + (b + (c + d))) + e == a + (b + (c + (d + e)))
  {}

  /** A bracketed text in front of `r`, seen from its opening bracket. */
  lemma Enclosed(open: string, body: string, w: string, close: string, r: string)
    requires |open| == 1
    ensures (open + body + w + close + r)[0] == open[0]
    ensures (open + body + w + close + r)[1..] == body + (w + (close + r))
  {}

  /** A slice of a slice is a slice. */
  lemma Slices(s: string, first: nat, last: nat, i: nat, j: nat)
    requires first <= last <= |s| && i <= j <= last - first
    ensures s[first..last][i..j] == s[first + i..first + j]
    ensures s[first..last][i..] == s[first + i..last] && s[first..last][..j] == s[first..first + j]
  {
    assert forall k | 0 <= k < j - i :: s[first..last][i..j][k] == s[first + i..first + j][k];
  }

  ghost predicate AllSpace(w: string) { forall i | 0 <= i < |w| :: IsSpace(w[i]) }

  /** The scan that stops at the end of `a` stops there in any `a + b` that goes on with another kind of character. */
  lemma {:induction false} RunOfPrefix(a: string, b: string, p: char -> bool)
    requires forall i | 0 <= i < |a| :: p(a[i])
    requires b == "" || !p(b[0])
    ensures Run(a + b, p) == |a|
  {
    if a == "" {
      assert a + b == b;
    } else {
      assert (a + b)[1..] == a[1..] + b;
      RunOfPrefix(a[1..], b, p);
    }
  }

  lemma {:induction false} IndexOfPrefix<T>(a: seq<T>, b: seq<T>, c: T)
    requires c !in a
    ensures IndexOf(a + [c] + b, c) == |a|
  {
    if a != [] {
      assert (a + [c] + b)[1..] == a[1..] + [c] + b;
      IndexOfPrefix(a[1..], b, c);
    }
  }

  lemma {:induction false} IndexOfAbsent<T>(a: seq<T>, c: T)
    requires c !in a
    ensures IndexOf(a, c) == |a|
  {
    if a != [] { IndexOfAbsent(a[1..], c); }
  }

  lemma {:induction false} SkipIsSuffix(s: string)
    ensures Suffix(Skip(s), s)
  {
    if s != "" && IsSpace(s[0]) { SkipIsSuffix(s[1..]); }
  }

  /** White space in front of a text is invisible to `Skip`. */
  lemma {:induction false} SkipPast(w: string, s: string)
    requires AllSpace(w)
    ensures Skip(w + s) == Skip(s)
  {
    if w == "" {
      assert w + s == s;
    } else {
      assert (w + s)[1..] == w[1..] + s;
      SkipPast(w[1..], s);
    }
  }
}
