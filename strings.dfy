/**
 * The handful of JavaScript string operations the client relies on:
 * `trim`, `split` on one character, `join`, `startsWith`/`endsWith`,
 * a global literal `replace`, and the truthiness of strings in `a || b`.
 * Strings are sequences of characters.
 */
module Strings {
  import opened Wrappers

  // ---------------------------------------------------------------------
  // Character classes (ECMA-262 WhiteSpace and LineTerminator)
  // ---------------------------------------------------------------------

  /** The characters a regular-expression `.` does not match. */
  predicate IsLineTerminator(c: char) {
    c == '\n' || c == '\r' || c == '\U{2028}' || c == '\U{2029}'
  }

  /** The characters `\s` matches and `String.prototype.trim` strips. */
  predicate IsWhitespace(c: char) {
    || IsLineTerminator(c)
    || c == ' ' || c == '\t' || c == '\U{000B}' || c == '\U{000C}'
    || c == '\U{00A0}' || c == '\U{1680}' || ('\U{2000}' <= c <= '\U{200A}')
    || c == '\U{202F}' || c == '\U{205F}' || c == '\U{3000}' || c == '\U{FEFF}'
  }

  ghost predicate AllWhitespace(s: string) {
    forall k :: 0 <= k < |s| ==> IsWhitespace(s[k])
  }

  /** Neither end of `s` is whitespace: what `trim` returns. */
  predicate IsTrimmed(s: string) {
    s == [] || (!IsWhitespace(s[0]) && !IsWhitespace(s[|s| - 1]))
  }

  // ---------------------------------------------------------------------
  // trim
  // ---------------------------------------------------------------------

  /** The length of the whitespace run at the start of `s`. */
  function LeadingWhitespace(s: string): (n: nat)
    ensures n <= |s| && AllWhitespace(s[..n])
    ensures n < |s| ==> !IsWhitespace(s[n])
    decreases |s|
  {
    if s != [] && IsWhitespace(s[0]) then
      var n := 1 + LeadingWhitespace(s[1..]);
      assert s[..n] == [s[0]] + s[1..][..n - 1];
      n
    else 0
  }

  /** Where the whitespace run at the end of `s` starts. */
  function TrailingWhitespace(s: string): (m: nat)
    ensures m <= |s| && AllWhitespace(s[m..])
    ensures m > 0 ==> !IsWhitespace(s[m - 1])
    decreases |s|
  {
    if s != [] && IsWhitespace(s[|s| - 1]) then
      var m := TrailingWhitespace(s[..|s| - 1]);
      assert s[m..] == s[..|s| - 1][m..] + [s[|s| - 1]];
      m
    else |s|
  }

  /** `s.trim()`: `s` without its leading and trailing whitespace. */
  function Trim(s: string): (r: string)
    ensures IsTrimmed(r) && |r| <= |s|
    ensures r == [] <==> AllWhitespace(s)
  {
    var i := LeadingWhitespace(s);
    if i == |s| then
      assert s[..i] == s;
      []
    else
      var j := TrailingWhitespace(s);
      assert i < j;
      assert !AllWhitespace(s) by { assert !IsWhitespace(s[i]); }
      s[i..j]
  }

  /** Surrounding a trimmed string with whitespace does not change what `trim` finds. */
  lemma TrimPadded(w1: string, x: string, w2: string)
    requires AllWhitespace(w1) && AllWhitespace(w2) && IsTrimmed(x)
    ensures Trim(w1 + x + w2) == x
  {
    var s := w1 + x + w2;
    if x == [] {
      assert AllWhitespace(s) by {
        forall k | 0 <= k < |s| ensures IsWhitespace(s[k]) {
          if k < |w1| { assert s[k] == w1[k]; } else { assert s[k] == w2[k - |w1|]; }
        }
      }
    } else {
      var i := LeadingWhitespace(s);
      var j := TrailingWhitespace(s);
      assert s[|w1|] == x[0];
      assert i == |w1|;
      assert s[|w1| + |x| - 1] == x[|x| - 1];
      assert j == |w1| + |x|;
      assert s[i..j] == x;
    }
  }

  /** The leading run ends at `p` when everything before `p` is whitespace and `s[p]` is not. */
  lemma LeadingWhitespaceAt(s: string, p: nat)
    requires p <= |s| && (forall k :: 0 <= k < p ==> IsWhitespace(s[k]))
    requires p < |s| ==> !IsWhitespace(s[p])
    ensures LeadingWhitespace(s) == p
  {
    var n := LeadingWhitespace(s);
  }

  /** The trailing run starts at `q` when everything from `q` on is whitespace and `s[q - 1]` is not. */
  lemma TrailingWhitespaceAt(s: string, q: nat)
    requires q <= |s| && (forall k :: q <= k < |s| ==> IsWhitespace(s[k]))
    requires q > 0 ==> !IsWhitespace(s[q - 1])
    ensures TrailingWhitespace(s) == q
  {
    var m := TrailingWhitespace(s);
  }

  /** `trim` returns the part between the whitespace runs at both ends. */
  lemma TrimAt(s: string, p: nat, q: nat)
    requires p < q <= |s|
    requires forall k :: 0 <= k < p ==> IsWhitespace(s[k])
    requires forall k :: q <= k < |s| ==> IsWhitespace(s[k])
    requires !IsWhitespace(s[p]) && !IsWhitespace(s[q - 1])
    ensures Trim(s) == s[p..q]
  {
    LeadingWhitespaceAt(s, p);
    TrailingWhitespaceAt(s, q);
  }

  lemma SliceOfSuffix<T>(s: seq<T>, d: nat, a: nat, b: nat)
    requires a <= b && d + b <= |s|
    ensures s[d..][a..b] == s[d + a..d + b]
  {
  }

  /** Dropping whitespace from the front does not change what `trim` returns. */
  lemma TrimDropWhitespace(s: string, d: nat)
    requires d <= |s| && forall k :: 0 <= k < d ==> IsWhitespace(s[k])
    ensures Trim(s[d..]) == Trim(s)
  {
    var v := s[d..];
    var a := LeadingWhitespace(v);
    if a == |v| {
      assert AllWhitespace(s) by {
        forall k | d <= k < |s| ensures IsWhitespace(s[k]) {
          assert s[k] == v[..a][k - d];
        }
      }
      assert v[..a] == v;
      assert Trim(v) == [] && Trim(s) == [];
    } else {
      var b := TrailingWhitespace(v);
      assert Trim(v) == v[a..b];
      forall k | 0 <= k < d + a ensures IsWhitespace(s[k]) {
        if d <= k { assert s[k] == v[..a][k - d]; }
      }
      forall k | d + b <= k < |s| ensures IsWhitespace(s[k]) {
        assert s[k] == v[b..][k - d - b];
      }
      TrimAt(s, d + a, d + b);
      SliceOfSuffix(s, d, a, b);
      assert Trim(s) == Trim(v);
    }
  }

  lemma TrimOfTrimmed(x: string)
    requires IsTrimmed(x)
    ensures Trim(x) == x
  {
    TrimPadded([], x, []);
    assert [] + x + [] == x;
  }

  // ---------------------------------------------------------------------
  // split and join
  // ---------------------------------------------------------------------

  /** `xs.join(sep)`: the items with `sep` between neighbours; `[].join(sep)` is empty. */
  function Join(xs: seq<string>, sep: string): string
    decreases |xs|
  {
    if xs == [] then []
    else if |xs| == 1 then xs[0]
    else xs[0] + sep + Join(xs[1..], sep)
  }

  /** `s.split(c)` for a one-character separator: the maximal `c`-free pieces, in order. */
  function Split(s: string, c: char): (r: seq<string>)
    ensures |r| >= 1
    ensures forall k :: 0 <= k < |r| ==> c !in r[k]
    ensures Join(r, [c]) == s
    decreases |s|
  {
    if s == [] then [[]]
    else
      var rest := Split(s[1..], c);
      if s[0] == c then
        assert s == [c] + s[1..];
        [[]] + rest
      else
        var r := [[s[0]] + rest[0]] + rest[1..];
        assert r[1..] == rest[1..];
        assert s == [s[0]] + s[1..];
        r
  }

  /** Splitting what `Join` built gives the items back, when none holds the separator. */
  lemma {:induction false} SplitJoin(xs: seq<string>, c: char)
    requires |xs| >= 1
    requires forall k :: 0 <= k < |xs| ==> c !in xs[k]
    ensures Split(Join(xs, [c]), c) == xs
    decreases |xs|
  {
    if |xs| == 1 {
      SplitFree(xs[0], c);
    } else {
      SplitJoin(xs[1..], c);
      SplitPrefix(xs[0], Join(xs[1..], [c]), c);
    }
  }

  lemma {:induction false} SplitFree(s: string, c: char)
    requires c !in s
    ensures Split(s, c) == [s]
    decreases |s|
  {
    if s != [] {
      SplitFree(s[1..], c);
      assert s == [s[0]] + s[1..];
    }
  }

  /** A separator-free piece followed by the separator becomes its own item. */
  lemma {:induction false} SplitPrefix(x: string, t: string, c: char)
    requires c !in x
    ensures Split(x + [c] + t, c) == [x] + Split(t, c)
    decreases |x|
  {
    var s := x + [c] + t;
    if x == [] {
      assert s[1..] == t;
    } else {
      assert s[1..] == x[1..] + [c] + t;
      SplitPrefix(x[1..], t, c);
      assert [x[0]] + x[1..] == x;
    }
  }

  // ---------------------------------------------------------------------
  // prefixes, suffixes, occurrences
  // ---------------------------------------------------------------------

  predicate StartsWith(s: string, p: string) {
    |p| <= |s| && s[..|p|] == p
  }

  predicate EndsWith(s: string, p: string) {
    |p| <= |s| && s[|s| - |p|..] == p
  }

  /** `p` occurs in `s` starting at index `i`. */
  ghost predicate OccursAt(s: string, p: string, i: int) {
    0 <= i && i + |p| <= |s| && s[i..i + |p|] == p
  }

  ghost predicate Contains(s: string, p: string) {
    exists i :: OccursAt(s, p, i)
  }

  /**
   * `s.replace(new RegExp(p, 'g'), r)` for a pattern that matches only the
   * literal text `p` and a replacement with no `$` patterns: every leftmost,
   * non-overlapping occurrence of `p`, scanning left to right, becomes `r`.
   */
  function ReplaceAll(s: string, p: string, r: string): string
    requires p != []
    decreases |s|
  {
    if |s| < |p| then s
    else if s[..|p|] == p then r + ReplaceAll(s[|p|..], p, r)
    else [s[0]] + ReplaceAll(s[1..], p, r)
  }

  /** A suffix of a text that lacks `q` lacks it too. */
  lemma AbsentFromSuffix(s: string, q: string, d: nat)
    requires d <= |s| && !Contains(s, q)
    ensures !Contains(s[d..], q)
  {
    forall i | 0 <= i && i + |q| <= |s| - d ensures !OccursAt(s[d..], q, i) {
      assert s[d..][i..i + |q|] == s[d + i..d + i + |q|];
      assert !OccursAt(s, q, d + i);
    }
  }

  /** When `p` does not occur, the global replace returns the text unchanged. */
  lemma {:induction false} ReplaceAllAbsent(s: string, p: string, r: string)
    requires p != [] && !Contains(s, p)
    ensures ReplaceAll(s, p, r) == s
    decreases |s|
  {
    if |s| >= |p| {
      assert !OccursAt(s, p, 0);
      AbsentFromSuffix(s, p, 1);
      ReplaceAllAbsent(s[1..], p, r);
      assert s == [s[0]] + s[1..];
    }
  }

  /** Concatenation regroups freely; stated once so that long texts need not be compared character by character. */
  lemma AppendAssoc<T>(a: seq<T>, b: seq<T>, c: seq<T>)
    ensures (a + b) + c == a + (b + c)
  {
  }

  // ---------------------------------------------------------------------
  // JavaScript truthiness
  // ---------------------------------------------------------------------

  /** A string-or-missing value is truthy when present and non-empty. */
  predicate Truthy(o: Option<string>) {
    o.Some? && o.value != []
  }

  /** `a || b` for a string-or-missing `a` and a string `b`. */
  function Or(a: Option<string>, b: string): (r: string)
    ensures Truthy(a) ==> r == a.value
    ensures !Truthy(a) ==> r == b
  {
    if Truthy(a) then a.value else b
  }
}
