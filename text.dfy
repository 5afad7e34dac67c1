/** The string built-ins the core relies on: `toLowerCase` (and SQLite's ASCII case
    folding in LIKE), `includes`, `replace` with a one-character pattern, `trim`, `join`,
    and the decimal rendering of a non-negative integer in a template string. */
module Text {
  import Collections

  /** ASCII lower-casing of one character. */
  function Lower(c: char): char {
    if 'A' <= c <= 'Z' then (c as int + 32) as char else c
  }

  function LowerStr(s: string): (r: string)
    ensures |r| == |s|
    ensures forall i :: 0 <= i < |s| ==> r[i] == Lower(s[i])
  {
    seq(|s|, i requires 0 <= i < |s| => Lower(s[i]))
  }

  /** `s.includes(q)`: `q` occurs in `s` as a contiguous block. */
  predicate Contains(s: string, q: string) {
    q <= s || (s != [] && Contains(s[1..], q))
  }

  lemma {:induction false} ContainsAt(s: string, q: string, i: nat)
    requires i + |q| <= |s| && s[i..i + |q|] == q
    ensures Contains(s, q)
  {
    if i > 0 {
      assert s[1..][i - 1..i - 1 + |q|] == s[i..i + |q|];
      ContainsAt(s[1..], q, i - 1);
    } else {
      assert q <= s;
    }
  }

  lemma {:induction false} ContainsWitness(s: string, q: string) returns (i: nat)
    requires Contains(s, q)
    ensures i + |q| <= |s| && s[i..i + |q|] == q
  {
    if q <= s {
      i := 0;
    } else {
      var k := ContainsWitness(s[1..], q);
      assert s[1..][k..k + |q|] == s[k + 1..k + 1 + |q|];
      i := k + 1;
    }
  }

  /** Every part of a concatenation is contained in it. */
  lemma ContainsInMiddle(a: string, b: string, c: string)
    ensures Contains(a + b + c, b)
  {
    assert (a + b + c)[|a|..|a| + |b|] == b;
    ContainsAt(a + b + c, b, |a|);
  }

  /** Position of the first `c` in `s`, or `|s|` when there is none. */
  function IndexOfChar(s: string, c: char): (i: nat)
    ensures i <= |s|
    ensures i < |s| ==> s[i] == c
    ensures forall k :: 0 <= k < i ==> s[k] != c
  {
    if s == [] then 0
    else if s[0] == c then 0
    else 1 + IndexOfChar(s[1..], c)
  }

  /** `s.replace(c, rep)` with a one-character string pattern: only the first occurrence
      of `c` is replaced. */
  function ReplaceFirst(s: string, c: char, rep: string): string {
    var i := IndexOfChar(s, c);
    if i == |s| then s else s[..i] + rep + s[i + 1..]
  }

  lemma ReplaceFirstSpec(s: string, c: char, rep: string)
    ensures c !in s ==> ReplaceFirst(s, c, rep) == s
    ensures c in s ==>
      var i := IndexOfChar(s, c);
      i < |s| && c !in s[..i] && ReplaceFirst(s, c, rep) == s[..i] + rep + s[i + 1..]
  {
    if c in s {
      var k :| 0 <= k < |s| && s[k] == c;
      assert IndexOfChar(s, c) <= k;
    }
  }

  /** In `p + [c] + q` with no `c` in `p`, the first `c` is the one right after `p`. */
  lemma ReplaceFirstAfter(p: string, c: char, q: string, rep: string)
    requires c !in p
    ensures IndexOfChar(p + [c] + q, c) == |p|
    ensures ReplaceFirst(p + [c] + q, c, rep) == p + rep + q
  {
    var s := p + [c] + q;
    var i := IndexOfChar(s, c);
    assert s[|p|] == c;
    assert s[..i] == p && s[i + 1..] == q;
  }

  /** Replacing the first `c` takes one `c` out and puts the characters of `rep` in. */
  lemma ReplaceFirstCount(s: string, c: char, rep: string, x: char)
    requires c in s
    ensures multiset(ReplaceFirst(s, c, rep))[x] == multiset(s)[x] - (if x == c then 1 else 0) + multiset(rep)[x]
  {
    ReplaceFirstSpec(s, c, rep);
    var i := IndexOfChar(s, c);
    var a, b := s[..i], s[i + 1..];
    assert s == a + [c] + b;
    assert multiset(s)[x] == multiset(a)[x] + multiset([c])[x] + multiset(b)[x];
    assert multiset(a + rep + b)[x] == multiset(a)[x] + multiset(rep)[x] + multiset(b)[x];
  }

  function NotChar(c: char): char -> bool {
    d => d != c
  }

  /** `s.replace(/c/g, "")`: every occurrence of `c` is removed, the rest kept in order. */
  function RemoveAll(s: string, c: char): (r: string)
    ensures c !in r
    ensures forall d :: d in s && d != c ==> d in r
    ensures forall d :: d != c ==> multiset(r)[d] == multiset(s)[d]
    ensures Collections.IsSubsequence(r, s)
  {
    Collections.WhereCounts(s, NotChar(c));
    Collections.Where(s, NotChar(c))
  }

  lemma RemoveAllAppend(a: string, b: string, c: char)
    ensures RemoveAll(a + b, c) == RemoveAll(a, c) + RemoveAll(b, c)
  {
    Collections.WhereAppend(a, b, NotChar(c));
  }

  /** A text without `c` is left as it is. */
  lemma RemoveAllAbsent(s: string, c: char)
    requires c !in s
    ensures RemoveAll(s, c) == s
  {
    Collections.WhereKeepsAll(s, NotChar(c));
  }

  /** The characters `String.prototype.trim` strips: ECMAScript WhiteSpace (tab, vertical
      tab, form feed, the byte order mark and the Unicode space separators) and
      LineTerminator. */
  predicate IsWhitespace(c: char) {
    c == '\t' || c == '\n' || c == '\U{B}' || c == '\U{C}' || c == '\r' || c == ' '
    || c == '\U{A0}' || c == '\U{1680}' || ('\U{2000}' <= c <= '\U{200A}')
    || c == '\U{2028}' || c == '\U{2029}' || c == '\U{202F}' || c == '\U{205F}'
    || c == '\U{3000}' || c == '\U{FEFF}'
  }

  function TrimStart(s: string): string {
    if s != [] && IsWhitespace(s[0]) then TrimStart(s[1..]) else s
  }

  function TrimEnd(s: string): string {
    if s != [] && IsWhitespace(s[|s| - 1]) then TrimEnd(s[..|s| - 1]) else s
  }

  /** `s.trim()`. */
  function Trim(s: string): string {
    TrimEnd(TrimStart(s))
  }

  lemma {:induction false} TrimStartSpec(s: string) returns (i: nat)
    ensures i <= |s| && TrimStart(s) == s[i..]
    ensures forall k :: 0 <= k < i ==> IsWhitespace(s[k])
    ensures i < |s| ==> !IsWhitespace(s[i])
  {
    if s != [] && IsWhitespace(s[0]) {
      var k := TrimStartSpec(s[1..]);
      i := k + 1;
      assert s[1..][k..] == s[i..];
    } else {
      i := 0;
    }
  }

  lemma {:induction false} TrimEndSpec(s: string) returns (j: nat)
    ensures j <= |s| && TrimEnd(s) == s[..j]
    ensures forall k :: j <= k < |s| ==> IsWhitespace(s[k])
    ensures 0 < j ==> !IsWhitespace(s[j - 1])
  {
    if s != [] && IsWhitespace(s[|s| - 1]) {
      j := TrimEndSpec(s[..|s| - 1]);
      assert s[..|s| - 1][..j] == s[..j];
    } else {
      j := |s|;
    }
  }

  /** `Trim(s)` is the block `s[i..j]` left after stripping whitespace from both ends. */
  lemma TrimSpec(s: string) returns (i: nat, j: nat)
    ensures i <= j <= |s| && Trim(s) == s[i..j]
    ensures forall k :: 0 <= k < i ==> IsWhitespace(s[k])
    ensures forall k :: j <= k < |s| ==> IsWhitespace(s[k])
    ensures i < j ==> !IsWhitespace(s[i]) && !IsWhitespace(s[j - 1])
  {
    i := TrimStartSpec(s);
    var t := s[i..];
    var e := TrimEndSpec(t);
    j := i + e;
    assert t[..e] == s[i..j];
    forall k | j <= k < |s|
      ensures IsWhitespace(s[k])
    {
      assert s[k] == t[k - i];
    }
    if i < j {
      assert s[i] == t[0] && s[j - 1] == t[e - 1];
    }
  }

  /** A text that neither starts nor ends with whitespace is its own trim. */
  lemma TrimUnchanged(s: string)
    requires s != [] && !IsWhitespace(s[0]) && !IsWhitespace(s[|s| - 1])
    ensures Trim(s) == s
  {
    var i, j := TrimSpec(s);
    assert s[0..|s|] == s;
  }

  /** `parts.join(sep)`. */
  function Join(parts: seq<string>, sep: string): string {
    if |parts| == 0 then ""
    else if |parts| == 1 then parts[0]
    else parts[0] + sep + Join(parts[1..], sep)
  }

  /** Every part appears in the joined text. */
  lemma {:induction false} JoinContainsEachPart(parts: seq<string>, sep: string, k: nat)
    requires k < |parts|
    ensures Contains(Join(parts, sep), parts[k])
  {
    if |parts| == 1 {
      ContainsInMiddle("", parts[0], "");
      assert "" + parts[0] + "" == parts[0];
    } else if k == 0 {
      ContainsInMiddle("", parts[0], sep + Join(parts[1..], sep));
      assert "" + parts[0] + (sep + Join(parts[1..], sep)) == Join(parts, sep);
    } else {
      JoinContainsEachPart(parts[1..], sep, k - 1);
      var pre := parts[0] + sep;
      assert Join(parts, sep) == pre + Join(parts[1..], sep);
      ContainsAfterPrefix(pre, Join(parts[1..], sep), parts[k]);
    }
  }

  /** Text found in `s` is still found once something is put in front of it. */
  lemma ContainsAfterPrefix(pre: string, s: string, p: string)
    requires Contains(s, p)
    ensures Contains(pre + s, p)
  {
    var i := ContainsWitness(s, p);
    var whole := pre + s;
    assert whole[|pre| + i..|pre| + i + |p|] == s[i..i + |p|];
    ContainsAt(whole, p, |pre| + i);
  }

  predicate IsDigit(c: char) {
    '0' <= c <= '9'
  }

  function DigitChar(d: nat): (c: char)
    requires d < 10
    ensures IsDigit(c) && c as int - '0' as int == d
  {
    ('0' as int + d) as char
  }

  /** The decimal text JavaScript produces for a non-negative integer. */
  function DecimalString(n: nat): (s: string)
    ensures |s| >= 1
    ensures forall i :: 0 <= i < |s| ==> IsDigit(s[i])
  {
    if n < 10 then [DigitChar(n)] else DecimalString(n / 10) + [DigitChar(n % 10)]
  }

  function DigitValue(c: char): nat
    requires IsDigit(c)
  {
    c as int - '0' as int
  }

  /** The number a string of decimal digits denotes. */
  function DigitsValue(s: string): nat
    requires forall i :: 0 <= i < |s| ==> IsDigit(s[i])
  {
    if s == [] then 0 else DigitsValue(s[..|s| - 1]) * 10 + DigitValue(s[|s| - 1])
  }

  lemma {:induction false} DecimalRoundTrip(n: nat)
    ensures DigitsValue(DecimalString(n)) == n
  {
    var s := DecimalString(n);
    if n >= 10 {
      DecimalRoundTrip(n / 10);
      assert s[..|s| - 1] == DecimalString(n / 10);
    }
  }

  function Pow10(k: nat): nat {
    if k == 0 then 1 else 10 * Pow10(k - 1)
  }

  /** A number with `k` decimal digits is written with exactly `k` characters. */
  lemma {:induction false} DecimalLength(n: nat, k: nat)
    requires 1 <= k && Pow10(k - 1) <= n < Pow10(k)
    ensures |DecimalString(n)| == k
  {
    if k > 1 {
      DecimalLength(n / 10, k - 1);
    }
  }
}
